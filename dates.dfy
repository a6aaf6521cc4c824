/** Calendar dates as `date.strftime('%d.%m.%Y')` prints them.

    The calendar itself (which date lies `i` days before today) is library
    arithmetic and stays abstract: callers pass a function from day ordinals to
    dates. What is modelled here is the text a date becomes, and the fact that
    this text determines the date. */
module Dates {
  import opened Outcomes

  datatype Date = Date(day: int, month: int, year: int)

  /** The range of fields a Python `date` can hold. */
  predicate ValidDate(d: Date) {
    1 <= d.day <= 31 && 1 <= d.month <= 12 && 1 <= d.year <= 9999
  }

  type CalendarDate = d: Date | ValidDate(d) witness Date(1, 1, 1)

  predicate IsDigit(c: char) {
    '0' <= c <= '9'
  }

  predicate AllDigits(s: string) {
    forall i :: 0 <= i < |s| ==> IsDigit(s[i])
  }

  function DigitChar(n: int): (c: char)
    requires 0 <= n < 10
    ensures IsDigit(c) && c as int - '0' as int == n
  {
    ('0' as int + n) as char
  }

  /** `%d` and `%m`: two digits, zero-padded. */
  function TwoDigits(n: int): (s: string)
    requires 0 <= n < 100
    ensures |s| == 2 && AllDigits(s)
  {
    [DigitChar(n / 10), DigitChar(n % 10)]
  }

  /** `%Y`: the year in decimal, unpadded, as glibc's `strftime` prints it.
      Python 3.13 and later pad years below 1000 to four digits instead; the
      two agree on every year from 1000 on, and so on every present-day
      date. */
  function Decimal(n: nat): (s: string)
    ensures 0 < |s| && AllDigits(s)
    ensures n < 10 <==> |s| == 1
    decreases n
  {
    if n < 10 then [DigitChar(n)] else Decimal(n / 10) + [DigitChar(n % 10)]
  }

  /** The text `DD.MM.YYYY` of a date. */
  function Format(d: CalendarDate): (s: string)
    ensures 7 <= |s| && s[2] == '.' && s[5] == '.'
    ensures s[..2] == TwoDigits(d.day) && s[3..5] == TwoDigits(d.month) && s[6..] == Decimal(d.year)
  {
    var dd, mm, yyyy := TwoDigits(d.day), TwoDigits(d.month), Decimal(d.year);
    var s := dd + "." + mm + "." + yyyy;
    assert s[..2] == dd && s[3..5] == mm && s[6..] == yyyy;
    s
  }

  /** The value of a string of decimal digits. */
  function Number(s: string): int
    decreases |s|
  {
    if |s| == 0 then 0 else 10 * Number(s[..|s| - 1]) + (s[|s| - 1] as int - '0' as int)
  }

  /** Reads `DD.MM.Y...` back into its three fields; `None` when the text does
      not have that shape. */
  function ParseDate(s: string): (d: Option<Date>)
    ensures d.Some? ==> 7 <= |s| && s[2] == '.' && s[5] == '.'
  {
    if 7 <= |s| && s[2] == '.' && s[5] == '.' && AllDigits(s[..2]) && AllDigits(s[3..5]) && AllDigits(s[6..])
    then Some(Date(Number(s[..2]), Number(s[3..5]), Number(s[6..])))
    else None
  }

  lemma {:induction false} NumberOfDecimal(n: nat)
    ensures Number(Decimal(n)) == n
    decreases n
  {
    if 10 <= n {
      var s := Decimal(n);
      assert s[..|s| - 1] == Decimal(n / 10);
      NumberOfDecimal(n / 10);
    }
  }

  lemma NumberOfTwoDigits(n: int)
    requires 0 <= n < 100
    ensures Number(TwoDigits(n)) == n
  {
    var s := TwoDigits(n);
    assert s[..1] == [DigitChar(n / 10)];
    assert s[..1][..0] == [];
    assert Number(s[..1]) == n / 10;
    assert Number(s) == 10 * (n / 10) + n % 10;
  }

  /** Parsing the printed text gives back the date. */
  lemma ParseFormat(d: CalendarDate)
    ensures ParseDate(Format(d)).Some? && ParseDate(Format(d)).value == d
  {
    NumberOfTwoDigits(d.day);
    NumberOfTwoDigits(d.month);
    NumberOfDecimal(d.year);
  }

  /** Two dates print alike only when they are the same date. */
  lemma FormatInjective(a: CalendarDate, b: CalendarDate)
    requires Format(a) == Format(b)
    ensures a == b
  {
    ParseFormat(a);
    ParseFormat(b);
  }
}
