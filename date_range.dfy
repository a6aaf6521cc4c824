/** `urls_for_days`: one request URL per day, today first, walking back one
    calendar day at a time. "Today" is a day ordinal (as `date.toordinal()`
    gives) and `calendar` maps an ordinal to its date; `today - i` is the
    ordinal of `current_date - timedelta(i)`. */
module DateRange {
  import opened Outcomes
  import opened Dates

  const Prefix := "https://api.privatbank.ua/p24api/exchange_rates?json&date="

  /** `range(int(days))` is empty for a count of zero or less. */
  function DayCount(days: int): nat {
    if days > 0 then days else 0
  }

  function UrlsForDays(days: int, today: int, calendar: int -> CalendarDate): (urls: seq<string>)
    ensures |urls| == DayCount(days)
    ensures forall i :: 0 <= i < |urls| ==> Prefix <= urls[i] && DateOfUrl(urls[i]) == Some(calendar(today - i))
  {
    var urls := seq(DayCount(days), i => Prefix + Format(calendar(today - i)));
    assert forall i :: 0 <= i < |urls| ==> urls[i][|Prefix|..] == Format(calendar(today - i));
    forall d: CalendarDate {
      ParseFormat(d);
    }
    urls
  }

  /** The date a request URL asks for: the text after the prefix, read back. */
  function DateOfUrl(url: string): Option<Date> {
    if Prefix <= url then ParseDate(url[|Prefix|..]) else None
  }

  /** Two URLs of a run coincide exactly when the calendar gives their days
      the same date. So no date is asked for twice given a calendar that
      gives the window's days distinct dates, as the real one does; the
      model does not assume that of `calendar`. */
  lemma UrlsEqualIffSameDate(days: int, today: int, calendar: int -> CalendarDate, i: nat, j: nat)
    requires i < DayCount(days) && j < DayCount(days)
    ensures UrlsForDays(days, today, calendar)[i] == UrlsForDays(days, today, calendar)[j] <==>
            calendar(today - i) == calendar(today - j)
  {
  }
}
