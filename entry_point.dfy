/** `main`: validation of the day count, the currency tuple, and the one
    exception it catches. The command line is given already split: the day
    argument is either the empty string or the number `int()` reads from it,
    and the remaining arguments are the extra currency codes. */
module EntryPoint {
  import opened Outcomes
  import opened DateRange
  import opened Aggregator
  import opened Orchestrator

  const Base: seq<string> := ["EUR", "USD"]

  const EnterDaysText := "Please, enter amount of days"
  const TooManyDaysText := "You cannot get currency rates for more then 10 days"
  const WrongValueText := "Wrong Value"

  /** `sys.argv[1]`: empty, or a count. */
  datatype DaysArg = Empty | Count(n: int)

  /** What `main` returns: a message, the list of entries, or an exception
      that nothing catches. */
  datatype RunResult = Text(text: string) | Table(entries: seq<Entry>) | Uncaught(error: PyError)

  /** The extra codes that are not in the base tuple, in their given order;
      duplicates among them are kept. */
  function Extras(codes: seq<string>): (kept: seq<string>)
    ensures forall c {:trigger multiset(kept)[c]} :: multiset(kept)[c] == if c in Base then 0 else multiset(codes)[c]
    decreases |codes|
  {
    if |codes| == 0 then []
    else
      assert codes == [codes[0]] + codes[1..];
      (if codes[0] in Base then [] else [codes[0]]) + Extras(codes[1..])
  }

  /** `Extras` keeps the order of the codes it keeps: it distributes over
      concatenation. */
  lemma {:induction false} ExtrasAppend(a: seq<string>, b: seq<string>)
    ensures Extras(a + b) == Extras(a) + Extras(b)
    decreases |a|
  {
    if |a| > 0 {
      var head := if a[0] in Base then [] else [a[0]];
      assert (a + b)[0] == a[0] && (a + b)[1..] == a[1..] + b;
      assert Extras(a + b) == head + Extras(a[1..] + b);
      ExtrasAppend(a[1..], b);
      assert Extras(a) == head + Extras(a[1..]);
    } else {
      assert a + b == b;
    }
  }

  /** The currency tuple: the base codes, then the extra arguments that are
      not base codes. Each base code occurs exactly once; every other code
      occurs as often as it was given. */
  function Currencies(extra: seq<string>): (codes: seq<string>)
    ensures |codes| == |Base| + |Extras(extra)|
    ensures codes[..|Base|] == Base && codes[|Base|..] == Extras(extra)
    ensures forall c {:trigger multiset(codes)[c]} :: c in Base ==> multiset(codes)[c] == 1
    ensures forall c {:trigger multiset(codes)[c]} :: c !in Base ==> multiset(codes)[c] == multiset(extra)[c]
  {
    var codes := if |extra| > 0 then Base + Extras(extra) else Base;
    assert codes == Base + Extras(extra);
    assert multiset(codes) == multiset(Base) + multiset(Extras(extra));
    codes
  }

  /** `main`, after the arguments are read. A count that passes validation
      runs `get_currency_rates` over the merged tuple: its list is returned
      as it is, its `ValueError` becomes "Wrong Value", and any other
      exception leaves `main` unchanged. */
  function Run(days: DaysArg, extra: seq<string>, world: World): (r: RunResult)
    ensures days.Empty? ==> r == Text(EnterDaysText)
    ensures days.Count? && days.n > 10 ==> r == Text(TooManyDaysText)
    ensures r.Table? ==> days.Count? && days.n <= 10 && |r.entries| == |Currencies(extra)|
    ensures days.Count? && days.n <= 10 ==>
      && (r.Table? <==> CurrencyRates(Currencies(extra), days.n, world).Ok?)
      && (r.Table? ==> r.entries == CurrencyRates(Currencies(extra), days.n, world).value)
      && (r == Text(WrongValueText) <==> CurrencyRates(Currencies(extra), days.n, world) == Err(ValueError))
      && (r.Uncaught? <==> CurrencyRates(Currencies(extra), days.n, world).Err? &&
                           CurrencyRates(Currencies(extra), days.n, world).error != ValueError)
      && (r.Uncaught? ==> r.error == CurrencyRates(Currencies(extra), days.n, world).error)
    ensures r.Uncaught? ==> r.error != ValueError && r.error != KeyError
  {
    match days
    case Empty => Text(EnterDaysText)
    case Count(n) =>
      if n > 10 then Text(TooManyDaysText)
      else
        var codes := Currencies(extra);
        CurrencyRatesAbort(codes, n, world, KeyError);
        match CurrencyRates(codes, n, world)
        case Ok(entries) => Table(entries)
        case Err(e) => if e == ValueError then Text(WrongValueText) else Uncaught(e)
  }

  /** A count of zero or less passes validation: no day is fetched, and every
      currency gets the not-found string. */
  lemma NonPositiveCountNotFound(n: int, extra: seq<string>, world: World)
    requires n <= 0
    ensures Run(Count(n), extra, world) == Table(seq(|Currencies(extra)|, _ => Message(NotFoundText)))
  {
    var codes := Currencies(extra);
    forall k | 0 <= k < |codes|
      ensures Aggregate(codes[k], DayResponses(n, world, k)) == NotFound
    {
      NotFoundExactlyWithoutDayCount(codes[k], n, world, k);
    }
    CurrencyRatesEntries(codes, n, world);
  }

  /** Day `i` of the k-th currency is where the run first can go wrong: every
      earlier currency ended without an exception other than `KeyError`, and
      every earlier day of this currency gave its line. */
  predicate ReachedFirstAt(codes: seq<string>, n: int, world: World, k: nat, i: nat) {
    && k < |codes| && i < DayCount(n)
    && (forall j :: 0 <= j < k ==> !IsAbort(Aggregate(codes[j], DayResponses(n, world, j))))
    && (forall d :: 0 <= d < i ==> DayLine(codes[k], DayResponses(n, world, k)[d]).Ok?)
  }

  /** The run first goes wrong at day `i` of the k-th currency, and what goes
      wrong there is the unpack: this day's records with the code are not
      exactly one. */
  predicate UnpackFailsFirstAt(codes: seq<string>, n: int, world: World, k: nat, i: nat) {
    ReachedFirstAt(codes, n, world, k, i) && UnpackFails(codes[k], DayResponses(n, world, k)[i])
  }

  /** The run first goes wrong at day `i` of the k-th currency, and what goes
      wrong there is the request: it failed and gave `None`. */
  predicate RequestFailsFirstAt(codes: seq<string>, n: int, world: World, k: nat, i: nat) {
    ReachedFirstAt(codes, n, world, k, i) && DayResponses(n, world, k)[i].None?
  }

  /** An unpack that is the first thing to fail turns the whole run into
      "Wrong Value": a missing or duplicated record on one day of one
      currency discards every other currency's result. */
  lemma UnpackFailureIsWrongValue(n: int, extra: seq<string>, world: World, k: nat, i: nat)
    requires n <= 10 && UnpackFailsFirstAt(Currencies(extra), n, world, k, i)
    ensures Run(Count(n), extra, world) == Text(WrongValueText)
  {
    var codes := Currencies(extra);
    var responses := DayResponses(n, world, k);
    AggregateRaises(codes[k], responses, ValueError);
    assert Aggregate(codes[k], responses) == Raised(ValueError);
    CurrencyRatesAbort(codes, n, world, ValueError);
    assert CurrencyRates(codes, n, world) == Err(ValueError);
  }

  /** A failed request is not skipped: when it is the first thing to fail,
      `result.get` on `None` raises `AttributeError`, which neither
      `get_currency_rates` nor `main` catches. */
  lemma FailedRequestEscapes(n: int, extra: seq<string>, world: World, k: nat, i: nat)
    requires n <= 10 && RequestFailsFirstAt(Currencies(extra), n, world, k, i)
    ensures Run(Count(n), extra, world) == Uncaught(AttributeError)
  {
    var codes := Currencies(extra);
    var responses := DayResponses(n, world, k);
    AggregateRaises(codes[k], responses, AttributeError);
    assert Aggregate(codes[k], responses) == Raised(AttributeError);
    CurrencyRatesAbort(codes, n, world, AttributeError);
    assert CurrencyRates(codes, n, world) == Err(AttributeError);
  }

  /** Within this model "Wrong Value" comes from nowhere else: the count
      passed validation and some unpack was the first thing to fail. (A body
      that is not valid JSON also raises `ValueError` inside `request`; that
      path lies outside the model.) */
  lemma WrongValueOnlyFromUnpack(n: int, extra: seq<string>, world: World)
    requires Run(Count(n), extra, world) == Text(WrongValueText)
    ensures n <= 10 && exists k, i :: UnpackFailsFirstAt(Currencies(extra), n, world, k, i)
  {
    var codes := Currencies(extra);
    assert n <= 10 && CurrencyRates(codes, n, world) == Err(ValueError);
    CurrencyRatesAbort(codes, n, world, ValueError);
    var k :| 0 <= k < |codes| && Aggregate(codes[k], DayResponses(n, world, k)) == Raised(ValueError) &&
             forall j :: 0 <= j < k ==> !IsAbort(Aggregate(codes[j], DayResponses(n, world, j)));
    var responses := DayResponses(n, world, k);
    AggregateRaises(codes[k], responses, ValueError);
    var i :| 0 <= i < |responses| && DayLine(codes[k], responses[i]) == Err(ValueError) &&
             forall d :: 0 <= d < i ==> DayLine(codes[k], responses[d]).Ok?;
    assert UnpackFailsFirstAt(codes, n, world, k, i);
  }

  /** When every day of every currency is well formed (every record carries a
      currency, exactly one carries the code, and it has both rates), the run
      returns one entry per currency, each with one line per requested day. */
  lemma WellFormedDaysGiveTable(n: int, extra: seq<string>, world: World)
    requires 0 < n <= 10
    requires forall k, d :: 0 <= k < |Currencies(extra)| && 0 <= d < n ==>
      WellFormedDay(Currencies(extra)[k], DayResponses(n, world, k)[d])
    ensures Run(Count(n), extra, world).Table?
    ensures forall k :: 0 <= k < |Currencies(extra)| ==>
      && Run(Count(n), extra, world).entries[k].Rates?
      && |Run(Count(n), extra, world).entries[k].lines| == n
  {
    var codes := Currencies(extra);
    forall k | 0 <= k < |codes|
      ensures Aggregate(codes[k], DayResponses(n, world, k)).Lines?
      ensures |Aggregate(codes[k], DayResponses(n, world, k)).lines| == n
    {
      var responses := DayResponses(n, world, k);
      assert forall d :: 0 <= d < |responses| ==> DayLine(codes[k], responses[d]).Ok?;
      AggregateLines(codes[k], responses);
    }
    CurrencyRatesEntries(codes, n, world);
    var rates := CurrencyRates(codes, n, world);
    assert rates.Ok?;
    assert Run(Count(n), extra, world) == Table(rates.value);
  }
}
