/** `get_currency_rates`: the currencies are processed one after another; a
    `KeyError` is caught per currency, every other exception leaves the loop. */
module Orchestrator {
  import opened Outcomes
  import opened Aggregator

  /** One slot of the returned list: the list of lines of a currency, or one
      of the two strings that can stand in its place. */
  datatype Entry = Rates(lines: seq<string>) | Message(text: string)

  const NotFoundText := "Data was not found"

  function FailedText(code: string): string {
    "Failed to get currency rates for " + code
  }

  /** An exception other than `KeyError` ends the loop. */
  predicate IsAbort(exchange: Exchange) {
    exchange.Raised? && exchange.error != KeyError
  }

  /** The `try`/`except KeyError` around one currency: what it appends, or
      the exception that escapes it. */
  function Settle(code: string, exchange: Exchange): (r: Result<Entry, PyError>)
    ensures r.Err? <==> IsAbort(exchange)
    ensures r.Err? ==> r.error == exchange.error
  {
    match exchange
    case Lines(lines) => Ok(Rates(lines))
    case NotFound => Ok(Message(NotFoundText))
    case Raised(e) => if e == KeyError then Ok(Message(FailedText(code))) else Err(e)
  }

  /** The k-th currency's slot: its own requests (round k), its own aggregation. */
  function Slot(codes: seq<string>, k: nat, days: int, world: World): Result<Entry, PyError>
    requires k < |codes|
  {
    Settle(codes[k], Aggregate(codes[k], DayResponses(days, world, k)))
  }

  function Slots(codes: seq<string>, days: int, world: World): (steps: seq<Result<Entry, PyError>>)
    ensures |steps| == |codes|
  {
    seq(|codes|, k requires 0 <= k < |codes| => Slot(codes, k, days, world))
  }

  /** What `get_currency_rates` returns, or the exception that escapes it. */
  function CurrencyRates(codes: seq<string>, days: int, world: World): Result<seq<Entry>, PyError> {
    Sequence(Slots(codes, days, world))
  }

  method GetCurrencyRates(codes: seq<string>, days: int, world: World) returns (r: Result<seq<Entry>, PyError>)
    ensures r == CurrencyRates(codes, days, world)
  {
    var results: seq<Entry> := [];
    ghost var steps := Slots(codes, days, world);
    for k := 0 to |codes|
      invariant Sequence(steps[..k]) == Ok(results)
    {
      SequenceStep(steps, k);
      var currency := codes[k];
      var exchange := GetExchange(currency, days, world, k);
      match exchange
      case Raised(e) =>
        if e == KeyError {
          results := results + [Message(FailedText(currency))];
        } else {
          SequenceStopsAtError(steps, k + 1);
          return Err(e);
        }
      case Lines(lines) =>
        results := results + [Rates(lines)];
      case NotFound =>
        results := results + [Message(NotFoundText)];
    }
    assert steps[..|codes|] == steps;
    r := Ok(results);
  }

  /** On success there is exactly one entry per currency, in input order, and
      each depends on that currency's own aggregation only: its lines, the
      not-found string, or the failure placeholder when it raised `KeyError`. */
  lemma CurrencyRatesEntries(codes: seq<string>, days: int, world: World)
    ensures CurrencyRates(codes, days, world).Ok? <==>
      forall k :: 0 <= k < |codes| ==> !IsAbort(Aggregate(codes[k], DayResponses(days, world, k)))
    ensures CurrencyRates(codes, days, world).Ok? ==>
      && |CurrencyRates(codes, days, world).value| == |codes|
      && forall k :: 0 <= k < |codes| ==>
           CurrencyRates(codes, days, world).value[k] ==
             match Aggregate(codes[k], DayResponses(days, world, k))
             case Lines(lines) => Rates(lines)
             case NotFound => Message(NotFoundText)
             case Raised(_) => Message(FailedText(codes[k]))
  {
    var steps := Slots(codes, days, world);
    forall k | 0 <= k < |codes|
      ensures steps[k] == Slot(codes, k, days, world)
      ensures steps[k].Ok? <==> !IsAbort(Aggregate(codes[k], DayResponses(days, world, k)))
    {
    }
    SequenceOk(steps);
  }

  /** The loop is left with exactly the exception of the first currency whose
      aggregation raises something other than `KeyError`; the currencies after
      it are never processed. */
  lemma CurrencyRatesAbort(codes: seq<string>, days: int, world: World, e: PyError)
    ensures CurrencyRates(codes, days, world) == Err(e) <==>
      exists k :: 0 <= k < |codes| && e != KeyError &&
                  Aggregate(codes[k], DayResponses(days, world, k)) == Raised(e) &&
                  forall j :: 0 <= j < k ==> !IsAbort(Aggregate(codes[j], DayResponses(days, world, j)))
  {
    var steps := Slots(codes, days, world);
    forall k | 0 <= k < |codes|
      ensures steps[k] == Slot(codes, k, days, world)
      ensures steps[k].Ok? <==> !IsAbort(Aggregate(codes[k], DayResponses(days, world, k)))
    {
    }
    if CurrencyRates(codes, days, world) == Err(e) {
      SequenceErrorWitness(steps);
    }
    if exists k :: 0 <= k < |codes| && e != KeyError &&
                   Aggregate(codes[k], DayResponses(days, world, k)) == Raised(e) &&
                   forall j :: 0 <= j < k ==> !IsAbort(Aggregate(codes[j], DayResponses(days, world, j))) {
      var k :| 0 <= k < |codes| && e != KeyError &&
               Aggregate(codes[k], DayResponses(days, world, k)) == Raised(e) &&
               forall j :: 0 <= j < k ==> !IsAbort(Aggregate(codes[j], DayResponses(days, world, j)));
      SequenceFirstError(steps, k);
    }
  }

  /** Changing what the bank answers (or the clock reads) while one currency
      is processed changes no other currency's entry: a currency that fails with `KeyError` costs
      only its own slot. */
  lemma OtherEntriesUnchanged(codes: seq<string>, days: int, world: World, world': World, k: nat)
    requires world.calendar == world'.calendar
    requires forall j: nat :: j != k ==> world.today(j) == world'.today(j)
    requires forall j: nat, url :: j != k ==> world.network(j, url) == world'.network(j, url)
    requires CurrencyRates(codes, days, world).Ok? && CurrencyRates(codes, days, world').Ok?
    ensures forall j :: 0 <= j < |codes| && j != k ==>
      CurrencyRates(codes, days, world).value[j] == CurrencyRates(codes, days, world').value[j]
  {
    CurrencyRatesEntries(codes, days, world);
    CurrencyRatesEntries(codes, days, world');
    forall j | 0 <= j < |codes| && j != k
      ensures DayResponses(days, world, j) == DayResponses(days, world', j)
    {
    }
  }
}
