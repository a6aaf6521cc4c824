/** `get_exchange`: the fan-in for one currency. The concurrent requests are
    abstracted to their joined result: `asyncio.gather` hands back one response
    per URL, in URL order, so the responses are `world.network` applied to the
    URLs in order. */
module Aggregator {
  import opened Outcomes
  import opened Dates
  import opened DateRange

  /** One record of a day's `exchangeRate` list; a field is `None` when the key
      is absent. The two rates are kept as the text `str()` gives them. */
  datatype Rate = Rate(currency: Option<string>, purchaseRateNB: Option<string>, saleRateNB: Option<string>)

  /** The parsed JSON body for one date; a field is `None` when the key is
      absent. */
  datatype DayBody = DayBody(date: Option<string>, exchangeRate: Option<seq<Rate>>)

  /** The Python exceptions the processing of a day can raise: a missing key,
      the exactly-one unpack, `.get` on the `None` of a failed request, and
      `filter` over a missing `exchangeRate`. */
  datatype PyError = KeyError | ValueError | AttributeError | TypeError

  /** What `get_exchange` returns (its list of lines, or the not-found string)
      or raises. */
  datatype Exchange = Lines(lines: seq<string>) | NotFound | Raised(error: PyError)

  /** Everything outside the script: the clock, the calendar, and the bank's
      answers. Every currency reads the clock and fetches its days anew, so
      both are indexed by the currency's position k: `today(k)` is the
      ordinal `datetime.now()` gives while the k-th currency is processed, and
      `network(k, url)` is the response its request for `url` gets; `None` is
      what `request` returns after a non-200 status or a connection error. */
  datatype World = World(today: nat -> int, calendar: int -> CalendarDate, network: (nat, string) -> Option<DayBody>)

  /** The joined responses of the k-th currency's requests, in URL order. */
  function DayResponses(days: int, world: World, round: nat): (responses: seq<Option<DayBody>>)
    ensures |responses| == DayCount(days)
  {
    var urls := UrlsForDays(days, world.today(round), world.calendar);
    seq(|urls|, i requires 0 <= i < |urls| => world.network(round, urls[i]))
  }

  /** The `filter` over the day's records: those whose currency is `code`, in
      their order. */
  function Matches(code: string, rates: seq<Rate>): (found: seq<Rate>)
    ensures |found| <= |rates|
    ensures forall x :: x in found <==> x in rates && x.currency == Some(code)
    decreases |rates|
  {
    if |rates| == 0 then []
    else (if rates[0].currency == Some(code) then [rates[0]] else []) + Matches(code, rates[1..])
  }

  /** Exactly one found record means exactly one record with the code. */
  lemma {:induction false} ExactlyOneMatch(code: string, rates: seq<Rate>)
    ensures |Matches(code, rates)| == 1 <==>
      exists k :: 0 <= k < |rates| && rates[k].currency == Some(code) &&
                  forall j :: 0 <= j < |rates| && rates[j].currency == Some(code) ==> j == k
    decreases |rates|
  {
    if |rates| > 0 {
      var rest := rates[1..];
      ExactlyOneMatch(code, rest);
      if rates[0].currency == Some(code) {
        if |Matches(code, rest)| == 0 {
          forall j | 0 < j < |rates| ensures rates[j].currency != Some(code) {
            assert rest[j - 1] == rates[j] && rest[j - 1] in rest;
            assert rest[j - 1] !in Matches(code, rest);
          }
        } else {
          var x := Matches(code, rest)[0];
          assert x in Matches(code, rest);
          var j :| 0 <= j < |rest| && rest[j] == x;
          assert rates[j + 1].currency == Some(code);
        }
      } else {
        if |Matches(code, rest)| == 1 {
          var k :| 0 <= k < |rest| && rest[k].currency == Some(code) &&
                   forall j :: 0 <= j < |rest| && rest[j].currency == Some(code) ==> j == k;
          assert rates[k + 1].currency == Some(code);
          forall j | 0 <= j < |rates| && rates[j].currency == Some(code) ensures j == k + 1 {
            assert j > 0 && rest[j - 1] == rates[j];
          }
        }
        if exists k :: 0 <= k < |rates| && rates[k].currency == Some(code) &&
                       forall j :: 0 <= j < |rates| && rates[j].currency == Some(code) ==> j == k {
          var k :| 0 <= k < |rates| && rates[k].currency == Some(code) &&
                   forall j :: 0 <= j < |rates| && rates[j].currency == Some(code) ==> j == k;
          assert k > 0 && rest[k - 1] == rates[k];
          forall j | 0 <= j < |rest| && rest[j].currency == Some(code) ensures j == k - 1 {
            assert rates[j + 1] == rest[j];
          }
        }
      }
    }
  }

  /** Every record has a `currency` key, so the filter runs to its end
      (`element['currency']` raises `KeyError` otherwise). */
  predicate AllTagged(rates: seq<Rate>) {
    forall k :: 0 <= k < |rates| ==> rates[k].currency.Some?
  }

  /** The request succeeded and its body has an `exchangeRate` list whose
      records all carry a currency: the filter completes. */
  predicate Filterable(response: Option<DayBody>) {
    response.Some? && response.value.exchangeRate.Some? && AllTagged(response.value.exchangeRate.value)
  }

  /** The records of a filterable response that carry `code`. */
  function Found(code: string, response: Option<DayBody>): seq<Rate>
    requires Filterable(response)
  {
    Matches(code, response.value.exchangeRate.value)
  }

  /** The unpack `exchange, = ...` fails: the filter completes but does not
      find exactly one record with the code. */
  predicate UnpackFails(code: string, response: Option<DayBody>) {
    Filterable(response) && |Found(code, response)| != 1
  }

  /** A day that gives its line: the filter completes, finds exactly one
      record with the code, and that record has both rates. */
  predicate WellFormedDay(code: string, response: Option<DayBody>) {
    && Filterable(response) && |Found(code, response)| == 1
    && Found(code, response)[0].purchaseRateNB.Some? && Found(code, response)[0].saleRateNB.Some?
  }

  /** How `result.get('date')` prints: the value, or `None` when absent. */
  function DateText(date: Option<string>): string {
    match date
    case Some(s) => s
    case None => "None"
  }

  function Line(code: string, buy: string, sale: string, date: string): string {
    code + ": buy: " + buy + ", sale: " + sale + ". Date: " + date
  }

  /** One iteration of the loop over the day responses: the line it appends,
      or the exception it raises. */
  function DayLine(code: string, response: Option<DayBody>): (r: Result<string, PyError>)
    ensures r == Err(AttributeError) <==> response.None?
    ensures r == Err(TypeError) <==> response.Some? && response.value.exchangeRate.None?
    ensures r == Err(ValueError) <==> UnpackFails(code, response)
    ensures r == Err(KeyError) <==>
      && response.Some? && response.value.exchangeRate.Some?
      && (!AllTagged(response.value.exchangeRate.value) ||
          (|Found(code, response)| == 1 &&
           (Found(code, response)[0].purchaseRateNB.None? || Found(code, response)[0].saleRateNB.None?)))
    ensures r.Ok? <==> WellFormedDay(code, response)
    ensures r.Ok? ==>
      && Found(code, response)[0].currency == Some(code)
      && r.value == Line(code, Found(code, response)[0].purchaseRateNB.value,
                         Found(code, response)[0].saleRateNB.value, DateText(response.value.date))
  {
    match response
    case None => Err(AttributeError)
    case Some(day) =>
      match day.exchangeRate
      case None => Err(TypeError)
      case Some(rates) =>
        if !AllTagged(rates) then Err(KeyError)
        else
          var found := Matches(code, rates);
          if |found| != 1 then Err(ValueError)
          else
            assert found[0] in found;
            if found[0].purchaseRateNB.None? || found[0].saleRateNB.None? then Err(KeyError)
            else Ok(Line(code, found[0].purchaseRateNB.value, found[0].saleRateNB.value, DateText(day.date)))
  }

  /** The loop body applied to every response, in order. */
  function DayLines(code: string, responses: seq<Option<DayBody>>): (steps: seq<Result<string, PyError>>)
    ensures |steps| == |responses|
  {
    seq(|responses|, i requires 0 <= i < |responses| => DayLine(code, responses[i]))
  }

  /** What `get_exchange` returns or raises, given its day responses. */
  function Aggregate(code: string, responses: seq<Option<DayBody>>): Exchange {
    match Sequence(DayLines(code, responses))
    case Err(e) => Raised(e)
    case Ok(lines) => if |lines| == 0 then NotFound else Lines(lines)
  }

  method GetExchange(code: string, days: int, world: World, round: nat) returns (r: Exchange)
    ensures r == Aggregate(code, DayResponses(days, world, round))
  {
    var exchangeResult: seq<string> := [];
    var results := DayResponses(days, world, round);
    ghost var steps := DayLines(code, results);
    if |results| > 0 {
      for i := 0 to |results|
        invariant Sequence(steps[..i]) == Ok(exchangeResult)
      {
        SequenceStep(steps, i);
        var line := DayLine(code, results[i]);
        if line.Err? {
          SequenceStopsAtError(steps, i + 1);
          return Raised(line.error);
        }
        exchangeResult := exchangeResult + [line.value];
      }
    }
    assert steps[..|results|] == steps;
    if |exchangeResult| == 0 {
      r := NotFound;
    } else {
      r := Lines(exchangeResult);
    }
  }

  /** On success there is one line per day response, in the same order, each
      the line that day's unique record and the response's own date give. */
  lemma AggregateLines(code: string, responses: seq<Option<DayBody>>)
    ensures Aggregate(code, responses).Lines? <==>
      0 < |responses| && forall i :: 0 <= i < |responses| ==> DayLine(code, responses[i]).Ok?
    ensures Aggregate(code, responses).Lines? ==>
      && |Aggregate(code, responses).lines| == |responses|
      && forall i :: 0 <= i < |responses| ==> Aggregate(code, responses).lines[i] == DayLine(code, responses[i]).value
  {
    var steps := DayLines(code, responses);
    assert forall i :: 0 <= i < |responses| ==> steps[i] == DayLine(code, responses[i]);
    SequenceOk(steps);
  }

  /** Every day either appends a line or raises, so the not-found string comes
      back exactly when there are no days at all. */
  lemma NotFoundExactlyWithoutDays(code: string, responses: seq<Option<DayBody>>)
    ensures Aggregate(code, responses) == NotFound <==> |responses| == 0
  {
  }

  /** `get_exchange` raises exactly the exception of the first day whose
      processing raises. */
  lemma AggregateRaises(code: string, responses: seq<Option<DayBody>>, e: PyError)
    ensures Aggregate(code, responses) == Raised(e) <==>
      exists i :: 0 <= i < |responses| && DayLine(code, responses[i]) == Err(e) &&
                  forall j :: 0 <= j < i ==> DayLine(code, responses[j]).Ok?
  {
    var steps := DayLines(code, responses);
    assert forall i :: 0 <= i < |responses| ==> steps[i] == DayLine(code, responses[i]);
    if Aggregate(code, responses) == Raised(e) {
      SequenceErrorWitness(steps);
    }
    if exists i :: 0 <= i < |responses| && DayLine(code, responses[i]) == Err(e) &&
                   forall j :: 0 <= j < i ==> DayLine(code, responses[j]).Ok? {
      var i :| 0 <= i < |responses| && DayLine(code, responses[i]) == Err(e) &&
               forall j :: 0 <= j < i ==> DayLine(code, responses[j]).Ok?;
      SequenceFirstError(steps, i);
    }
  }

  /** With a positive day count `get_exchange` never returns the not-found
      string; with zero or fewer days it always does. */
  lemma NotFoundExactlyWithoutDayCount(code: string, days: int, world: World, round: nat)
    ensures Aggregate(code, DayResponses(days, world, round)) == NotFound <==> days <= 0
  {
  }
}
