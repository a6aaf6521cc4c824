# PrivatBank exchange-rate fetcher: a Dafny model of its decision logic

The script asks PrivatBank's public API for the official exchange rates of the
last N days, one request per day, for the currencies EUR and USD plus any codes
given on the command line, and prints one line per currency and day. This
project models everything in it that decides what comes back:

- `urls_for_days`: the request URLs, today first, one calendar day apart, each
  the fixed prefix followed by the date as `DD.MM.YYYY` (modules `Dates`,
  `DateRange`);
- `get_exchange`: the fan-in for one currency. Each day's records are filtered
  for the currency code and unpacked as exactly one record, a line is formatted
  with the response's own date, and the not-found string is returned when no
  line was produced. Every Python exception on the way is made explicit
  (module `Aggregator`);
- `get_currency_rates`: the loop over the currencies, which catches `KeyError`
  per currency and lets every other exception out (module `Orchestrator`);
- `main`: validation of the day count, the merged currency tuple, and the
  `ValueError` that becomes "Wrong Value" (module `EntryPoint`).

The network is a parameter. `World.network(k, url)` is the parsed body the
request for `url` receives while the k-th currency is processed, or `None` when
`request` logged an error. `asyncio.gather` is modelled by its result: one
response per URL, in URL order. The clock is a parameter too: every currency
calls `urls_for_days` and so reads `datetime.now()` anew, and `World.today(k)`
is the day ordinal it reads for the k-th currency. The calendar is a parameter
mapping ordinals to dates. Formatting a date as `%d.%m.%Y` is
modelled, with a parser that reads the text back.

`get_exchange` and `get_currency_rates` are methods with loops. Each is proved
equal to a specification function (`Aggregate`, `CurrencyRates`). Both functions
are built on `Outcomes.Sequence`, which models a loop that appends one value
per item and stops at the first exception. The lemmas about these functions
state what the script promises.

Consequences of the code that the proofs make explicit:

- A day whose records hold the code zero times or more than once raises
  `ValueError` at the unpack. Only `KeyError` is caught per currency, so this
  ends the loop over currencies, and `main` answers "Wrong Value" for the whole
  run. Every other currency's result is discarded
  (`EntryPoint.UnpackFailureIsWrongValue`, `EntryPoint.WrongValueOnlyFromUnpack`).
- Each day either appends a line or raises. So "Data was not found" is
  returned exactly when there are no days, that is for a count of zero or less,
  and such counts pass validation (`Aggregator.NotFoundExactlyWithoutDays`,
  `EntryPoint.NonPositiveCountNotFound`).
- A failed request (`None`) is not skipped. `result.get` on it raises
  `AttributeError`, which nothing catches (`Aggregator.DayLine`,
  `Orchestrator.CurrencyRatesAbort`, `EntryPoint.FailedRequestEscapes`).
- Extra codes are de-duplicated only against the base tuple. Repeated extra
  codes stay repeated (`EntryPoint.Currencies`).

## Model

| member | source | states |
|---|---|---|
| `Outcomes.Sequence` | main.py:40-43 | running the steps of an append loop yields one value per step when it succeeds |
| `Outcomes.SequenceOk` | main.py:40-43 | the loop succeeds iff every step does, and then its list holds each step's value at that step's position |
| `Outcomes.SequenceFirstError` | main.py:40-43 | a failing step whose predecessors all succeeded makes the loop raise exactly that step's exception |
| `Outcomes.SequenceErrorWitness` | main.py:53-58 | a loop that raised names a first failing step whose exception it is |
| `Outcomes.SequenceStopsAtError` | main.py:40-43 | once a prefix of the steps raised, later steps change nothing (the early exit) |
| `Dates.Decimal` | main.py:30 | `%Y` prints a non-empty string of decimal digits, one digit exactly for years below 10 |
| `Dates.Format` | main.py:30 | `%d.%m.%Y` is two zero-padded day digits, a dot, two month digits, a dot, the year's digits |
| `Dates.ParseFormat` | main.py:30 | reading the printed date back gives the same day, month and year |
| `Dates.FormatInjective` | main.py:30 | two dates print alike only if they are equal |
| `DateRange.UrlsForDays` | main.py:27-31 | `max(0, n)` URLs; URL i begins with the API prefix and asks for the date `i` days before today |
| `DateRange.UrlsEqualIffSameDate` | main.py:29-30 | two URLs of a run are equal exactly when the calendar gives their days the same date; so, given a calendar that gives the window's days distinct dates, no date is asked for twice |
| `Aggregator.DayResponses` | main.py:36-38 | the joined requests give exactly one response per URL |
| `Aggregator.Matches` | main.py:42 | the filter keeps exactly the records whose currency is the code, never more records than it was given |
| `Aggregator.ExactlyOneMatch` | main.py:42 | the filter finds one record iff exactly one index holds a record with the code |
| `Aggregator.DayLine` | main.py:40-43 | one day: `AttributeError` iff the request failed, `TypeError` iff `exchangeRate` is missing, `ValueError` iff the unpack finds not exactly one record, `KeyError` iff a record lacks `currency` or the match lacks a rate; a line iff the day is well formed, and then it is the line of the unique record with the response's own date |
| `Aggregator.GetExchange` | main.py:34-48 | the loop over the day responses returns or raises what `Aggregate` says |
| `Aggregator.AggregateLines` | main.py:39-43 | lines come back iff there is a day and every day gives a line; then one line per day, in URL order |
| `Aggregator.NotFoundExactlyWithoutDays` | main.py:39-48 | the not-found string is returned iff there are no day responses |
| `Aggregator.NotFoundExactlyWithoutDayCount` | main.py:29-46 | the not-found string is returned iff the day count is zero or less |
| `Aggregator.AggregateRaises` | main.py:40-43 | `get_exchange` raises e iff some day raises e and every earlier day gave its line |
| `Orchestrator.Settle` | main.py:54-58 | the exception escapes one currency's `try` iff the currency raised something other than `KeyError`, and it is that exception |
| `Orchestrator.GetCurrencyRates` | main.py:51-59 | the loop over the currencies returns or raises what `CurrencyRates` says |
| `Orchestrator.CurrencyRatesEntries` | main.py:51-59 | success iff no currency raises anything but `KeyError`; then one entry per currency in input order: its lines, the not-found string, or the failure placeholder for a `KeyError` |
| `Orchestrator.CurrencyRatesAbort` | main.py:53-58 | the loop raises e iff e is not `KeyError` and is raised by a currency before which none raised anything but `KeyError` |
| `Orchestrator.OtherEntriesUnchanged` | main.py:53-58 | what the bank answers, or the clock reads, while one currency is processed changes no other currency's entry |
| `EntryPoint.Extras` | main.py:71 | each non-base code is kept as often as given, and no base code is kept |
| `EntryPoint.ExtrasAppend` | main.py:71 | the kept codes stay in their given order (the filter distributes over concatenation) |
| `EntryPoint.Currencies` | main.py:69-71 | the tuple is `EUR, USD` followed by the kept extra codes; each base code occurs once, every other code as often as given |
| `EntryPoint.Run` | main.py:62-78 | an empty count gives "Please, enter amount of days", a count over 10 the refusal; otherwise `main` returns exactly the list `get_currency_rates` returns (one entry per currency), answers "Wrong Value" iff it raised `ValueError`, and lets every other exception it raised escape unchanged; no `ValueError` or `KeyError` escapes `main` |
| `EntryPoint.NonPositiveCountNotFound` | main.py:65-68 | a count of zero or less passes validation, and every currency gets the not-found string |
| `EntryPoint.UnpackFailureIsWrongValue` | main.py:73-76 | an unpack that is the run's first failure makes the whole run "Wrong Value" |
| `EntryPoint.FailedRequestEscapes` | main.py:73-78 | a failed request that is the run's first failure makes `main` raise the `AttributeError` of `result.get` on `None` (main.py:41): it is neither skipped nor caught |
| `EntryPoint.WrongValueOnlyFromUnpack` | main.py:73-76 | within the model, "Wrong Value" means the count was at most 10 and an unpack was the run's first failure |
| `EntryPoint.WellFormedDaysGiveTable` | main.py:62-78 | when on every day of every currency each record carries `currency`, exactly one carries the code and it has both rates, each currency gets one line per day |

## Left out

- `request` (main.py:13-24): the HTTP session, the status check, JSON decoding and logging are I/O. They are replaced by `World.network`, whose `None` stands for a logged failure.
- EntryPoint.WrongValueOnlyFromUnpack: holds within the model only. A body that is not valid JSON is not modelled; `response.json()` then raises `json.JSONDecodeError`, a `ValueError`, which `main` also turns into "Wrong Value".
- The concurrency of `asyncio.gather` (main.py:37-38) is not modelled. Only its order-preserving result is.
- `datetime.now()` and `timedelta` (main.py:28-29) are library calendar arithmetic. They become the parameters `today` (an ordinal per currency) and `calendar`.
- Dates.Decimal prints `%Y` unpadded, as glibc's `strftime` does; Python 3.13 and later pad years below 1000 to four digits. The two agree on all years from 1000 on.
- `int(days)` (main.py:29, main.py:67) is not modelled. The day argument is either empty or an already-read integer. A non-numeric argument, or a missing one (`sys.argv[1]`), raises outside any `try` and is not modelled.
- JSON values are reduced to what the script prints. The rates are the text `str()` gives them, and `currency` is a string. A record or body that is not an object, and a `currency` value of another JSON type, are not modelled.
- The timing and printing in the `__main__` block (main.py:81-84) are I/O.
