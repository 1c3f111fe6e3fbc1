# Per-operator call statistics of the Skorozvon daily report

This project models the core of a daily call-center report script: the aggregation
`calculate_operator_stats` and the formatter `format_stats_message` in `app/main.py`.
It proves properties of that model in Dafny.

- **Aggregator** (`aggregator.dfy`). The method `CalculateOperatorStats` walks the call
  records with a loop, like the source. Each record whose user id is present and truthy
  updates its operator's entry: the name is overwritten, the call count goes up by one,
  the duration is added, successes are counted when the result-group title contains
  `"Успешн"`, and one per-type counter goes up. Its specification is `Fold`, a recursive
  fold of `Step` over the records. `Fold` is proved equal to an independent reference
  definition: the entry of operator `id` is `Summary(RecordsOf(calls, id))`. That summary
  holds the number of that operator's records, the number of successful ones, the sum of
  their durations, the count of each type code and the name from the last record.
- **Dict order**. A Python dict keeps its keys in insertion order, and the formatter
  prints operators in that order. So the table is `OperatorTable(order, entries)`: the
  keys in first-seen order beside the map from id to entry. `WellFormed` says every key
  is listed exactly once.
- **Counters** (`counters.dfy`). The `call_types` `defaultdict(int)` is a
  `map<string, nat>` with `Count` (`get(k, 0)`) and `Bump` (`[k] += 1`). `Total` sums
  its counts.
- **Formatter** (`formatter.dfy`). The method `FormatStatsMessage` builds the message by
  appending one block per operator with at least one call. If the table is empty it
  returns the fixed "no data" message. The message is modelled as its structure
  (`NoData`, or `Summary(period, blocks)`). Each block holds the integers its lines print
  and, as exact fractions, the two values the source prints as floats.
- **Calls** (`calls.dfy`). This module holds the call record, Python truthiness of ids,
  the field defaults (`"Неизвестно"`, `0`, `"unknown"`) and the substring test.

Records whose user id is missing are skipped. So are records whose id is present but
falsy (`0`, `""`), because the code tests `if not user_id` (app/main.py:63).

Python's `//` rounds toward minus infinity. Dafny's `/` on `int` is Euclidean, which
gives the same result for the divisor 60. `BlockOf` states the floor bounds explicitly.

## Model

| member | source | states |
|---|---|---|
| `Aggregator.CalculateOperatorStats` | app/main.py:45-80 | The loop builds exactly `Fold` of the records. A missing response or a response without `data` gives the empty table. The table is a well-formed dict whose keys are listed in the order of their first counted record. An id is a key iff some record is counted for it. Each entry is the summary of that operator's records, has at least one call, has successes <= calls, and has type counters that sum to the calls. |
| `Aggregator.FoldIsSummary` | app/main.py:58-78 | Operator `id` has an entry iff some record is counted for it. The entry then has the last record's name, the number of records, the number of successful ones, the summed durations (missing counts as 0) and the per-type counts. |
| `Aggregator.RecordsOfNonEmpty` | app/main.py:59-66 | An operator has counted records iff some record carries that id and the id is truthy. So the key set is exactly the set of truthy ids seen. |
| `Aggregator.SkippedRecordIsInert` | app/main.py:63-64 | A record with a missing or falsy user id changes nothing, wherever it stands in the input: no key, no counter, no name. |
| `Aggregator.FoldWellFormed` | app/main.py:66 | Each id is listed once, and the listed keys are exactly the map's keys. |
| `Aggregator.FoldOrderFirstSeen` | app/main.py:58-66 | Keys are listed in the order of their first counted record: every record of a later-listed operator comes after some record of each earlier-listed operator. |
| `Aggregator.InTableIffSeen` | app/main.py:63-66 | An operator is in the table iff some record of the input is counted for it. |
| `Aggregator.AbsorbSummary` | app/main.py:67-78 | Absorbing one more record of an operator into its summary gives the summary of the records extended by that record. Last-write-wins for the name. |
| `Aggregator.TypeCountsSnoc` | app/main.py:77-78 | Counting type codes over one more record is the old counter with that record's type code (`"unknown"` if absent) bumped. |
| `Aggregator.CountTypeCounts` | app/main.py:101-102 | `call_types.get(k, 0)` of the summary is the number of records whose type code is `k`, and 0 for a code no record carries. |
| `Aggregator.AbsorbConsistent` | app/main.py:68-78 | One record update keeps successes <= calls and keeps the type counters summing to the calls. It leaves the entry with at least one call. |
| `Aggregator.FoldConsistent` | app/main.py:58-78 | Every entry of the built table has `0 <= successful_calls <= total_calls`, type counters summing to `total_calls`, and `total_calls >= 1`. |
| `Counters.Bump` | app/main.py:78 | `[k] += 1` on a `defaultdict(int)` adds the key `k`, raises its count by one and leaves every other count alone. |
| `Counters.TotalBump` | app/main.py:78 | Each increment adds exactly one to the sum of all counts. |
| `Calls.ContainsIffOccurs` | app/main.py:73 | The substring test holds iff the marker occurs at some index of the title. The empty marker is found everywhere. |
| `Calls.NoCapitalMarkerNoSuccess` | app/main.py:73 | The match is case-sensitive: a title with no capital "У" never contains the marker, so its call is never a success. |
| `Calls.MarkerIsCaseSensitive` | app/main.py:73 | For instance, the title "Неуспешно" ("unsuccessful", lower-case "у") does not contain the marker. |
| `Formatter.FormatStatsMessage` | app/main.py:82-104 | The result is the "no data" message iff the table is empty. Otherwise it is the header for the given period followed by the blocks of the operators with at least one call, in dict order. Every block has at least one call. |
| `Formatter.BlockOf` | app/main.py:93-102 | Total minutes are the floor of total seconds over 60. The success rate is the fraction 100·successful/total, and lies in [0, 100] when successes <= calls. The average is total duration over calls. Outgoing and incoming counts default to 0 when the type code is absent. |
| `Formatter.ShownIdsExactly` | app/main.py:89-91 | An operator is printed iff it is in the table and has at least one call. No operator is printed twice. |
| `Formatter.ShownBlocksAreBlocksOfShownIds` | app/main.py:89-102 | The i-th printed block is the block of the i-th printed operator, and that operator has at least one call. |
| `Formatter.ShownIdsOfCalledOperators` | app/main.py:89-91 | When every listed operator has a call, none is skipped. |
| `Formatter.AggregatedTableShowsAll` | app/main.py:89-91 | For a table the aggregator built, every operator is printed, in table order (first-seen order, by `Aggregator.FoldOrderFirstSeen`). |
| `Formatter.DailyReport` | app/main.py:131-135 | Aggregation followed by formatting gives "no data" iff no record has a truthy user id. Otherwise there is one block per operator, in table order (first-seen order, by `Aggregator.FoldOrderFirstSeen`). Each block shows that operator's record count, successes, success rate, whole minutes of summed durations, average, last name, and numbers of outgoing and incoming records. |
| `Formatter.TwoCallsExample` | app/main.py:45-104 | Two calls of one operator (60 s successful incoming, 30 s outgoing without result group) give 2 calls, 1 success at a rate of 100/2 = 50 %, 90 s in total, 1 whole minute, and one call of each direction. |

## Left out

- Fetching the token and the report, and sending the message (`get_calls_report`, `get_skorozvon_token`, `send_to_telegram`): outbound HTTP with exceptions turned into `None`/`False`. This is foreign I/O. The report fetch appears only as its result, an optional `ReportData`.
- `generate_daily_report`: the wall clock, the previous-day window, `strftime` and the logging. `Formatter.DailyReport` covers its aggregate-then-format step, with the date string as a parameter.
- `main`: the `schedule` registration and the endless polling loop, which never terminates.
- `app/config.py`: environment lookups with two defaults.
- Formatter.BlockOf: the success rate and the average duration are Python floats printed with `:.1f`. The model keeps them as exact fractions and does not model binary floating point or decimal rounding.
- Formatter.FormatStatsMessage: returns the structure of the message, not its text. The header, emoji, HTML tags and line layout are not modelled, and neither is the exact "no data" wording.
- User ids other than integers and strings (floats, booleans, lists) and Python's cross-type key equality (`1 == True == 1.0`) are not modelled.
- Input that makes the source raise is not modelled: `user` present but `null`, a `duration` that is `null` or a string, a truthy `scenario_result_group` that is not an object, a `title` that is a number or `null`, and `data` that is `null` or holds a record that is not an object. In the model each record field is either absent or present with the expected type.
- Float and boolean durations are not modelled. The source adds them without error (app/main.py:69). A float makes the total a float, so `// 60` prints e.g. "1.0" minutes (app/main.py:99), and `True` counts as one second. The model takes every duration as an integer number of seconds.
- A result group that is missing, `null`, empty or without `title` is one case in the model (`resultTitle == None`). In the source all of these mean "not successful".
- Each entry is updated through an alias to the dict's inner entry. The model reads the entry, updates it as a value and writes it back.
