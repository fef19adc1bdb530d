# Hong Kong airport flight-delay pipeline, modelled in Dafny

`airport.py` collects the past arrivals and departures of Hong Kong
International Airport from daily records. `FlightAnalyser.fetch_arrival` and
`fetch_departure` query the airport once per date, from `lower_bound.date()`
for `interval + 1` consecutive dates. In each date's records they skip
buckets labelled with another date. They turn every flight group whose
status reports the event into a `Flight`. An arrival's status reports the
event when it splits into at least three whitespace-separated tokens and the
first two are "At" and "gate". The third token is the time. With exactly four
tokens the last one is read as the date "(DD/MM/YYYY)". With any other count,
e.g. "At gate 09:15 Gate 5", the query date is used. A departure's status
reports the event when it has at least two tokens and the first is "Dep". The
second token is the time, and with exactly three tokens the last one is the
date. An unreadable time or date token in a status that reports the event
raises; it is not skipped.

A flight is kept when its actual time lies in `[lower_bound, upper_bound]`.
Departures in static mode skip this test. The kept flights are collected
into a set keyed by `Flight.__hash__` and returned sorted by actual time.
The solvers then compute each flight's delay in whole minutes, drop outliers
with `correct_data`, and count delays per minute for the histogram.

The model is split into modules:

- `Text`: `str.split`, `str.join`, `int()` and zero-padded printing.
- `Calendar`: proleptic Gregorian dates, `toordinal`, and instants as
  seconds since 0001-01-01T00:00:00+08:00.
- `Flights`: the `Flight` record, `__lt__`, the hash key, set insertion and
  sorting.
- `Status`: the status parser.
- `Analyser`: the builder, written as a specification function `Analyse`
  plus the imperative loops that are proved to compute it.
- `PostProcess`: delays, `correct_data` and the solver2 histogram.

The record source is a parameter: a function from a date to the buckets it
returns, or `None` when the fetch raises. The current time is a parameter
too, used only in dynamic mode. Static mode uses the fixed date
2023-11-14T23:59:59+08:00.

Duplicates are removed by the five-field key that `Flight.__hash__` hashes:
direction, estimated time, actual time, the airports joined with "-", and the
flight numbers joined with ";". A flight is added only when no flight with
the same key is present. The source's `__eq__` does not behave this way; see
"## Findings".

## Model

| member | source | states |
|---|---|---|
| Flights.MakeFlight | airport.py:81-86 | The flight keeps the direction, both times and the airports as given. It has one identifier per raw code, with the code's "no" and "airline" in order. |
| Flights.SortByAct | airport.py:92-93 | sorted() under `__lt__` (actual time only) returns a permutation of its input in which no flight is earlier than one listed ahead of it. |
| Flights.KeyIgnoresAirlines | airport.py:98-102 | Flights that agree on direction, times, airports and flight numbers have the same hash key, whatever their airlines. |
| Flights.KeyDeterminesFlight | airport.py:98-102 | Conversely, when airports have no '-' and numbers have no ';', equal keys mean equal direction, times, airports and flight numbers. |
| Flights.DedupIsKeySet | airport.py:133 | Adding the flights to the set in order leaves distinct keys and is never longer than the input. Each kept flight is the first of its key, and every input flight's key is present. (Also lines 171, 215.) |
| Flights.InsertKeepsKeySet | airport.py:171 | `set.add` under key equality keeps the keys distinct and leaves the added flight's key present. The set is unchanged exactly when that key was already there; otherwise the flight is appended. The keys afterwards are the old keys plus the new one. (Also line 215.) |
| Flights.SortKeepsDistinctKeys | airport.py:174 | Sorting a set with distinct keys keeps the keys distinct. (Also line 217.) |
| Flights.SortKeepsMembers | airport.py:174 | Sorting keeps exactly the same flights, and so the same keys. (Also line 217.) |
| Flights.AsWrittenKeepsDuplicates | airport.py:95-96 | Under the as-written `__eq__`, one group reported twice stays in the set twice, under a single key. Insertion by key keeps one copy. |
| Text.SplitKeepsText | airport.py:151 | `str.split()` loses exactly the whitespace: the tokens concatenated give the input's non-space characters. (Also line 198.) |
| Text.SplitJoin | airport.py:151 | Whitespace-free tokens joined with single spaces split back into the same tokens. (Also line 198.) |
| Text.JoinSplitOn | airport.py:159 | `'/'.join(s.split('/')) == s`. (Also line 206.) |
| Text.SplitOnJoin | airport.py:159 | Parts without '/', joined with '/', split back into the same parts. (Also line 206.) |
| Text.ParsePadded | airport.py:159 | `int()` reads back every zero-padded decimal the airport prints. (Also line 206.) |
| Calendar.NextDayOrdinal | airport.py:137 | Adding one day adds one to the ordinal. (Also line 188.) |
| Calendar.OrdinalInjective | airport.py:137 | Different dates have different ordinals. (Also line 188.) |
| Calendar.FromOrdinalOf | airport.py:137 | `fromordinal` undoes `toordinal`. (Also line 188.) |
| Calendar.PythonDateOrdinal | airport.py:160 | `date(y, m, d)` accepts a well-formed date exactly when its ordinal is at most that of 9999-12-31. (Also line 207.) |
| Calendar.DateOfBounds | airport.py:137 | An instant lies within the day that `.date()` names for it. (Also line 188.) |
| Calendar.DateOfInstant | airport.py:148 | The instant "<date>T<hh:mm>:00+08:00" lies on that date. (Also lines 163, 166.) |
| Calendar.ParseClockText | airport.py:148 | Every "HH:MM" time of day is read back as that many seconds after midnight. (Also lines 163, 166.) |
| Status.ParseIntsSpec | airport.py:159 | `list(map(int, parts))` succeeds exactly when every part converts, and then holds the converted parts in order. (Also line 206.) |
| Status.DecodeDateToken | airport.py:159-160 | A decoded date is one `date()` accepts. A token without any digit raises ValueError, as `int()` does. (Also lines 206-207.) |
| Status.DecodeDateTokenIntError | airport.py:159 | The date token raises the `int()` error exactly when one of its '/'-separated parts is not an integer literal, e.g. "(1x/11/2023)". (Also line 206.) |
| Status.DecodeDateTokenRoundTrip | airport.py:159-160 | Every "(DD/MM/YYYY)" token printed for a representable date decodes to that date. (Also lines 206-207.) |
| Status.ActualTime | airport.py:156-166 | There is a time exactly when the clock token reads and, with the date token present, the date decodes. The date is decoded first and its error wins. The time lies on the decoded date (or on the query date) at the clock's offset. (Also lines 204-211.) |
| Status.AtGateTokens | airport.py:154 | For whitespace-free tokens, `tokens[0] + ' ' + tokens[1] == "At gate"` holds exactly when the tokens are "At" and "gate". |
| Status.ArrivalActual | airport.py:151-166 | No event exactly when the status is not "At gate …". Otherwise the result, or the error, is the actual time read from token 2. |
| Status.DepartureActual | airport.py:198-211 | No event exactly when the status is not "Dep …". Otherwise the result, or the error, is the actual time read from token 1. |
| Status.OneWordNoEvent | airport.py:154 | A one-word status reports no event in either direction. (Also line 202.) |
| Status.ArrivalSameDayExample | airport.py:154-166 | "At gate 09:15" on 2023-11-01 gives 2023-11-01T09:15+08:00. |
| Status.ArrivalNextDayExample | airport.py:156-163 | "At gate 00:05 (02/11/2023)" gives 2023-11-02T00:05+08:00. |
| Status.NoEventExamples | airport.py:154 | "Cancelled", "" and "Boarding" report no event. (Also line 202.) |
| Status.DepartureExample | airport.py:202-211 | "Dep 14:30" on 2023-11-01 gives 2023-11-01T14:30+08:00. |
| Status.NonNumericDateExample | airport.py:159 | "At gate 00:05 (xx/yy/zzzz)" raises the `int()` error. |
| Analyser.WindowOf | airport.py:134-136 | The window runs from `today - interval days` to `today`. It is enforced for arrivals always and for departures only in dynamic mode. (Also lines 169, 185-187, 213.) |
| Analyser.GroupFlightSpec | airport.py:146-171 | An unreadable "time" raises first, then a status error. No event, or an event outside the window, adds nothing. Otherwise the flight carries the direction, the "time" on the query date, the status's actual time, and the group's airports and codes. (Also lines 195-215.) |
| Analyser.GroupOutcomeSpec | airport.py:146-171 | The same contract, stated for any clock and status outcome. (Also lines 195-215.) |
| Analyser.GroupsErrorPrefix | airport.py:146-171 | Once the groups scanned so far raise, the whole group scan raises the same error. (Also lines 195-215.) |
| Analyser.BucketsErrorPrefix | airport.py:140-171 | Once the buckets scanned so far raise, the whole bucket scan raises the same error. (Also lines 191-215.) |
| Analyser.DatesErrorPrefix | airport.py:137-171 | Once the dates scanned so far raise, the whole date scan raises the same error. (Also lines 188-215.) |
| Analyser.GroupsMembers | airport.py:146-171 | The flights of a bucket are exactly those its groups yield. |
| Analyser.BucketsMembers | airport.py:140-143 | The flights of a date are exactly those yielded by groups of buckets labelled with that date. (Also lines 191-192.) |
| Analyser.DatesMembers | airport.py:137-139 | The collected flights are exactly those yielded on some queried date whose fetch succeeded. (Also lines 188-190.) |
| Analyser.LabelledMembers | airport.py:142-143 | The kept buckets are exactly those whose "date" equals the query date's ISO text. (Also lines 192-193.) |
| Analyser.BucketFilter | airport.py:142-143 | Scanning all buckets gives the same result, flights or error, as scanning only the labelled ones. (Also lines 192-193.) |
| Analyser.NoLabelledBucket | airport.py:142-143 | A date whose buckets all carry other labels contributes neither flights nor an error. |
| Analyser.DatesFrom | airport.py:137 | `count` dates whose ordinals run consecutively from the start date. (Also line 188.) |
| Analyser.QueryDates | airport.py:137 | `interval + 1` well-formed dates, or none when the interval is negative. (Also line 188.) |
| Analyser.QueryDatesFirst | airport.py:137 | The first queried date is `lower_bound.date()`. (Also line 188.) |
| Analyser.QueryDatesConsecutive | airport.py:137 | Each queried date is the day after the previous one. (Also line 188.) |
| Analyser.DateOfShift | airport.py:135 | An instant `n` whole days after the lower bound falls on the date `n` ordinals later. (Also line 137.) |
| Analyser.QueryDatesAt | airport.py:137 | An instant between the bounds falls on the queried date as many places on as whole days separate it from the lower bound's day. (Also line 169.) |
| Analyser.QueryDatesCover | airport.py:135-137 | The last queried date is the date of `upper_bound`, and every instant in the window falls on a queried date. (Also lines 186-188.) |
| Analyser.QueryDatesRepresentable | airport.py:137 | When the upper bound is a representable datetime, every queried date is a representable date. (Also line 188.) |
| Analyser.FixedNowDate | airport.py:108 | The static reference time is a valid datetime on 2023-11-14. |
| Analyser.ScanGroups | airport.py:146-171 | The group loop returns the first error, or the set extended with the flights the groups yield. (Also lines 195-215.) |
| Analyser.ScanBuckets | airport.py:140-171 | The bucket loop skips other dates' buckets and returns the first error, or the set extended with the day's flights. (Also lines 191-215.) |
| Analyser.ScanDates | airport.py:133-171 | The date loop fetches every queried date in order. A failed fetch or scan raises; otherwise it returns the set of all flights. (Also lines 184-215.) |
| Analyser.FetchFlights | airport.py:127-175 | The method computes `Analyse`: a datetime overflow for the lower bound, the first error, or the deduplicated flights sorted by actual time. (Also lines 177-218.) |
| Analyser.AnalyseResult | airport.py:133-175 | The result is sorted with distinct keys. Every flight in it is yielded by a group of a queried date, and every yielded flight has its key in it. (Also lines 184-218.) |
| Analyser.YieldedFlight | airport.py:146-171 | A yielded flight has the direction's flag, lies in the window, and has its estimated date among the queried dates. (Also lines 195-215.) |
| Analyser.FetchArrival | airport.py:127-175 | Arrivals with actual time in `[lower_bound, upper_bound]`, sorted, one per key. |
| Analyser.FetchDeparture | airport.py:177-218 | Departures, sorted, one per key, and inside the window in dynamic mode. |
| PostProcess.DelayMinutes | airport.py:312 | The delay `m` satisfies `60m <= act - est < 60m + 60`, that is floor((act - est) / 60), negative delays included. (Also lines 343, 385.) |
| PostProcess.Delays | airport.py:312 | One delay per flight, in list order. (Also lines 343, 385.) |
| PostProcess.DelayOfWholeMinutes | airport.py:312 | Times exactly `n` minutes apart give a delay of `n`. |
| PostProcess.InRangeSubsequence | airport.py:117-121 | The filter keeps a value exactly when `lb <= v <= rb`, in the original order, as a subsequence of the input. |
| PostProcess.InRangeCounts | airport.py:117-121 | Each value in range occurs as often as in the input; values out of range never occur. |
| PostProcess.CorrectData | airport.py:110-121 | Fewer than two delays raise, as `stdev` does. Otherwise the result is the in-range filter, and all of its values lie in `[lb, rb]`. |
| PostProcess.SeqMin | airport.py:346 | `min()`: a member that is no larger than any other. |
| PostProcess.SeqMax | airport.py:346 | `max()`: a member that is no smaller than any other. |
| PostProcess.Histogram | airport.py:345-350 | An empty delay list raises. Otherwise the counter has exactly the keys from min to max, each holding how many delays equal it. |
| PostProcess.HistogramTotal | airport.py:345-350 | The counter's values add up to the number of delays. |

## Left out

- The `Fetcher` class, with its file reads, HTTP requests and event loop, is not modelled. Its results are the `Source` parameter, and a raised fetch is `FetchFailed`.
- `datetime.now()` is not modelled. In dynamic mode the reference time is a parameter.
- Analyser.WindowOf: the dynamic-mode reference time `now` is in whole seconds, whereas `datetime.now()` carries microseconds. With `now` taken as the whole second below the real time, the upper edge `act_time <= upper_bound` is decided exactly. At the lower edge, however, an `act_time` equal to the whole second of `lower_bound` is accepted by the model but rejected by the source when the microseconds are non-zero. That sub-second edge is not modelled.
- The `tz` argument of `fetch_arrival`/`fetch_departure` is not modelled. Every caller uses 8, and the model fixes the offset at +08:00.
- A bucket or group missing a JSON key (`KeyError`) is not modelled, nor is a value of the wrong JSON type. Records are typed.
- `correct_data`'s bounds are given as inputs. The floating-point mean and standard deviation they come from are not modelled.
- The statistics table of solver1, the plots and the normal fit of solver2, and solver3's numpy binning are not modelled. These are floating-point or plotting library calls. The integer delays and the counter they consume are modelled.
- The commented-out block of `airport.py` (224-289) is not modelled, because it is not executed.
- `CustomEncoder` (JSON export) and `main.py` are not part of this model.
- Text.ParseInt: non-ASCII digits and surrounding whitespace, both of which `int()` also accepts, are not modelled. The status tokens never contain whitespace.
- Calendar.ParseClock: only "HH:MM" and "HH" clock texts are read. Other ISO 8601 time spellings that `datetime.fromisoformat` accepts are treated as errors.
- Flights.SortByAct: the order among flights with equal actual time depends on the set's iteration order in the source. The model fixes it as first-insertion order and proves only sortedness, permutation and distinct keys.
- Flights.Insert: duplicates are removed by the hash key, as the hash function's own comment intends, rather than by the as-written `__eq__`. See "## Findings".

## Findings

| source | as written | input that shows it | evidently intended | confidence | as-written member | corrected member |
|---|---|---|---|---|---|---|
| airport.py:95-96 | `__eq__` compares `__dict__`. Each `Flight` builds fresh `FlightIdentifier` objects without `__eq__`, so two flights with any flight code are never equal, and the set keeps duplicates. | The same group (CX 501 from NRT, at gate at the same time) listed twice for the query date: both `Flight`s stay in the set. | Flights with the same hash key are one flight, as the comment on `__hash__` says the set should store them. | not executed | Flights.AsWrittenKeepsDuplicates | Flights.DedupIsKeySet |
