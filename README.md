# FlightTracker: the historical-data pipeline in Dafny

FlightTracker is an Android app. It shows live AviationStack telemetry for a flight, and it
computes the average duration of the DEL → BOM route from data it collects itself. This project
models the collection and aggregation core of the app and proves its properties:

- **The collection job** (`FlightDataCollectorWorker.doWork`). The job visits the seven days
  before today, most recent first.
  - A day whose (route, date) count already reaches 3 is skipped without an API call.
  - Otherwise the job fetches up to 5 landed flights for that day. It keeps the entries that
    name the flight and both airports and whose two scheduled times parse.
  - An actual time falls back from actual to estimated to scheduled.
  - The job stops accepting entries once the day holds 3. Each day gets at most one batch
    insert.
  - A 429 ends the job with Retry. Any other error status moves on to the next day.
  - After the seventh day, rows captured more than seven days ago are purged and the result is
    Success.
- **The record store** (`FlightRecordDao`): the `flight_history` table.
  - `FlightRecordDao.FlightHistory` is a class holding the rows and the next auto-increment key.
    Its insert and delete methods update them in place.
  - The SELECT queries are functions of the rows.
  - `Table` is the same state as a value, so that the job can be specified as a function of
    it.
- **The record** (`FlightRecord`) and its `actualDurationMinutes` getter. The getter uses
  Kotlin's truncating `Long` division.
- **The repository decision logic** (`FlightRepository`).
  - The average route duration is an exact `real`.
  - The live lookup chooses which entry's telemetry to show and handles the not-found cases.
  - A failed call is classified as rate-limited, invalid-key or other.

## How the model is built

The network, the clock, the calendar and the java.time ISO parser are all parameters of the
model:
- The API is a function from the query to an `ApiResponse`: `Ok(body)`, `Err(code, message,
  errorBody)`, or `NetworkFailure`. `NetworkFailure` stands for an exception escaping the call.
- `dateOf(i)` is the ISO date `i` days before today.
- `now` is the clock.
- `parse` is the ISO 8601 offset date-time parser: a total `string -> Option<int>`.

The job exists twice:
- `FlightDataCollector.Collect` is a function of the table and the environment.
- `FlightDataCollector.DoWork` runs the job step by step against a `FlightHistory` object. It is
  built from `CollectDay`, the loop body; `CleanUp`, the purge; and `CollectDays`, the loop.
  The inner loop over one response is `CollectBatch`.
- Each method's `ensures` ties its result and the object's new state to the function.

Besides its result, the job returns its **trace**: the fetches, inserts and purge in the order
they happen. The trace is what makes properties like "no call for a full day", "one insert per
day, never empty" and "no purge after a 429" statable.

Two behaviours of the code are worth stating outright:
- **Rate limiting.** The worker retries only on status 429 (app/src/main/java/com/example/flighttracker/FlightDataCollectorWorker.kt:125).
  Any other error status moves on to the next date, whatever its body says. The live lookup also
  treats a body containing "usage limits" as rate limiting (app/src/main/java/com/example/flighttracker/FlightRepository.kt:56).
  `OtherErrorMovesOn` and `UsageLimitBodyIsNotRetried` state the difference.
- **Deduplication.** Nothing deduplicates across runs except the pre-check count
  (app/src/main/java/com/example/flighttracker/FlightDataCollectorWorker.kt:53-58). Records are inserted with id 0, so every insert gets
  a fresh key and REPLACE never fires for them.
  - The stored origin and destination are the API's own `departure.iata` and `arrival.iata`.
    The stored date is the API's `flight_date` when present, else the target date
    (app/src/main/java/com/example/flighttracker/FlightDataCollectorWorker.kt:96-99).
  - So a record stored while fetching one date need not count for that date
    (`ForeignRecordIsNotCounted`). A later run that reaches that date while its count is still
    below 3 fetches it again (`DayBelowTargetFetches`).

Auto keys: `@PrimaryKey(autoGenerate = true)` (app/src/main/java/com/example/flighttracker/FlightRecord.kt:13-14) makes Room declare the
key `INTEGER PRIMARY KEY AUTOINCREMENT`. SQLite then never reuses a key, and it keeps its
sequence above any key inserted explicitly. `FlightRecordDao.Upsert` does the same with its
counter: it starts at 1, gives each id-0 insert the next value, and moves above any larger
explicit key.

## Model

| member | source | states |
|---|---|---|
| FlightDataCollector.DoWork | app/src/main/java/com/example/flighttracker/FlightDataCollectorWorker.kt:39-150 | Running the job against the store yields the result, the trace and the final table of `Collect` on the store's old state. The store stays valid. |
| FlightDataCollector.Collect | app/src/main/java/com/example/flighttracker/FlightDataCollectorWorker.kt:39-150 | The job as a function of the table: a missing key gives Failure with no event and the table unchanged. A run past the key check always has at least one event. |
| FlightDataCollector.DaysFrom | app/src/main/java/com/example/flighttracker/FlightDataCollectorWorker.kt:49-142 | The days from `i` on, then the purge. Its properties are stated by `DaysFromEnds`, `DaysFromTrace`, `DaysFromRows` and `DaysFromSkipsFullDate`. |
| FlightDataCollector.Day | app/src/main/java/com/example/flighttracker/FlightDataCollectorWorker.kt:50-131 | One day: the pre-check, the fetch, the batch insert and the reaction to an error. Its properties are stated by `DayEnds`, `DayRows`, `DayTrace` and `DayFetchesOnlyItself`. |
| FlightDataCollector.FullDayIsSkipped | app/src/main/java/com/example/flighttracker/FlightDataCollectorWorker.kt:53-58 | A date that already holds 3 route rows is passed over: the run goes on with the next day, with no event and no change to the table. |
| FlightDataCollector.FullDateIsNeverFetched | app/src/main/java/com/example/flighttracker/FlightDataCollectorWorker.kt:53-58 | A date that holds 3 route rows when the job starts gets no API call in that run, whatever happens on the other dates. |
| FlightDataCollector.DaysFromSkipsFullDate | app/src/main/java/com/example/flighttracker/FlightDataCollectorWorker.kt:49-142 | From day `i` on, the run adds no fetch for a day whose date already holds the target. |
| FlightDataCollector.DayFetchesOnlyItself | app/src/main/java/com/example/flighttracker/FlightDataCollectorWorker.kt:53-68 | A day extends the trace, and its one fetch is for itself and only when its date is below the target. |
| FlightDataCollector.RouteDateCountGrows | app/src/main/java/com/example/flighttracker/FlightDataCollectorWorker.kt:54 | Rows appended behind the old ones never lower a date's pre-check count. |
| FlightDataCollector.ToRecord | app/src/main/java/com/example/flighttracker/FlightDataCollectorWorker.kt:81-104 | An accepted entry has all the essential fields. Its record has id 0, is captured now and has both scheduled times. |
| FlightDataCollector.DataOrEmpty | app/src/main/java/com/example/flighttracker/FlightDataCollectorWorker.kt:71 | A null body or a null list is the empty list. Otherwise it is the list itself. |
| FlightDataCollector.BatchStep | app/src/main/java/com/example/flighttracker/FlightDataCollectorWorker.kt:77-106 | One step of the inner loop: the remaining batch is the entry's record, if it has one, followed by the batch of the rest. |
| FlightDataCollector.CollectDays | app/src/main/java/com/example/flighttracker/FlightDataCollectorWorker.kt:46-142 | The loop over days 1..7 followed by the purge. The invariant keeps what is left of the run equal to `DaysFrom` from the current day. |
| FlightDataCollector.CollectDay | app/src/main/java/com/example/flighttracker/FlightDataCollectorWorker.kt:50-131 | One iteration of the day loop. Either it continues, and the rest of the run is `DaysFrom` the next day, or it ends the run with its own result, table and trace. |
| FlightDataCollector.CleanUp | app/src/main/java/com/example/flighttracker/FlightDataCollectorWorker.kt:134-142 | The purge at now minus seven days. It records the number of rows deleted and ends the run with Success. |
| FlightDataCollector.CollectBatch | app/src/main/java/com/example/flighttracker/FlightDataCollectorWorker.kt:74-113 | The inner loop, with its early `break` at the target, builds exactly `Batch` of the response. |
| FlightDataCollector.Batch | app/src/main/java/com/example/flighttracker/FlightDataCollectorWorker.kt:74-113 | A day gets at most `3 - existing` new records, and none once the day is full. Each record has the auto key, is captured now and has both scheduled times. |
| FlightDataCollector.BatchTakesFirstAccepted | app/src/main/java/com/example/flighttracker/FlightDataCollectorWorker.kt:77-106 | The batch is exactly the first `3 - existing` qualifying records in response order. It is all of them when fewer qualify. |
| FlightDataCollector.AcceptedFromResponse | app/src/main/java/com/example/flighttracker/FlightDataCollectorWorker.kt:77-106 | Every accepted record is the conversion of some entry of the response. |
| FlightDataCollector.ToRecordFields | app/src/main/java/com/example/flighttracker/FlightDataCollectorWorker.kt:81-104 | An entry yields a record iff flight, departure and arrival IATA and both scheduled strings are present and both scheduled times parse. The record has the API's date when present, else the target date, and the API's airports. Its actual times are parsed from actual, else estimated, else scheduled. It has the auto key and is captured now. |
| FlightDataCollector.CollectOutcome | app/src/main/java/com/example/flighttracker/FlightDataCollectorWorker.kt:39-150 | The trace is well formed. It is empty iff the key is missing, and then the result is Failure and the table is unchanged. Success, Retry and Failure hold exactly when the trace ends in the purge, a fetch answered 429, or a failed fetch. A run that is not a Success keeps the old rows as a prefix and purges nothing. A Success keeps only rows captured within seven days. Every final row was there before or was captured by this run. |
| FlightDataCollector.DaysFromTrace | app/src/main/java/com/example/flighttracker/FlightDataCollectorWorker.kt:49-142 | Each event is one the job can produce at that place. Fetch days strictly increase, from 1 to 7, each with the query for that date and an existing count below 3. An insert follows its own day's fetch, is non-empty, fits the day's room and holds only fresh captures. The purge comes last, at now minus seven days. |
| FlightDataCollector.DaysFromEnds | app/src/main/java/com/example/flighttracker/FlightDataCollectorWorker.kt:120-142 | Each day's run extends the trace so far. The result is Success, Retry or Failure exactly when the last event is the purge, a 429 fetch, or a fetch that raised. |
| FlightDataCollector.DayEnds | app/src/main/java/com/example/flighttracker/FlightDataCollectorWorker.kt:120-129 | Only a fetch can stop a day: with Retry on a 429, with Failure on an exception, never with Success. |
| FlightDataCollector.DaysFromRows | app/src/main/java/com/example/flighttracker/FlightDataCollectorWorker.kt:105-142 | Rows come from the old table or from this run. A run that stops early keeps the rows the earlier days left. The purge leaves only rows with `recordedAtMillis >= now - 7 days`. |
| FlightDataCollector.DayRows | app/src/main/java/com/example/flighttracker/FlightDataCollectorWorker.kt:115-117 | One day's insert appends rows behind the old ones, and all of them are captured now. |
| FlightDataCollector.DayBelowTargetFetches | app/src/main/java/com/example/flighttracker/FlightDataCollectorWorker.kt:53-68 | A day whose date holds fewer than 3 route rows makes its fetch next, for its own date and with the query for that date. |
| FlightDataCollector.DayStoresItsBatch | app/src/main/java/com/example/flighttracker/FlightDataCollectorWorker.kt:105-117 | The rows a day adds are exactly the batch of its `Insert` event, numbered from the next key and appended behind the old rows. They number at least 1 and at most `3 - existing`. A day without an insert leaves the table unchanged. |
| FlightDataCollector.InsertedRows | app/src/main/java/com/example/flighttracker/FlightDataCollectorWorker.kt:115-117 | Inserting fresh captures keeps the old rows as a prefix and adds only rows captured now. |
| FlightDataCollector.PurgedRows | app/src/main/java/com/example/flighttracker/FlightDataCollectorWorker.kt:135-136 | The purge keeps only old rows captured at or after the threshold. |
| FlightDataCollector.CleanupOnlyLast | app/src/main/java/com/example/flighttracker/FlightDataCollectorWorker.kt:125-142 | A well-formed trace that does not end in the purge contains no purge. |
| FlightDataCollector.OneInsertPerDay | app/src/main/java/com/example/flighttracker/FlightDataCollectorWorker.kt:115-116 | `insertAll` runs at most once per date. Insert days strictly increase along the trace. |
| FlightDataCollector.FullDaysAreSkipped | app/src/main/java/com/example/flighttracker/FlightDataCollectorWorker.kt:53-58 | When every remaining date already holds 3 rows, no API call is made and the run is the purge alone. |
| FlightDataCollector.NothingToFetch | app/src/main/java/com/example/flighttracker/FlightDataCollectorWorker.kt:48-58 | With a key and all seven dates full, the whole job is one purge event and Success. |
| FlightDataCollector.RateLimitStopsTheJob | app/src/main/java/com/example/flighttracker/FlightDataCollectorWorker.kt:125-127 | A 429 on day `i` ends the job with Retry and the table the earlier days left. The trace ends with that fetch: no later date and no purge. |
| FlightDataCollector.OtherErrorMovesOn | app/src/main/java/com/example/flighttracker/FlightDataCollectorWorker.kt:120-129 | Any non-429 error continues with the next date, whatever its body says. The live-lookup classification would call the same non-429 answer rate-limited iff its body contains "usage limits". |
| FlightDataCollector.UsageLimitBodyIsNotRetried | app/src/main/java/com/example/flighttracker/FlightDataCollectorWorker.kt:125 | A 401 whose body reports exhausted usage limits: the worker moves on, while the repository classifies it as rate-limited. |
| FlightDataCollector.ForeignRecordIsNotCounted | app/src/main/java/com/example/flighttracker/FlightDataCollectorWorker.kt:96-99 | A record whose API origin, destination or date differs from (DEL, BOM, target date) does not raise the pre-check count of the target date. |
| AviationStack.KeyMissingCases | app/src/main/java/com/example/flighttracker/FlightDataCollectorWorker.kt:41-44 | The empty key, a whitespace key and the quoted empty key `""` count as missing. `k3y` and a lone quote do not. |
| AviationStack.KeyMissing | app/src/main/java/com/example/flighttracker/FlightDataCollectorWorker.kt:41 | A key is missing when it is blank or is the two-character literal `""`. The same guard is at app/src/main/java/com/example/flighttracker/FlightRepository.kt:22. `KeyMissingCases` states its cases. |
| IsoTimestamps.ParseIsoToUtcMillis | app/src/main/java/com/example/flighttracker/FlightDataCollectorWorker.kt:153-164 | A null timestamp gives null. Otherwise the result is the parser's verdict, with failure as None rather than an exception. |
| IsoTimestamps.ActualOrFallback | app/src/main/java/com/example/flighttracker/FlightDataCollectorWorker.kt:89-91 | The actual string if present, else the estimated one, else the scheduled one. |
| FlightRecords.NewFlightRecord | app/src/main/java/com/example/flighttracker/FlightRecord.kt:13-25 | The constructor with its defaults: id 0, meaning assign on insert, and `recordedAtMillis` set to the capture time. Every other field is as given. |
| FlightRecords.TruncDiv | app/src/main/java/com/example/flighttracker/FlightRecord.kt:30 | Kotlin `Long` division: the remainder is smaller than the divisor in magnitude and has the sign of the dividend. |
| FlightRecords.TruncDivUnique | app/src/main/java/com/example/flighttracker/FlightRecord.kt:30 | That remainder rule determines the quotient uniquely. |
| FlightRecords.ActualDurationMinutes | app/src/main/java/com/example/flighttracker/FlightRecord.kt:27-34 | Null iff one of the two actual times is null. Otherwise it is (arrival − departure) / 60000 truncated toward zero. |
| FlightRecords.DurationDependsOnlyOnActuals | app/src/main/java/com/example/flighttracker/FlightRecord.kt:27-34 | Records that agree on the two actual times have the same duration. |
| FlightRecords.NegativeDurationTruncates | app/src/main/java/com/example/flighttracker/FlightRecord.kt:30 | −90 s gives −1 minute, where Euclidean division would give −2. |
| FlightRecordDao.FlightHistory.InsertFlightRecord | app/src/main/java/com/example/flighttracker/FlightRecordDao.kt:11-12 | The REPLACE insert of one record (`Upsert`). It keeps the unique-key invariant. |
| FlightRecordDao.FlightHistory.InsertAll | app/src/main/java/com/example/flighttracker/FlightRecordDao.kt:14-15 | The records are inserted one after the other (`UpsertAll`). |
| FlightRecordDao.FlightHistory.DeleteRecordsOlderThan | app/src/main/java/com/example/flighttracker/FlightRecordDao.kt:26-27 | Removes the rows captured before the threshold and returns how many it removed. Rows before = removed + rows after. |
| FlightRecordDao.FlightHistory.constructor | app/src/main/java/com/example/flighttracker/FlightRecordDao.kt:9-34 | An empty, valid table whose first auto key is 1. |
| FlightRecordDao.Upsert | app/src/main/java/com/example/flighttracker/FlightRecordDao.kt:11-15 | A single insert keeps keys unique, non-zero and below the next key. The next key never decreases. |
| FlightRecordDao.UpsertAll | app/src/main/java/com/example/flighttracker/FlightRecordDao.kt:14-15 | Inserting a list record by record keeps the keys unique, non-zero and below the next key. |
| FlightRecordDao.UpsertAllFresh | app/src/main/java/com/example/flighttracker/FlightRecordDao.kt:14-15 | Inserting id-0 records appends each one, in order, with consecutive keys starting at the next key. |
| FlightRecordDao.FreshKeysDistinct | app/src/main/java/com/example/flighttracker/FlightRecordDao.kt:14-15 | Such an insert grows the table by the list length and leaves the old rows unchanged. The new keys are distinct from each other and from the existing ones. |
| FlightRecordDao.UpsertReplaces | app/src/main/java/com/example/flighttracker/FlightRecordDao.kt:11-12 | A record whose key is present replaces that row wholesale. Every other row and the key counter stay as they were. |
| FlightRecordDao.GetFlightsBetween | app/src/main/java/com/example/flighttracker/FlightRecordDao.kt:17-18 | Exactly the route's rows, with multiplicity, sorted by flight date in non-increasing string order. |
| FlightRecordDao.GetFlightsForRouteOnDate | app/src/main/java/com/example/flighttracker/FlightRecordDao.kt:20-21 | Exactly the rows whose origin, destination and flight date all match, with multiplicity. |
| FlightRecordDao.GetAllRecords | app/src/main/java/com/example/flighttracker/FlightRecordDao.kt:23-24 | A permutation of every row, sorted by `recordedAtMillis` descending. |
| FlightRecordDao.GetValidFlightsForAverage | app/src/main/java/com/example/flighttracker/FlightRecordDao.kt:30-32 | Exactly the route's rows with both actual timestamps non-null, with multiplicity. |
| FlightRecordDao.ValidFlightsAmongRouteFlights | app/src/main/java/com/example/flighttracker/FlightRecordDao.kt:17-32 | The rows used for the average are a sub-multiset of `getFlightsBetween`'s rows. |
| FlightRecordDao.PurgeExact | app/src/main/java/com/example/flighttracker/FlightRecordDao.kt:26-27 | The purge keeps every row captured at or after the threshold, with multiplicity, and no other row. Rows before = deleted + kept. |
| FlightRecordDao.Purge | app/src/main/java/com/example/flighttracker/FlightRecordDao.kt:26-27 | Deleting rows keeps the key invariant. |
| FlightRecordDao.SelectCount | app/src/main/java/com/example/flighttracker/FlightRecordDao.kt:17-32 | A WHERE clause returns each matching row as often as the table holds it, and no other row. |
| FlightRecordDao.SelectAppend | app/src/main/java/com/example/flighttracker/FlightRecordDao.kt:17-32 | Selecting from a concatenation is concatenating the selections. |
| FlightRecordDao.SelectAll | app/src/main/java/com/example/flighttracker/FlightRecordDao.kt:17-32 | A clause every row satisfies returns the rows unchanged and in order. |
| FlightRecordDao.SelectPartition | app/src/main/java/com/example/flighttracker/FlightRecordDao.kt:26-27 | The rows captured before the threshold and those at or after it together are all the rows. |
| FlightRecordDao.Sort | app/src/main/java/com/example/flighttracker/FlightRecordDao.kt:17-24 | ORDER BY … DESC yields a sorted permutation. |
| FlightRecordDao.LexLeTotal | app/src/main/java/com/example/flighttracker/FlightRecordDao.kt:17-18 | The string order of `flightDate` is total. |
| FlightRecordDao.LexLeTransitive | app/src/main/java/com/example/flighttracker/FlightRecordDao.kt:17-18 | The string order of `flightDate` is transitive. |
| FlightRepository.AverageDurationMinutes | app/src/main/java/com/example/flighttracker/FlightRepository.kt:83-98 | Absent exactly when there is no valid record, so it is never 0 for lack of data. |
| FlightRepository.AverageIsMean | app/src/main/java/com/example/flighttracker/FlightRepository.kt:88-96 | Average × 60000 × n = Σ(arrival − departure): the exact mean in minutes. |
| FlightRepository.CalculateAverageDurationMinutes | app/src/main/java/com/example/flighttracker/FlightRepository.kt:78-102 | Null iff no row of the route has both actual times. |
| FlightRepository.AverageWithinDurations | app/src/main/java/com/example/flighttracker/FlightRepository.kt:88-96 | The average lies between the shortest and the longest duration. |
| FlightRepository.DurationMillis | app/src/main/java/com/example/flighttracker/FlightRepository.kt:88-91 | One record's term of the `sumOf`: actual arrival minus actual departure, with 0 for a null time. `DurationMatchesGetter` ties it to the record's getter. |
| FlightRepository.DurationMatchesGetter | app/src/main/java/com/example/flighttracker/FlightRepository.kt:88-91 | For a record with both actual times, the `sumOf` term is the duration that `actualDurationMinutes` truncates. The two differ by less than one minute's worth of milliseconds. |
| FlightRepository.SumDurationMillis | app/src/main/java/com/example/flighttracker/FlightRepository.kt:88-91 | The `sumOf` over the valid records. `SumAppend` and `SumBounds` state its properties. |
| FlightRepository.SumBounds | app/src/main/java/com/example/flighttracker/FlightRepository.kt:88-91 | When every duration lies in [lo, hi], the sum over n records lies in [lo·n, hi·n]. |
| FlightRepository.SumAppend | app/src/main/java/com/example/flighttracker/FlightRepository.kt:88-91 | The `sumOf` over a concatenation is the sum of the two sums. |
| FlightRepository.AverageIgnoresRecordWithoutArrival | app/src/main/java/com/example/flighttracker/FlightRepository.kt:81-98 | Adding a record without an actual arrival leaves the average unchanged. |
| FlightRepository.SeedAverage | app/src/main/java/com/example/flighttracker/MainApplication.kt:93-132 | The four seeded records average to 310/3 = 103.33… minutes. The fourth record, which has no actual arrival, is excluded. |
| FlightRepository.SeedSum | app/src/main/java/com/example/flighttracker/MainApplication.kt:93-122 | The first three seeded durations, 105, 95 and 110 minutes, total 18,600,000 ms. |
| FlightRepository.ClassifyApiError | app/src/main/java/com/example/flighttracker/FlightRepository.kt:56-62 | Rate-limited iff the status is 429 or the body contains "usage limits". Invalid key iff not rate-limited and the status is 401 or 101 or the body contains "invalid_access_key". |
| FlightRepository.RateLimitTakesPrecedence | app/src/main/java/com/example/flighttracker/FlightRepository.kt:56-59 | A 401 whose body mentions usage limits is rate-limited, not invalid-key. |
| FlightRepository.ContainsWindow | app/src/main/java/com/example/flighttracker/FlightRepository.kt:56-58 | `contains` holds iff the phrase occurs as a contiguous substring. |
| FlightRepository.FindFirst | app/src/main/java/com/example/flighttracker/FlightRepository.kt:37-38 | `find` returns the first entry meeting the criterion, or nothing when none does. |
| FlightRepository.SelectLive | app/src/main/java/com/example/flighttracker/FlightRepository.kt:37-40 | Telemetry is chosen iff some entry carries telemetry. |
| FlightRepository.LiveDataFromFlights | app/src/main/java/com/example/flighttracker/FlightRepository.kt:32-46 | A null or empty list gives FlightNotFound with no data. A success returns the telemetry of some entry of the list. |
| FlightRepository.PrefersFirstActiveWithLive | app/src/main/java/com/example/flighttracker/FlightRepository.kt:37 | The first active entry that has telemetry wins. |
| FlightRepository.FallsBackToFirstLive | app/src/main/java/com/example/flighttracker/FlightRepository.kt:38 | Without an active entry that has telemetry, the first entry with telemetry is used. |
| FlightRepository.NoTelemetryReportsFirstStatus | app/src/main/java/com/example/flighttracker/FlightRepository.kt:43-45 | With no telemetry anywhere, the result is FlightNotFound naming the first entry's status, or "unknown" when it has none. |
| FlightRepository.GetFlightLiveData | app/src/main/java/com/example/flighttracker/FlightRepository.kt:20-64 | A missing key fails before any call. A 2xx is decided by the list alone. An error response is rate-limited iff 429 or "usage limits" is in the body. It is invalid-key iff not rate-limited and 401, 101 or "invalid_access_key". Otherwise it is a generic error carrying the code, the message and the body, with "No details" for an absent body. A transport exception becomes a network error. |
| FlightRepository.PicksActiveEntry | app/src/main/java/com/example/flighttracker/FlightRepository.kt:36-41 | A scheduled entry without telemetry followed by an active one with telemetry: the active one's telemetry is returned. |

## Left out

- I/O, logging and pacing: the `println` calls and the one-second `delay` between days do not
  affect any result or the store, so they are not modelled.
- The clock and the calendar:
  - `LocalDate.now()` and `System.currentTimeMillis()` are parameters (`dateOf`, `now`).
  - One `now` serves as both the capture time of the new records and the base of the purge
    threshold. The source reads the clock separately for each.
- The java.time ISO 8601 offset date-time parser (section 5.6 of RFC 3339): a parameter. Only
  its totality is modelled: null in gives null out, and failure gives None, never an exception.
- Store failures: the three store calls of the job never fail in the model. These are the
  pre-check query, `insertAll` and the purge (FlightDataCollectorWorker.kt:54, 116 and 136). In the
  source, an exception from any of them reaches the catch at lines 144-148 and gives Failure,
  with the rows of earlier days already stored. So the model has no run that fails after a
  store write, and `CollectOutcome`'s "Success iff the trace ends in the purge" holds only for a
  store that does not fail.
- API exceptions: any exception escaping the API call is one `NetworkFailure` response.
  - For the worker it gives Failure.
  - For the live lookup it gives a network error. The live lookup's separate `HttpException`
    and generic catch clauses are not distinguished from it.
- FlightRepository.AverageDurationMinutes: computed as an exact `real`. It does not model
  `Double` rounding, nor the possible `Long` overflow of the `sumOf`.
- Integer widths: all `Long` and `Int` values are unbounded integers. `Long` overflow in
  timestamps and in the retention constant is not modelled, and neither is the failure of an
  AUTOINCREMENT insert once the largest 64-bit key has been used.
- Row order and tie order:
  - An unordered SELECT returns rows in storage order.
  - ORDER BY DESC ties are broken by the model's insertion sort. SQL leaves both orders open.
- Room and Android plumbing: transactions, the Flow-based observation, the ViewModel polling
  loop, the Compose UI and WorkManager scheduling are outside this model. So are the database,
  Retrofit and Moshi singletons and the build-config file. The access key is a parameter.
- The human-readable text of the error messages, that is the `FlightNotFoundException` and
  `IOException` strings, is represented by structured error values that carry the same data:
  the flight code, the first status, and the code, message and body.
- Concurrency: two job runs racing on the same route and date are outside this sequential model.
