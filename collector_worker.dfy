/**
 * `FlightDataCollectorWorker`: the daily job that tops up the store with landed DEL -> BOM
 * flights for each of the seven days before today, then purges rows captured more than seven
 * days ago. `Collect` is the job as a function of the store's state and its environment;
 * `DoWork` is the job as the source runs it, step by step against the mutable store.
 */
module FlightDataCollector {
  import opened Options
  import opened AviationStack
  import opened IsoTimestamps
  import opened FlightRecords
  import opened FlightRecordDao
  import FlightRepository

  const ORIGIN_IATA := "DEL"
  const DESTINATION_IATA := "BOM"
  const DAYS_TO_FETCH := 7
  const FLIGHTS_PER_DAY_TARGET := 3
  /** The request asks for a little more than the target to absorb filtering losses. */
  const FETCH_LIMIT := FLIGHTS_PER_DAY_TARGET + 2
  const LANDED := "landed"
  const RATE_LIMIT_STATUS := 429
  const RETENTION_MILLIS := DAYS_TO_FETCH * 24 * 60 * 60 * 1000

  datatype WorkResult = Success | Retry | Failure

  /**
   * What the job runs against: the configured access key, the API, the ISO timestamp parser,
   * the calendar (`dateOf(i)` is today minus `i` days in ISO local-date form) and the clock.
   */
  datatype Env = Env(
    apiKey: string,
    api: LandedFlightsQuery -> ApiResponse,
    parse: IsoParser,
    dateOf: int -> string,
    now: int)

  /** The job's interactions with the API and the store, in the order they happen. */
  datatype Event =
    | Fetch(dayOffset: int, existing: int, query: LandedFlightsQuery)
    | Insert(dayOffset: int, batch: seq<FlightRecord>)
    | Cleanup(threshold: int, deleted: int)

  datatype JobRun = JobRun(result: WorkResult, table: Table, events: seq<Event>)

  function QueryFor(apiKey: string, date: string): LandedFlightsQuery {
    LandedFlightsQuery(apiKey, ORIGIN_IATA, DESTINATION_IATA, LANDED, date, FETCH_LIMIT)
  }

  // ---------------------------------------------------------------------------------------------
  // From one API entry to one record.

  /** The entry names the flight, both airports and both scheduled times. */
  predicate HasEssentials(f: FlightData) {
    && f.flight.Some? && f.flight.value.iata.Some?
    && f.departure.Some? && f.departure.value.iata.Some?
    && f.arrival.Some? && f.arrival.value.iata.Some?
    && f.departure.value.scheduled.Some?
    && f.arrival.value.scheduled.Some?
  }

  /** The record the job builds from one entry, when the entry qualifies. */
  function ToRecord(f: FlightData, dateString: string, parse: IsoParser, now: int): (r: Option<FlightRecord>)
    ensures r.Some? ==> HasEssentials(f) && FreshCapture(r.value, now)
  {
    if !HasEssentials(f) then None
    else
      var dep, arr := f.departure.value, f.arrival.value;
      var scheduledDeparture := ParseIsoToUtcMillis(parse, dep.scheduled);
      var actualDeparture := ParseIsoToUtcMillis(parse, ActualOrFallback(dep.actual, dep.estimated, dep.scheduled));
      var scheduledArrival := ParseIsoToUtcMillis(parse, arr.scheduled);
      var actualArrival := ParseIsoToUtcMillis(parse, ActualOrFallback(arr.actual, arr.estimated, arr.scheduled));
      if scheduledDeparture.Some? && scheduledArrival.Some? then
        Some(NewFlightRecord(f.flight.value.iata.value, dep.iata.value, arr.iata.value,
          f.flightDate.GetOr(dateString), scheduledDeparture, actualDeparture,
          scheduledArrival, actualArrival, now))
      else None
  }

  /**
   * An entry yields a record exactly when it names the flight and both airports and both
   * scheduled times parse; the record keeps the API's own date and airports, falls back from
   * actual to estimated to scheduled for the actual times, and is captured now under the auto key.
   */
  lemma ToRecordFields(f: FlightData, dateString: string, parse: IsoParser, now: int)
    ensures var r := ToRecord(f, dateString, parse, now);
      r.Some? <==>
      HasEssentials(f) && parse(f.departure.value.scheduled.value).Some?
      && parse(f.arrival.value.scheduled.value).Some?
    ensures var r := ToRecord(f, dateString, parse, now);
      r.Some? ==>
      var dep, arr := f.departure.value, f.arrival.value;
      && r.value.id == AUTO_ID && r.value.recordedAtMillis == now
      && r.value.flightIata == f.flight.value.iata.value
      && r.value.originIata == dep.iata.value
      && r.value.destinationIata == arr.iata.value
      && r.value.flightDate == f.flightDate.GetOr(dateString)
      && r.value.scheduledDepartureUtcMillis == parse(dep.scheduled.value)
      && r.value.scheduledArrivalUtcMillis == parse(arr.scheduled.value)
      && r.value.actualDepartureUtcMillis
         == ParseIsoToUtcMillis(parse, ActualOrFallback(dep.actual, dep.estimated, dep.scheduled))
      && r.value.actualArrivalUtcMillis
         == ParseIsoToUtcMillis(parse, ActualOrFallback(arr.actual, arr.estimated, arr.scheduled))
  {
  }

  /** `response.body()?.data ?: emptyList()`. */
  function DataOrEmpty(body: Option<AviationStackResponse>): (r: seq<FlightData>)
    ensures body.None? || body.value.data.None? ==> r == []
    ensures body.Some? && body.value.data.Some? ==> r == body.value.data.value
  {
    if body.Some? && body.value.data.Some? then body.value.data.value else []
  }

  /** A record as the job stores it: auto key, captured now, both scheduled times present. */
  predicate FreshCapture(r: FlightRecord, now: int) {
    r.id == AUTO_ID && CapturedAt(r, now)
  }

  /** A row this run stored: captured now, with both scheduled times. */
  predicate CapturedAt(r: FlightRecord, now: int) {
    && r.recordedAtMillis == now
    && r.scheduledDepartureUtcMillis.Some? && r.scheduledArrivalUtcMillis.Some?
  }

  /** One day's batch: qualifying entries in response order until the day holds the target. */
  function Batch(flights: seq<FlightData>, countForDay: int, dateString: string, parse: IsoParser, now: int)
    : (r: seq<FlightRecord>)
    ensures |r| <= if countForDay >= FLIGHTS_PER_DAY_TARGET then 0 else FLIGHTS_PER_DAY_TARGET - countForDay
    ensures forall k :: 0 <= k < |r| ==> FreshCapture(r[k], now)
    decreases |flights|
  {
    if flights == [] || countForDay >= FLIGHTS_PER_DAY_TARGET then []
    else
      match ToRecord(flights[0], dateString, parse, now)
      case Some(record) => [record] + Batch(flights[1..], countForDay + 1, dateString, parse, now)
      case None => Batch(flights[1..], countForDay, dateString, parse, now)
  }

  /** Every record the response would yield if there were no target. */
  function Accepted(flights: seq<FlightData>, dateString: string, parse: IsoParser, now: int)
    : seq<FlightRecord>
  {
    if flights == [] then []
    else
      var rest := Accepted(flights[1..], dateString, parse, now);
      match ToRecord(flights[0], dateString, parse, now)
      case Some(record) => [record] + rest
      case None => rest
  }

  /** `record` is what some entry of `flights` converts to. */
  predicate FromResponse(flights: seq<FlightData>, record: FlightRecord, dateString: string, parse: IsoParser, now: int) {
    exists j :: 0 <= j < |flights| && ToRecord(flights[j], dateString, parse, now) == Some(record)
  }

  /** Each accepted record is the conversion of some entry of the response. */
  lemma {:induction false} AcceptedFromResponse(
    flights: seq<FlightData>, dateString: string, parse: IsoParser, now: int, k: int)
    requires 0 <= k < |Accepted(flights, dateString, parse, now)|
    ensures FromResponse(flights, Accepted(flights, dateString, parse, now)[k], dateString, parse, now)
  {
    var rest := Accepted(flights[1..], dateString, parse, now);
    var rec := ToRecord(flights[0], dateString, parse, now);
    if rec.Some? && k == 0 {
      assert ToRecord(flights[0], dateString, parse, now) == Some(Accepted(flights, dateString, parse, now)[k]);
    } else {
      var k' := if rec.Some? then k - 1 else k;
      assert Accepted(flights, dateString, parse, now)[k] == rest[k'];
      AcceptedFromResponse(flights[1..], dateString, parse, now, k');
      var j :| 0 <= j < |flights[1..]| && ToRecord(flights[1..][j], dateString, parse, now) == Some(rest[k']);
      assert flights[1..][j] == flights[j + 1];
    }
  }

  /** The batch is exactly the first `3 - countForDay` records the response yields, or all of them. */
  lemma {:induction false} BatchTakesFirstAccepted(
    flights: seq<FlightData>, countForDay: int, dateString: string, parse: IsoParser, now: int)
    requires countForDay <= FLIGHTS_PER_DAY_TARGET
    ensures var all := Accepted(flights, dateString, parse, now);
      var room := FLIGHTS_PER_DAY_TARGET - countForDay;
      Batch(flights, countForDay, dateString, parse, now) == if |all| <= room then all else all[..room]
    decreases |flights|
  {
    if flights != [] && countForDay < FLIGHTS_PER_DAY_TARGET {
      var rec := ToRecord(flights[0], dateString, parse, now);
      var rest := Accepted(flights[1..], dateString, parse, now);
      var room := FLIGHTS_PER_DAY_TARGET - countForDay;
      if rec.Some? {
        assert Batch(flights, countForDay, dateString, parse, now)
            == [rec.value] + Batch(flights[1..], countForDay + 1, dateString, parse, now);
        assert Accepted(flights, dateString, parse, now) == [rec.value] + rest;
        BatchTakesFirstAccepted(flights[1..], countForDay + 1, dateString, parse, now);
        if |rest| + 1 > room {
          assert ([rec.value] + rest)[..room] == [rec.value] + rest[..room - 1];
        }
      } else {
        assert Batch(flights, countForDay, dateString, parse, now)
            == Batch(flights[1..], countForDay, dateString, parse, now);
        assert Accepted(flights, dateString, parse, now) == rest;
        BatchTakesFirstAccepted(flights[1..], countForDay, dateString, parse, now);
      }
    }
  }

  /** Batch from entry `i` on, unfolded once: the entry's record, if any, comes first. */
  lemma BatchStep(flights: seq<FlightData>, i: int, countForDay: int, dateString: string, parse: IsoParser, now: int)
    requires 0 <= i < |flights| && countForDay < FLIGHTS_PER_DAY_TARGET
    ensures Batch(flights[i..], countForDay, dateString, parse, now)
         == match ToRecord(flights[i], dateString, parse, now)
            case Some(record) => [record] + Batch(flights[i + 1..], countForDay + 1, dateString, parse, now)
            case None => Batch(flights[i + 1..], countForDay, dateString, parse, now)
  {
    assert flights[i..][0] == flights[i];
    assert flights[i..][1..] == flights[i + 1..];
  }

  /** The inner loop of `doWork` over one day's response. */
  method CollectBatch(flights: seq<FlightData>, existing: int, dateString: string, parse: IsoParser, now: int)
    returns (recordsToInsert: seq<FlightRecord>)
    ensures recordsToInsert == Batch(flights, existing, dateString, parse, now)
  {
    recordsToInsert := [];
    var countForDay := existing;
    var i := 0;
    while i < |flights|
      invariant 0 <= i <= |flights|
      invariant recordsToInsert + Batch(flights[i..], countForDay, dateString, parse, now)
             == Batch(flights, existing, dateString, parse, now)
    {
      if countForDay >= FLIGHTS_PER_DAY_TARGET {
        break;
      }
      var flightData := flights[i];
      BatchStep(flights, i, countForDay, dateString, parse, now);
      if HasEssentials(flightData) {
        var dep, arr := flightData.departure.value, flightData.arrival.value;
        var scheduledDepartureMillis := ParseIsoToUtcMillis(parse, dep.scheduled);
        var actualDepartureMillis := ParseIsoToUtcMillis(parse, ActualOrFallback(dep.actual, dep.estimated, dep.scheduled));
        var scheduledArrivalMillis := ParseIsoToUtcMillis(parse, arr.scheduled);
        var actualArrivalMillis := ParseIsoToUtcMillis(parse, ActualOrFallback(arr.actual, arr.estimated, arr.scheduled));
        if scheduledDepartureMillis.Some? && scheduledArrivalMillis.Some? {
          var record := NewFlightRecord(flightData.flight.value.iata.value, dep.iata.value, arr.iata.value,
            flightData.flightDate.GetOr(dateString), scheduledDepartureMillis, actualDepartureMillis,
            scheduledArrivalMillis, actualArrivalMillis, now);
          assert ToRecord(flightData, dateString, parse, now) == Some(record);
          recordsToInsert := recordsToInsert + [record];
          countForDay := countForDay + 1;
        } else {
          assert ToRecord(flightData, dateString, parse, now).None?;
        }
      } else {
        assert ToRecord(flightData, dateString, parse, now).None?;
      }
      i := i + 1;
    }
  }

  // ---------------------------------------------------------------------------------------------
  // The job as a function of the table.

  /** What one day does: carry on with a new table and trace, or end the job. */
  datatype DayOutcome =
    | Continue(table: Table, events: seq<Event>)
    | Stop(result: WorkResult, table: Table, events: seq<Event>)

  /** Day `i` of the job (today minus `i` days), after `events`. */
  function Day(t: Table, i: int, events: seq<Event>, env: Env): DayOutcome {
    var dateString := env.dateOf(i);
    var existing := |GetFlightsForRouteOnDate(t.rows, ORIGIN_IATA, DESTINATION_IATA, dateString)|;
    if existing >= FLIGHTS_PER_DAY_TARGET then Continue(t, events)
    else
      var query := QueryFor(env.apiKey, dateString);
      var fetched := events + [Fetch(i, existing, query)];
      match env.api(query)
      case Ok(body) =>
        var batch := Batch(DataOrEmpty(body), existing, dateString, env.parse, env.now);
        if batch == [] then Continue(t, fetched)
        else Continue(UpsertAll(t, batch), fetched + [Insert(i, batch)])
      case Err(code, _, _) =>
        if code == RATE_LIMIT_STATUS then Stop(Retry, t, fetched) else Continue(t, fetched)
      case NetworkFailure(_) => Stop(Failure, t, fetched)
  }

  /** Days `i` .. DAYS_TO_FETCH, then the purge; `events` is what happened before day `i`. */
  function DaysFrom(t: Table, i: int, events: seq<Event>, env: Env): JobRun
    requires 1 <= i <= DAYS_TO_FETCH + 1
    decreases DAYS_TO_FETCH + 1 - i
  {
    if i > 7 then  // past the last of the DAYS_TO_FETCH days
      var threshold := env.now - RETENTION_MILLIS;
      JobRun(Success, Purge(t, threshold),
        events + [Cleanup(threshold, |Select(t.rows, RecordedBefore(threshold))|)])
    else
      match Day(t, i, events, env)
      case Continue(next, trace) => DaysFrom(next, i + 1, trace, env)
      case Stop(result, last, trace) => JobRun(result, last, trace)
  }

  /** One run of the job from table `t`. */
  function Collect(t: Table, env: Env): (run: JobRun)
    ensures run.events == [] <==> KeyMissing(env.apiKey)
    ensures run.events == [] ==> run.result == Failure && run.table == t
  {
    if KeyMissing(env.apiKey) then JobRun(Failure, t, [])
    else
      DaysFromEnds(t, 1, [], env);
      DaysFrom(t, 1, [], env)
  }

  // ---------------------------------------------------------------------------------------------
  // What a run does, in terms of its trace.

  function DayOf(e: Event): int {
    match e
    case Fetch(d, _, _) => d
    case Insert(d, _) => d
    case Cleanup(_, _) => DAYS_TO_FETCH + 1
  }

  predicate NoCleanup(events: seq<Event>) {
    forall k :: 0 <= k < |events| ==> !events[k].Cleanup?
  }

  /** Event `k` of `events` is one the job can produce at that place. */
  predicate EventOk(env: Env, events: seq<Event>, k: int)
    requires 0 <= k < |events|
  {
    match events[k]
    case Fetch(d, existing, query) =>
      && 1 <= d <= DAYS_TO_FETCH
      && 0 <= existing < FLIGHTS_PER_DAY_TARGET
      && query == QueryFor(env.apiKey, env.dateOf(d))
    case Insert(d, batch) =>
      && 0 < k && events[k - 1].Fetch? && events[k - 1].dayOffset == d
      && 0 < |batch| <= FLIGHTS_PER_DAY_TARGET - events[k - 1].existing
      && (forall m :: 0 <= m < |batch| ==> FreshCapture(batch[m], env.now))
    case Cleanup(threshold, _) =>
      k == |events| - 1 && threshold == env.now - RETENTION_MILLIS
  }

  /**
   * Days are visited in increasing order, each at most one fetch; an insert directly follows the
   * fetch for its day and never takes the day past the target; the purge, if any, comes last.
   */
  predicate WellFormedTrace(env: Env, events: seq<Event>) {
    && (forall k :: 0 <= k < |events| ==> EventOk(env, events, k))
    && (forall k, l :: 0 <= k < l < |events| ==> DayOf(events[k]) <= DayOf(events[l]))
    && (forall k, l :: 0 <= k < l < |events| && events[k].Fetch? && events[l].Fetch? ==>
          events[k].dayOffset < events[l].dayOffset)
  }

  lemma AppendKeepsTrace(env: Env, events: seq<Event>, e: Event)
    requires WellFormedTrace(env, events) && NoCleanup(events)
    requires forall k :: 0 <= k < |events| ==> DayOf(events[k]) <= DayOf(e)
    requires e.Fetch? ==> forall k :: 0 <= k < |events| && events[k].Fetch? ==> events[k].dayOffset < e.dayOffset
    requires EventOk(env, events + [e], |events|)
    ensures WellFormedTrace(env, events + [e])
  {
    var longer := events + [e];
    forall k | 0 <= k < |longer|
      ensures EventOk(env, longer, k)
    {
      if k < |events| {
        assert longer[k] == events[k];
        assert EventOk(env, events, k);
        if 0 < k {
          assert longer[k - 1] == events[k - 1];
        }
      }
    }
  }

  /** What one day adds to the trace keeps it well formed. */
  lemma DayTrace(t: Table, i: int, events: seq<Event>, env: Env)
    requires 1 <= i <= DAYS_TO_FETCH
    requires WellFormedTrace(env, events)
    requires forall k :: 0 <= k < |events| ==> DayOf(events[k]) < i
    ensures var trace := Day(t, i, events, env).events;
      && WellFormedTrace(env, trace)
      && (forall k :: 0 <= k < |trace| ==> DayOf(trace[k]) <= i)
  {
    var dateString := env.dateOf(i);
    var existing := |GetFlightsForRouteOnDate(t.rows, ORIGIN_IATA, DESTINATION_IATA, dateString)|;
    if existing < FLIGHTS_PER_DAY_TARGET {
      var query := QueryFor(env.apiKey, dateString);
      var fetch := Fetch(i, existing, query);
      var fetched := events + [fetch];
      assert NoCleanup(events) by {
        forall k | 0 <= k < |events| ensures !events[k].Cleanup? {
          assert DayOf(events[k]) < i;
        }
      }
      AppendKeepsTrace(env, events, fetch);
      var response := env.api(query);
      if response.Ok? {
        var batch := Batch(DataOrEmpty(response.body), existing, dateString, env.parse, env.now);
        if batch != [] {
          assert fetched[|fetched| - 1] == fetch;
          assert NoCleanup(fetched);
          AppendKeepsTrace(env, fetched, Insert(i, batch));
        }
      }
    }
  }

  /** The purge after the seventh day keeps the trace well formed. */
  lemma CleanupTrace(env: Env, events: seq<Event>, deleted: int)
    requires WellFormedTrace(env, events)
    requires forall k :: 0 <= k < |events| ==> DayOf(events[k]) <= DAYS_TO_FETCH
    ensures WellFormedTrace(env, events + [Cleanup(env.now - RETENTION_MILLIS, deleted)])
  {
    assert NoCleanup(events) by {
      forall k | 0 <= k < |events| ensures !events[k].Cleanup? {
        assert DayOf(events[k]) <= DAYS_TO_FETCH;
      }
    }
    AppendKeepsTrace(env, events, Cleanup(env.now - RETENTION_MILLIS, deleted));
  }

  /** Every run's trace is well formed, and it is the trace so far followed by what the run did. */
  lemma {:induction false} DaysFromTrace(t: Table, i: int, events: seq<Event>, env: Env)
    requires 1 <= i <= DAYS_TO_FETCH + 1
    requires WellFormedTrace(env, events)
    requires forall k :: 0 <= k < |events| ==> DayOf(events[k]) < i
    ensures WellFormedTrace(env, DaysFrom(t, i, events, env).events)
    decreases DAYS_TO_FETCH + 1 - i
  {
    if i > 7 {
      var threshold := env.now - RETENTION_MILLIS;
      CleanupTrace(env, events, |Select(t.rows, RecordedBefore(threshold))|);
    } else {
      DayTrace(t, i, events, env);
      var outcome := Day(t, i, events, env);
      if outcome.Continue? {
        DaysFromTrace(outcome.table, i + 1, outcome.events, env);
      }
    }
  }

  function Last(events: seq<Event>): Event
    requires events != []
  {
    events[|events| - 1]
  }

  /** `e` is a fetch the API answered with status 429. */
  predicate RateLimitedFetch(env: Env, e: Event) {
    e.Fetch? && env.api(e.query).Err? && env.api(e.query).code == RATE_LIMIT_STATUS
  }

  /** `e` is a fetch whose call failed with an exception. */
  predicate FailedFetch(env: Env, e: Event) {
    e.Fetch? && env.api(e.query).NetworkFailure?
  }

  /**
   * How a job that got past the key check ends: it extends the trace so far, and Success, Retry
   * and Failure are exactly the runs ending in the purge, in a fetch answered 429, and in a fetch
   * that failed outright.
   */
  lemma {:induction false} DaysFromEnds(t: Table, i: int, events: seq<Event>, env: Env)
    requires 1 <= i <= DAYS_TO_FETCH + 1
    ensures var run := DaysFrom(t, i, events, env);
      && events < run.events
      && (run.result == Success <==> Last(run.events).Cleanup?)
      && (run.result == Retry <==> RateLimitedFetch(env, Last(run.events)))
      && (run.result == Failure <==> FailedFetch(env, Last(run.events)))
    decreases DAYS_TO_FETCH + 1 - i
  {
    if i <= 7 {
      var outcome := Day(t, i, events, env);
      DayEnds(t, i, events, env);
      if outcome.Continue? {
        DaysFromEnds(outcome.table, i + 1, outcome.events, env);
      }
    }
  }

  /** A day extends the trace; one that ends the job does so with its fetch, answered 429 or failed. */
  lemma DayEnds(t: Table, i: int, events: seq<Event>, env: Env)
    requires 1 <= i <= DAYS_TO_FETCH
    ensures var outcome := Day(t, i, events, env);
      && events <= outcome.events
      && (outcome.Stop? ==>
            && events < outcome.events
            && outcome.result != Success
            && (outcome.result == Retry <==> RateLimitedFetch(env, Last(outcome.events)))
            && (outcome.result == Failure <==> FailedFetch(env, Last(outcome.events))))
  {
  }

  /** After one day, every row is an old row or one captured now; the old rows stay in front. */
  lemma DayRows(t: Table, i: int, events: seq<Event>, env: Env)
    requires 1 <= i <= DAYS_TO_FETCH
    ensures var next := Day(t, i, events, env).table;
      && t.rows <= next.rows
      && (forall x :: x in next.rows ==> x in t.rows || CapturedAt(x, env.now))
  {
    var outcome := Day(t, i, events, env);
    if outcome.table != t {
      var dateString := env.dateOf(i);
      var existing := |GetFlightsForRouteOnDate(t.rows, ORIGIN_IATA, DESTINATION_IATA, dateString)|;
      var query := QueryFor(env.apiKey, dateString);
      var batch := Batch(DataOrEmpty(env.api(query).body), existing, dateString, env.parse, env.now);
      assert outcome.table == UpsertAll(t, batch);
      InsertedRows(t, batch, env.now);
    }
  }

  /** A day whose date holds fewer than 3 route rows makes its fetch, for its own date. */
  lemma DayBelowTargetFetches(t: Table, i: int, events: seq<Event>, env: Env)
    requires 1 <= i <= DAYS_TO_FETCH
    requires |GetFlightsForRouteOnDate(t.rows, ORIGIN_IATA, DESTINATION_IATA, env.dateOf(i))|
             < FLIGHTS_PER_DAY_TARGET
    ensures var outcome := Day(t, i, events, env);
      var existing := |GetFlightsForRouteOnDate(t.rows, ORIGIN_IATA, DESTINATION_IATA, env.dateOf(i))|;
      && |outcome.events| > |events|
      && outcome.events[|events|] == Fetch(i, existing, QueryFor(env.apiKey, env.dateOf(i)))
  {
  }

  /**
   * The table a day leaves is exactly its `Insert` event's batch, numbered from the next key and
   * appended to the old rows; without that event the table is unchanged. So the cap of
   * `3 - existing` new records holds for the stored rows themselves.
   */
  lemma DayStoresItsBatch(t: Table, i: int, events: seq<Event>, env: Env)
    requires 1 <= i <= DAYS_TO_FETCH
    ensures var outcome := Day(t, i, events, env);
      var existing := |GetFlightsForRouteOnDate(t.rows, ORIGIN_IATA, DESTINATION_IATA, env.dateOf(i))|;
      if |outcome.events| == |events| + 2 then
        && outcome.events[|events| + 1].Insert?
        && outcome.table.rows == t.rows + Numbered(outcome.events[|events| + 1].batch, t.nextId)
        && |t.rows| < |outcome.table.rows| <= |t.rows| + FLIGHTS_PER_DAY_TARGET - existing
      else
        outcome.table == t
  {
    var outcome := Day(t, i, events, env);
    var dateString := env.dateOf(i);
    var existing := |GetFlightsForRouteOnDate(t.rows, ORIGIN_IATA, DESTINATION_IATA, dateString)|;
    if existing < FLIGHTS_PER_DAY_TARGET {
      var query := QueryFor(env.apiKey, dateString);
      var fetched := events + [Fetch(i, existing, query)];
      var response := env.api(query);
      if response.Ok? {
        var batch := Batch(DataOrEmpty(response.body), existing, dateString, env.parse, env.now);
        if batch != [] {
          assert outcome == Continue(UpsertAll(t, batch), fetched + [Insert(i, batch)]);
          assert outcome.events[|events| + 1] == Insert(i, batch);
          UpsertAllFresh(t, batch);
        } else {
          assert outcome == Continue(t, fetched);
        }
      }
    }
  }

  /** Inserting records captured at `now` appends rows captured at `now` behind the old ones. */
  lemma InsertedRows(t: Table, batch: seq<FlightRecord>, now: int)
    requires forall m :: 0 <= m < |batch| ==> FreshCapture(batch[m], now)
    ensures t.rows <= UpsertAll(t, batch).rows
    ensures forall x :: x in UpsertAll(t, batch).rows ==> x in t.rows || CapturedAt(x, now)
  {
    UpsertAllFresh(t, batch);
    var added := Numbered(batch, t.nextId);
    var rows := t.rows + added;
    forall x | x in rows
      ensures x in t.rows || CapturedAt(x, now)
    {
      if x !in t.rows {
        var k :| 0 <= k < |rows| && rows[k] == x;
        assert x == added[k - |t.rows|];
      }
    }
  }

  /** The purge keeps old rows only, and only those captured at or after the threshold. */
  lemma PurgedRows(t: Table, threshold: int)
    ensures forall x :: x in Purge(t, threshold).rows ==> x in t.rows && x.recordedAtMillis >= threshold
  {
    var kept := Purge(t, threshold).rows;
    SelectMembership(t.rows, RecordedAtOrAfter(threshold));
    forall x | x in kept
      ensures x in t.rows && x.recordedAtMillis >= threshold
    {
      var k :| 0 <= k < |kept| && kept[k] == x;
    }
  }

  /**
   * Every row of the final table was there before or was captured by this run; a run that stops
   * early keeps the rows it had, and a successful one keeps only rows captured in the last seven days.
   */
  lemma {:induction false} DaysFromRows(t: Table, i: int, events: seq<Event>, env: Env)
    requires 1 <= i <= DAYS_TO_FETCH + 1
    ensures var run := DaysFrom(t, i, events, env);
      && (forall x :: x in run.table.rows ==> x in t.rows || CapturedAt(x, env.now))
      && (run.result != Success ==> t.rows <= run.table.rows)
      && (run.result == Success ==>
            forall x :: x in run.table.rows ==> x.recordedAtMillis >= env.now - RETENTION_MILLIS)
    decreases DAYS_TO_FETCH + 1 - i
  {
    if i > 7 {
      PurgedRows(t, env.now - RETENTION_MILLIS);
    } else {
      var outcome := Day(t, i, events, env);
      DayRows(t, i, events, env);
      if outcome.Continue? {
        DaysFromRows(outcome.table, i + 1, outcome.events, env);
      }
    }
  }

  /** In a well-formed trace a purge can only be the last event. */
  lemma CleanupOnlyLast(env: Env, events: seq<Event>)
    requires WellFormedTrace(env, events)
    requires events != [] && !Last(events).Cleanup?
    ensures NoCleanup(events)
  {
    forall k | 0 <= k < |events|
      ensures !events[k].Cleanup?
    {
      assert EventOk(env, events, k);
    }
  }

  /** The job's trace is well formed, and its result says how the trace ends. */
  lemma CollectOutcome(t: Table, env: Env)
    ensures var run := Collect(t, env);
      && WellFormedTrace(env, run.events)
      && (run.events == [] <==> KeyMissing(env.apiKey))
      && (run.events == [] ==> run == JobRun(Failure, t, []))
      && (run.events != [] ==>
            && (run.result == Success <==> Last(run.events).Cleanup?)
            && (run.result == Retry <==> RateLimitedFetch(env, Last(run.events)))
            && (run.result == Failure <==> FailedFetch(env, Last(run.events))))
      && (run.result != Success ==> t.rows <= run.table.rows && NoCleanup(run.events))
      && (run.result == Success ==>
            forall x :: x in run.table.rows ==> x.recordedAtMillis >= env.now - RETENTION_MILLIS)
      && (forall x :: x in run.table.rows ==> x in t.rows || CapturedAt(x, env.now))
  {
    if !KeyMissing(env.apiKey) {
      DaysFromTrace(t, 1, [], env);
      DaysFromEnds(t, 1, [], env);
      DaysFromRows(t, 1, [], env);
      var run := DaysFrom(t, 1, [], env);
      if run.result != Success {
        CleanupOnlyLast(env, run.events);
      }
    }
  }

  /** With every one of the seven dates already holding the target, the job only purges. */
  lemma {:induction false} FullDaysAreSkipped(t: Table, i: int, events: seq<Event>, env: Env)
    requires 1 <= i <= DAYS_TO_FETCH + 1
    requires forall d :: i <= d <= DAYS_TO_FETCH ==>
      |GetFlightsForRouteOnDate(t.rows, ORIGIN_IATA, DESTINATION_IATA, env.dateOf(d))| >= FLIGHTS_PER_DAY_TARGET
    ensures var threshold := env.now - RETENTION_MILLIS;
      DaysFrom(t, i, events, env) == JobRun(Success, Purge(t, threshold),
        events + [Cleanup(threshold, |Select(t.rows, RecordedBefore(threshold))|)])
    decreases DAYS_TO_FETCH + 1 - i
  {
    if i <= 7 {
      FullDaysAreSkipped(t, i + 1, events, env);
    }
  }

  lemma NothingToFetch(t: Table, env: Env)
    requires !KeyMissing(env.apiKey)
    requires forall d :: 1 <= d <= DAYS_TO_FETCH ==>
      |GetFlightsForRouteOnDate(t.rows, ORIGIN_IATA, DESTINATION_IATA, env.dateOf(d))| >= FLIGHTS_PER_DAY_TARGET
    ensures var threshold := env.now - RETENTION_MILLIS;
      Collect(t, env) == JobRun(Success, Purge(t, threshold),
        [Cleanup(threshold, |Select(t.rows, RecordedBefore(threshold))|)])
  {
    var none: seq<Event> := [];
    FullDaysAreSkipped(t, 1, none, env);
    assert Collect(t, env) == DaysFrom(t, 1, none, env);
  }

  /**
   * A 429 on day `i` ends the job at once with Retry: the trace ends with that fetch, so no later
   * day is fetched and nothing is purged, and the table is the one the earlier days left.
   */
  lemma RateLimitStopsTheJob(t: Table, i: int, events: seq<Event>, env: Env)
    requires 1 <= i <= DAYS_TO_FETCH
    requires |GetFlightsForRouteOnDate(t.rows, ORIGIN_IATA, DESTINATION_IATA, env.dateOf(i))| < FLIGHTS_PER_DAY_TARGET
    requires var response := env.api(QueryFor(env.apiKey, env.dateOf(i)));
      response.Err? && response.code == RATE_LIMIT_STATUS
    ensures var existing := |GetFlightsForRouteOnDate(t.rows, ORIGIN_IATA, DESTINATION_IATA, env.dateOf(i))|;
      DaysFrom(t, i, events, env)
      == JobRun(Retry, t, events + [Fetch(i, existing, QueryFor(env.apiKey, env.dateOf(i)))])
  {
  }

  /**
   * The worker retries only on status 429: an error of any other status moves on to the next
   * day, whatever its body says, although the live-data path classifies the same answer as rate
   * limiting whenever the body reports exhausted usage limits.
   */
  lemma OtherErrorMovesOn(t: Table, i: int, events: seq<Event>, env: Env)
    requires 1 <= i <= DAYS_TO_FETCH
    requires |GetFlightsForRouteOnDate(t.rows, ORIGIN_IATA, DESTINATION_IATA, env.dateOf(i))| < FLIGHTS_PER_DAY_TARGET
    requires var response := env.api(QueryFor(env.apiKey, env.dateOf(i)));
      response.Err? && response.code != RATE_LIMIT_STATUS
    ensures var existing := |GetFlightsForRouteOnDate(t.rows, ORIGIN_IATA, DESTINATION_IATA, env.dateOf(i))|;
      DaysFrom(t, i, events, env)
      == DaysFrom(t, i + 1, events + [Fetch(i, existing, QueryFor(env.apiKey, env.dateOf(i)))], env)
    ensures var response := env.api(QueryFor(env.apiKey, env.dateOf(i)));
      var body := response.errorBody.GetOr("No details");
      FlightRepository.ClassifyApiError(response.code, body) == FlightRepository.RateLimited
      <==> FlightRepository.Contains(body, FlightRepository.USAGE_LIMITS)
  {
  }

  /** A 401 reporting exhausted usage limits: the worker moves on, the live-data path reports rate limiting. */
  lemma UsageLimitBodyIsNotRetried(t: Table, i: int, events: seq<Event>, env: Env, message: string, rest: string)
    requires 1 <= i <= DAYS_TO_FETCH
    requires |GetFlightsForRouteOnDate(t.rows, ORIGIN_IATA, DESTINATION_IATA, env.dateOf(i))| < FLIGHTS_PER_DAY_TARGET
    requires env.api(QueryFor(env.apiKey, env.dateOf(i))) == Err(401, message, Some(FlightRepository.USAGE_LIMITS + rest))
    ensures var existing := |GetFlightsForRouteOnDate(t.rows, ORIGIN_IATA, DESTINATION_IATA, env.dateOf(i))|;
      DaysFrom(t, i, events, env)
      == DaysFrom(t, i + 1, events + [Fetch(i, existing, QueryFor(env.apiKey, env.dateOf(i)))], env)
    ensures FlightRepository.ClassifyApiError(401, FlightRepository.USAGE_LIMITS + rest) == FlightRepository.RateLimited
  {
    OtherErrorMovesOn(t, i, events, env);
    FlightRepository.RateLimitTakesPrecedence(rest);
  }

  /** No day is inserted into twice in one run. */
  lemma OneInsertPerDay(env: Env, events: seq<Event>)
    requires WellFormedTrace(env, events)
    ensures forall k, l :: 0 <= k < l < |events| && events[k].Insert? && events[l].Insert? ==>
      events[k].dayOffset < events[l].dayOffset
  {
    forall k, l | 0 <= k < l < |events| && events[k].Insert? && events[l].Insert?
      ensures events[k].dayOffset < events[l].dayOffset
    {
      assert EventOk(env, events, k) && EventOk(env, events, l);
      if k == l - 1 {
        assert false;
      }
      assert events[k - 1].Fetch? && events[l - 1].Fetch? && k - 1 < l - 1;
    }
  }

  /**
   * The stored date and airports are the API's own `flight_date`, `departure.iata` and
   * `arrival.iata`, so a record the job inserts for one target date need not count towards
   * it: when any of the three differs from (DEL, BOM, target date) the pre-check for that date
   * does not see the record, and the next run fetches that date again.
   */
  lemma ForeignRecordIsNotCounted(rows: seq<FlightRecord>, f: FlightData, dateString: string, parse: IsoParser, now: int)
    requires HasEssentials(f) && ToRecord(f, dateString, parse, now).Some?
    requires || f.departure.value.iata.value != ORIGIN_IATA
             || f.arrival.value.iata.value != DESTINATION_IATA
             || f.flightDate.GetOr(dateString) != dateString
    ensures var r := ToRecord(f, dateString, parse, now).value;
      |GetFlightsForRouteOnDate(rows + [r], ORIGIN_IATA, DESTINATION_IATA, dateString)|
      == |GetFlightsForRouteOnDate(rows, ORIGIN_IATA, DESTINATION_IATA, dateString)|
  {
    var r := ToRecord(f, dateString, parse, now).value;
    ToRecordFields(f, dateString, parse, now);
    var w := OnRouteAndDate(ORIGIN_IATA, DESTINATION_IATA, dateString);
    SelectAppend(rows, [r], w);
    assert Select([r], w) == [] by {
      assert !Matches(w, r);
      assert Select([r], w) == Select([r][1..], w);
    }
    assert |GetFlightsForRouteOnDate(rows + [r], ORIGIN_IATA, DESTINATION_IATA, dateString)|
        == |multiset(Select(rows + [r], w))|;
    assert |GetFlightsForRouteOnDate(rows, ORIGIN_IATA, DESTINATION_IATA, dateString)|
        == |multiset(Select(rows, w))|;
  }

  // ---------------------------------------------------------------------------------------------
  // A date that is already full is never fetched.

  /** A day whose date already holds the target is passed over: no call, no event, no change. */
  lemma FullDayIsSkipped(t: Table, i: int, events: seq<Event>, env: Env)
    requires 1 <= i <= DAYS_TO_FETCH
    requires |GetFlightsForRouteOnDate(t.rows, ORIGIN_IATA, DESTINATION_IATA, env.dateOf(i))| >= FLIGHTS_PER_DAY_TARGET
    ensures DaysFrom(t, i, events, env) == DaysFrom(t, i + 1, events, env)
  {
  }

  /** Rows appended behind the old ones never lower a (route, date) count. */
  lemma RouteDateCountGrows(a: seq<FlightRecord>, b: seq<FlightRecord>, date: string)
    requires a <= b
    ensures |GetFlightsForRouteOnDate(a, ORIGIN_IATA, DESTINATION_IATA, date)|
         <= |GetFlightsForRouteOnDate(b, ORIGIN_IATA, DESTINATION_IATA, date)|
  {
    var w := OnRouteAndDate(ORIGIN_IATA, DESTINATION_IATA, date);
    assert b == a + b[|a|..];
    SelectAppend(a, b[|a|..], w);
  }

  /** No event from position `from` on is a fetch for day `d`. */
  predicate NoFetchOfDaySince(events: seq<Event>, from: int, d: int) {
    forall k :: 0 <= from <= k < |events| ==> !(events[k].Fetch? && events[k].dayOffset == d)
  }

  /** What day `i` adds to the trace is no fetch for a different day `d`, nor for `d` once it is full. */
  lemma DayFetchesOnlyItself(t: Table, i: int, events: seq<Event>, env: Env, d: int)
    requires 1 <= i <= DAYS_TO_FETCH
    requires i == d ==>
      |GetFlightsForRouteOnDate(t.rows, ORIGIN_IATA, DESTINATION_IATA, env.dateOf(d))| >= FLIGHTS_PER_DAY_TARGET
    ensures events <= Day(t, i, events, env).events
    ensures NoFetchOfDaySince(Day(t, i, events, env).events, |events|, d)
  {
    var trace := Day(t, i, events, env).events;
    var dateString := env.dateOf(i);
    var existing := |GetFlightsForRouteOnDate(t.rows, ORIGIN_IATA, DESTINATION_IATA, dateString)|;
    if existing < FLIGHTS_PER_DAY_TARGET {
      var query := QueryFor(env.apiKey, dateString);
      var fetched := events + [Fetch(i, existing, query)];
      var response := env.api(query);
      var batch := if response.Ok? then Batch(DataOrEmpty(response.body), existing, dateString, env.parse, env.now) else [];
      assert trace == fetched || trace == fetched + [Insert(i, batch)];
      forall k | |events| <= k < |trace|
        ensures !(trace[k].Fetch? && trace[k].dayOffset == d)
      {
        assert trace[k] == Fetch(i, existing, query) || trace[k] == Insert(i, batch);
      }
    }
  }

  /** A run from day `i` on never fetches day `d` when the table already holds the target for its date. */
  lemma {:induction false} DaysFromSkipsFullDate(t: Table, i: int, events: seq<Event>, env: Env, d: int)
    requires 1 <= i <= DAYS_TO_FETCH + 1
    requires |GetFlightsForRouteOnDate(t.rows, ORIGIN_IATA, DESTINATION_IATA, env.dateOf(d))| >= FLIGHTS_PER_DAY_TARGET
    ensures NoFetchOfDaySince(DaysFrom(t, i, events, env).events, |events|, d)
    decreases DAYS_TO_FETCH + 1 - i
  {
    if i <= 7 {
      var outcome := Day(t, i, events, env);
      DayFetchesOnlyItself(t, i, events, env, d);
      if outcome.Continue? {
        DayRows(t, i, events, env);
        RouteDateCountGrows(t.rows, outcome.table.rows, env.dateOf(d));
        DaysFromSkipsFullDate(outcome.table, i + 1, outcome.events, env, d);
        DaysFromEnds(outcome.table, i + 1, outcome.events, env);
        var run := DaysFrom(outcome.table, i + 1, outcome.events, env);
        forall k | |events| <= k < |run.events|
          ensures !(run.events[k].Fetch? && run.events[k].dayOffset == d)
        {
          if k < |outcome.events| {
            assert run.events[k] == outcome.events[k];
          }
        }
      }
    }
  }

  /**
   * The existing-count pre-check: a date that already holds the target when the job starts gets
   * no API call in that run, whichever other dates are fetched.
   */
  lemma FullDateIsNeverFetched(t: Table, env: Env, d: int)
    requires |GetFlightsForRouteOnDate(t.rows, ORIGIN_IATA, DESTINATION_IATA, env.dateOf(d))| >= FLIGHTS_PER_DAY_TARGET
    ensures forall k :: 0 <= k < |Collect(t, env).events| ==>
      !(Collect(t, env).events[k].Fetch? && Collect(t, env).events[k].dayOffset == d)
  {
    if !KeyMissing(env.apiKey) {
      var none: seq<Event> := [];
      DaysFromSkipsFullDate(t, 1, none, env, d);
      assert Collect(t, env) == DaysFrom(t, 1, none, env);
    }
  }

  // ---------------------------------------------------------------------------------------------
  // The job as the source runs it.

  /** The body of `doWork`'s loop for day `i`; `stop` is the job's result when the day ends it. */
  method CollectDay(store: FlightHistory, env: Env, i: int, ghost events: seq<Event>)
    returns (stop: Option<WorkResult>, ghost trace: seq<Event>)
    requires store.Valid()
    requires 1 <= i <= DAYS_TO_FETCH
    modifies store
    ensures store.Valid()
    ensures stop.None? ==> DaysFrom(old(store.State()), i, events, env) == DaysFrom(store.State(), i + 1, trace, env)
    ensures stop.Some? ==> DaysFrom(old(store.State()), i, events, env) == JobRun(stop.value, store.State(), trace)
  {
    trace := events;
    var dateString := env.dateOf(i);
    var existingRecordsCount :=
      |GetFlightsForRouteOnDate(store.rows, ORIGIN_IATA, DESTINATION_IATA, dateString)|;
    if existingRecordsCount >= FLIGHTS_PER_DAY_TARGET {
      return None, trace;
    }
    var query := QueryFor(env.apiKey, dateString);
    trace := trace + [Fetch(i, existingRecordsCount, query)];
    var response := env.api(query);
    match response
    case Ok(body) =>
      var recordsToInsert := CollectBatch(DataOrEmpty(body), existingRecordsCount, dateString, env.parse, env.now);
      if |recordsToInsert| > 0 {
        store.InsertAll(recordsToInsert);
        trace := trace + [Insert(i, recordsToInsert)];
      }
      stop := None;
    case Err(code, _, _) =>
      stop := if code == RATE_LIMIT_STATUS then Some(Retry) else None;
    case NetworkFailure(_) =>
      stop := Some(Failure);
  }

  /** The purge that ends a successful run: rows captured more than seven days ago go. */
  method CleanUp(store: FlightHistory, env: Env, ghost events: seq<Event>) returns (ghost trace: seq<Event>)
    requires store.Valid()
    modifies store
    ensures store.Valid()
    ensures JobRun(Success, store.State(), trace) == DaysFrom(old(store.State()), DAYS_TO_FETCH + 1, events, env)
  {
    var sevenDaysAgoMillis := env.now - RETENTION_MILLIS;
    var deletedCount := store.DeleteRecordsOlderThan(sevenDaysAgoMillis);
    trace := events + [Cleanup(sevenDaysAgoMillis, deletedCount)];
  }

  /** `doWork`'s loop over the seven days and the purge after it. */
  method CollectDays(store: FlightHistory, env: Env) returns (result: WorkResult, ghost events: seq<Event>)
    requires store.Valid()
    modifies store
    ensures store.Valid()
    ensures JobRun(result, store.State(), events) == DaysFrom(old(store.State()), 1, [], env)
  {
    events := [];
    ghost var run := DaysFrom(store.State(), 1, events, env);
    var i := 1;
    while i <= DAYS_TO_FETCH
      invariant 1 <= i <= DAYS_TO_FETCH + 1
      invariant store.Valid()
      invariant DaysFrom(store.State(), i, events, env) == run
    {
      var stop;
      stop, events := CollectDay(store, env, i, events);
      if stop.Some? {
        return stop.value, events;
      }
      i := i + 1;
    }
    events := CleanUp(store, env, events);
    result := Success;
  }

  /** `doWork`. An exception escaping the API call (an I/O failure) ends the job with Failure. */
  method DoWork(store: FlightHistory, env: Env) returns (result: WorkResult, ghost events: seq<Event>)
    requires store.Valid()
    modifies store
    ensures store.Valid()
    ensures JobRun(result, store.State(), events) == Collect(old(store.State()), env)
  {
    if KeyMissing(env.apiKey) {
      return Failure, [];
    }
    result, events := CollectDays(store, env);
  }
}
