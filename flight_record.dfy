/** One row of the `flight_history` table and its derived duration. */
module FlightRecords {
  import opened Options

  /** The id value that asks the store to assign a fresh key on insert. */
  const AUTO_ID := 0

  const MILLIS_PER_MINUTE := 1000 * 60

  /** All timestamps are UTC epoch milliseconds. */
  datatype FlightRecord = FlightRecord(
    id: int,
    flightIata: string,
    originIata: string,
    destinationIata: string,
    flightDate: string,
    scheduledDepartureUtcMillis: Option<int>,
    actualDepartureUtcMillis: Option<int>,
    scheduledArrivalUtcMillis: Option<int>,
    actualArrivalUtcMillis: Option<int>,
    recordedAtMillis: int)

  /**
   * The primary constructor called with its defaults: id left at AUTO_ID and the capture time
   * taken from the clock, which the model receives as `capturedAt`.
   */
  function NewFlightRecord(
    flightIata: string, originIata: string, destinationIata: string, flightDate: string,
    scheduledDeparture: Option<int>, actualDeparture: Option<int>,
    scheduledArrival: Option<int>, actualArrival: Option<int>,
    capturedAt: int): (r: FlightRecord)
    ensures r.id == AUTO_ID && r.recordedAtMillis == capturedAt
    ensures r.flightIata == flightIata && r.originIata == originIata
    ensures r.destinationIata == destinationIata && r.flightDate == flightDate
    ensures r.scheduledDepartureUtcMillis == scheduledDeparture
    ensures r.actualDepartureUtcMillis == actualDeparture
    ensures r.scheduledArrivalUtcMillis == scheduledArrival
    ensures r.actualArrivalUtcMillis == actualArrival
  {
    FlightRecord(AUTO_ID, flightIata, originIata, destinationIata, flightDate,
      scheduledDeparture, actualDeparture, scheduledArrival, actualArrival, capturedAt)
  }

  /**
   * Kotlin/Java `Long` division: the quotient is truncated toward zero, so the remainder takes
   * the sign of the dividend (Dafny's own `/` is Euclidean).
   */
  function TruncDiv(n: int, d: int): (q: int)
    requires d > 0
    ensures -d < n - q * d < d
    ensures n >= 0 ==> 0 <= n - q * d
    ensures n <= 0 ==> n - q * d <= 0
  {
    if n >= 0 then n / d else -((-n) / d)
  }

  /** The truncating quotient is the unique one with that remainder rule. */
  lemma TruncDivUnique(n: int, d: int, q: int)
    requires d > 0
    requires -d < n - q * d < d
    requires n >= 0 ==> 0 <= n - q * d
    requires n <= 0 ==> n - q * d <= 0
    ensures q == TruncDiv(n, d)
  {
    var t := TruncDiv(n, d);
    var k := t - q;
    assert k * d == (n - q * d) - (n - t * d);
    assert -d < k * d < d;
    if k >= 1 {
      MulAtLeast(k, d);
    } else if k <= -1 {
      assert (-k) * d == -(k * d);
      MulAtLeast(-k, d);
    }
  }

  lemma MulAtLeast(k: int, d: int)
    requires k >= 1 && d > 0
    ensures k * d >= d
  {
    assert k * d == (k - 1) * d + d;
    assert (k - 1) * d >= 0;
  }

  /** The `actualDurationMinutes` getter. */
  function ActualDurationMinutes(r: FlightRecord): (m: Option<int>)
    ensures m.Some? <==> r.actualArrivalUtcMillis.Some? && r.actualDepartureUtcMillis.Some?
    ensures m.Some? ==>
      var diff := r.actualArrivalUtcMillis.value - r.actualDepartureUtcMillis.value;
      && -MILLIS_PER_MINUTE < diff - m.value * MILLIS_PER_MINUTE < MILLIS_PER_MINUTE
      && (diff >= 0 ==> 0 <= m.value && m.value * MILLIS_PER_MINUTE <= diff)
      && (diff <= 0 ==> m.value <= 0 && diff <= m.value * MILLIS_PER_MINUTE)
  {
    if r.actualArrivalUtcMillis.Some? && r.actualDepartureUtcMillis.Some? then
      Some(TruncDiv(r.actualArrivalUtcMillis.value - r.actualDepartureUtcMillis.value, MILLIS_PER_MINUTE))
    else
      None
  }

  /** The duration reads the two actual timestamps and nothing else of the record. */
  lemma DurationDependsOnlyOnActuals(a: FlightRecord, b: FlightRecord)
    requires a.actualDepartureUtcMillis == b.actualDepartureUtcMillis
    requires a.actualArrivalUtcMillis == b.actualArrivalUtcMillis
    ensures ActualDurationMinutes(a) == ActualDurationMinutes(b)
  {
  }

  /** A landing 90 seconds before the departure stamp is -1 minute, not the Euclidean -2. */
  lemma NegativeDurationTruncates(r: FlightRecord)
    requires r.actualDepartureUtcMillis == Some(1_000_000) && r.actualArrivalUtcMillis == Some(910_000)
    ensures ActualDurationMinutes(r) == Some(-1)
    ensures (910_000 - 1_000_000) / MILLIS_PER_MINUTE == -2
  {
  }
}
