/**
 * `FlightRepository`: the historical average over the store, and the decision logic of the live
 * lookup (which entry's telemetry to show, how a failed call is classified). The store's rows and
 * the API are passed in.
 */
module FlightRepository {
  import opened Options
  import opened AviationStack
  import opened FlightRecords
  import opened FlightRecordDao

  // ---------------------------------------------------------------------------------------------
  // Average duration.

  /** One record's share of the `sumOf`: `(actualArrival ?: 0) - (actualDeparture ?: 0)`. */
  function DurationMillis(r: FlightRecord): int {
    r.actualArrivalUtcMillis.GetOr(0) - r.actualDepartureUtcMillis.GetOr(0)
  }

  /** For a record with both actual times the term is what the record's minute getter truncates. */
  lemma DurationMatchesGetter(r: FlightRecord)
    requires ActualDurationMinutes(r).Some?
    ensures -MILLIS_PER_MINUTE < DurationMillis(r) - ActualDurationMinutes(r).value * MILLIS_PER_MINUTE
                               < MILLIS_PER_MINUTE
  {
  }

  function SumDurationMillis(rs: seq<FlightRecord>): int {
    if rs == [] then 0 else DurationMillis(rs[0]) + SumDurationMillis(rs[1..])
  }

  lemma {:induction false} SumAppend(a: seq<FlightRecord>, b: seq<FlightRecord>)
    ensures SumDurationMillis(a + b) == SumDurationMillis(a) + SumDurationMillis(b)
  {
    if a == [] {
      assert a + b == b;
    } else {
      assert (a + b)[1..] == a[1..] + b;
      SumAppend(a[1..], b);
    }
  }

  const MILLIS_PER_MINUTE_REAL := 1000.0 * 60.0

  /**
   * `averageMillis / (1000.0 * 60.0)` with `averageMillis = totalDurationMillis / size`, as an
   * exact real; absent, and never 0, when there is no record.
   */
  function AverageDurationMinutes(valid: seq<FlightRecord>): (avg: Option<real>)
    ensures avg.None? <==> valid == []
  {
    if valid == [] then None
    else
      var averageMillis := (SumDurationMillis(valid) as real) / (|valid| as real);
      Some(averageMillis / MILLIS_PER_MINUTE_REAL)
  }

  /** The average is the mean: times the count and the minute length it gives back the total. */
  lemma AverageIsMean(valid: seq<FlightRecord>)
    requires valid != []
    ensures AverageDurationMinutes(valid).value * MILLIS_PER_MINUTE_REAL * (|valid| as real)
         == SumDurationMillis(valid) as real
  {
    var n := |valid| as real;
    var total := SumDurationMillis(valid) as real;
    var m := total / n;
    assert m * n == total;
    assert AverageDurationMinutes(valid).value * MILLIS_PER_MINUTE_REAL == m;
  }

  /** `calculateAverageDurationMinutes`: the mean over the route's rows with both actual times. */
  function CalculateAverageDurationMinutes(rows: seq<FlightRecord>, origin: string, destination: string)
    : (avg: Option<real>)
    ensures avg.None? <==> forall x :: x in rows ==> !Matches(OnRouteWithActuals(origin, destination), x)
  {
    var valid := GetValidFlightsForAverage(rows, origin, destination);
    SelectMembership(rows, OnRouteWithActuals(origin, destination));
    assert valid != [] ==> valid[0] in valid;
    AverageDurationMinutes(valid)
  }

  /** The mean lies between the smallest and the largest duration. */
  lemma AverageWithinDurations(valid: seq<FlightRecord>, lo: int, hi: int)
    requires valid != []
    requires forall i :: 0 <= i < |valid| ==> lo <= DurationMillis(valid[i]) <= hi
    ensures (lo as real) / MILLIS_PER_MINUTE_REAL <= AverageDurationMinutes(valid).value
                                             <= (hi as real) / MILLIS_PER_MINUTE_REAL
  {
    var total, n := SumDurationMillis(valid), |valid|;
    SumBounds(valid, lo, hi);
    MeanWithin(total, n, lo, hi);
    assert AverageDurationMinutes(valid).value == (total as real / n as real) / MILLIS_PER_MINUTE_REAL;
  }

  /** Dividing a total that lies between `lo * n` and `hi * n` by `n`, then by the minute length. */
  lemma MeanWithin(total: int, n: nat, lo: int, hi: int)
    requires n > 0
    requires lo * n <= total <= hi * n
    ensures (lo as real) / MILLIS_PER_MINUTE_REAL <= (total as real / n as real) / MILLIS_PER_MINUTE_REAL
                                             <= (hi as real) / MILLIS_PER_MINUTE_REAL
  {
    ProductAsReal(lo, n);
    ProductAsReal(hi, n);
    MeanBounds(total as real, n as real, lo as real, hi as real);
  }

  lemma ProductAsReal(a: int, n: nat)
    ensures (a * n) as real == (a as real) * (n as real)
  {
  }

  lemma MeanBounds(total: real, n: real, lo: real, hi: real)
    requires n > 0.0
    requires lo * n <= total <= hi * n
    ensures lo <= total / n <= hi
  {
    var m := total / n;
    assert m * n == total;
  }

  lemma {:induction false} SumBounds(rs: seq<FlightRecord>, lo: int, hi: int)
    requires forall i :: 0 <= i < |rs| ==> lo <= DurationMillis(rs[i]) <= hi
    ensures lo * |rs| <= SumDurationMillis(rs) <= hi * |rs|
  {
    if rs != [] {
      SumBounds(rs[1..], lo, hi);
      assert lo * |rs| == lo * |rs[1..]| + lo;
      assert hi * |rs| == hi * |rs[1..]| + hi;
    }
  }

  /** A record without an actual arrival time, like the fourth seeded one, leaves the average as it was. */
  lemma {:induction false} AverageIgnoresRecordWithoutArrival(
    rows: seq<FlightRecord>, x: FlightRecord, origin: string, destination: string)
    requires x.actualArrivalUtcMillis.None?
    ensures CalculateAverageDurationMinutes(rows + [x], origin, destination)
         == CalculateAverageDurationMinutes(rows, origin, destination)
  {
    SelectAppend(rows, [x], OnRouteWithActuals(origin, destination));
    assert Select([x], OnRouteWithActuals(origin, destination)) == [];
    assert Select(rows, OnRouteWithActuals(origin, destination)) + [] == Select(rows, OnRouteWithActuals(origin, destination));
  }

  // The records the application seeds for the DEL -> BOM route, all on 8 April 2025 (UTC).

  const APRIL_8_2025_UTC_MILLIS := 1_744_070_400_000

  function At(hour: int, minute: int): Option<int> {
    Some(APRIL_8_2025_UTC_MILLIS + (hour * 60 + minute) * MILLIS_PER_MINUTE)
  }

  function SeedRecords(flightDate: string, capturedAt: int): seq<FlightRecord> {
    [ NewFlightRecord("6E201", "DEL", "BOM", flightDate, At(6, 0), At(6, 10), At(7, 45), At(7, 55), capturedAt),
      NewFlightRecord("AI887", "DEL", "BOM", flightDate, At(8, 0), At(8, 5), At(9, 45), At(9, 40), capturedAt),
      NewFlightRecord("UK951", "DEL", "BOM", flightDate, At(10, 0), At(10, 15), At(11, 50), At(12, 5), capturedAt),
      NewFlightRecord("SG160", "DEL", "BOM", flightDate, At(14, 0), At(14, 5), At(15, 55), None, capturedAt) ]
  }

  /** Durations 105, 95 and 110 minutes average to 310/3 = 103.33... minutes; the fourth record is excluded. */
  lemma SeedAverage(flightDate: string, capturedAt: int)
    ensures CalculateAverageDurationMinutes(SeedRecords(flightDate, capturedAt), "DEL", "BOM") == Some(310.0 / 3.0)
  {
    var s := SeedRecords(flightDate, capturedAt);
    var first3, last := s[..3], s[3];
    assert s == first3 + [last];
    AverageIgnoresRecordWithoutArrival(first3, last, "DEL", "BOM");
    SeedFirstThreeAverage(flightDate, capturedAt);
  }

  lemma SeedFirstThreeAverage(flightDate: string, capturedAt: int)
    ensures CalculateAverageDurationMinutes(SeedRecords(flightDate, capturedAt)[..3], "DEL", "BOM")
         == Some(310.0 / 3.0)
  {
    SeedValidRecords(flightDate, capturedAt);
    SeedSum(flightDate, capturedAt);
    assert 18_600_000.0 / 3.0 / MILLIS_PER_MINUTE_REAL == 310.0 / 3.0;
  }

  lemma SeedValidRecords(flightDate: string, capturedAt: int)
    ensures var s := SeedRecords(flightDate, capturedAt)[..3];
      GetValidFlightsForAverage(s, "DEL", "BOM") == s
  {
    var s := SeedRecords(flightDate, capturedAt)[..3];
    var w := OnRouteWithActuals("DEL", "BOM");
    assert Matches(w, s[0]) && Matches(w, s[1]) && Matches(w, s[2]);
    SelectAll(s, w);
  }

  lemma SeedSum(flightDate: string, capturedAt: int)
    ensures SumDurationMillis(SeedRecords(flightDate, capturedAt)[..3]) == 18_600_000
  {
    var s := SeedRecords(flightDate, capturedAt)[..3];
    assert DurationMillis(s[0]) == 105 * MILLIS_PER_MINUTE;
    assert DurationMillis(s[1]) == 95 * MILLIS_PER_MINUTE;
    assert DurationMillis(s[2]) == 110 * MILLIS_PER_MINUTE;
    assert s[1..][1..][1..] == [];
    assert SumDurationMillis(s[1..][1..]) == DurationMillis(s[2]);
    assert SumDurationMillis(s[1..]) == DurationMillis(s[1]) + DurationMillis(s[2]);
  }

  // ---------------------------------------------------------------------------------------------
  // Live lookup.

  /** Kotlin `String.contains(other)`. */
  predicate Contains(s: string, t: string) {
    (|t| <= |s| && s[..|t|] == t) || (|s| > 0 && Contains(s[1..], t))
  }

  /** `t` occurs in `s` starting at position `i`. */
  predicate OccursAt(s: string, t: string, i: int) {
    0 <= i <= |s| - |t| && s[i..i + |t|] == t
  }

  /** `Contains` holds exactly when `t` occurs as a contiguous window of `s`. */
  lemma {:induction false} ContainsWindow(s: string, t: string)
    ensures Contains(s, t) <==> exists i :: OccursAt(s, t, i)
    decreases |s|
  {
    if |t| <= |s| && s[..|t|] == t {
      assert OccursAt(s, t, 0);
    } else if |s| > 0 {
      ContainsWindow(s[1..], t);
      if Contains(s[1..], t) {
        var i :| OccursAt(s[1..], t, i);
        assert s[i + 1..i + 1 + |t|] == s[1..][i..i + |t|];
        assert OccursAt(s, t, i + 1);
      } else {
        forall i | OccursAt(s, t, i)
          ensures false
        {
          if i > 0 {
            assert s[i..i + |t|] == s[1..][i - 1..i - 1 + |t|];
            assert OccursAt(s[1..], t, i - 1);
          }
        }
      }
    } else {
      forall i | OccursAt(s, t, i)
        ensures false
      {
      }
    }
  }

  const USAGE_LIMITS := "usage limits"
  const INVALID_ACCESS_KEY := "invalid_access_key"

  datatype ErrorKind = RateLimited | InvalidKey | OtherError

  /** The classification of a non-2xx response; the rate-limit test is made first. */
  function ClassifyApiError(code: int, body: string): (k: ErrorKind)
    ensures k == RateLimited <==> code == 429 || Contains(body, USAGE_LIMITS)
    ensures k == InvalidKey <==>
      !(code == 429 || Contains(body, USAGE_LIMITS))
      && (code == 401 || code == 101 || Contains(body, INVALID_ACCESS_KEY))
  {
    if code == 429 || Contains(body, USAGE_LIMITS) then RateLimited
    else if code == 401 || code == 101 || Contains(body, INVALID_ACCESS_KEY) then InvalidKey
    else OtherError
  }

  /** A 401 whose body also reports exhausted usage limits is reported as rate limiting. */
  lemma RateLimitTakesPrecedence(rest: string)
    ensures ClassifyApiError(401, USAGE_LIMITS + rest) == RateLimited
  {
    assert (USAGE_LIMITS + rest)[..|USAGE_LIMITS|] == USAGE_LIMITS;
  }

  /** Which entries of the response qualify for the two `find` calls. */
  datatype Criterion = ActiveWithLive | AnyLive

  predicate Meets(c: Criterion, f: FlightData) {
    match c
    case ActiveWithLive => f.flightStatus == Some("active") && f.live.Some?
    case AnyLive => f.live.Some?
  }

  /** Kotlin `List.find`: the position of the first entry meeting the criterion. */
  function FindFirst(fs: seq<FlightData>, c: Criterion): (k: Option<nat>)
    ensures k.Some? ==> k.value < |fs| && Meets(c, fs[k.value])
    ensures k.Some? ==> forall j :: 0 <= j < k.value ==> !Meets(c, fs[j])
    ensures k.None? ==> forall j :: 0 <= j < |fs| ==> !Meets(c, fs[j])
  {
    if fs == [] then None
    else if Meets(c, fs[0]) then Some(0)
    else match FindFirst(fs[1..], c)
      case None => None
      case Some(k) => Some(k + 1)
  }

  /** `find { active && live } ?: find { live }`, then its `live`. */
  function SelectLive(fs: seq<FlightData>): (r: Option<LiveInfo>)
    ensures r.Some? <==> exists k :: 0 <= k < |fs| && fs[k].live.Some?
  {
    match FindFirst(fs, ActiveWithLive)
    case Some(k) => fs[k].live
    case None =>
      match FindFirst(fs, AnyLive)
      case Some(k) => fs[k].live
      case None => None
  }

  datatype NotFoundReason = NoFlightData | NoLiveData(firstStatus: string)

  datatype LiveDataError =
    | KeyNotConfigured
    | FlightNotFound(flightIata: string, reason: NotFoundReason)
    | RateLimitExceeded
    | InvalidAccessKey
    | ApiError(code: int, message: string, details: string)
    | NetworkError(detail: string)

  datatype LiveDataResult = Live(info: LiveInfo) | Failed(error: LiveDataError)

  /** The outcome of a successful response's flight list. */
  function LiveDataFromFlights(flightIata: string, flights: Option<seq<FlightData>>): (r: LiveDataResult)
    ensures (flights.None? || flights.value == []) ==> r == Failed(FlightNotFound(flightIata, NoFlightData))
    ensures r.Live? ==> exists k :: 0 <= k < |flights.value| && flights.value[k].live == Some(r.info)
  {
    if flights.None? || flights.value == [] then Failed(FlightNotFound(flightIata, NoFlightData))
    else
      var fs := flights.value;
      match SelectLive(fs)
      case Some(info) =>
        assert exists k :: 0 <= k < |fs| && fs[k].live == Some(info) by {
          var a := FindFirst(fs, ActiveWithLive);
          if a.Some? {
            assert fs[a.value].live == Some(info);
          } else {
            var b := FindFirst(fs, AnyLive);
            assert b.Some? && fs[b.value].live == Some(info);
          }
        }
        Live(info)
      case None => Failed(FlightNotFound(flightIata, NoLiveData(fs[0].flightStatus.GetOr("unknown"))))
  }

  /** An active entry with telemetry wins over every other entry. */
  lemma PrefersFirstActiveWithLive(fs: seq<FlightData>, k: nat)
    requires k < |fs| && Meets(ActiveWithLive, fs[k])
    requires forall j :: 0 <= j < k ==> !Meets(ActiveWithLive, fs[j])
    ensures SelectLive(fs) == fs[k].live
  {
    var a := FindFirst(fs, ActiveWithLive);
    assert a.Some?;
    assert a.value == k;
  }

  /** Without an active entry that has telemetry, the first entry with telemetry is taken. */
  lemma FallsBackToFirstLive(fs: seq<FlightData>, k: nat)
    requires forall j :: 0 <= j < |fs| ==> !Meets(ActiveWithLive, fs[j])
    requires k < |fs| && fs[k].live.Some?
    requires forall j :: 0 <= j < k ==> fs[j].live.None?
    ensures SelectLive(fs) == fs[k].live
  {
    var b := FindFirst(fs, AnyLive);
    assert b.Some?;
    assert b.value == k;
  }

  /** Entries without any telemetry: not found, naming the first entry's status or "unknown". */
  lemma NoTelemetryReportsFirstStatus(flightIata: string, fs: seq<FlightData>)
    requires fs != []
    requires forall j :: 0 <= j < |fs| ==> fs[j].live.None?
    ensures LiveDataFromFlights(flightIata, Some(fs))
         == Failed(FlightNotFound(flightIata, NoLiveData(fs[0].flightStatus.GetOr("unknown"))))
  {
  }

  /** `getFlightLiveData`, with the API as a parameter. */
  function GetFlightLiveData(apiKey: string, flightIata: string, api: FlightsByIataQuery -> ApiResponse)
    : (r: LiveDataResult)
    ensures KeyMissing(apiKey) ==> r == Failed(KeyNotConfigured)
    ensures !KeyMissing(apiKey) ==>
      var response := api(FlightsByIataQuery(apiKey, flightIata, DEFAULT_IATA_LIMIT));
      && (response.Ok? ==> r == LiveDataFromFlights(flightIata, if response.body.Some? then response.body.value.data else None))
      && (response.Err? ==>
            var body := response.errorBody.GetOr("No details");
            var rateLimited := response.code == 429 || Contains(body, USAGE_LIMITS);
            var badKey := response.code == 401 || response.code == 101 || Contains(body, INVALID_ACCESS_KEY);
            && r.Failed?
            && (r.error == RateLimitExceeded <==> rateLimited)
            && (r.error == InvalidAccessKey <==> !rateLimited && badKey)
            && (!rateLimited && !badKey ==> r.error == ApiError(response.code, response.message, body)))
      && (response.NetworkFailure? ==> r == Failed(NetworkError(response.detail)))
  {
    if KeyMissing(apiKey) then Failed(KeyNotConfigured)
    else
      match api(FlightsByIataQuery(apiKey, flightIata, DEFAULT_IATA_LIMIT))
      case Ok(body) => LiveDataFromFlights(flightIata, if body.Some? then body.value.data else None)
      case Err(code, message, errorBody) =>
        var details := errorBody.GetOr("No details");
        (match ClassifyApiError(code, details)
         case RateLimited => Failed(RateLimitExceeded)
         case InvalidKey => Failed(InvalidAccessKey)
         case OtherError => Failed(ApiError(code, message, details)))
      case NetworkFailure(detail) => Failed(NetworkError(detail))
  }

  /** A scheduled entry without telemetry and an active one with telemetry: the active one is shown. */
  lemma PicksActiveEntry(apiKey: string, flightIata: string, info: LiveInfo)
    requires !KeyMissing(apiKey)
    ensures
      var scheduled := FlightData(None, Some("scheduled"), None, None, None, None, None, None);
      var active := FlightData(None, Some("active"), None, None, None, None, None, Some(info));
      var api := (q: FlightsByIataQuery) => Ok(Some(AviationStackResponse(None, Some([scheduled, active]))));
      GetFlightLiveData(apiKey, flightIata, api) == Live(info)
  {
    var scheduled := FlightData(None, Some("scheduled"), None, None, None, None, None, None);
    var active := FlightData(None, Some("active"), None, None, None, None, None, Some(info));
    PrefersFirstActiveWithLive([scheduled, active], 1);
  }
}
