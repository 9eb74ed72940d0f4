/**
 * The AviationStack response payload exactly as the app decodes it, where every leaf field is
 * nullable, the two queries the app sends, the three outcomes of a call, and the shared
 * access-key check.
 */
module AviationStack {
  import opened Options

  datatype Pagination = Pagination(
    limit: Option<int>, offset: Option<int>, count: Option<int>, total: Option<int>)

  /** Departure or arrival block; the three timestamps are ISO 8601 offset date-time strings. */
  datatype DepartureArrivalInfo = DepartureArrivalInfo(
    airport: Option<string>,
    timezone: Option<string>,
    iata: Option<string>,
    icao: Option<string>,
    terminal: Option<string>,
    gate: Option<string>,
    delay: Option<int>,
    scheduled: Option<string>,
    estimated: Option<string>,
    actual: Option<string>)

  datatype AirlineInfo = AirlineInfo(name: Option<string>, iata: Option<string>, icao: Option<string>)

  datatype CodesharedInfo = CodesharedInfo(
    airlineName: Option<string>, airlineIata: Option<string>, airlineIcao: Option<string>,
    flightNumber: Option<string>, flightIata: Option<string>, flightIcao: Option<string>)

  datatype FlightInfo = FlightInfo(
    number: Option<string>, iata: Option<string>, icao: Option<string>,
    codeshared: Option<CodesharedInfo>)

  datatype AircraftInfo = AircraftInfo(
    registration: Option<string>, iata: Option<string>, icao: Option<string>, icao24: Option<string>)

  /** Live telemetry; the JSON doubles are carried as reals and never computed with. */
  datatype LiveInfo = LiveInfo(
    updated: Option<string>,
    latitude: Option<real>,
    longitude: Option<real>,
    altitude: Option<real>,
    direction: Option<real>,
    speedHorizontal: Option<real>,
    speedVertical: Option<real>,
    isGround: Option<bool>)

  datatype FlightData = FlightData(
    flightDate: Option<string>,
    flightStatus: Option<string>,
    departure: Option<DepartureArrivalInfo>,
    arrival: Option<DepartureArrivalInfo>,
    airline: Option<AirlineInfo>,
    flight: Option<FlightInfo>,
    aircraft: Option<AircraftInfo>,
    live: Option<LiveInfo>)

  datatype AviationStackResponse = AviationStackResponse(
    pagination: Option<Pagination>, data: Option<seq<FlightData>>)

  /**
   * What one HTTP call yields: a 2xx response with a possibly absent body, a non-2xx response
   * with its status code, status message and possibly absent error body, or an I/O exception
   * thrown by the transport.
   */
  datatype ApiResponse =
    | Ok(body: Option<AviationStackResponse>)
    | Err(code: int, message: string, errorBody: Option<string>)
    | NetworkFailure(detail: string)

  /** `GET flights?access_key&dep_iata&arr_iata&flight_status&flight_date&limit`. */
  datatype LandedFlightsQuery = LandedFlightsQuery(
    accessKey: string, depIata: string, arrIata: string, flightStatus: string,
    flightDate: string, limit: int)

  /** `GET flights?access_key&flight_iata&limit`. */
  datatype FlightsByIataQuery = FlightsByIataQuery(accessKey: string, flightIata: string, limit: int)

  /** Default `limit` of the by-flight-code query. */
  const DEFAULT_IATA_LIMIT := 5

  /** What the generated build config holds when the key was left empty in the properties file. */
  const QUOTED_EMPTY_KEY := "\"\""

  /**
   * Kotlin's `Char.isWhitespace()` on the JVM: Java's `Character.isWhitespace` or
   * `Character.isSpaceChar`, i.e. the controls TAB, LF, VT, FF, CR, FS, GS, RS, US and every
   * character of the Unicode categories Zs, Zl and Zp.
   */
  predicate IsWhitespace(c: char) {
    || c == '\t' || c == '\n' || c == '\U{0B}' || c == '\U{0C}' || c == '\r'
    || ('\U{1C}' <= c <= '\U{1F}')
    || c == ' ' || c == '\U{A0}' || c == '\U{1680}'
    || ('\U{2000}' <= c <= '\U{200A}')
    || c == '\U{2028}' || c == '\U{2029}' || c == '\U{202F}' || c == '\U{205F}' || c == '\U{3000}'
  }

  /** Kotlin `CharSequence.isBlank()`: empty or whitespace only. */
  predicate IsBlank(s: string) {
    forall i :: 0 <= i < |s| ==> IsWhitespace(s[i])
  }

  /** The guard both the collection job and the live fetch run before touching the network. */
  predicate KeyMissing(apiKey: string) {
    IsBlank(apiKey) || apiKey == QUOTED_EMPTY_KEY
  }

  lemma KeyMissingCases()
    ensures KeyMissing("") && KeyMissing(" \t") && KeyMissing(QUOTED_EMPTY_KEY)
    ensures !KeyMissing("k3y") && !KeyMissing("\"")
  {
    assert "k3y"[0] == 'k' && !IsWhitespace('k');
    assert "\""[0] == '"' && !IsWhitespace('"');
    assert |QUOTED_EMPTY_KEY| == 2;
  }
}
