/**
 * The timestamp normaliser of the collection job. The ISO 8601 offset date-time parser of
 * java.time is a foreign library, so it is a parameter of the model: a total function that
 * yields the UTC epoch milliseconds of a string or None when the string does not parse.
 * Being total and Option-valued is the whole visible contract: a parse failure becomes None,
 * never an escaping exception.
 */
module IsoTimestamps {
  import opened Options

  /** `OffsetDateTime.parse(s, ISO_OFFSET_DATE_TIME).toInstant().toEpochMilli()`, None on failure. */
  type IsoParser = string -> Option<int>

  /** `parseIsoToUtcMillis`: a null input gives null; otherwise the parser's verdict. */
  function ParseIsoToUtcMillis(parse: IsoParser, timestamp: Option<string>): (r: Option<int>)
    ensures timestamp.None? ==> r.None?
    ensures timestamp.Some? ==> r == parse(timestamp.value)
  {
    match timestamp
    case None => None
    case Some(s) => parse(s)
  }

  /** `actual ?: estimated ?: scheduled`: the first present candidate, in priority order. */
  function ActualOrFallback(actual: Option<string>, estimated: Option<string>, scheduled: Option<string>)
    : (r: Option<string>)
    ensures actual.Some? ==> r == actual
    ensures actual.None? && estimated.Some? ==> r == estimated
    ensures actual.None? && estimated.None? ==> r == scheduled
  {
    actual.OrElse(estimated).OrElse(scheduled)
  }
}
