/**
 * The parts of the `time` crate the conversions use. Durations are whole
 * seconds (the conversions never produce a fraction of a second), as
 * mathematical integers. Instants and parse failures are abstract values:
 * the RFC 3339 parser (`OffsetDateTime::parse(_, &Rfc3339)`, the grammar of
 * section 5.6 of RFC 3339) is not modelled and is passed to the timestamp
 * conversions as a function.
 */
module Time {
  import opened Wrappers

  /** `time::Duration`, in seconds. */
  datatype Duration = Duration(seconds: int)

  const SecondsPerMinute: int := 60
  const SecondsPerHour: int := 3600
  const SecondsPerDay: int := 86400

  /** `Duration::seconds`, `Duration::minutes`, `Duration::hours`, `Duration::days`. */
  function Seconds(n: int): Duration { Duration(n) }
  function Minutes(n: int): Duration { Duration(n * SecondsPerMinute) }
  function Hours(n: int): Duration { Duration(n * SecondsPerHour) }
  function Days(n: int): Duration { Duration(n * SecondsPerDay) }

  /** `time::OffsetDateTime`: an instant with the UTC offset it was written in. */
  datatype OffsetDateTime = OffsetDateTime(unixTimestampNanos: int, offsetSeconds: int)

  /** `time::error::Parse`, which the model does not look into. */
  datatype ParseError = ParseError(description: string)

  /** `time::Error`; only its parse variant arises here. */
  datatype TimeError = Parse(parse: ParseError)

  /** The RFC 3339 parser the timestamp conversions are given. */
  type Rfc3339Parser = string -> Result<OffsetDateTime, ParseError>
}
