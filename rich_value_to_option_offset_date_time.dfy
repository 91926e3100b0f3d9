/**
 * `TryFrom<&RichValue>` and `TryFrom<RichValue>` for `Option<OffsetDateTime>`
 * (`src/ext/parse_rich_value/impl_try_from_rich_value_for_option_offset_date_time.rs`):
 * the value is converted to a string (one fence removed) and trimmed; blank
 * text is `None`, anything else must be an RFC 3339 timestamp. The RFC 3339
 * parser is a parameter.
 */
module RichValueToOptionOffsetDateTime {
  import opened Wrappers
  import opened Text
  import Types
  import opened RichRows
  import opened ParseRichValue
  import RichValueToString
  import opened Time

  datatype ConvertRichValueRefToOptionOffsetDateTimeError =
    | ConvertStringFailed(stringError: RichValueToString.ConvertRichValueRefToStringError)
    | OffsetDateTimeParseFailed(parseError: ParseError)

  /** The owned error; a failed parse also carries the trimmed text it was given. */
  datatype ConvertRichValueToOptionOffsetDateTimeError =
    | ConvertStringFailed(stringError: RichValueToString.ConvertRichValueToStringError)
    | OffsetDateTimeParseFailed(parseError: ParseError, value: string)

  function Erase(e: ConvertRichValueToOptionOffsetDateTimeError): ConvertRichValueRefToOptionOffsetDateTimeError
  {
    match e
    case ConvertStringFailed(source) =>
      ConvertRichValueRefToOptionOffsetDateTimeError.ConvertStringFailed(RichValueToString.Erase(source))
    case OffsetDateTimeParseFailed(source, _) =>
      ConvertRichValueRefToOptionOffsetDateTimeError.OffsetDateTimeParseFailed(source)
  }

  /** `Option<OffsetDateTime>::try_from(&RichValue)`, with `parse` for `OffsetDateTime::parse(_, &Rfc3339)`. */
  function TryFromRef(parse: Rfc3339Parser, value: RichValue)
    : (r: Result<Option<OffsetDateTime>, ConvertRichValueRefToOptionOffsetDateTimeError>)
    ensures !RichValueToString.IsStringScalar(value) ==>
      r == Err(ConvertRichValueRefToOptionOffsetDateTimeError.ConvertStringFailed(RichValueToString.TryFromRef(value).error))
    ensures RichValueToString.IsStringScalar(value) ==>
      var t := Trim(NormalizeRichString(value.single.scalar.text));
      (r == Ok(None) <==> t == [])
      && (t != [] && parse(t).Ok? ==> r == Ok(Some(parse(t).value)))
      && (t != [] && parse(t).Err? ==>
            r == Err(ConvertRichValueRefToOptionOffsetDateTimeError.OffsetDateTimeParseFailed(parse(t).error)))
  {
    match RichValueToString.TryFromRef(value)
    case Err(source) => Err(ConvertRichValueRefToOptionOffsetDateTimeError.ConvertStringFailed(source))
    case Ok(text) =>
      var trimmed := Trim(text);
      if trimmed == [] then Ok(None)
      else
        match parse(trimmed)
        case Err(source) => Err(ConvertRichValueRefToOptionOffsetDateTimeError.OffsetDateTimeParseFailed(source))
        case Ok(instant) => Ok(Some(instant))
  }

  /** `Option<OffsetDateTime>::try_from(RichValue)`. */
  function TryFrom(parse: Rfc3339Parser, value: RichValue)
    : (r: Result<Option<OffsetDateTime>, ConvertRichValueToOptionOffsetDateTimeError>)
    ensures !RichValueToString.IsStringScalar(value) ==>
      r == Err(ConvertRichValueToOptionOffsetDateTimeError.ConvertStringFailed(RichValueToString.TryFrom(value).error))
    ensures RichValueToString.IsStringScalar(value) ==>
      var t := Trim(NormalizeOwnedRichString(value.single.scalar.text));
      (r == Ok(None) <==> t == [])
      && (t != [] && parse(t).Ok? ==> r == Ok(Some(parse(t).value)))
      && (t != [] && parse(t).Err? ==>
            r == Err(ConvertRichValueToOptionOffsetDateTimeError.OffsetDateTimeParseFailed(parse(t).error, t)))
  {
    match RichValueToString.TryFrom(value)
    case Err(source) => Err(ConvertRichValueToOptionOffsetDateTimeError.ConvertStringFailed(source))
    case Ok(text) =>
      var trimmed := Trim(text);
      if trimmed == [] then Ok(None)
      else
        match parse(trimmed)
        case Err(source) => Err(ConvertRichValueToOptionOffsetDateTimeError.OffsetDateTimeParseFailed(source, trimmed))
        case Ok(instant) => Ok(Some(instant))
  }

  /** The borrowed conversion is the owned one with the payloads dropped, for every parser. */
  lemma RefIsErasedOwned(parse: Rfc3339Parser, value: RichValue)
    ensures TryFromRef(parse, value) == TryFrom(parse, value).MapErr(Erase)
  {
    RichValueToString.RefIsErasedOwned(value);
  }

  /**
   * The parser only ever sees trimmed, non-blank text, and blank text never
   * reaches it: `None` comes exactly from a string scalar that is blank once
   * its fence is removed.
   */
  lemma ParserSeesTrimmedText(parse: Rfc3339Parser, value: RichValue)
    ensures TryFrom(parse, value) == Ok(None) <==>
      (RichValueToString.IsStringScalar(value) && IsBlank(NormalizeOwnedRichString(value.single.scalar.text)))
    ensures TryFrom(parse, value).Err? && TryFrom(parse, value).error.OffsetDateTimeParseFailed? ==>
      var t := TryFrom(parse, value).error.value;
      t != [] && !IsWs(t[0]) && !IsWs(t[|t| - 1]) && parse(t).Err?
  {
  }

  /**
   * Whitespace just inside the fence does not reach the parser: fenced,
   * padded text converts exactly as the bare text.
   */
  lemma FencedPaddingIsTrimmed(parse: Rfc3339Parser, a: string, text: string, b: string)
    requires IsBlank(a) && IsBlank(b) && !IsFenced(text)
    ensures TryFrom(parse, RichValue.Single(Scalar(Types.ScalarValue.Variant0(Fence + (a + text + b) + Fence))))
      == TryFrom(parse, RichValue.Single(Scalar(Types.ScalarValue.Variant0(text))))
  {
    FenceAroundIsStripped(a + text + b);
    TrimPadded(a, text, b);
  }
}
