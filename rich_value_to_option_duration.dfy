/**
 * `TryFrom<&RichValue>` and `TryFrom<RichValue>` for `Option<Duration>`
 * (`src/ext/parse_rich_value/impl_try_from_rich_value_for_option_duration.rs`):
 * the value is first converted to a string (one fence removed), then read
 * by `parse_duration_value`.
 */
module RichValueToOptionDuration {
  import opened Wrappers
  import opened Text
  import Types
  import opened RichRows
  import opened ParseRichValue
  import RichValueToString
  import opened DurationValueParser
  import opened Time
  import IntParse

  datatype ConvertRichValueRefToOptionDurationError =
    | ConvertStringFailed(stringError: RichValueToString.ConvertRichValueRefToStringError)
    | DurationParseFailed(parseError: DurationValueParserError)

  /** The owned error; a failed parse also carries the string that was parsed. */
  datatype ConvertRichValueToOptionDurationError =
    | ConvertStringFailed(stringError: RichValueToString.ConvertRichValueToStringError)
    | DurationParseFailed(parseError: DurationValueParserError, value: string)

  function Erase(e: ConvertRichValueToOptionDurationError): ConvertRichValueRefToOptionDurationError
  {
    match e
    case ConvertStringFailed(source) =>
      ConvertRichValueRefToOptionDurationError.ConvertStringFailed(RichValueToString.Erase(source))
    case DurationParseFailed(source, _) =>
      ConvertRichValueRefToOptionDurationError.DurationParseFailed(source)
  }

  /** `Option<Duration>::try_from(&RichValue)`. */
  function TryFromRef(value: RichValue): (r: Result<Option<Duration>, ConvertRichValueRefToOptionDurationError>)
    ensures !RichValueToString.IsStringScalar(value) ==>
      r == Err(ConvertRichValueRefToOptionDurationError.ConvertStringFailed(RichValueToString.TryFromRef(value).error))
    ensures RichValueToString.IsStringScalar(value) ==>
      var s := NormalizeRichString(value.single.scalar.text);
      (r == Ok(None) <==> IsBlank(s))
      && (r.Ok? <==> ParseDurationValue(s).Ok?)
      && (r.Ok? ==> r.value == ParseDurationValue(s).value)
      && (r.Err? ==> r.error == ConvertRichValueRefToOptionDurationError.DurationParseFailed(ParseDurationValue(s).error))
  {
    match RichValueToString.TryFromRef(value)
    case Err(source) => Err(ConvertRichValueRefToOptionDurationError.ConvertStringFailed(source))
    case Ok(text) =>
      match ParseDurationValue(text)
      case Err(source) => Err(ConvertRichValueRefToOptionDurationError.DurationParseFailed(source))
      case Ok(duration) => Ok(duration)
  }

  /** `Option<Duration>::try_from(RichValue)`. */
  function TryFrom(value: RichValue): (r: Result<Option<Duration>, ConvertRichValueToOptionDurationError>)
    ensures !RichValueToString.IsStringScalar(value) ==>
      r == Err(ConvertRichValueToOptionDurationError.ConvertStringFailed(RichValueToString.TryFrom(value).error))
    ensures RichValueToString.IsStringScalar(value) ==>
      var s := NormalizeOwnedRichString(value.single.scalar.text);
      (r == Ok(None) <==> IsBlank(s))
      && (r.Ok? <==> ParseDurationValue(s).Ok?)
      && (r.Ok? ==> r.value == ParseDurationValue(s).value)
      && (r.Err? ==> r.error == ConvertRichValueToOptionDurationError.DurationParseFailed(ParseDurationValue(s).error, s))
  {
    match RichValueToString.TryFrom(value)
    case Err(source) => Err(ConvertRichValueToOptionDurationError.ConvertStringFailed(source))
    case Ok(text) =>
      match ParseDurationValue(text)
      case Err(source) => Err(ConvertRichValueToOptionDurationError.DurationParseFailed(source, text))
      case Ok(duration) => Ok(duration)
  }

  /** The borrowed conversion is the owned one with the payloads dropped, at both layers. */
  lemma RefIsErasedOwned(value: RichValue)
    ensures TryFromRef(value) == TryFrom(value).MapErr(Erase)
  {
    RichValueToString.RefIsErasedOwned(value);
  }

  /** A fenced `"<i64> <unit>"` is unwrapped before it is read: "```5 days```" is five days. */
  lemma FencedDuration(n: int, unit: string)
    requires IntParse.IsI64(n) && IsToken(unit) && UnitScale(ToAsciiLowercase(unit)).Some?
    ensures var text := Fence + (IntParse.I64ToString(n) + " " + unit) + Fence;
      TryFrom(RichValue.Single(Scalar(Types.ScalarValue.Variant0(text))))
        == Ok(Some(Duration(n * UnitScale(ToAsciiLowercase(unit)).value)))
  {
    FenceAroundIsStripped(IntParse.I64ToString(n) + " " + unit);
    WellFormedDuration(n, unit);
  }

  /** A fence around blank text is an unset duration. */
  lemma ExampleFencedBlank()
    ensures TryFrom(RichValue.Single(Scalar(Types.ScalarValue.Variant0("```  ```")))) == Ok(None)
  {
    var text := "```  ```";
    assert IsFenced(text);
    assert NormalizeOwnedRichString(text) == "  ";
    assert IsWs(' ');
  }
}
