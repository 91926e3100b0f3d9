/**
 * `TryFrom<&RichValue>` and `TryFrom<RichValue>` for `String`
 * (`src/ext/parse_rich_value/impl_try_from_rich_value_for_string.rs`):
 * only a string scalar converts, to its text with one fence removed.
 */
module RichValueToString {
  import opened Wrappers
  import Types
  import opened RichRows
  import opened ParseRichValue

  /** `ConvertRichValueRefToStringError`: which layer of the value was wrong. */
  datatype ConvertRichValueRefToStringError =
    | RichValueCollection
    | RichSingleValueNotScalar
    | ScalarNotString

  /** `ConvertRichValueToStringError`: the same, carrying the offending part. */
  datatype ConvertRichValueToStringError =
    | RichValueCollection(richValue: RichValue)
    | RichSingleValueNotScalar(richSingleValue: RichSingleValue)
    | ScalarNotString(scalarValue: Types.ScalarValue)

  /** The borrowed error that corresponds to an owned one: its payload dropped. */
  function Erase(e: ConvertRichValueToStringError): ConvertRichValueRefToStringError
  {
    match e
    case RichValueCollection(_) => ConvertRichValueRefToStringError.RichValueCollection
    case RichSingleValueNotScalar(_) => ConvertRichValueRefToStringError.RichSingleValueNotScalar
    case ScalarNotString(_) => ConvertRichValueRefToStringError.ScalarNotString
  }

  /** A string scalar: the one shape both conversions accept. */
  predicate IsStringScalar(value: RichValue) {
    value.Single? && value.single.Scalar? && value.single.scalar.Variant0?
  }

  /** `String::try_from(&RichValue)`. */
  function TryFromRef(value: RichValue): (r: Result<string, ConvertRichValueRefToStringError>)
    ensures r.Ok? <==> IsStringScalar(value)
    ensures r.Ok? ==> r.value == NormalizeRichString(value.single.scalar.text)
    ensures r == Err(ConvertRichValueRefToStringError.RichValueCollection) <==> value.Collection?
    ensures r == Err(ConvertRichValueRefToStringError.RichSingleValueNotScalar)
      <==> value.Single? && !value.single.Scalar?
    ensures r == Err(ConvertRichValueRefToStringError.ScalarNotString)
      <==> value.Single? && value.single.Scalar? && !value.single.scalar.Variant0?
  {
    match value
    case Single(single) =>
      (match single
       case Scalar(scalar) =>
         (match scalar
          case Variant0(text) => Ok(NormalizeRichString(text))
          case _ => Err(ConvertRichValueRefToStringError.ScalarNotString))
       case _ => Err(ConvertRichValueRefToStringError.RichSingleValueNotScalar))
    case _ => Err(ConvertRichValueRefToStringError.RichValueCollection)
  }

  /** `String::try_from(RichValue)`: each error carries the part that did not match. */
  function TryFrom(value: RichValue): (r: Result<string, ConvertRichValueToStringError>)
    ensures r.Ok? <==> IsStringScalar(value)
    ensures r.Ok? ==> r.value == NormalizeOwnedRichString(value.single.scalar.text)
    ensures value.Collection? ==> r == Err(ConvertRichValueToStringError.RichValueCollection(value))
    ensures value.Single? && !value.single.Scalar? ==> r == Err(ConvertRichValueToStringError.RichSingleValueNotScalar(value.single))
    ensures IsStringScalar(value) || value.Collection? || !value.single.Scalar?
      || r == Err(ConvertRichValueToStringError.ScalarNotString(value.single.scalar))
  {
    match value
    case Single(single) =>
      (match single
       case Scalar(scalar) =>
         (match scalar
          case Variant0(text) => Ok(NormalizeOwnedRichString(text))
          case scalarValue => Err(ConvertRichValueToStringError.ScalarNotString(scalarValue)))
       case richSingleValue => Err(ConvertRichValueToStringError.RichSingleValueNotScalar(richSingleValue)))
    case richValue => Err(ConvertRichValueToStringError.RichValueCollection(richValue))
  }

  /**
   * The borrowed conversion is the owned one with the error payload
   * dropped: both succeed on the same values with the same string, and
   * their errors correspond variant by variant.
   */
  lemma RefIsErasedOwned(value: RichValue)
    ensures TryFromRef(value) == TryFrom(value).MapErr(Erase)
  {
    if IsStringScalar(value) {
      NormalizersAgree(value.single.scalar.text);
    }
  }

  /** An owned error always carries a part of the input: the value, its single item, or its scalar. */
  lemma OwnedErrorCarriesInput(value: RichValue)
    ensures TryFrom(value).Err? ==>
      match TryFrom(value).error
      case RichValueCollection(v) => v == value
      case RichSingleValueNotScalar(s) => value == RichValue.Single(s)
      case ScalarNotString(sc) => value == RichValue.Single(Scalar(sc)) && !sc.Variant0?
  {
  }
}
