/**
 * `TryFrom<&RichValue>` and `TryFrom<RichValue>` for `Option<bool>`
 * (`src/ext/parse_rich_value/impl_try_from_rich_value_for_option_bool.rs`):
 * a boolean scalar gives `Some`, a blank string scalar (an "unset" checkbox)
 * gives `None`, and every other shape fails with an error naming the layer
 * that did not match.
 */
module RichValueToOptionBool {
  import opened Wrappers
  import opened Text
  import Types
  import opened RichRows

  datatype ConvertRichValueRefToOptionBoolError =
    | RichValueCollection
    | RichSingleValueNotScalar
    | ScalarNotBoolean
    | StringScalarNotEmpty

  datatype ConvertRichValueToOptionBoolError =
    | RichValueCollection(richValue: RichValue)
    | RichSingleValueNotScalar(richSingleValue: RichSingleValue)
    | ScalarNotBoolean(scalarValue: Types.ScalarValue)
    | StringScalarNotEmpty(text: string)

  function Erase(e: ConvertRichValueToOptionBoolError): ConvertRichValueRefToOptionBoolError
  {
    match e
    case RichValueCollection(_) => ConvertRichValueRefToOptionBoolError.RichValueCollection
    case RichSingleValueNotScalar(_) => ConvertRichValueRefToOptionBoolError.RichSingleValueNotScalar
    case ScalarNotBoolean(_) => ConvertRichValueRefToOptionBoolError.ScalarNotBoolean
    case StringScalarNotEmpty(_) => ConvertRichValueRefToOptionBoolError.StringScalarNotEmpty
  }

  /** `Option<bool>::try_from(&RichValue)`. */
  function TryFromRef(value: RichValue): (r: Result<Option<bool>, ConvertRichValueRefToOptionBoolError>)
    ensures value.Single? && value.single.Scalar? && value.single.scalar.Variant2? ==>
      r == Ok(Some(value.single.scalar.boolean))
    ensures value.Single? && value.single.Scalar? && value.single.scalar.Variant0? ==>
      r == if IsBlank(value.single.scalar.text) then Ok(None)
           else Err(ConvertRichValueRefToOptionBoolError.StringScalarNotEmpty)
    ensures value.Single? && value.single.Scalar? && value.single.scalar.Variant1? ==>
      r == Err(ConvertRichValueRefToOptionBoolError.ScalarNotBoolean)
    ensures value.Single? && !value.single.Scalar? ==>
      r == Err(ConvertRichValueRefToOptionBoolError.RichSingleValueNotScalar)
    ensures value.Collection? ==> r == Err(ConvertRichValueRefToOptionBoolError.RichValueCollection)
  {
    match value
    case Single(single) =>
      (match single
       case Scalar(scalar) =>
         (match scalar
          case Variant2(boolean) => Ok(Some(boolean))
          case Variant0(text) =>
            if Trim(text) == [] then Ok(None)
            else Err(ConvertRichValueRefToOptionBoolError.StringScalarNotEmpty)
          case _ => Err(ConvertRichValueRefToOptionBoolError.ScalarNotBoolean))
       case _ => Err(ConvertRichValueRefToOptionBoolError.RichSingleValueNotScalar))
    case _ => Err(ConvertRichValueRefToOptionBoolError.RichValueCollection)
  }

  /** `Option<bool>::try_from(RichValue)`: each error carries the part that did not match. */
  function TryFrom(value: RichValue): (r: Result<Option<bool>, ConvertRichValueToOptionBoolError>)
    ensures value.Single? && value.single.Scalar? && value.single.scalar.Variant2? ==>
      r == Ok(Some(value.single.scalar.boolean))
    ensures value.Single? && value.single.Scalar? && value.single.scalar.Variant0? ==>
      r == if IsBlank(value.single.scalar.text) then Ok(None)
           else Err(ConvertRichValueToOptionBoolError.StringScalarNotEmpty(value.single.scalar.text))
    ensures value.Single? && value.single.Scalar? && value.single.scalar.Variant1? ==>
      r == Err(ConvertRichValueToOptionBoolError.ScalarNotBoolean(value.single.scalar))
    ensures value.Single? && !value.single.Scalar? ==>
      r == Err(ConvertRichValueToOptionBoolError.RichSingleValueNotScalar(value.single))
    ensures value.Collection? ==> r == Err(ConvertRichValueToOptionBoolError.RichValueCollection(value))
  {
    match value
    case Single(single) =>
      (match single
       case Scalar(scalar) =>
         (match scalar
          case Variant2(boolean) => Ok(Some(boolean))
          case Variant0(text) =>
            if Trim(text) == [] then Ok(None)
            else Err(ConvertRichValueToOptionBoolError.StringScalarNotEmpty(text))
          case scalarValue => Err(ConvertRichValueToOptionBoolError.ScalarNotBoolean(scalarValue)))
       case richSingleValue => Err(ConvertRichValueToOptionBoolError.RichSingleValueNotScalar(richSingleValue)))
    case richValue => Err(ConvertRichValueToOptionBoolError.RichValueCollection(richValue))
  }

  /** The borrowed conversion is the owned one with the payload dropped. */
  lemma RefIsErasedOwned(value: RichValue)
    ensures TryFromRef(value) == TryFrom(value).MapErr(Erase)
  {
  }

  /**
   * `None` comes only from a blank string scalar, and the test looks at the
   * raw text: a bare fence is not blank, so it is an error, not `None`.
   */
  lemma NoneOnlyFromBlankText(value: RichValue)
    ensures TryFrom(value) == Ok(None) <==>
      (value.Single? && value.single.Scalar? && value.single.scalar.Variant0?
       && IsBlank(value.single.scalar.text))
    ensures TryFrom(RichValue.Single(Scalar(Types.ScalarValue.Variant0("``````"))))
      == Err(ConvertRichValueToOptionBoolError.StringScalarNotEmpty("``````"))
  {
    assert !IsWs("``````"[0]);
  }
}
