/**
 * `TryFrom<&RichValue>` and `TryFrom<RichValue>` for `bool`
 * (`src/ext/parse_rich_value/impl_try_from_rich_value_for_bool.rs`):
 * strict, only a boolean scalar converts.
 */
module RichValueToBool {
  import opened Wrappers
  import Types
  import opened RichRows

  /** `ConvertRichValueRefToBoolError`. */
  datatype ConvertRichValueRefToBoolError = InvalidInput

  /** `ConvertRichValueToBoolError`: carries the whole rejected value. */
  datatype ConvertRichValueToBoolError = InvalidInput(richValue: RichValue)

  function Erase(e: ConvertRichValueToBoolError): ConvertRichValueRefToBoolError
  {
    ConvertRichValueRefToBoolError.InvalidInput
  }

  predicate IsBoolScalar(value: RichValue) {
    value.Single? && value.single.Scalar? && value.single.scalar.Variant2?
  }

  /** `bool::try_from(&RichValue)`. */
  function TryFromRef(value: RichValue): (r: Result<bool, ConvertRichValueRefToBoolError>)
    ensures r.Ok? <==> IsBoolScalar(value)
    ensures r.Ok? ==> r.value == value.single.scalar.boolean
  {
    match value
    case Single(Scalar(Variant2(boolean))) => Ok(boolean)
    case _ => Err(ConvertRichValueRefToBoolError.InvalidInput)
  }

  /** `bool::try_from(RichValue)`: the error gives the input back unchanged. */
  function TryFrom(value: RichValue): (r: Result<bool, ConvertRichValueToBoolError>)
    ensures r.Ok? <==> IsBoolScalar(value)
    ensures r.Ok? ==> r.value == value.single.scalar.boolean
    ensures r.Err? ==> r.error.richValue == value
  {
    match value
    case Single(Scalar(Variant2(boolean))) => Ok(boolean)
    case richValue => Err(ConvertRichValueToBoolError.InvalidInput(richValue))
  }

  /** The borrowed conversion is the owned one with the payload dropped. */
  lemma RefIsErasedOwned(value: RichValue)
    ensures TryFromRef(value) == TryFrom(value).MapErr(Erase)
  {
  }

  /** No string converts, not even the empty one or "true". */
  lemma StringsAreRejected(text: string)
    ensures TryFrom(RichValue.Single(Scalar(Types.ScalarValue.Variant0(text))))
      == Err(ConvertRichValueToBoolError.InvalidInput(RichValue.Single(Scalar(Types.ScalarValue.Variant0(text)))))
    ensures TryFromRef(RichValue.Single(Scalar(Types.ScalarValue.Variant0(""))))
      == Err(ConvertRichValueRefToBoolError.InvalidInput)
    ensures TryFromRef(RichValue.Single(Scalar(Types.ScalarValue.Variant0("true"))))
      == Err(ConvertRichValueRefToBoolError.InvalidInput)
  {
  }
}
