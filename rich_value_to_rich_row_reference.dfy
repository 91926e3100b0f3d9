/**
 * `TryFrom<&RichValue>` and `TryFrom<RichValue>` for `RichRowReference`
 * (`src/ext/parse_rich_value/impl_try_from_rich_value_for_rich_row_reference.rs`):
 * only a single row reference converts; a collection never does, whatever it holds.
 */
module RichValueToRichRowReference {
  import opened Wrappers
  import opened RichRows

  datatype ConvertRichValueRefToRichRowReferenceError = RichValueIsNotRichRowReference

  datatype ConvertRichValueToRichRowReferenceError = RichValueIsNotRichRowReference(richValue: RichValue)

  function Erase(e: ConvertRichValueToRichRowReferenceError): ConvertRichValueRefToRichRowReferenceError
  {
    ConvertRichValueRefToRichRowReferenceError.RichValueIsNotRichRowReference
  }

  /** `RichRowReference::try_from(&RichValue)`: a clone, equal to the referenced value. */
  function TryFromRef(value: RichValue): (r: Result<RichRowReference, ConvertRichValueRefToRichRowReferenceError>)
    ensures r.Ok? <==> value.Single? && value.single.Row?
    ensures r.Ok? ==> value == RichValue.Single(Row(r.value))
  {
    match value
    case Single(Row(reference)) => Ok(reference)
    case _ => Err(ConvertRichValueRefToRichRowReferenceError.RichValueIsNotRichRowReference)
  }

  /** `RichRowReference::try_from(RichValue)`: the error gives the input back unchanged. */
  function TryFrom(value: RichValue): (r: Result<RichRowReference, ConvertRichValueToRichRowReferenceError>)
    ensures r.Ok? <==> value.Single? && value.single.Row?
    ensures r.Ok? ==> value == RichValue.Single(Row(r.value))
    ensures r.Err? ==> r.error.richValue == value
  {
    match value
    case Single(Row(reference)) => Ok(reference)
    case richValue => Err(ConvertRichValueToRichRowReferenceError.RichValueIsNotRichRowReference(richValue))
  }

  /** The borrowed conversion is the owned one with the payload dropped. */
  lemma RefIsErasedOwned(value: RichValue)
    ensures TryFromRef(value) == TryFrom(value).MapErr(Erase)
  {
  }

  /** A collection fails even when every entry is a row reference. */
  lemma CollectionOfRowsFails(reference: RichRowReference)
    ensures TryFrom(Collection([RichValueEntry.Single(Row(reference))])).Err?
    ensures TryFrom(Collection([Many([Row(reference), Row(reference)])])).Err?
  {
  }
}
