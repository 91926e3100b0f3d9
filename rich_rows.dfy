/**
 * The rich cell representation of `src/ext/rich_rows.rs`: a value is one
 * linked-data item or a collection of them. Only the shapes are modelled;
 * how serde picks a variant when it reads JSON is not.
 */
module RichRows {
  import opened Wrappers
  import opened Types

  datatype RichValue =
    | Single(single: RichSingleValue)
    | Collection(entries: seq<RichValueEntry>)

  datatype RichValueEntry =
    | Single(single: RichSingleValue)
    | Many(values: seq<RichSingleValue>)

  datatype RichSingleValue =
    | Scalar(scalar: ScalarValue)
    | Currency(currency: RichCurrencyValue)
    | Image(image: RichImageValue)
    | Person(person: RichPersonValue)
    | Url(url: RichUrlValue)
    | Row(reference: RichRowReference)

  datatype RichCurrencyValue = RichCurrencyValue(
    context: string,
    linkedDataType: LinkedDataType,
    additionalType: Option<string>,
    currency: string,
    amount: CurrencyAmount)

  datatype RichImageValue = RichImageValue(
    context: string,
    linkedDataType: LinkedDataType,
    additionalType: Option<string>,
    name: Option<string>,
    url: Option<string>,
    height: Option<Number>,
    width: Option<Number>,
    status: Option<ImageStatus>)

  datatype RichPersonValue = RichPersonValue(
    context: string,
    linkedDataType: LinkedDataType,
    additionalType: Option<string>,
    name: string,
    email: Option<string>)

  datatype RichUrlValue = RichUrlValue(
    context: string,
    linkedDataType: LinkedDataType,
    additionalType: Option<string>,
    name: Option<string>,
    url: string)

  /** A reference to a row of another table; the row itself is not held. */
  datatype RichRowReference = RichRowReference(
    context: string,
    linkedDataType: LinkedDataType,
    additionalType: string,
    name: string,
    url: string,
    tableId: string,
    rowId: string,
    tableUrl: string)
}
