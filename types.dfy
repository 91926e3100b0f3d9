/**
 * The shapes of the generated `types` module that the cell conversions
 * match on. Only the variants those matches name are spelled out; every
 * other variant of a generated enum is collapsed into `Other`, which keeps
 * the raw JSON text of the value so that distinct values stay distinct.
 */
module Types {

  /** An `f64`, kept as its 64-bit pattern: the conversions never compute with it. */
  datatype Number = Number(bits: bv64)

  /** `ScalarValue`: a JSON string, number or boolean. */
  datatype ScalarValue =
    | Variant0(text: string)
    | Variant1(number: Number)
    | Variant2(boolean: bool)

  /** `ValueVariant0`: a plain JSON string, number or boolean. */
  datatype ValueVariant0 =
    | Variant0(text: string)
    | Variant1(number: Number)
    | Variant2(boolean: bool)

  /** `Value`: the plain cell representation. */
  datatype Value =
    | Variant0(scalar: ValueVariant0)
    | Other(raw: string)

  /** The generated `RichSingleValue`. */
  datatype RichSingleValue =
    | ScalarValue(scalar: ScalarValue)
    | Other(raw: string)

  /** The generated `RichValue`. */
  datatype RichValue =
    | Variant0(single: RichSingleValue)
    | Other(raw: string)

  /** `CellValue`: a cell as the API returns it, plain or rich. */
  datatype CellValue =
    | Value(value: Value)
    | RichValue(richValue: RichValue)

  /** `LinkedDataType`, `CurrencyAmount` and `ImageStatus`: generated types kept as their JSON text. */
  datatype LinkedDataType = LinkedDataType(name: string)
  datatype CurrencyAmount = CurrencyAmount(raw: string)
  datatype ImageStatus = ImageStatus(name: string)
}
