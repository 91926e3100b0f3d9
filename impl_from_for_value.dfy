/**
 * The `From` conversions into the generated `Value`
 * (`src/ext/impl_from_for_value.rs`), and the round trips they complete
 * with the `CellValue` conversions of both copies.
 */
module ImplFromForValue {
  import opened Wrappers
  import opened Types
  import ParseCellValue
  import Parse

  /** `ValueVariant0::from(String)`. */
  function ValueVariant0FromString(value: string): ValueVariant0 {
    ValueVariant0.Variant0(value)
  }

  /** `Value::from(String)`, through `ValueVariant0::from`. */
  function ValueFromString(value: string): Value {
    Value.Variant0(ValueVariant0FromString(value))
  }

  /** `Value::from(f64)`, through the generated `ValueVariant0::from(f64)`. */
  function ValueFromF64(value: Number): Value {
    Value.Variant0(ValueVariant0.Variant1(value))
  }

  /** `Value::from(bool)`, through the generated `ValueVariant0::from(bool)`. */
  function ValueFromBool(value: bool): Value {
    Value.Variant0(ValueVariant0.Variant2(value))
  }

  /**
   * A string put into a cell comes back out unchanged from both `String`
   * conversions, and is never read as a number or a boolean; the empty
   * string is the unset boolean of the older copy.
   */
  lemma StringRoundTrip(s: string)
    ensures ParseCellValue.ToString(CellValue.Value(ValueFromString(s))) == Ok(s)
    ensures Parse.ToString(CellValue.Value(ValueFromString(s))) == Ok(s)
    ensures ParseCellValue.ToF64(CellValue.Value(ValueFromString(s))).Err?
    ensures Parse.ToBool(CellValue.Value(ValueFromString(s))).Err?
    ensures ParseCellValue.ToOptionBool(CellValue.Value(ValueFromString(s))) ==
      if s == [] then Ok(None)
      else Err(ParseCellValue.ConvertCellValueToBoolError.InvalidCellValue(CellValue.Value(ValueFromString(s))))
  {
  }

  /** A number put into a cell comes back out from both `f64` conversions, and is not a string. */
  lemma F64RoundTrip(x: Number)
    ensures ParseCellValue.ToF64(CellValue.Value(ValueFromF64(x))) == Ok(x)
    ensures Parse.ToF64(CellValue.Value(ValueFromF64(x))) == Ok(x)
    ensures ParseCellValue.ToString(CellValue.Value(ValueFromF64(x))).Err?
  {
  }

  /** A boolean put into a cell comes back out from the strict and the optional conversion. */
  lemma BoolRoundTrip(b: bool)
    ensures Parse.ToBool(CellValue.Value(ValueFromBool(b))) == Ok(b)
    ensures ParseCellValue.ToOptionBool(CellValue.Value(ValueFromBool(b))) == Ok(Some(b))
    ensures ParseCellValue.ToString(CellValue.Value(ValueFromBool(b))).Err?
  {
  }

  /** The three `From` conversions are injective and never confuse their sources. */
  lemma FromIsInjective(s: string, t: string, x: Number, y: Number, b: bool, c: bool)
    ensures ValueFromString(s) == ValueFromString(t) ==> s == t
    ensures ValueFromF64(x) == ValueFromF64(y) ==> x == y
    ensures ValueFromBool(b) == ValueFromBool(c) ==> b == c
    ensures ValueFromString(s) != ValueFromF64(x) && ValueFromString(s) != ValueFromBool(b)
      && ValueFromF64(x) != ValueFromBool(b)
  {
  }
}
