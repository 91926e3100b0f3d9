/**
 * The second copy of the `CellValue` conversions (`src/parse.rs`). It has
 * its own error types and a strict `bool` conversion in place of
 * `Option<bool>`; the lemmas at the end relate each conversion to its
 * counterpart in `ParseCellValue`.
 */
module Parse {
  import opened Wrappers
  import opened Text
  import opened IntParse
  import opened Time
  import opened Types
  import DurationValueParser
  import ParseCellValue

  datatype ConvertCellValueToStringError = InvalidCellValue(cellValue: CellValue)
  datatype ConvertCellValueToF64Error = InvalidCellValue(cellValue: CellValue)
  datatype ConvertCellValueToBoolError = InvalidCellValue(cellValue: CellValue)

  datatype ConvertCellValueToOptionDurationError =
    | ConvertCellValueToStringFailed(stringError: ConvertCellValueToStringError)
    | NumberNotFound
    | NumberParseFailed(source: ParseIntError)
    | UnitNotFound
    | UnitUnexpected

  datatype ConvertCellValueToOptionOffsetDateTimeError =
    | ConvertCellValueToStringFailed(stringError: ConvertCellValueToStringError)
    | OffsetDateTimeParseFailed(timeError: TimeError)

  datatype ConvertCellValueError =
    | ConvertCellValueToStringFailed(stringError: ConvertCellValueToStringError)
    | ConvertCellValueToF64Failed(f64Error: ConvertCellValueToF64Error)
    | ConvertCellValueToBoolFailed(boolError: ConvertCellValueToBoolError)
    | ConvertCellValueToOffsetDateTimeFailed(timestampError: ConvertCellValueToOptionOffsetDateTimeError)

  /** `String::try_from(CellValue)`. */
  function ToString(cell: CellValue): (r: Result<string, ConvertCellValueToStringError>)
    ensures forall s {:trigger ParseCellValue.TextCell(s)} {:trigger ParseCellValue.RichTextCell(s)} ::
      r == Ok(s) <==> cell == ParseCellValue.TextCell(s) || cell == ParseCellValue.RichTextCell(s)
    ensures r.Err? ==> r.error == ConvertCellValueToStringError.InvalidCellValue(cell)
  {
    match cell
    case Value(Variant0(Variant0(value))) => Ok(value)
    case RichValue(Variant0(ScalarValue(Variant0(value)))) => Ok(value)
    case cellValue => Err(ConvertCellValueToStringError.InvalidCellValue(cellValue))
  }

  /** `f64::try_from(CellValue)`. */
  function ToF64(cell: CellValue): (r: Result<Number, ConvertCellValueToF64Error>)
    ensures forall x: Number ::
      r == Ok(x) <==>
        (cell == CellValue.Value(Value.Variant0(ValueVariant0.Variant1(x)))
         || cell == CellValue.RichValue(RichValue.Variant0(RichSingleValue.ScalarValue(ScalarValue.Variant1(x)))))
    ensures r.Err? ==> r.error == ConvertCellValueToF64Error.InvalidCellValue(cell)
  {
    match cell
    case Value(Variant0(Variant1(value))) => Ok(value)
    case RichValue(Variant0(ScalarValue(Variant1(value)))) => Ok(value)
    case cellValue => Err(ConvertCellValueToF64Error.InvalidCellValue(cellValue))
  }

  /** `bool::try_from(CellValue)`: only a plain or rich boolean converts. */
  function ToBool(cell: CellValue): (r: Result<bool, ConvertCellValueToBoolError>)
    ensures forall b: bool ::
      r == Ok(b) <==>
        (cell == CellValue.Value(Value.Variant0(ValueVariant0.Variant2(b)))
         || cell == CellValue.RichValue(RichValue.Variant0(RichSingleValue.ScalarValue(ScalarValue.Variant2(b)))))
    ensures r.Err? ==> r.error == ConvertCellValueToBoolError.InvalidCellValue(cell)
  {
    match cell
    case Value(Variant0(Variant2(value))) => Ok(value)
    case RichValue(Variant0(ScalarValue(Variant2(value)))) => Ok(value)
    case cellValue => Err(ConvertCellValueToBoolError.InvalidCellValue(cellValue))
  }

  /** `Option<OffsetDateTime>::try_from(CellValue)`, with `parse` for `OffsetDateTime::parse(_, &Rfc3339)`. */
  function ToOptionOffsetDateTime(parse: Rfc3339Parser, cell: CellValue)
    : (r: Result<Option<OffsetDateTime>, ConvertCellValueToOptionOffsetDateTimeError>)
    ensures ToString(cell).Err? ==>
      r == Err(ConvertCellValueToOptionOffsetDateTimeError.ConvertCellValueToStringFailed(ToString(cell).error))
    ensures ToString(cell).Ok? ==>
      var s := ToString(cell).value;
      (r == Ok(None) <==> s == [])
      && (s != [] && parse(s).Ok? ==> r == Ok(Some(parse(s).value)))
      && (s != [] && parse(s).Err? ==>
            r == Err(ConvertCellValueToOptionOffsetDateTimeError.OffsetDateTimeParseFailed(TimeError.Parse(parse(s).error))))
  {
    match ToString(cell)
    case Err(source) => Err(ConvertCellValueToOptionOffsetDateTimeError.ConvertCellValueToStringFailed(source))
    case Ok(text) =>
      if text == [] then Ok(None)
      else
        match parse(text)
        case Err(source) => Err(ConvertCellValueToOptionOffsetDateTimeError.OffsetDateTimeParseFailed(TimeError.Parse(source)))
        case Ok(instant) => Ok(Some(instant))
  }

  /** The pieces of `split(' ')` read as a duration. */
  function DurationFromPieces(pieces: seq<string>): (r: Result<Option<Duration>, ConvertCellValueToOptionDurationError>)
    ensures r != Ok(None)
  {
    if |pieces| == 0 then Err(NumberNotFound)
    else if |pieces| == 1 then Err(UnitNotFound)
    else
      var numberStr, unitStr := pieces[0], pieces[1];
      match ParseI64(numberStr)
      case Err(source) => Err(NumberParseFailed(source))
      case Ok(number) =>
        if unitStr == "second" || unitStr == "seconds" then Ok(Some(Seconds(number)))
        else if unitStr == "minute" || unitStr == "minutes" then Ok(Some(Minutes(number)))
        else if unitStr == "hour" || unitStr == "hours" then Ok(Some(Hours(number)))
        else if unitStr == "day" || unitStr == "days" then Ok(Some(Days(number)))
        else Err(UnitUnexpected)
  }

  /** `Option<Duration>::try_from(CellValue)`. */
  function ToOptionDuration(cell: CellValue): (r: Result<Option<Duration>, ConvertCellValueToOptionDurationError>)
    ensures ToString(cell).Err? ==>
      r == Err(ConvertCellValueToOptionDurationError.ConvertCellValueToStringFailed(ToString(cell).error))
    ensures ToString(cell).Ok? ==> (r == Ok(None) <==> ToString(cell).value == [])
  {
    match ToString(cell)
    case Err(source) => Err(ConvertCellValueToOptionDurationError.ConvertCellValueToStringFailed(source))
    case Ok(text) =>
      if text == [] then Ok(None)
      else DurationFromPieces(SplitOn(text, ' '))
  }

  /** The error of the other copy that corresponds to each error here. */
  function StringErrorOf(e: ParseCellValue.ConvertCellValueToStringError): ConvertCellValueToStringError
  {
    ConvertCellValueToStringError.InvalidCellValue(e.cellValue)
  }

  function F64ErrorOf(e: ParseCellValue.ConvertCellValueToF64Error): ConvertCellValueToF64Error
  {
    ConvertCellValueToF64Error.InvalidCellValue(e.cellValue)
  }

  function DurationErrorOf(e: ParseCellValue.ConvertCellValueToOptionDurationError): ConvertCellValueToOptionDurationError
  {
    match e
    case ConvertCellValueToStringFailed(source) =>
      ConvertCellValueToOptionDurationError.ConvertCellValueToStringFailed(StringErrorOf(source))
    case NumberNotFound => NumberNotFound
    case NumberParseFailed(source) => NumberParseFailed(source)
    case UnitNotFound => UnitNotFound
    case UnitUnexpected => UnitUnexpected
  }

  function TimestampErrorOf(e: ParseCellValue.ConvertCellValueToOptionOffsetDateTimeError)
    : ConvertCellValueToOptionOffsetDateTimeError
  {
    match e
    case ConvertCellValueToStringFailed(source) =>
      ConvertCellValueToOptionOffsetDateTimeError.ConvertCellValueToStringFailed(StringErrorOf(source))
    case OffsetDateTimeParseFailed(source) =>
      ConvertCellValueToOptionOffsetDateTimeError.OffsetDateTimeParseFailed(source)
  }

  /** The `String` and `f64` conversions of the two copies agree, error for error. */
  lemma StringAndF64Agree(cell: CellValue)
    ensures ToString(cell) == ParseCellValue.ToString(cell).MapErr(StringErrorOf)
    ensures ToF64(cell) == ParseCellValue.ToF64(cell).MapErr(F64ErrorOf)
  {
  }

  /** The two duration readers agree, error for error, on every cell. */
  lemma DurationAgrees(cell: CellValue)
    ensures ToOptionDuration(cell) == ParseCellValue.ToOptionDuration(cell).MapErr(DurationErrorOf)
  {
    StringAndF64Agree(cell);
    if ToString(cell).Ok? && ToString(cell).value != [] {
      var pieces := SplitOn(ToString(cell).value, ' ');
      assert DurationFromPieces(pieces) == ParseCellValue.DurationFromPieces(pieces).MapErr(DurationErrorOf);
    }
  }

  /** The two timestamp readers agree, error for error, for every parser. */
  lemma TimestampAgrees(parse: Rfc3339Parser, cell: CellValue)
    ensures ToOptionOffsetDateTime(parse, cell)
      == ParseCellValue.ToOptionOffsetDateTime(parse, cell).MapErr(TimestampErrorOf)
  {
    StringAndF64Agree(cell);
  }

  /**
   * The strict `bool` conversion is the `Option<bool>` one without the
   * unset case: they succeed together with the same value, except on the
   * empty plain string, which is `None` there and an error here.
   */
  lemma BoolIsStrictOptionBool(cell: CellValue)
    ensures ToBool(cell).Ok? ==> ParseCellValue.ToOptionBool(cell) == Ok(Some(ToBool(cell).value))
    ensures ParseCellValue.ToOptionBool(cell).Ok? && ParseCellValue.ToOptionBool(cell).value.Some? ==>
      ToBool(cell) == Ok(ParseCellValue.ToOptionBool(cell).value.value)
    ensures ToBool(ParseCellValue.TextCell("")) ==
      Err(ConvertCellValueToBoolError.InvalidCellValue(ParseCellValue.TextCell("")))
  {
  }

  /** `NumberNotFound` is never returned, and a text without a space is a missing unit. */
  lemma DurationPiecesAsInOtherCopy(cell: CellValue, s: string)
    ensures ToOptionDuration(cell) != Err(NumberNotFound)
    ensures s != [] && ' ' !in s ==> ToOptionDuration(ParseCellValue.TextCell(s)) == Err(UnitNotFound)
  {
    DurationAgrees(cell);
    ParseCellValue.NumberNotFoundUnreachable(cell);
    if s != [] && ' ' !in s {
      DurationAgrees(ParseCellValue.TextCell(s));
      ParseCellValue.NoSpaceIsUnitNotFound(s);
    }
  }

  /**
   * `"<i64> <unit>"` reads by the exact lowercase unit table: a known unit
   * gives the number times its length in seconds, anything else
   * `UnitUnexpected`; text after a further space is never looked at.
   */
  lemma NumberUnitCellDuration(n: int, unit: string, rest: string)
    requires IsI64(n) && ' ' !in unit
    requires rest == [] || rest[0] == ' '
    ensures ToOptionDuration(ParseCellValue.TextCell(I64ToString(n) + " " + unit + rest)) ==
      if DurationValueParser.UnitScale(unit).None? then Err(UnitUnexpected)
      else Ok(Some(Duration(n * DurationValueParser.UnitScale(unit).value)))
  {
    DurationAgrees(ParseCellValue.TextCell(I64ToString(n) + " " + unit + rest));
    ParseCellValue.NumberUnitCellDuration(n, unit, rest);
  }
}
