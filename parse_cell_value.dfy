/**
 * The older conversions from a generated `CellValue`
 * (`src/ext/parse_cell_value.rs`): exact pattern matches on the plain and
 * the rich representation, with no fence stripping and no trimming. The
 * duration reader here splits on single spaces and matches units exactly.
 */
module ParseCellValue {
  import opened Wrappers
  import opened Text
  import opened IntParse
  import opened Time
  import opened Types
  import DurationValueParser

  datatype ConvertCellValueToStringError = InvalidCellValue(cellValue: CellValue)
  datatype ConvertCellValueToF64Error = InvalidCellValue(cellValue: CellValue)
  datatype ConvertCellValueToBoolError = InvalidCellValue(cellValue: CellValue)

  datatype ConvertCellValueToOptionDurationError =
    | ConvertCellValueToStringFailed(stringError: ConvertCellValueToStringError)
    | NumberNotFound
    | NumberParseFailed(source: ParseIntError)
    | UnitNotFound
    | UnitUnexpected

  datatype ConvertCellValueToOptionOffsetDateTimeError =
    | ConvertCellValueToStringFailed(stringError: ConvertCellValueToStringError)
    | OffsetDateTimeParseFailed(timeError: TimeError)

  /** `ConvertCellValueError`: the union of the first four conversion errors. */
  datatype ConvertCellValueError =
    | ConvertCellValueToStringFailed(stringError: ConvertCellValueToStringError)
    | ConvertCellValueToF64Failed(f64Error: ConvertCellValueToF64Error)
    | ConvertCellValueToBoolFailed(boolError: ConvertCellValueToBoolError)
    | ConvertCellValueToOffsetDateTimeFailed(timestampError: ConvertCellValueToOptionOffsetDateTimeError)

  /** A plain string cell. */
  function TextCell(s: string): CellValue {
    CellValue.Value(Value.Variant0(ValueVariant0.Variant0(s)))
  }

  /** A rich string cell. */
  function RichTextCell(s: string): CellValue {
    CellValue.RichValue(RichValue.Variant0(RichSingleValue.ScalarValue(ScalarValue.Variant0(s))))
  }

  /** `String::try_from(CellValue)`: the text of a plain or rich string, exactly as stored. */
  function ToString(cell: CellValue): (r: Result<string, ConvertCellValueToStringError>)
    ensures forall s {:trigger TextCell(s)} {:trigger RichTextCell(s)} ::
      r == Ok(s) <==> cell == TextCell(s) || cell == RichTextCell(s)
    ensures r.Err? ==> r.error == ConvertCellValueToStringError.InvalidCellValue(cell)
  {
    match cell
    case Value(Variant0(Variant0(value))) => Ok(value)
    case RichValue(Variant0(ScalarValue(Variant0(value)))) => Ok(value)
    case cellValue => Err(ConvertCellValueToStringError.InvalidCellValue(cellValue))
  }

  /** `f64::try_from(CellValue)`: the number of a plain or rich number. */
  function ToF64(cell: CellValue): (r: Result<Number, ConvertCellValueToF64Error>)
    ensures forall x: Number ::
      r == Ok(x) <==>
        (cell == CellValue.Value(Value.Variant0(ValueVariant0.Variant1(x)))
         || cell == CellValue.RichValue(RichValue.Variant0(RichSingleValue.ScalarValue(ScalarValue.Variant1(x)))))
    ensures r.Err? ==> r.error == ConvertCellValueToF64Error.InvalidCellValue(cell)
  {
    match cell
    case Value(Variant0(Variant1(value))) => Ok(value)
    case RichValue(Variant0(ScalarValue(Variant1(value)))) => Ok(value)
    case cellValue => Err(ConvertCellValueToF64Error.InvalidCellValue(cellValue))
  }

  /**
   * `Option<bool>::try_from(CellValue)`: a plain or rich boolean, or `None`
   * for the exactly empty plain string an unset checkbox is sent as.
   */
  function ToOptionBool(cell: CellValue): (r: Result<Option<bool>, ConvertCellValueToBoolError>)
    ensures r == Ok(None) <==> cell == TextCell("")
    ensures forall b: bool ::
      r == Ok(Some(b)) <==>
        (cell == CellValue.Value(Value.Variant0(ValueVariant0.Variant2(b)))
         || cell == CellValue.RichValue(RichValue.Variant0(RichSingleValue.ScalarValue(ScalarValue.Variant2(b)))))
    ensures r.Err? ==> r.error == ConvertCellValueToBoolError.InvalidCellValue(cell)
  {
    match cell
    case Value(Variant0(Variant0(value))) =>
      if value == [] then Ok(None) else Err(ConvertCellValueToBoolError.InvalidCellValue(cell))
    case Value(Variant0(Variant2(value))) => Ok(Some(value))
    case RichValue(Variant0(ScalarValue(Variant2(value)))) => Ok(Some(value))
    case cellValue => Err(ConvertCellValueToBoolError.InvalidCellValue(cellValue))
  }

  /**
   * `Option<OffsetDateTime>::try_from(CellValue)`, with `parse` for
   * `OffsetDateTime::parse(_, &Rfc3339)`: the empty string is `None`, any
   * other string is given to the parser whole.
   */
  function ToOptionOffsetDateTime(parse: Rfc3339Parser, cell: CellValue)
    : (r: Result<Option<OffsetDateTime>, ConvertCellValueToOptionOffsetDateTimeError>)
    ensures ToString(cell).Err? ==>
      r == Err(ConvertCellValueToOptionOffsetDateTimeError.ConvertCellValueToStringFailed(ToString(cell).error))
    ensures ToString(cell).Ok? ==>
      var s := ToString(cell).value;
      (r == Ok(None) <==> s == [])
      && (s != [] && parse(s).Ok? ==> r == Ok(Some(parse(s).value)))
      && (s != [] && parse(s).Err? ==>
            r == Err(ConvertCellValueToOptionOffsetDateTimeError.OffsetDateTimeParseFailed(TimeError.Parse(parse(s).error))))
  {
    match ToString(cell)
    case Err(source) => Err(ConvertCellValueToOptionOffsetDateTimeError.ConvertCellValueToStringFailed(source))
    case Ok(text) =>
      if text == [] then Ok(None)
      else
        match parse(text)
        case Err(source) => Err(ConvertCellValueToOptionOffsetDateTimeError.OffsetDateTimeParseFailed(TimeError.Parse(source)))
        case Ok(instant) => Ok(Some(instant))
  }

  /** The duration read from the pieces of `split(' ')`: the first two pieces are fetched, then the number parsed. */
  function DurationFromPieces(pieces: seq<string>): (r: Result<Option<Duration>, ConvertCellValueToOptionDurationError>)
    ensures r != Ok(None)
  {
    if |pieces| == 0 then Err(NumberNotFound)
    else if |pieces| == 1 then Err(UnitNotFound)
    else
      var numberStr, unitStr := pieces[0], pieces[1];
      match ParseI64(numberStr)
      case Err(source) => Err(NumberParseFailed(source))
      case Ok(number) =>
        if unitStr == "second" || unitStr == "seconds" then Ok(Some(Seconds(number)))
        else if unitStr == "minute" || unitStr == "minutes" then Ok(Some(Minutes(number)))
        else if unitStr == "hour" || unitStr == "hours" then Ok(Some(Hours(number)))
        else if unitStr == "day" || unitStr == "days" then Ok(Some(Days(number)))
        else Err(UnitUnexpected)
  }

  /** `Option<Duration>::try_from(CellValue)`. */
  function ToOptionDuration(cell: CellValue): (r: Result<Option<Duration>, ConvertCellValueToOptionDurationError>)
    ensures ToString(cell).Err? ==>
      r == Err(ConvertCellValueToOptionDurationError.ConvertCellValueToStringFailed(ToString(cell).error))
    ensures ToString(cell).Ok? ==> (r == Ok(None) <==> ToString(cell).value == [])
  {
    match ToString(cell)
    case Err(source) => Err(ConvertCellValueToOptionDurationError.ConvertCellValueToStringFailed(source))
    case Ok(text) =>
      if text == [] then Ok(None)
      else DurationFromPieces(SplitOn(text, ' '))
  }

  /**
   * The duration reader piece by piece: one piece is a missing unit, a bad
   * first piece a number error, a second piece outside the (lowercase)
   * unit table an unexpected unit; otherwise the number times the unit's
   * length in seconds.
   */
  lemma DurationFromPiecesSpec(pieces: seq<string>)
    requires |pieces| >= 1
    ensures DurationFromPieces(pieces) ==
      if |pieces| == 1 then Err(UnitNotFound)
      else if ParseI64(pieces[0]).Err? then Err(NumberParseFailed(ParseI64(pieces[0]).error))
      else if DurationValueParser.UnitScale(pieces[1]).None? then Err(UnitUnexpected)
      else Ok(Some(Duration(ParseI64(pieces[0]).value * DurationValueParser.UnitScale(pieces[1]).value)))
  {
  }

  /** `NumberNotFound` is never returned: `split` always yields a first piece. */
  lemma NumberNotFoundUnreachable(cell: CellValue)
    ensures ToOptionDuration(cell) != Err(NumberNotFound)
  {
  }

  /** A string without a space has one piece, so the unit is missing, whatever the text. */
  lemma NoSpaceIsUnitNotFound(s: string)
    requires s != [] && ' ' !in s
    ensures ToOptionDuration(TextCell(s)) == Err(UnitNotFound)
  {
    SplitOnHasSecondPiece(s, ' ');
  }

  /**
   * Every `"<i64> <unit>"` reads by the unit table, spelled exactly: a known
   * unit gives the number times its length in seconds, any other second
   * piece (the empty one included) `UnitUnexpected`. Anything after a
   * further space is never looked at.
   */
  lemma {:induction false} NumberUnitCellDuration(n: int, unit: string, rest: string)
    requires IsI64(n) && ' ' !in unit
    requires rest == [] || rest[0] == ' '
    ensures ToOptionDuration(TextCell(I64ToString(n) + " " + unit + rest)) ==
      if DurationValueParser.UnitScale(unit).None? then Err(UnitUnexpected)
      else Ok(Some(Duration(n * DurationValueParser.UnitScale(unit).value)))
  {
    var a := I64ToString(n);
    ParseI64ToString(n);
    I64ToStringNoSpace(n);
    var s := a + " " + unit + rest;
    SplitNumberUnit(a, unit, rest);
    assert ToString(TextCell(s)) == Ok(s);
    DurationFromPiecesSpec(SplitOn(s, ' '));
  }

  /** A number has no space in it. */
  lemma I64ToStringNoSpace(n: int)
    requires IsI64(n)
    ensures ' ' !in I64ToString(n)
  {
    ParseI64ToString(n);
    assert IsToken(I64ToString(n)) && IsWs(' ');
  }

  /** The first two pieces of `a + " " + unit + rest`, for space-free `a` and `unit`. */
  lemma SplitNumberUnit(a: string, unit: string, rest: string)
    requires ' ' !in a && ' ' !in unit
    requires rest == [] || rest[0] == ' '
    ensures var pieces := SplitOn(a + " " + unit + rest, ' ');
      |pieces| >= 2 && pieces[0] == a && pieces[1] == unit
  {
    var tail := unit + rest;
    assert a + " " + unit + rest == a + [' '] + tail;
    SplitOnCons(a, ' ', tail);
    FirstPiece(unit, rest);
  }

  /** The first piece of `unit + rest` is `unit` when `rest` is empty or starts a new piece. */
  lemma FirstPiece(unit: string, rest: string)
    requires ' ' !in unit
    requires rest == [] || rest[0] == ' '
    ensures SplitOn(unit + rest, ' ')[0] == unit
  {
    if rest == [] {
      assert unit + rest == unit;
    } else {
      assert unit + rest == unit + [' '] + rest[1..];
      SplitOnCons(unit, ' ', rest[1..]);
    }
  }

  /** "5" has no unit. */
  lemma ExampleNumberOnly()
    ensures ToOptionDuration(TextCell("5")) == Err(UnitNotFound)
  {
    NoSpaceIsUnitNotFound("5");
  }

  /** Two spaces after the number make the unit piece empty, which is not a unit. */
  lemma DoubleSpaceIsUnitUnexpected(n: int, rest: string)
    requires IsI64(n)
    ensures ToOptionDuration(TextCell(I64ToString(n) + "  " + rest)) == Err(UnitUnexpected)
  {
    var s := I64ToString(n) + "  " + rest;
    assert s == I64ToString(n) + " " + "" + (" " + rest);
    NumberUnitCellDuration(n, "", " " + rest);
    assert DurationValueParser.UnitScale("") == None;
  }

  /** A leading space makes the number piece empty, so the number fails as `Empty`. */
  lemma LeadingSpaceIsEmptyNumber(s: string)
    ensures ToOptionDuration(TextCell(" " + s)) == Err(NumberParseFailed(ParseIntError(Empty)))
  {
    assert " " + s == [] + [' '] + s;
    SplitOnCons([], ' ', s);
    DurationFromPiecesSpec(SplitOn(" " + s, ' '));
  }

  /**
   * Units are case-sensitive here: a unit the rich-value reader accepts
   * once lowercased, written with a capital, is `UnitUnexpected` here.
   */
  lemma CapitalUnitIsUnexpected(n: int, unit: string)
    requires IsI64(n) && IsToken(unit)
    requires DurationValueParser.UnitScale(unit).None?
    requires DurationValueParser.UnitScale(ToAsciiLowercase(unit)).Some?
    ensures ToOptionDuration(TextCell(I64ToString(n) + " " + unit)) == Err(UnitUnexpected)
    ensures DurationValueParser.ParseDurationValue(I64ToString(n) + " " + unit)
      == Ok(Some(Duration(n * DurationValueParser.UnitScale(ToAsciiLowercase(unit)).value)))
  {
    assert IsWs(' ');
    assert I64ToString(n) + " " + unit == I64ToString(n) + " " + unit + "";
    NumberUnitCellDuration(n, unit, "");
    DurationValueParser.WellFormedDuration(n, unit);
  }

  /** On exact lowercase units both readers give the same duration. */
  lemma ReadersAgreeOnLowercaseUnits(n: int, unit: string)
    requires IsI64(n) && IsToken(unit) && DurationValueParser.UnitScale(unit).Some?
    ensures ToOptionDuration(TextCell(I64ToString(n) + " " + unit))
      == Ok(Some(Duration(n * DurationValueParser.UnitScale(unit).value)))
    ensures DurationValueParser.ParseDurationValue(I64ToString(n) + " " + unit)
      == Ok(Some(Duration(n * DurationValueParser.UnitScale(unit).value)))
  {
    assert IsWs(' ');
    assert I64ToString(n) + " " + unit == I64ToString(n) + " " + unit + "";
    NumberUnitCellDuration(n, unit, "");
    LowercaseUnitsAreLowercase(unit);
    DurationValueParser.WellFormedDuration(n, unit);
  }

  /** The units in the table are already lowercase. */
  lemma LowercaseUnitsAreLowercase(unit: string)
    requires DurationValueParser.UnitScale(unit).Some?
    ensures ToAsciiLowercase(unit) == unit
  {
    assert forall i :: 0 <= i < |unit| ==> 'a' <= unit[i] <= 'z';
    NoCapitalsUnchanged(unit);
  }

  /**
   * The exactly empty plain string is the only string that is `None`: any
   * other plain string, blank ones included, and every rich string, the
   * empty one included, is an error carrying the cell.
   */
  lemma EmptyStringIsOnlyUnsetBool(s: string)
    ensures ToOptionBool(TextCell("")) == Ok(None)
    ensures s != [] ==> ToOptionBool(TextCell(s)) == Err(ConvertCellValueToBoolError.InvalidCellValue(TextCell(s)))
    ensures ToOptionBool(RichTextCell(s)) == Err(ConvertCellValueToBoolError.InvalidCellValue(RichTextCell(s)))
  {
  }
}
