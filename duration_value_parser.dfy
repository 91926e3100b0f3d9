/**
 * `parse_duration_value` (`src/ext/duration_value_parser.rs`): reads
 * `"<integer> <unit>"` after trimming. Blank text is `None`; otherwise the
 * first whitespace-separated token is the number and the second the unit,
 * matched without regard to ASCII case; further tokens are never looked at.
 */
module DurationValueParser {
  import opened Wrappers
  import opened Text
  import opened IntParse
  import opened Time

  /** `DurationValueParserError`. */
  datatype DurationValueParserError =
    | NumberNotFound
    | UnitNotFound
    | NumberParseFailed(source: ParseIntError)
    | UnitUnexpected(unit: string)

  /** The tokens after `split_whitespace`: the first is fetched, then the second, then the number is parsed. */
  function ParseTokens(tokens: seq<string>): (r: Result<Option<Duration>, DurationValueParserError>)
    ensures r != Ok(None)
  {
    if |tokens| == 0 then Err(NumberNotFound)
    else if |tokens| == 1 then Err(UnitNotFound)
    else
      var numberStr, unitStr := tokens[0], tokens[1];
      match ParseI64(numberStr)
      case Err(source) => Err(NumberParseFailed(source))
      case Ok(number) =>
        var unit := ToAsciiLowercase(unitStr);
        if unit == "second" || unit == "seconds" then Ok(Some(Seconds(number)))
        else if unit == "minute" || unit == "minutes" then Ok(Some(Minutes(number)))
        else if unit == "hour" || unit == "hours" then Ok(Some(Hours(number)))
        else if unit == "day" || unit == "days" then Ok(Some(Days(number)))
        else Err(UnitUnexpected(unitStr))
  }

  /** `parse_duration_value(source)`. The result is `Ok(None)` exactly when the source is blank. */
  function ParseDurationValue(source: string): (r: Result<Option<Duration>, DurationValueParserError>)
    ensures r == Ok(None) <==> IsBlank(source)
  {
    var trimmed := Trim(source);
    if trimmed == [] then Ok(None)
    else ParseTokens(SplitWhitespace(trimmed))
  }

  /** The number of seconds in a (lowercase) unit, the units the parser knows. */
  function UnitScale(unit: string): Option<int>
  {
    if unit == "second" || unit == "seconds" then Some(1)
    else if unit == "minute" || unit == "minutes" then Some(SecondsPerMinute)
    else if unit == "hour" || unit == "hours" then Some(SecondsPerHour)
    else if unit == "day" || unit == "days" then Some(SecondsPerDay)
    else None
  }

  /** Trimming before splitting changes nothing: the parser reads the tokens of the source. */
  lemma ParseDurationValueTokens(s: string)
    ensures ParseDurationValue(s) == if IsBlank(s) then Ok(None) else ParseTokens(SplitWhitespace(s))
  {
    SplitWhitespaceTrim(s);
  }

  /** Each recognised unit multiplies the number by its length in seconds. */
  lemma ParseTokensSpec(tokens: seq<string>)
    requires |tokens| >= 2
    ensures ParseTokens(tokens) ==
      if ParseI64(tokens[0]).Err? then Err(NumberParseFailed(ParseI64(tokens[0]).error))
      else if UnitScale(ToAsciiLowercase(tokens[1])).None? then Err(UnitUnexpected(tokens[1]))
      else Ok(Some(Duration(ParseI64(tokens[0]).value * UnitScale(ToAsciiLowercase(tokens[1])).value)))
  {
  }

  /**
   * The parser in terms of the tokens of the untrimmed source: blank gives
   * `None`, one token `UnitNotFound`, a bad first token `NumberParseFailed`,
   * an unknown unit `UnitUnexpected` with the unit as written; otherwise the
   * number times the unit's length in seconds.
   */
  lemma ParseDurationValueSpec(s: string)
    ensures var toks := SplitWhitespace(s);
      ParseDurationValue(s) ==
        if IsBlank(s) then Ok(None)
        else if |toks| == 1 then Err(UnitNotFound)
        else if ParseI64(toks[0]).Err? then Err(NumberParseFailed(ParseI64(toks[0]).error))
        else if UnitScale(ToAsciiLowercase(toks[1])).None? then Err(UnitUnexpected(toks[1]))
        else Ok(Some(Duration(ParseI64(toks[0]).value * UnitScale(ToAsciiLowercase(toks[1])).value)))
  {
    ParseDurationValueTokens(s);
    var toks := SplitWhitespace(s);
    if |toks| >= 2 {
      ParseTokensSpec(toks);
    }
  }

  /** `NumberNotFound` is never returned: a non-blank string has a first token. */
  lemma NumberNotFoundUnreachable(s: string)
    ensures ParseDurationValue(s) != Err(NumberNotFound)
  {
    ParseDurationValueSpec(s);
  }

  /**
   * With a single token the unit is missing, whatever that token is: the
   * unit is fetched before the number is parsed.
   */
  lemma SingleTokenIsUnitNotFound(s: string)
    requires |SplitWhitespace(s)| == 1
    ensures ParseDurationValue(s) == Err(UnitNotFound)
  {
    ParseDurationValueSpec(s);
  }

  /** A first token that is not an `i64` literal in range is a number error once a unit is present. */
  lemma BadNumberIsNumberParseFailed(s: string)
    requires |SplitWhitespace(s)| >= 2
    requires var n := SplitWhitespace(s)[0]; !(IsIntLiteral(n) && IsI64(LiteralValue(n)))
    ensures ParseDurationValue(s).Err? && ParseDurationValue(s).error.NumberParseFailed?
  {
    ParseDurationValueSpec(s);
    ParseI64Ok(SplitWhitespace(s)[0]);
  }

  /**
   * Every `"<i64> <unit>"` with a known unit, in any ASCII case, parses to
   * the number times the unit's length in seconds.
   */
  lemma WellFormedDuration(n: int, unit: string)
    requires IsI64(n) && IsToken(unit) && UnitScale(ToAsciiLowercase(unit)).Some?
    ensures ParseDurationValue(I64ToString(n) + " " + unit)
      == Ok(Some(Duration(n * UnitScale(ToAsciiLowercase(unit)).value)))
  {
    var a := I64ToString(n);
    assert IsToken(a);
    SplitWhitespacePair(a, unit);
    ParseI64ToString(n);
    ParseDurationValueSpec(a + " " + unit);
  }

  /** An unknown unit is reported as written, not lowercased. */
  lemma UnexpectedUnitAsWritten(n: int, unit: string)
    requires IsI64(n) && IsToken(unit) && UnitScale(ToAsciiLowercase(unit)).None?
    ensures ParseDurationValue(I64ToString(n) + " " + unit) == Err(UnitUnexpected(unit))
  {
    var a := I64ToString(n);
    assert IsToken(a);
    SplitWhitespacePair(a, unit);
    ParseI64ToString(n);
    ParseDurationValueSpec(a + " " + unit);
  }

  /** `ParseTokens` reads the first two tokens only. */
  lemma ParseTokensFirstTwo(a: seq<string>, b: seq<string>)
    requires |a| >= 2 && |b| >= 2 && a[0] == b[0] && a[1] == b[1]
    ensures ParseTokens(a) == ParseTokens(b)
  {
  }

  /** Tokens after the second do not change the result. */
  lemma LaterTokensIgnored(s: string, rest: string)
    requires |SplitWhitespace(s)| >= 2
    ensures ParseDurationValue(s + " " + rest) == ParseDurationValue(s)
  {
    var tail := " " + rest;
    ConcatAssoc(s, " ", rest);
    assert IsWs(tail[0]);
    SplitWhitespaceAppend(s, tail);
    var x := s + tail;
    ParseDurationValueTokens(s);
    ParseDurationValueTokens(x);
    var ts, tx := SplitWhitespace(s), SplitWhitespace(x);
    assert tx[0] == ts[0] && tx[1] == ts[1];
    ParseTokensFirstTwo(ts, tx);
  }

  /** A lone word is a missing unit, not a bad number. */
  lemma ExampleSingleWord()
    ensures ParseDurationValue("oops") == Err(UnitNotFound)
  {
    assert IsToken("oops");
    SplitWhitespaceToken("oops");
    SingleTokenIsUnitNotFound("oops");
  }
}
