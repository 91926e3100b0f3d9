# Value coercion in coda-api, in Dafny

The `coda-api` crate reads rows of Coda tables. A cell arrives from the API
as a union-typed JSON value. The crate has two cell representations: a plain
`CellValue` and the "rich" `RichValue` of linked-data items. A layer of
`TryFrom` conversions turns those into typed Rust values: `String`, `f64`,
`bool`, `Option<bool>`, `Option<Duration>`, `Option<OffsetDateTime>` and
`RichRowReference`. Every conversion has its own error enum.

This project models that layer as pure Dafny functions over datatypes and
proves what the conversions promise. The model has one module per source
file:

- `ParseRichValue`: `normalize_rich_string` and `normalize_owned_rich_string`, which strip one layer of triple-backtick fence.
- `RichValueToString`, `RichValueToBool`, `RichValueToOptionBool`, `RichValueToOptionDuration`, `RichValueToOptionOffsetDateTime` and `RichValueToRichRowReference`: the borrowed (`&RichValue`) and owned (`RichValue`) conversion of each target.
  - An owned error carries the offending part of the input. A borrowed error carries no copy of the input value, only the nested error of the step that failed.
  - `Erase` maps an owned error to the borrowed one, and `RefIsErasedOwned` proves that the borrowed conversion is the owned one with `Erase` applied to its error.
- `DurationValueParser`: `parse_duration_value`, which reads `"<integer> <unit>"`.
- `ParseCellValue` and `Parse`: the two near-duplicate sets of `TryFrom<CellValue>` conversions.
  - `Parse` has a strict `bool` where `ParseCellValue` has `Option<bool>`.
  - Lemmas in `Parse` prove the two copies agree, error for error, where they overlap.
- `ImplFromForValue`: the `From` constructors of `Value`, and their round trips through the cell conversions.

Supporting modules:

- `Wrappers`: `Option` and `Result`.
- `Text`: the parts of Rust's `str` the conversions call, written out and proved correct.
  - `trim`, `split_whitespace`, `split(' ')`, `to_ascii_lowercase`, and the prefix and suffix tests.
- `IntParse`: `str::parse::<i64>`, with Rust's error kinds in Rust's scan order.
  - A parse succeeds exactly on in-range literals, and parsing gives back every `i64` that `Display` wrote.
- `Time`: `Duration` as whole seconds, and an abstract `OffsetDateTime`.
  - The RFC 3339 parser (the grammar of section 5.6 of RFC 3339) is a function parameter of the timestamp conversions.
- `Types` and `RichRows`: the data shapes. For the generated types, only the variants the conversions match on are spelled out; every other variant is one `Other` case.

Each normaliser removes one layer of fence per call. Normalisation is
therefore not idempotent on doubly fenced text:
`ParseRichValue.NormalizeNotIdempotent` shows a string that a second call
changes again.

`IsWs` is the Unicode White_Space property that `char::is_whitespace` tests.
The proofs use this concrete set. The facts they draw from it are that `' '`
and `'\n'` are whitespace, and that ASCII letters, digits, `'-'` and the
backtick are not.

## Model

| member | source | states |
|---|---|---|
| ParseRichValue.NormalizeRichString | src/ext/parse_rich_value.rs:20-29 | a fenced string (length at least 6, a fence at each end) loses exactly its first and last three characters; any other string is returned unchanged |
| ParseRichValue.NormalizeOwnedRichString | src/ext/parse_rich_value.rs:31-37 | a fenced string (length at least 6, a fence at each end) loses exactly its first and last three characters; any other string is returned unchanged |
| ParseRichValue.NormalizersAgree | src/ext/parse_rich_value.rs:20-37 | the borrowed normaliser (strip the prefix, then the suffix) and the owned one (length and affix test) give the same result on every string |
| ParseRichValue.NormalizeLength | src/ext/parse_rich_value.rs:32-36 | a string is left unchanged exactly when it is not fenced; otherwise the result is exactly six characters shorter |
| ParseRichValue.NormalizeStripsOneLayer | src/ext/parse_rich_value.rs:21-25 | a doubly fenced text keeps its inner fence: only one layer is removed |
| ParseRichValue.NormalizeNotIdempotent | src/ext/parse_rich_value.rs:21-25 | normalising "``````a``````" once gives "```a```", and normalising that again gives "a", so normalisation is not idempotent |
| ParseRichValue.NormalizeKeepsPartialFences | src/ext/parse_rich_value.rs:21-28 | five backticks are kept and six become empty; a fence at one end only is kept |
| ParseRichValue.InteriorBackticksKept | src/ext/parse_rich_value.rs:21-28 | a string that does not both begin and end with a backtick is returned unchanged, whatever backticks it holds inside |
| RichValueToString.TryFromRef | src/ext/parse_rich_value/impl_try_from_rich_value_for_string.rs:29-45 | succeeds exactly on a string scalar, giving its normalised text; a collection, a non-scalar item and a non-string scalar each give their own error, and each error arises only from that shape |
| RichValueToString.TryFrom | src/ext/parse_rich_value/impl_try_from_rich_value_for_string.rs:47-69 | succeeds exactly on a string scalar, giving its normalised text; each error carries the whole value, the single item or the scalar that did not match |
| RichValueToString.RefIsErasedOwned | src/ext/parse_rich_value/impl_try_from_rich_value_for_string.rs:29-69 | the borrowed conversion is the owned one with the error payload dropped: same successes, same strings, errors variant for variant |
| RichValueToString.OwnedErrorCarriesInput | src/ext/parse_rich_value/impl_try_from_rich_value_for_string.rs:55-66 | an owned error's payload is the input itself, its single item, or its scalar, and a carried scalar is never a string |
| RichValueToBool.TryFromRef | src/ext/parse_rich_value/impl_try_from_rich_value_for_bool.rs:21-31 | succeeds exactly on a boolean scalar, giving its value |
| RichValueToBool.TryFrom | src/ext/parse_rich_value/impl_try_from_rich_value_for_bool.rs:33-45 | succeeds exactly on a boolean scalar, giving its value; the error carries the whole input unchanged |
| RichValueToBool.RefIsErasedOwned | src/ext/parse_rich_value/impl_try_from_rich_value_for_bool.rs:21-45 | the borrowed conversion is the owned one with the payload dropped |
| RichValueToBool.StringsAreRejected | src/ext/parse_rich_value/impl_try_from_rich_value_for_bool.rs:24-42 | every string scalar fails, including "" and "true", and the owned error carries it |
| RichValueToOptionBool.TryFromRef | src/ext/parse_rich_value/impl_try_from_rich_value_for_option_bool.rs:33-51 | a boolean gives `Some`; a string scalar gives `None` when blank and `StringScalarNotEmpty` otherwise; a number gives `ScalarNotBoolean`, a non-scalar item `RichSingleValueNotScalar`, a collection `RichValueCollection` |
| RichValueToOptionBool.TryFrom | src/ext/parse_rich_value/impl_try_from_rich_value_for_option_bool.rs:53-84 | the same cases; the errors carry the untrimmed text, the scalar, the single item or the whole value |
| RichValueToOptionBool.RefIsErasedOwned | src/ext/parse_rich_value/impl_try_from_rich_value_for_option_bool.rs:33-84 | the borrowed conversion is the owned one with the payload dropped |
| RichValueToOptionBool.NoneOnlyFromBlankText | src/ext/parse_rich_value/impl_try_from_rich_value_for_option_bool.rs:62-68 | `None` comes exactly from a string scalar whose raw text is blank; a bare fence "``````" is not normalised, so it is `StringScalarNotEmpty` |
| DurationValueParser.ParseDurationValue | src/ext/duration_value_parser.rs:5-38 | the result is `Ok(None)` exactly when the source is blank |
| DurationValueParser.ParseTokens | src/ext/duration_value_parser.rs:11-37 | reading the tokens never gives `None`: every success on non-blank text is `Some` |
| DurationValueParser.ParseDurationValueTokens | src/ext/duration_value_parser.rs:6-11 | trimming before `split_whitespace` changes nothing: blank text is `None`; otherwise the parser reads the tokens of the untrimmed source |
| DurationValueParser.ParseTokensSpec | src/ext/duration_value_parser.rs:19-35 | given two tokens: a bad first token is `NumberParseFailed` with the parse error; an unknown unit (after ASCII lowercasing) is `UnitUnexpected`; otherwise the number times 1, 60, 3600 or 86400 seconds |
| DurationValueParser.ParseDurationValueSpec | src/ext/duration_value_parser.rs:5-38 | the whole parser as a case split over the tokens of the source: blank, one token, a bad number, an unknown unit, or number × unit length |
| DurationValueParser.NumberNotFoundUnreachable | src/ext/duration_value_parser.rs:6-14 | `NumberNotFound` is never returned |
| DurationValueParser.SingleTokenIsUnitNotFound | src/ext/duration_value_parser.rs:15-17 | with exactly one token the result is `UnitNotFound`, even when that token is not a number (the unit is fetched before the number is parsed) |
| DurationValueParser.BadNumberIsNumberParseFailed | src/ext/duration_value_parser.rs:19-23 | with two or more tokens, a first token that is not an in-range `i64` literal gives `NumberParseFailed` |
| DurationValueParser.WellFormedDuration | src/ext/duration_value_parser.rs:25-29 | every `"<i64> <unit>"` whose unit, lowercased, is second(s), minute(s), hour(s) or day(s) parses to n×1, n×60, n×3600 or n×86400 seconds, whatever the unit's ASCII case |
| DurationValueParser.UnexpectedUnitAsWritten | src/ext/duration_value_parser.rs:30-33 | an unknown unit gives `UnitUnexpected` carrying the unit as written, not lowercased |
| DurationValueParser.ParseTokensFirstTwo | src/ext/duration_value_parser.rs:11-17 | two token sequences that agree on their first two tokens read the same |
| DurationValueParser.LaterTokensIgnored | src/ext/duration_value_parser.rs:11-17 | once there are two tokens, anything appended after a space does not change the result |
| DurationValueParser.ExampleSingleWord | src/ext/duration_value_parser.rs:15-17 | "oops" is `UnitNotFound`, not a number error |
| IntParse.ParseI64Ok | src/ext/duration_value_parser.rs:19-23 | `parse::<i64>` succeeds exactly on an optionally signed decimal literal whose value is an `i64`, and returns that value |
| IntParse.ParseI64Overflow | src/ext/duration_value_parser.rs:19-23 | an out-of-range literal fails with the overflow kind of its sign |
| IntParse.ParseI64NoDigits | src/ext/duration_value_parser.rs:19-23 | the empty text is `Empty` and a lone sign is `InvalidDigit` |
| IntParse.ParseI64ToString | src/ext/duration_value_parser.rs:19-23 | parsing gives back every `i64` written in decimal |
| Text.SplitWhitespaceAppend | src/ext/duration_value_parser.rs:11-17 | whitespace at the seam of two strings separates their tokens: the tokens of `a + b` are those of `a` followed by those of `b` |
| Text.SplitWhitespaceTokens | src/ext/duration_value_parser.rs:11-17 | every token of `split_whitespace` is non-empty and holds no whitespace |
| Text.SplitWhitespaceTrim | src/ext/duration_value_parser.rs:6-11 | trimming does not change the tokens |
| Text.Trim | src/ext/duration_value_parser.rs:6-9 | `trim` returns the part between the longest blank prefix and the longest blank suffix; neither end is whitespace, and it is empty exactly when the text is blank |
| Text.SplitOnPieces | src/ext/parse_cell_value.rs:84-86 | no piece of `split(' ')` holds a space, and joining the pieces with spaces gives the text back |
| Text.SplitOnJoinWith | src/ext/parse_cell_value.rs:84-86 | splitting a space-join of space-free pieces gives back those pieces |
| RichValueToOptionDuration.TryFromRef | src/ext/parse_rich_value/impl_try_from_rich_value_for_option_duration.rs:35-44 | a non-string value gives `ConvertStringFailed` with the string conversion's error; otherwise the result is `parse_duration_value` of the normalised text, `None` exactly when it is blank, and a failure is `DurationParseFailed` with the parser's error |
| RichValueToOptionDuration.TryFrom | src/ext/parse_rich_value/impl_try_from_rich_value_for_option_duration.rs:46-55 | the same cases; `DurationParseFailed` also carries the normalised, untrimmed text the parser was given |
| RichValueToOptionDuration.RefIsErasedOwned | src/ext/parse_rich_value/impl_try_from_rich_value_for_option_duration.rs:35-55 | the borrowed conversion is the owned one with payloads dropped, at both layers of error |
| RichValueToOptionDuration.FencedDuration | src/ext/parse_rich_value/impl_try_from_rich_value_for_option_duration.rs:52-53 | a fenced `"<i64> <unit>"` with a known unit is unwrapped and read: "```5 days```" is five days |
| ParseRichValue.FenceAroundIsStripped | src/ext/parse_rich_value.rs:31-37 | the owned normaliser removes exactly the fence put around any text |
| RichValueToOptionDuration.ExampleFencedBlank | src/ext/parse_rich_value/impl_try_from_rich_value_for_option_duration.rs:52-53 | a fence around blank text is an unset duration |
| RichValueToOptionOffsetDateTime.TryFromRef | src/ext/parse_rich_value/impl_try_from_rich_value_for_option_offset_date_time.rs:23-37 | a non-string value gives `ConvertStringFailed`; otherwise the normalised text is trimmed, blank is `None`, and any other text goes to the parser trimmed, giving `Some` or `OffsetDateTimeParseFailed` with the parser's error |
| RichValueToOptionOffsetDateTime.TryFrom | src/ext/parse_rich_value/impl_try_from_rich_value_for_option_offset_date_time.rs:39-54 | the same cases; the parse failure also carries the trimmed text |
| RichValueToOptionOffsetDateTime.RefIsErasedOwned | src/ext/parse_rich_value/impl_try_from_rich_value_for_option_offset_date_time.rs:23-54 | the borrowed conversion is the owned one with payloads dropped, for every parser |
| RichValueToOptionOffsetDateTime.ParserSeesTrimmedText | src/ext/parse_rich_value/impl_try_from_rich_value_for_option_offset_date_time.rs:44-52 | `None` comes exactly from a string scalar that is blank once normalised, so non-blank text is never `None`; the text a failure carries is non-empty, has no whitespace at either end, and is text the parser rejects |
| RichValueToOptionOffsetDateTime.FencedPaddingIsTrimmed | src/ext/parse_rich_value/impl_try_from_rich_value_for_option_offset_date_time.rs:44-51 | for any blank padding on either side, whitespace just inside a fence never reaches the parser: the fenced, padded text converts exactly as the bare (unfenced) text |
| RichValueToRichRowReference.TryFromRef | src/ext/parse_rich_value/impl_try_from_rich_value_for_rich_row_reference.rs:19-29 | succeeds exactly on a single row reference and returns a reference equal to it |
| RichValueToRichRowReference.TryFrom | src/ext/parse_rich_value/impl_try_from_rich_value_for_rich_row_reference.rs:31-43 | succeeds exactly on a single row reference and returns it with every field unchanged; the error carries the input unchanged |
| RichValueToRichRowReference.RefIsErasedOwned | src/ext/parse_rich_value/impl_try_from_rich_value_for_rich_row_reference.rs:19-43 | the borrowed conversion is the owned one with the payload dropped |
| RichValueToRichRowReference.CollectionOfRowsFails | src/ext/parse_rich_value/impl_try_from_rich_value_for_rich_row_reference.rs:36-40 | a collection fails even when every entry is a row reference |
| ParseCellValue.ToString | src/ext/parse_cell_value.rs:4-17 | succeeds with `s` exactly on the plain or rich string cell holding `s`, unchanged (no fence stripping); any other cell is `InvalidCellValue` carrying it |
| ParseCellValue.ToF64 | src/ext/parse_cell_value.rs:19-32 | succeeds with `x` exactly on the plain or rich number cell holding `x`; any other cell is `InvalidCellValue` carrying it |
| ParseCellValue.ToOptionBool | src/ext/parse_cell_value.rs:35-49 | `None` exactly for the empty plain string; `Some(b)` exactly for a plain or rich boolean `b`; anything else is `InvalidCellValue` carrying the cell |
| ParseCellValue.ToOptionOffsetDateTime | src/ext/parse_cell_value.rs:60-73 | the string error is wrapped; the exactly empty string is `None`; any other string is given to the parser whole, and its failure is wrapped |
| ParseCellValue.ToOptionDuration | src/ext/parse_cell_value.rs:75-97 | the string error is wrapped; the result is `None` exactly for the empty string |
| ParseCellValue.DurationFromPieces | src/ext/parse_cell_value.rs:84-94 | reading the pieces never gives `None` |
| ParseCellValue.DurationFromPiecesSpec | src/ext/parse_cell_value.rs:84-94 | one piece is `UnitNotFound`; a bad first piece is `NumberParseFailed`; a second piece outside the exact lowercase unit table is `UnitUnexpected`; otherwise number × unit length |
| ParseCellValue.NumberNotFoundUnreachable | src/ext/parse_cell_value.rs:84-86 | `NumberNotFound` is never returned, because `split` always yields a first piece |
| ParseCellValue.NoSpaceIsUnitNotFound | src/ext/parse_cell_value.rs:84-86 | a non-empty text without a space is `UnitNotFound`, whatever the text |
| ParseCellValue.NumberUnitCellDuration | src/ext/parse_cell_value.rs:84-94 | `"<i64> <unit>"`, followed by nothing or by a space and anything, reads by the exact unit table, and text after the unit piece is ignored |
| ParseCellValue.ExampleNumberOnly | src/ext/parse_cell_value.rs:84-86 | "5" is `UnitNotFound` |
| ParseCellValue.DoubleSpaceIsUnitUnexpected | src/ext/parse_cell_value.rs:84-93 | two spaces after the number make the unit piece empty, which is `UnitUnexpected` |
| ParseCellValue.LeadingSpaceIsEmptyNumber | src/ext/parse_cell_value.rs:84-87 | a leading space makes the number piece empty, a `NumberParseFailed` of kind `Empty` |
| ParseCellValue.CapitalUnitIsUnexpected | src/ext/parse_cell_value.rs:88-93 | a known unit written with a capital is `UnitUnexpected` here, while `parse_duration_value` accepts it |
| ParseCellValue.ReadersAgreeOnLowercaseUnits | src/ext/parse_cell_value.rs:88-92 | on exact lowercase units the cell reader and `parse_duration_value` give the same duration |
| ParseCellValue.EmptyStringIsOnlyUnsetBool | src/ext/parse_cell_value.rs:41-46 | the exactly empty plain string is `None`; every other plain string, blank ones included, and every rich string, the empty one included, is `InvalidCellValue` carrying the cell |
| Parse.ToString | src/parse.rs:5-18 | succeeds with `s` exactly on the plain or rich string cell holding `s`; any other cell is `InvalidCellValue` carrying it |
| Parse.ToF64 | src/parse.rs:20-33 | succeeds with `x` exactly on the plain or rich number cell holding `x`; any other cell is `InvalidCellValue` carrying it |
| Parse.ToBool | src/parse.rs:35-48 | succeeds with `b` exactly on the plain or rich boolean cell holding `b`; any other cell, the empty string included, is `InvalidCellValue` carrying it |
| Parse.ToOptionOffsetDateTime | src/parse.rs:60-73 | the string error is wrapped; the exactly empty string is `None`; any other string is parsed whole, and its failure is wrapped |
| Parse.ToOptionDuration | src/parse.rs:75-97 | the string error is wrapped; the result is `None` exactly for the empty string |
| Parse.DurationFromPieces | src/parse.rs:84-94 | reading the pieces never gives `None` |
| Parse.StringAndF64Agree | src/parse.rs:5-33 | the `String` and `f64` conversions agree with the other copy's on every cell, error for error |
| Parse.DurationAgrees | src/parse.rs:75-97 | the duration reader agrees with the other copy's on every cell, error for error |
| Parse.TimestampAgrees | src/parse.rs:60-73 | the timestamp reader agrees with the other copy's on every cell, for every parser |
| Parse.BoolIsStrictOptionBool | src/parse.rs:35-48 | the strict `bool` and the `Option<bool>` conversion succeed together with the same value, except on the empty plain string, which is an error here |
| Parse.DurationPiecesAsInOtherCopy | src/parse.rs:84-87 | `NumberNotFound` is never returned, and a text without a space is `UnitNotFound` |
| Parse.NumberUnitCellDuration | src/parse.rs:84-94 | `"<i64> <unit>"` reads by the exact lowercase table as n×1/60/3600/86400 seconds, and any other unit is `UnitUnexpected` |
| ImplFromForValue.StringRoundTrip | src/ext/impl_from_for_value.rs:9-13 | a string put into a `Value` comes back unchanged from both `String` conversions and is never read as a number or a strict boolean |
| ImplFromForValue.F64RoundTrip | src/ext/impl_from_for_value.rs:15-19 | a number put into a `Value` comes back from both `f64` conversions |
| ImplFromForValue.BoolRoundTrip | src/ext/impl_from_for_value.rs:21-25 | a boolean put into a `Value` comes back from the strict and the optional conversion |
| ImplFromForValue.FromIsInjective | src/ext/impl_from_for_value.rs:3-25 | the `From` conversions are injective, and values built from different source types never coincide |

## Left out

- The HTTP client, the rate limiter, pagination and the serde deserialisers (`untagged`, `deny_unknown_fields`, `StringOrF64`) are not part of this model: they are network, timing and foreign-library code. `RichRows` keeps only the shapes of the wire types.
- RFC 3339 parsing: the `time` crate's parser is a function parameter, so the timestamp lemmas hold for every parser.
- `time::Duration` range: durations are unbounded integer seconds. The panic that `Duration::days` and its siblings raise for a huge `n` is not modelled.
- `f64` values are kept as opaque 64-bit patterns; no conversion computes with them.
- Generated variants that no conversion matches on are collapsed into a single `Other` case of each generated type.
- ParseRichValue.NormalizeOwnedRichString: Rust's `len() >= 6` counts bytes, the model counts characters. The two tests agree whenever the text starts and ends with the ASCII fence, which is the only case where the length matters. The later parts of the test require exactly that.
- ImplFromForValue.ValueVariant0FromString, ImplFromForValue.ValueFromString, ImplFromForValue.ValueFromF64 and ImplFromForValue.ValueFromBool have no contract of their own. They are constructor expressions; what they promise is stated by the round-trip lemmas.
- `Display` messages of the error enums are not modelled; only their variants and payloads are.

