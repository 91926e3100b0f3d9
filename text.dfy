/**
 * The parts of Rust's `str` API that the conversions use: `trim`,
 * `split_whitespace`, `split(' ')`, `to_ascii_lowercase`, `strip_prefix`,
 * `strip_suffix`, `starts_with` and `ends_with`. Strings are sequences of
 * Unicode scalar values.
 */
module Text {
  import opened Wrappers

  /**
   * `char::is_whitespace`: the Unicode White_Space property. The proofs
   * use this concrete set; the facts they draw from it are that ' ' and
   * '\n' are whitespace and that ASCII letters, digits, '-' and the
   * backtick are not.
   */
  predicate IsWs(c: char) {
    var n := c as int;
    (0x09 <= n <= 0x0D) || n == 0x20 || n == 0x85 || n == 0xA0 || n == 0x1680
    || (0x2000 <= n <= 0x200A) || n == 0x2028 || n == 0x2029 || n == 0x202F
    || n == 0x205F || n == 0x3000
  }

  /** Every character is whitespace (the empty string included). */
  predicate IsBlank(s: string) {
    forall i :: 0 <= i < |s| ==> IsWs(s[i])
  }

  /** No character is whitespace. */
  predicate NoWs(s: string) {
    forall i :: 0 <= i < |s| ==> !IsWs(s[i])
  }

  /** A token of `split_whitespace`: non-empty, without whitespace. */
  predicate IsToken(w: string) {
    w != [] && NoWs(w)
  }

  /** The number of whitespace characters `s` starts with. */
  function LeadingWs(s: string): (k: nat)
    ensures k <= |s|
    ensures k == |s| || !IsWs(s[k])
    ensures forall i :: 0 <= i < k ==> IsWs(s[i])
  {
    if s != [] && IsWs(s[0]) then 1 + LeadingWs(s[1..]) else 0
  }

  /** The index at which the whitespace that `s` ends with begins. */
  function TrailingWsStart(s: string): (k: nat)
    ensures k <= |s|
    ensures k == 0 || !IsWs(s[k - 1])
    ensures forall i :: k <= i < |s| ==> IsWs(s[i])
  {
    if s != [] && IsWs(s[|s| - 1]) then TrailingWsStart(s[..|s| - 1]) else |s|
  }

  /** `str::trim_start`: drops the longest blank prefix. */
  function TrimStart(s: string): (r: string)
    ensures r == [] || !IsWs(r[0])
    ensures r == [] <==> IsBlank(s)
  {
    s[LeadingWs(s)..]
  }

  /** `str::trim_end`: drops the longest blank suffix. */
  function TrimEnd(s: string): (r: string)
    ensures r == [] || !IsWs(r[|r| - 1])
    ensures r == [] <==> IsBlank(s)
  {
    s[..TrailingWsStart(s)]
  }

  /**
   * `str::trim`: the part of `s` between its longest blank prefix and its
   * longest blank suffix; neither end of the result is whitespace.
   */
  function Trim(s: string): (r: string)
    ensures var i := LeadingWs(s);
      i + |r| <= |s| && r == s[i..i + |r|] && IsBlank(s[..i]) && IsBlank(s[i + |r|..])
    ensures r == [] || (!IsWs(r[0]) && !IsWs(r[|r| - 1]))
    ensures r == [] <==> IsBlank(s)
  {
    var t := TrimStart(s);
    var r := TrimEnd(t);
    var i := LeadingWs(s);
    assert s[i + |r|..] == t[|r|..];
    assert s[i..i + |r|] == t[..|r|];
    r
  }

  /** The length of the longest prefix of `s` without whitespace. */
  function WordLen(s: string): (n: nat)
    ensures n <= |s|
    ensures NoWs(s[..n])
    ensures n == |s| || IsWs(s[n])
  {
    if s == [] || IsWs(s[0]) then 0
    else
      var n := 1 + WordLen(s[1..]);
      assert s[..n] == [s[0]] + s[1..][..n - 1];
      n
  }

  /**
   * `str::split_whitespace`: the maximal runs of non-whitespace characters,
   * in order. Every token is non-empty and holds no whitespace, and there
   * are none exactly when `s` is blank.
   */
  function SplitWhitespace(s: string): (r: seq<string>)
    ensures r == [] <==> IsBlank(s)
    decreases |s|
  {
    var t := TrimStart(s);
    if t == [] then []
    else
      var n := WordLen(t);
      assert n > 0;
      [t[..n]] + SplitWhitespace(t[n..])
  }

  /** Every piece `split_whitespace` yields is a token. */
  lemma {:induction false} SplitWhitespaceTokens(s: string)
    ensures forall i :: 0 <= i < |SplitWhitespace(s)| ==> IsToken(SplitWhitespace(s)[i])
    decreases |s|
  {
    var t := TrimStart(s);
    if t != [] {
      var n := WordLen(t);
      var rest := SplitWhitespace(t[n..]);
      SplitWhitespaceTokens(t[n..]);
      var r := [t[..n]] + rest;
      assert SplitWhitespace(s) == r;
      forall i | 0 <= i < |r| ensures IsToken(r[i]) {
        if i > 0 { assert r[i] == rest[i - 1]; }
      }
    }
  }

  /** `trim_start` over a concatenation: a blank first part vanishes, any other keeps `b` whole. */
  lemma {:induction false} TrimStartAppend(a: string, b: string)
    ensures TrimStart(a + b) == if TrimStart(a) == [] then TrimStart(b) else TrimStart(a) + b
  {
    if a != [] {
      assert (a + b)[0] == a[0] && (a + b)[1..] == a[1..] + b;
      if IsWs(a[0]) { TrimStartAppend(a[1..], b); }
    } else {
      assert a + b == b;
    }
  }

  /** The trailing-whitespace boundary is the only cut with a blank tail and a non-blank last char before it. */
  lemma TrailingWsStartUnique(s: string, k: nat)
    requires k <= |s| && (k == 0 || !IsWs(s[k - 1]))
    requires forall i :: k <= i < |s| ==> IsWs(s[i])
    ensures TrailingWsStart(s) == k
  {
  }

  /** A blank suffix is removed by `trim_end` whatever precedes it. */
  lemma TrimEndBlankSuffix(s: string, b: string)
    requires IsBlank(b)
    ensures TrimEnd(s + b) == TrimEnd(s)
  {
    var k := TrailingWsStart(s);
    var x := s + b;
    assert k == 0 || x[k - 1] == s[k - 1];
    assert forall i :: k <= i < |x| ==> IsWs(x[i]) by {
      forall i | k <= i < |x| ensures IsWs(x[i]) {
        if i < |s| { assert x[i] == s[i]; } else { assert x[i] == b[i - |s|]; }
      }
    }
    TrailingWsStartUnique(x, k);
    assert x[..k] == s[..k];
  }

  /** `trim` ignores blank padding on either side. */
  lemma TrimPadded(a: string, s: string, b: string)
    requires IsBlank(a) && IsBlank(b)
    ensures Trim(a + s + b) == Trim(s)
  {
    ConcatAssoc(a, s, b);
    TrimStartAppend(a, s + b);
    TrimStartAppend(s, b);
    if TrimStart(s) == [] {
      assert TrimStart(b) == [];
    } else {
      TrimEndBlankSuffix(TrimStart(s), b);
    }
  }

  /** A word that stops inside `t`, or followed by whitespace, is not lengthened by `b`. */
  lemma {:induction false} WordLenAppend(t: string, b: string)
    requires WordLen(t) < |t| || b == [] || IsWs(b[0])
    ensures WordLen(t + b) == WordLen(t)
  {
    if t == [] {
      assert t + b == b;
    } else {
      assert (t + b)[0] == t[0] && (t + b)[1..] == t[1..] + b;
      if !IsWs(t[0]) { WordLenAppend(t[1..], b); }
    }
  }

  /** A blank prefix contributes no tokens. */
  lemma SplitWhitespaceBlankPrefix(a: string, b: string)
    requires IsBlank(a)
    ensures SplitWhitespace(a + b) == SplitWhitespace(b)
  {
    TrimStartAppend(a, b);
  }

  /** Unfolds `split_whitespace` once: the first word, then the tokens of the rest. */
  lemma SplitWhitespaceFirst(s: string, t: string, n: nat)
    requires t == TrimStart(s) && t != [] && n == WordLen(t)
    ensures 0 < n <= |t| && SplitWhitespace(s) == [t[..n]] + SplitWhitespace(t[n..])
  {
  }


  /**
   * Whitespace at the seam between `a` and `b` separates their tokens:
   * the tokens of `a + b` are those of `a` followed by those of `b`.
   */
  lemma {:induction false} SplitWhitespaceAppend(a: string, b: string)
    requires a == [] || IsWs(a[|a| - 1]) || b == [] || IsWs(b[0])
    ensures SplitWhitespace(a + b) == SplitWhitespace(a) + SplitWhitespace(b)
    decreases |a|
  {
    if IsBlank(a) {
      SplitWhitespaceBlankPrefix(a, b);
    } else {
      var t := TrimStart(a);
      var n := WordLen(t);
      var u := t[n..];
      SplitWhitespaceAppendFirst(a, b, t, n);
      SplitWhitespaceAppend(u, b);
      SplitWhitespaceFirst(a, t, n);
      ConcatAssoc([t[..n]], SplitWhitespace(u), SplitWhitespace(b));
    }
  }

  /** The first token of `a + b` is the first token of `a`, under the seam condition. */
  lemma SplitWhitespaceAppendFirst(a: string, b: string, t: string, n: nat)
    requires !IsBlank(a)
    requires IsWs(a[|a| - 1]) || b == [] || IsWs(b[0])
    requires t == TrimStart(a) && n == WordLen(t)
    ensures n <= |t|
    ensures SplitWhitespace(a + b) == [t[..n]] + SplitWhitespace(t[n..] + b)
    ensures var u := t[n..]; u == [] || IsWs(u[|u| - 1]) || b == [] || IsWs(b[0])
  {
    TrimStartAppend(a, b);
    FirstWordSeam(a, b, t, n);
    WordLenAppend(t, b);
    SplitWhitespaceFirst(a + b, t + b, n);
    SliceAppend(t, b, n);
  }

  /** Under the seam condition, the first word of `a` ends inside `a`, or `b` starts after a break. */
  lemma FirstWordSeam(a: string, b: string, t: string, n: nat)
    requires t == TrimStart(a) && t != [] && n == WordLen(t)
    requires IsWs(a[|a| - 1]) || b == [] || IsWs(b[0])
    ensures n < |t| || b == [] || IsWs(b[0])
    ensures var u := t[n..]; u == [] || IsWs(u[|u| - 1]) || b == [] || IsWs(b[0])
  {
    TrimStartLast(a);
    if IsWs(t[|t| - 1]) {
      WordLenBeforeWs(t, |t| - 1);
    }
    if n < |t| {
      SuffixLast(t, n);
    }
  }

  /** `trim_start` keeps the last character of a non-blank string. */
  lemma TrimStartLast(a: string)
    requires TrimStart(a) != []
    ensures TrimStart(a)[|TrimStart(a)| - 1] == a[|a| - 1]
  {
    SuffixLast(a, LeadingWs(a));
  }

  /** A word ends no later than the first whitespace. */
  lemma {:induction false} WordLenBeforeWs(t: string, i: nat)
    requires i < |t| && IsWs(t[i])
    ensures WordLen(t) <= i
  {
    if !IsWs(t[0]) {
      assert t[1..][i - 1] == t[i];
      WordLenBeforeWs(t[1..], i - 1);
    }
  }

  /** A non-empty suffix ends where the whole sequence does. */
  lemma SuffixLast<T>(s: seq<T>, k: nat)
    requires k < |s|
    ensures s[k..][|s| - k - 1] == s[|s| - 1]
  {
  }

  /** Cutting `t + b` inside `t`. */
  lemma SliceAppend<T>(t: seq<T>, b: seq<T>, n: nat)
    requires n <= |t|
    ensures (t + b)[..n] == t[..n] && (t + b)[n..] == t[n..] + b
  {
  }

  /** Concatenation is associative. */
  lemma ConcatAssoc<T>(x: seq<T>, y: seq<T>, z: seq<T>)
    ensures x + (y + z) == (x + y) + z
  {
  }

  /** Trimming does not change the tokens. */
  lemma SplitWhitespaceTrim(s: string)
    ensures SplitWhitespace(Trim(s)) == SplitWhitespace(s)
  {
    var t := TrimStart(s);
    var e := TrimEnd(t);
    assert TrimStart(t) == t;
    assert t == e + t[|e|..];
    SplitWhitespaceAppend(e, t[|e|..]);
    assert SplitWhitespace(t[|e|..]) == [];
  }

  /** A single token splits into itself. */
  lemma SplitWhitespaceToken(w: string)
    requires IsToken(w)
    ensures SplitWhitespace(w) == [w]
  {
    assert TrimStart(w) == w;
    var n := WordLen(w);
    assert w[..n] == w && w[n..] == [];
    assert SplitWhitespace([]) == [];
  }

  /** Two tokens separated by one space split into exactly those two tokens. */
  lemma SplitWhitespacePair(a: string, b: string)
    requires IsToken(a) && IsToken(b)
    ensures SplitWhitespace(a + " " + b) == [a, b]
  {
    assert IsWs(' ');
    SplitWhitespaceAppend(a + " ", b);
    SplitWhitespaceAppend(a, " ");
    SplitWhitespaceToken(a);
    SplitWhitespaceToken(b);
    assert SplitWhitespace(" ") == [];
  }

  /** The first index of `c` in `s`. */
  function IndexOf(s: string, c: char): (i: nat)
    requires c in s
    ensures i < |s| && s[i] == c && c !in s[..i]
  {
    if s[0] == c then 0
    else
      var i := 1 + IndexOf(s[1..], c);
      assert s[..i] == [s[0]] + s[1..][..i - 1];
      i
  }

  /** The pieces joined back together with `sep` between neighbours. */
  function JoinWith(parts: seq<string>, sep: char): string
  {
    if |parts| == 0 then ""
    else if |parts| == 1 then parts[0]
    else parts[0] + [sep] + JoinWith(parts[1..], sep)
  }

  /**
   * `str::split(sep)` for a character separator: the pieces between the
   * occurrences of `sep`. There is always at least one piece.
   */
  function SplitOn(s: string, sep: char): (r: seq<string>)
    ensures |r| >= 1
    decreases |s|
  {
    if sep !in s then [s]
    else
      var i := IndexOf(s, sep);
      [s[..i]] + SplitOn(s[i + 1..], sep)
  }

  /** No piece holds `sep`, and joining the pieces with `sep` gives `s` back. */
  lemma {:induction false} SplitOnPieces(s: string, sep: char)
    ensures forall i :: 0 <= i < |SplitOn(s, sep)| ==> sep !in SplitOn(s, sep)[i]
    ensures JoinWith(SplitOn(s, sep), sep) == s
    decreases |s|
  {
    if sep in s {
      var i := IndexOf(s, sep);
      SplitOnPieces(s[i + 1..], sep);
      assert s == s[..i] + [sep] + s[i + 1..];
    }
  }

  /** Splitting a join of `sep`-free pieces gives the pieces back. */
  lemma {:induction false} SplitOnJoinWith(parts: seq<string>, sep: char)
    requires |parts| >= 1
    requires forall i :: 0 <= i < |parts| ==> sep !in parts[i]
    ensures SplitOn(JoinWith(parts, sep), sep) == parts
  {
    if |parts| > 1 {
      var a, rest := parts[0], JoinWith(parts[1..], sep);
      var s := a + [sep] + rest;
      assert s[|a|] == sep && s[..|a|] == a;
      var i := IndexOf(s, sep);
      assert s[..i] == a && s[i + 1..] == rest;
      SplitOnJoinWith(parts[1..], sep);
    }
  }

  /** `split` gives a second piece exactly when the separator occurs. */
  lemma SplitOnHasSecondPiece(s: string, sep: char)
    ensures |SplitOn(s, sep)| >= 2 <==> sep in s
  {
  }

  /** The first piece of `a + [sep] + b` is `a` when `sep` does not occur in `a`. */
  lemma SplitOnCons(a: string, sep: char, b: string)
    requires sep !in a
    ensures SplitOn(a + [sep] + b, sep) == [a] + SplitOn(b, sep)
  {
    var s := a + [sep] + b;
    assert s[|a|] == sep && s[..|a|] == a;
    var i := IndexOf(s, sep);
    assert s[..i] == a && s[i + 1..] == b;
  }

  /** `char::to_ascii_lowercase`. */
  function AsciiLower(c: char): char
  {
    if 'A' <= c <= 'Z' then (c as int + 32) as char else c
  }

  /** `str::to_ascii_lowercase`: ASCII capitals lowered, everything else kept. */
  function ToAsciiLowercase(s: string): (r: string)
    ensures |r| == |s|
    ensures forall i :: 0 <= i < |s| ==> r[i] == AsciiLower(s[i])
  {
    if s == [] then [] else [AsciiLower(s[0])] + ToAsciiLowercase(s[1..])
  }

  /** A string without ASCII capitals is its own lowercase. */
  lemma NoCapitalsUnchanged(s: string)
    requires forall i :: 0 <= i < |s| ==> !('A' <= s[i] <= 'Z')
    ensures ToAsciiLowercase(s) == s
  {
  }

  predicate StartsWith(s: string, p: string) {
    |p| <= |s| && s[..|p|] == p
  }

  predicate EndsWith(s: string, p: string) {
    |p| <= |s| && s[|s| - |p|..] == p
  }

  /** `str::strip_prefix`. */
  function StripPrefix(s: string, p: string): Option<string>
  {
    if StartsWith(s, p) then Some(s[|p|..]) else None
  }

  /** `str::strip_suffix`. */
  function StripSuffix(s: string, p: string): Option<string>
  {
    if EndsWith(s, p) then Some(s[..|s| - |p|]) else None
  }
}
