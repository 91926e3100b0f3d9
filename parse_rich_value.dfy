/**
 * The triple-backtick fence normalisers of `src/ext/parse_rich_value.rs`.
 * The API can return a rich text value wrapped in a code fence; both
 * functions remove one fence from each end and leave anything else alone.
 */
module ParseRichValue {
  import opened Wrappers
  import opened Text

  const Fence: string := "```"

  /** Long enough to hold two fences that do not overlap, and starts and ends with one. */
  predicate IsFenced(s: string) {
    |s| >= 6 && StartsWith(s, Fence) && EndsWith(s, Fence)
  }

  /**
   * `normalize_rich_string`: strip the prefix fence, then a suffix fence
   * from what remains. Because the suffix is looked for only after the
   * prefix is gone, a short run of backticks (fewer than six) is kept.
   */
  function NormalizeRichString(value: string): (r: string)
    ensures IsFenced(value) ==> r == value[3..|value| - 3]
    ensures !IsFenced(value) ==> r == value
  {
    match StripPrefix(value, Fence)
    case Some(inner) =>
      (match StripSuffix(inner, Fence)
       case Some(stripped) => stripped
       case None => value)
    case None => value
  }

  /** `normalize_owned_rich_string`: the same normalisation written as a length and affix test. */
  function NormalizeOwnedRichString(value: string): (r: string)
    ensures IsFenced(value) ==> r == value[3..|value| - 3]
    ensures !IsFenced(value) ==> r == value
  {
    if |value| >= 6 && StartsWith(value, Fence) && EndsWith(value, Fence) then
      value[3..|value| - 3]
    else
      value
  }

  /** The borrowed and the owned normaliser agree on every string. */
  lemma NormalizersAgree(s: string)
    ensures NormalizeRichString(s) == NormalizeOwnedRichString(s)
  {
  }

  /**
   * A string is either returned unchanged (exactly when it is not fenced)
   * or shortened by exactly six characters.
   */
  lemma NormalizeLength(s: string)
    ensures NormalizeRichString(s) == s <==> !IsFenced(s)
    ensures IsFenced(s) ==> |NormalizeRichString(s)| == |s| - 6
  {
  }

  /** Only one layer goes: a doubly fenced text keeps its inner fence. */
  lemma NormalizeStripsOneLayer(x: string)
    ensures NormalizeRichString(Fence + Fence + x + Fence + Fence) == Fence + x + Fence
    ensures IsFenced(Fence + x + Fence)
  {
    var s := Fence + Fence + x + Fence + Fence;
    assert StartsWith(s, Fence) && EndsWith(s, Fence);
    assert s[3..|s| - 3] == Fence + x + Fence;
    assert (Fence + x + Fence)[..3] == Fence;
    assert (Fence + x + Fence)[|Fence + x + Fence| - 3..] == Fence;
  }

  /** So normalisation is not idempotent on doubly fenced text. */
  lemma NormalizeNotIdempotent()
    ensures NormalizeRichString(NormalizeRichString("``````a``````")) == "a"
    ensures NormalizeRichString("``````a``````") == "```a```"
  {
    NormalizeStripsOneLayer("a");
    assert Fence + Fence + "a" + Fence + Fence == "``````a``````";
    assert Fence + "a" + Fence == "```a```";
  }

  /** Backticks that do not form both fences are kept: five backticks, or a fence at one end only. */
  lemma NormalizeKeepsPartialFences(x: string)
    ensures NormalizeRichString("`````") == "`````"
    ensures NormalizeRichString("``````") == ""
    ensures x == [] || x[|x| - 1] != '`' ==> NormalizeRichString(Fence + x) == Fence + x
    ensures x == [] || x[0] != '`' ==> NormalizeRichString(x + Fence) == x + Fence
  {
    var a, b := Fence + x, x + Fence;
    if x != [] && x[|x| - 1] != '`' { assert a[|a| - 1] == x[|x| - 1]; }
    if x != [] && x[0] != '`' { assert b[0] == x[0]; }
  }

  /** The owned normaliser removes exactly the fence put around any text. */
  lemma FenceAroundIsStripped(x: string)
    ensures NormalizeOwnedRichString(Fence + x + Fence) == x
  {
    var s := Fence + x + Fence;
    assert IsFenced(s) by {
      assert s[..3] == Fence;
      assert s[|s| - 3..] == Fence;
    }
    assert s[3..|s| - 3] == x;
  }

  /** A string that does not begin and end with a backtick is never changed, whatever it holds inside. */
  lemma InteriorBackticksKept(s: string)
    requires s == [] || s[0] != '`' || s[|s| - 1] != '`'
    ensures NormalizeRichString(s) == s
  {
  }
}
