/**
 * The four regular expressions of the `/print` error classifier,
 * `status:(\w+)`, `position:(\w+)`, `alarm:(\d+)` and `error:(\d+)`, as
 * explicit scans. `Regex.Match` reports the leftmost position at which the
 * pattern matches; a literal followed by a greedy `+` class run matches at a
 * position exactly when the literal is there and at least one class
 * character follows it, and group 1 is then the maximal run.
 */
module Patterns {
  import opened Wrappers
  import opened Text

  /** The character class after the literal: `\w` or `\d`. */
  datatype CharClass = Word | Digit

  predicate InClass(k: CharClass, c: char) {
    match k
    case Word => 'a' <= c <= 'z' || 'A' <= c <= 'Z' || IsDigit(c) || c == '_'
    case Digit => IsDigit(c)
  }

  /** The pattern `literal(\k+)` matches starting at index `i` of `s`. */
  predicate MatchesAt(s: string, literal: string, k: CharClass, i: int) {
    0 <= i && i + |literal| < |s| && s[i..i + |literal|] == literal && InClass(k, s[i + |literal|])
  }

  /** `g` is group 1 of the match at `i`: the maximal non-empty class run right after the literal. */
  ghost predicate IsGroupAt(s: string, literal: string, k: CharClass, i: nat, g: string) {
    var b := i + |literal|;
    && |g| > 0
    && b + |g| <= |s|
    && g == s[b..b + |g|]
    && (forall j :: 0 <= j < |g| ==> InClass(k, g[j]))
    && (b + |g| == |s| || !InClass(k, s[b + |g|]))
  }

  /** How many class characters follow index `i`: what the greedy `\k+` consumes. */
  function RunLength(s: string, k: CharClass, i: nat): (n: nat)
    requires i <= |s|
    ensures i + n <= |s|
    ensures forall j :: i <= j < i + n ==> InClass(k, s[j])
    ensures i + n == |s| || !InClass(k, s[i + n])
    decreases |s| - i
  {
    if i < |s| && InClass(k, s[i]) then 1 + RunLength(s, k, i + 1) else 0
  }

  /** The leftmost index at or after `from` at which the pattern matches. */
  function FindFrom(s: string, literal: string, k: CharClass, from: nat): (r: Option<nat>)
    ensures r.Some? ==> from <= r.value && MatchesAt(s, literal, k, r.value)
    ensures forall j :: from <= j && (r.None? || j < r.value) ==> !MatchesAt(s, literal, k, j)
    decreases |s| - from
  {
    if from + |literal| >= |s| then None
    else if MatchesAt(s, literal, k, from) then Some(from)
    else FindFrom(s, literal, k, from + 1)
  }

  /** `Regex.Match(s, literal + "(\k+)")`: group 1 of the leftmost match, or None when `Success` is false. */
  function Match(s: string, literal: string, k: CharClass): (r: Option<string>)
    ensures r.Some? ==> |r.value| > 0 && forall j :: 0 <= j < |r.value| ==> InClass(k, r.value[j])
  {
    match FindFrom(s, literal, k, 0)
    case None => None
    case Some(i) =>
      var b := i + |literal|;
      Some(s[b..b + RunLength(s, k, b)])
  }

  /** `Success` holds exactly when the pattern matches somewhere. */
  lemma MatchSucceeds(s: string, literal: string, k: CharClass)
    ensures Match(s, literal, k).Some? <==> exists i :: MatchesAt(s, literal, k, i)
  {
    var found := FindFrom(s, literal, k, 0);
    if found.None? {
      forall i | 0 <= i
        ensures !MatchesAt(s, literal, k, i)
      {
      }
    }
  }

  /** Group 1 of a successful match is the maximal class run after the leftmost match. */
  lemma MatchIsLeftmost(s: string, literal: string, k: CharClass)
    requires Match(s, literal, k).Some?
    ensures exists i: nat ::
      && MatchesAt(s, literal, k, i)
      && (forall j :: 0 <= j < i ==> !MatchesAt(s, literal, k, j))
      && IsGroupAt(s, literal, k, i, Match(s, literal, k).value)
  {
    var i := FindFrom(s, literal, k, 0).value;
    var b := i + |literal|;
    assert IsGroupAt(s, literal, k, i, s[b..b + RunLength(s, k, b)]);
  }

  /** A class run that reaches the end of `s` is consumed whole. */
  lemma {:induction false} RunLengthToEnd(s: string, k: CharClass, i: nat)
    requires i <= |s| && forall j :: i <= j < |s| ==> InClass(k, s[j])
    ensures RunLength(s, k, i) == |s| - i
    decreases |s| - i
  {
    if i < |s| {
      RunLengthToEnd(s, k, i + 1);
    }
  }

  /** The pattern is found at the start of the literal followed by a class run, and the run is taken whole. */
  lemma LiteralThenRunFound(literal: string, g: string, k: CharClass)
    requires |g| > 0 && forall j :: 0 <= j < |g| ==> InClass(k, g[j])
    ensures FindFrom(literal + g, literal, k, 0) == Some(0)
    ensures RunLength(literal + g, k, |literal|) == |g|
  {
    var s, b := literal + g, |literal|;
    assert s[0..b] == literal;
    assert s[b] == g[0];
    assert MatchesAt(s, literal, k, 0);
    forall j | b <= j < |s|
      ensures InClass(k, s[j])
    {
      assert s[j] == g[j - b];
    }
    RunLengthToEnd(s, k, b);
  }

  /** Matched against the literal followed by a class run, the pattern's group 1 is that run. */
  lemma MatchOfLiteralThenRun(literal: string, g: string, k: CharClass)
    requires |g| > 0 && forall j :: 0 <= j < |g| ==> InClass(k, g[j])
    ensures Match(literal + g, literal, k) == Some(g)
  {
    LiteralThenRunFound(literal, g, k);
    assert (literal + g)[|literal|..|literal| + |g|] == g;
  }

  const INT32_MAX: int := 0x7FFF_FFFF

  /** `int.Parse` of a run of decimal digits: its value, or None where .NET throws OverflowException. */
  function ParseInt32(digits: string): Option<int>
    requires forall j :: 0 <= j < |digits| ==> IsDigit(digits[j])
  {
    var v := DigitsValue(digits);
    if v <= INT32_MAX then Some(v) else None
  }

  /** Parsing the decimal rendering of a non-negative Int32 gives it back. */
  lemma ParseInt32OfNatToString(n: nat)
    requires n <= INT32_MAX
    ensures ParseInt32(NatToString(n)) == Some(n)
  {
    DigitsValueOfNatToString(n);
  }
}
