/**
  Building blocks for the hand-coded regular expressions. A pattern is modelled by
  its attempt at one start position, with the pattern's own backtracking resolved
  inside the attempt; `FindFirst` then gives the leftmost start at which the
  attempt succeeds, which is the match `String.prototype.match` reports for a
  pattern without the `g` flag.
*/
module Patterns {
  import opened Optional
  import opened Text

  /** The leftmost start position at or after `from` where attempt `m` succeeds,
      with what the attempt captured. */
  function FindFirst<T>(s: string, from: nat, m: (string, nat) -> Option<T>): (r: Option<(nat, T)>)
    ensures r.Some? ==> from <= r.value.0 <= |s| && m(s, r.value.0) == Some(r.value.1)
    ensures r.Some? ==> forall q :: from <= q < r.value.0 ==> m(s, q).None?
    ensures r.None? ==> forall q :: from <= q <= |s| ==> m(s, q).None?
    decreases |s| + 1 - from
  {
    if from > |s| then None
    else
      match m(s, from)
      case Some(v) => Some((from, v))
      case None => FindFirst(s, from + 1, m)
  }

  /** The leftmost match of attempt `m` in `s` starts at `p`. */
  predicate LeftmostAt<T>(s: string, m: (string, nat) -> Option<T>, p: nat)
  {
    p <= |s| && m(s, p).Some? && forall q :: 0 <= q < p ==> m(s, q).None?
  }

  /** Attempt `m` succeeds at no position of `s`. */
  predicate NoMatch<T>(s: string, m: (string, nat) -> Option<T>)
  {
    forall q :: 0 <= q <= |s| ==> m(s, q).None?
  }

  /** What the leftmost match of attempt `m` in `s` captured. */
  function Search<T>(s: string, m: (string, nat) -> Option<T>): (r: Option<T>)
    ensures r.Some? ==> exists p :: 0 <= p <= |s| && m(s, p) == r && forall q :: 0 <= q < p ==> m(s, q).None?
    ensures r.None? ==> forall q :: 0 <= q <= |s| ==> m(s, q).None?
    ensures r.None? <==> NoMatch(s, m)
    ensures forall p :: LeftmostAt(s, m, p) ==> r == m(s, p)
  {
    match FindFirst(s, 0, m)
    case Some((p, v)) => Some(v)
    case None => None
  }

  /** An attempt that succeeds at the very start of the text is the match. */
  lemma SearchAtStart<T>(s: string, m: (string, nat) -> Option<T>)
    requires m(s, 0).Some?
    ensures Search(s, m) == m(s, 0)
  {
    assert FindFirst(s, 0, m) == Some((0, m(s, 0).value));
  }

  /** The literal `lit` of an `/i` pattern at position `p`, compared case-insensitively. */
  predicate LitAt(s: string, p: nat, lit: string)
  {
    p + |lit| <= |s| && forall i :: 0 <= i < |lit| ==> FoldAscii(s[p + i]) == FoldAscii(lit[i])
  }

  /** One character that differs from the literal's, under case folding, rules out
      the literal at `p`. */
  lemma NotLitAt(s: string, p: nat, lit: string, i: nat)
    requires i < |lit|
    requires p + |lit| <= |s| ==> FoldAscii(s[p + i]) != FoldAscii(lit[i])
    ensures !LitAt(s, p, lit)
  {
  }

  /** A run of digits `d` at `a` that the next character ends is what `\d*` takes. */
  lemma DigitEndIs(s: string, a: nat, d: string)
    requires IsDigits(d) && a + |d| <= |s| && s[a..a + |d|] == d
    requires a + |d| < |s| ==> !IsDigit(s[a + |d|])
    ensures DigitEnd(s, a) == a + |d|
  {
    forall k | a <= k < a + |d| ensures IsDigit(s[k]) {
      assert s[k] == s[a..a + |d|][k - a];
    }
    RunEndIs(s, a, a + |d|, IsDigit);
  }

  /** One white-space character at `a` before a character that is none is what
      `\s*` takes. */
  lemma SpaceEndOne(s: string, a: nat)
    requires a < |s| && IsSpace(s[a])
    requires a + 1 < |s| ==> !IsSpace(s[a + 1])
    ensures SpaceEnd(s, a) == a + 1
  {
  }

  /** The end of `\s*` taken greedily from `i`. */
  function SpaceEnd(s: string, i: nat): (j: nat)
    requires i <= |s|
    ensures i <= j <= |s|
    ensures forall k :: i <= k < j ==> IsSpace(s[k])
    ensures j < |s| ==> !IsSpace(s[j])
  {
    RunEnd(s, i, IsSpace)
  }

  /** The end of `\d*` taken greedily from `i`. */
  function DigitEnd(s: string, i: nat): (j: nat)
    requires i <= |s|
    ensures i <= j <= |s|
    ensures forall k :: i <= k < j ==> IsDigit(s[k])
    ensures j < |s| ==> !IsDigit(s[j])
  {
    RunEnd(s, i, IsDigit)
  }

  /** The end of `[^\n]*` taken greedily from `i`: the end of the line. */
  function LineEnd(s: string, i: nat): (j: nat)
    requires i <= |s|
    ensures i <= j <= |s|
    ensures forall k :: i <= k < j ==> s[k] != '\n'
    ensures j < |s| ==> s[j] == '\n'
  {
    RunEnd(s, i, (c: char) => c != '\n')
  }
}
