/**
 * The stderr progress rule of the upload handler: a chunk of Demucs's stderr
 * yields an update only when it contains "Processing" and the regular
 * expression `([0-9]+)%` matches it; the update is `parseInt` of the first
 * capture group, applied to every stem.
 */
module ProgressParser {
  import opened Base
  import opened Decimal

  const Marker: string := "Processing"

  /** `pat` occurs in `s` starting at index `i`. */
  ghost predicate OccursAt(s: string, pat: string, i: int)
  {
    0 <= i && i + |pat| <= |s| && s[i..i + |pat|] == pat
  }

  /** `s.includes(pat)`. */
  function Contains(s: string, pat: string): (b: bool)
    ensures b <==> exists i :: OccursAt(s, pat, i)
    decreases |s|
  {
    if |s| < |pat| then
      false
    else if s[..|pat|] == pat then
      assert OccursAt(s, pat, 0);
      true
    else
      var b := Contains(s[1..], pat);
      assert forall i | OccursAt(s[1..], pat, i) :: OccursAt(s, pat, i + 1) by {
        forall i | OccursAt(s[1..], pat, i) ensures OccursAt(s, pat, i + 1) {
          assert s[1..][i..i + |pat|] == s[i + 1..i + 1 + |pat|];
        }
      }
      assert forall i | OccursAt(s, pat, i) :: OccursAt(s[1..], pat, i - 1) by {
        forall i | OccursAt(s, pat, i) ensures OccursAt(s[1..], pat, i - 1) {
          assert i != 0;
          assert s[1..][i - 1..i - 1 + |pat|] == s[i..i + |pat|];
        }
      }
      b
  }

  /** `s[i..j]` is a match of `([0-9]+)%` without its `%`: one or more digits, then `%` at `j`. */
  ghost predicate PercentAt(s: string, i: int, j: int)
  {
    0 <= i < j < |s| && AllDigits(s[i..j]) && s[j] == '%'
  }

  /** The match the regular expression reports: no match starts further left. */
  ghost predicate Leftmost(s: string, i: int, j: int)
  {
    PercentAt(s, i, j) && forall a, b | 0 <= a < i :: !PercentAt(s, a, b)
  }

  /** End of the maximal run of digits that starts at `i`. */
  function RunEnd(s: string, i: nat): (j: nat)
    requires i <= |s|
    ensures i <= j <= |s| && AllDigits(s[i..j])
    ensures j == |s| || !IsDigit(s[j])
    decreases |s| - i
  {
    if i < |s| && IsDigit(s[i]) then
      RunEnd(s, i + 1)
    else
      i
  }

  /** A match starting at `i` can end only at the end of the digit run starting at `i`. */
  lemma PercentEnd(s: string, i: nat, j: int)
    requires i <= |s| && PercentAt(s, i, j)
    ensures j == RunEnd(s, i)
  {
    var e := RunEnd(s, i);
  }

  /** No match starts inside a digit run that is not followed by `%`. */
  lemma NoMatchInRun(s: string, i: nat, a: int, b: int)
    requires i <= a && i <= |s|
    requires a < RunEnd(s, i) && !(RunEnd(s, i) < |s| && s[RunEnd(s, i)] == '%')
    ensures !PercentAt(s, a, b)
  {
  }

  /** The regular-expression search from position `i` rightwards. */
  function FindPercent(s: string, i: nat): (r: Option<(nat, nat)>)
    requires i <= |s|
    ensures r.Some? ==> i <= r.value.0 && PercentAt(s, r.value.0, r.value.1)
    ensures r.Some? ==> forall a, b | i <= a < r.value.0 :: !PercentAt(s, a, b)
    ensures r.None? ==> forall a, b | i <= a :: !PercentAt(s, a, b)
    decreases |s| - i
  {
    if i == |s| then
      None
    else if !IsDigit(s[i]) then
      FindPercent(s, i + 1)
    else
      var j := RunEnd(s, i);
      if j < |s| && s[j] == '%' then
        Some((i, j))
      else
        var r := FindPercent(s, j);
        assert forall a, b | i <= a < j :: !PercentAt(s, a, b) by {
          forall a, b | i <= a < j ensures !PercentAt(s, a, b) {
            NoMatchInRun(s, i, a, b);
          }
        }
        r
  }

  /**
   * The update a stderr chunk produces: a percentage, or `None` for "no
   * update". There is none exactly when the chunk lacks "Processing" or has
   * no digits followed by `%`; otherwise it is the value of the leftmost
   * match's digits.
   */
  function ParseChunk(chunk: string): (r: Option<nat>)
    ensures r.None? <==> !Contains(chunk, Marker) || forall i, j :: !PercentAt(chunk, i, j)
    ensures r.Some? ==> exists i, j :: Leftmost(chunk, i, j) && r.value == Value(chunk[i..j])
  {
    if !Contains(chunk, Marker) then
      None
    else
      match FindPercent(chunk, 0)
      case None => None
      case Some((i, j)) =>
        assert Leftmost(chunk, i, j);
        Some(Value(chunk[i..j]))
  }

  /**
   * When the chunk has a leftmost match `chunk[i..j]`, the update is its
   * value if and only if the chunk mentions "Processing".
   */
  lemma ParseChunkOfMatch(chunk: string, i: int, j: int)
    requires Leftmost(chunk, i, j)
    ensures ParseChunk(chunk) == if Contains(chunk, Marker) then Some(Value(chunk[i..j])) else None
  {
    var r := FindPercent(chunk, 0);
    assert r.Some?;
    var (a, b) := r.value;
    assert a == i;
    PercentEnd(chunk, i, j);
    PercentEnd(chunk, a, b);
  }

  /** The matched digits form a maximal run: the character before them is not a digit. */
  lemma LeftmostIsMaximalRun(s: string, i: int, j: int)
    requires Leftmost(s, i, j)
    ensures i == 0 || !IsDigit(s[i - 1])
  {
    if i > 0 && IsDigit(s[i - 1]) {
      ExtendLeft(s, i, j);
    }
  }

  /** A digit just before a match extends it to the left. */
  lemma ExtendLeft(s: string, i: int, j: int)
    requires PercentAt(s, i, j) && 0 < i && IsDigit(s[i - 1])
    ensures PercentAt(s, i - 1, j)
  {
    assert s[i - 1..j] == [s[i - 1]] + s[i..j];
  }

  /** `includes` stays true when text is appended. */
  lemma ContainsExtend(s: string, pat: string, t: string)
    requires Contains(s, pat)
    ensures Contains(s + t, pat)
  {
    var i :| OccursAt(s, pat, i);
    assert (s + t)[i..i + |pat|] == s[i..i + |pat|];
    assert OccursAt(s + t, pat, i);
  }

  /** No match starts inside a digit-free stretch `s[..p]`. */
  lemma NoMatchBefore(s: string, p: int)
    requires 0 <= p <= |s|
    requires forall k | 0 <= k < p :: !IsDigit(s[k])
    ensures forall a, b | 0 <= a < p :: !PercentAt(s, a, b)
  {
    forall a, b | 0 <= a < p ensures !PercentAt(s, a, b) {
      if PercentAt(s, a, b) {
        MatchStartsWithDigit(s, a, b);
      }
    }
  }

  lemma MatchStartsWithDigit(s: string, a: int, b: int)
    requires PercentAt(s, a, b)
    ensures IsDigit(s[a])
  {
    assert s[a..b][0] == s[a];
  }

  /**
   * In a chunk whose digit-free prefix mentions "Processing", the digits
   * that follow the prefix are the leftmost match.
   */
  lemma MatchAfterPrefix(prefix: string, d: string, rest: string)
    requires Contains(prefix, Marker)
    requires forall k | 0 <= k < |prefix| :: !IsDigit(prefix[k])
    requires d != [] && AllDigits(d)
    ensures Leftmost(prefix + d + "%" + rest, |prefix|, |prefix| + |d|)
    ensures (prefix + d + "%" + rest)[|prefix|..|prefix| + |d|] == d
    ensures Contains(prefix + d + "%" + rest, Marker)
  {
    var s := prefix + d + "%" + rest;
    var i, j := |prefix|, |prefix| + |d|;
    assert s[i..j] == d;
    assert s[j] == '%';
    assert forall k | 0 <= k < i :: s[k] == prefix[k];
    NoMatchBefore(s, i);
    assert s == prefix + (d + "%" + rest);
    ContainsExtend(prefix, Marker, d + "%" + rest);
  }

  /** A chunk mentioning "Processing" in a digit-free prefix reports the digits that follow. */
  lemma ParseAfterPrefix(prefix: string, d: string, rest: string)
    requires Contains(prefix, Marker)
    requires forall k | 0 <= k < |prefix| :: !IsDigit(prefix[k])
    requires d != [] && AllDigits(d)
    ensures ParseChunk(prefix + d + "%" + rest) == Some(Value(d))
  {
    MatchAfterPrefix(prefix, d, rest);
    ParseChunkOfMatch(prefix + d + "%" + rest, |prefix|, |prefix| + |d|);
  }

  /**
   * The value is not clamped: after a digit-free prefix that mentions
   * "Processing", any number `n` followed by `%` is reported as `n`
   * (so "Processing 150%" reports 150, the source's 1.5).
   */
  lemma NotClamped(prefix: string, n: nat, rest: string)
    requires Contains(prefix, Marker)
    requires forall k | 0 <= k < |prefix| :: !IsDigit(prefix[k])
    ensures ParseChunk(prefix + Render(n) + "%" + rest) == Some(n)
  {
    ParseAfterPrefix(prefix, Render(n), rest);
    ValueOfRender(n);
  }
}
