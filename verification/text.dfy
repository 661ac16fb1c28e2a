/**
 * The two string primitives the bot's decisions rest on: Python's
 * `str.lower()` and Python's substring test `needle in hay`.
 */
module Text {

  predicate IsUpper(c: char) {
    'A' <= c <= 'Z'
  }

  /** A string with no upper-case letter. */
  predicate IsLower(s: string) {
    forall i :: 0 <= i < |s| ==> !IsUpper(s[i])
  }

  /** Lower-cases one character: 'A'..'Z' become 'a'..'z', everything else is kept. */
  function LowerChar(c: char): (d: char)
    ensures !IsUpper(d)
    ensures !IsUpper(c) ==> d == c
    ensures IsUpper(c) ==> 'a' <= d <= 'z' && d as int - c as int == 'a' as int - 'A' as int
  {
    if IsUpper(c) then (c as int - 'A' as int + 'a' as int) as char else c
  }

  /** `s.lower()`: the same string with every upper-case letter lowered. */
  function ToLower(s: string): (r: string)
    ensures |r| == |s|
    ensures forall i :: 0 <= i < |s| ==> r[i] == LowerChar(s[i])
    ensures IsLower(r)
  {
    seq(|s|, i requires 0 <= i < |s| => LowerChar(s[i]))
  }

  /** Two strings that differ at most in the case of their letters. */
  predicate SameIgnoringCase(a: string, b: string) {
    |a| == |b| && forall i :: 0 <= i < |a| ==> LowerChar(a[i]) == LowerChar(b[i])
  }

  /** Lowering leaves an already lower-case string alone, so it is idempotent. */
  lemma LowerOfLower(s: string)
    requires IsLower(s)
    ensures ToLower(s) == s
  {
  }

  lemma LowerIdempotent(s: string)
    ensures ToLower(ToLower(s)) == ToLower(s)
  {
    LowerOfLower(ToLower(s));
  }

  /** Case variants of a text lower to the same string, and only they do. */
  lemma LowerEqualIffSameIgnoringCase(a: string, b: string)
    ensures ToLower(a) == ToLower(b) <==> SameIgnoringCase(a, b)
  {
    if ToLower(a) == ToLower(b) {
      assert forall i :: 0 <= i < |a| ==> LowerChar(a[i]) == ToLower(b)[i];
    }
  }

  // ---------------------------------------------------------------------
  // Substring search
  // ---------------------------------------------------------------------

  /** Reference definition: `needle` occurs in `hay` starting at index `i`. */
  ghost predicate OccursAt(needle: string, hay: string, i: nat) {
    i + |needle| <= |hay| && hay[i..i + |needle|] == needle
  }

  /** The characters `needle[k..]` appear in `hay` from index `i + k` on. */
  predicate MatchesAt(needle: string, hay: string, i: nat, k: nat)
    decreases |needle| - k
  {
    k >= |needle| || (i + k < |hay| && hay[i + k] == needle[k] && MatchesAt(needle, hay, i, k + 1))
  }

  /** `needle` occurs in `hay` at some index `i` or later. */
  predicate ContainsFrom(needle: string, hay: string, i: nat)
    decreases |hay| - i
  {
    if i + |needle| > |hay| then false
    else if MatchesAt(needle, hay, i, 0) then true
    else ContainsFrom(needle, hay, i + 1)
  }

  /**
   * Python's `needle in hay` for two strings: true exactly when `needle`
   * occurs at some index of `hay`, so the empty needle is in every string.
   */
  predicate Contains(needle: string, hay: string)
    ensures Contains(needle, hay) <==> exists j: nat :: OccursAt(needle, hay, j)
  {
    ContainsFromIff(needle, hay, 0);
    ContainsFrom(needle, hay, 0)
  }

  lemma {:induction false} MatchesAtIff(needle: string, hay: string, i: nat, k: nat)
    requires i + |needle| <= |hay| && k <= |needle|
    ensures MatchesAt(needle, hay, i, k) <==> hay[i + k..i + |needle|] == needle[k..]
    decreases |needle| - k
  {
    if k < |needle| {
      MatchesAtIff(needle, hay, i, k + 1);
      var h, n := hay[i + k..i + |needle|], needle[k..];
      assert h == [h[0]] + hay[i + k + 1..i + |needle|];
      assert n == [n[0]] + needle[k + 1..];
    }
  }

  lemma {:induction false} ContainsFromIff(needle: string, hay: string, i: nat)
    ensures ContainsFrom(needle, hay, i) <==> exists j: nat :: i <= j && OccursAt(needle, hay, j)
    decreases |hay| - i
  {
    if i + |needle| > |hay| {
      assert forall j: nat :: i <= j ==> !OccursAt(needle, hay, j);
    } else {
      MatchesAtIff(needle, hay, i, 0);
      ContainsFromIff(needle, hay, i + 1);
      if MatchesAt(needle, hay, i, 0) {
        assert OccursAt(needle, hay, i);
      }
      if exists j: nat :: i <= j && OccursAt(needle, hay, j) {
        var j: nat :| i <= j && OccursAt(needle, hay, j);
        if j == i {
          assert MatchesAt(needle, hay, i, 0);
        } else {
          assert i + 1 <= j;
        }
      }
    }
  }

  /** A string is found inside any string that embeds it. */
  lemma ContainsConcat(a: string, needle: string, b: string)
    ensures Contains(needle, a + needle + b)
  {
    var hay := a + needle + b;
    assert hay[|a|..|a| + |needle|] == needle;
    assert OccursAt(needle, hay, |a|);
  }

  /** An occurrence survives lowering both sides: "LOGIN" in a text puts "login" in the lowered text. */
  lemma ContainsLowered(needle: string, hay: string)
    requires Contains(needle, hay)
    ensures Contains(ToLower(needle), ToLower(hay))
  {
    var j: nat :| OccursAt(needle, hay, j);
    var lh, ln := ToLower(hay), ToLower(needle);
    assert lh[j..j + |needle|] == ln by {
      forall k | 0 <= k < |needle|
        ensures lh[j..j + |needle|][k] == ln[k]
      {
        assert hay[j..j + |needle|][k] == needle[k];
      }
    }
    assert OccursAt(ln, lh, j);
  }

  /** Every character, and every adjacent pair of characters, of a contained string occurs in the container. */
  lemma ContainedPiecesOccur(needle: string, hay: string)
    requires Contains(needle, hay)
    ensures forall k :: 0 <= k < |needle| ==> needle[k] in hay
    ensures forall k :: 0 <= k < |needle| - 1 ==>
      exists i :: 0 <= i < |hay| - 1 && hay[i] == needle[k] && hay[i + 1] == needle[k + 1]
  {
    var j: nat :| OccursAt(needle, hay, j);
    forall k | 0 <= k < |needle|
      ensures hay[j + k] == needle[k]
    {
      assert hay[j..j + |needle|][k] == needle[k];
    }
    forall k | 0 <= k < |needle| - 1
      ensures exists i :: 0 <= i < |hay| - 1 && hay[i] == needle[k] && hay[i + 1] == needle[k + 1]
    {
      assert hay[j + k] == needle[k] && hay[j + k + 1] == needle[k + 1];
    }
  }

  /** A string with a character the container lacks is not contained in it. */
  lemma AbsentCharExcludes(needle: string, hay: string, c: char)
    requires c in needle && c !in hay
    ensures !Contains(needle, hay)
  {
    if Contains(needle, hay) {
      ContainedPiecesOccur(needle, hay);
    }
  }

  /** A string whose characters `k`, `k + 1` never appear side by side in the container is not contained in it. */
  lemma AbsentPairExcludes(needle: string, hay: string, k: nat)
    requires k + 1 < |needle|
    requires forall i :: 0 <= i < |hay| - 1 ==> !(hay[i] == needle[k] && hay[i + 1] == needle[k + 1])
    ensures !Contains(needle, hay)
  {
    if Contains(needle, hay) {
      ContainedPiecesOccur(needle, hay);
    }
  }
}
