/**
 * Substring search over character sequences: the `strstr` the C code uses for all its
 * descriptor surgery, and the facts about matches in concatenations that the proofs need.
 */
module Text {
  import opened Wrappers

  /** `pat` occurs in `s` starting at index `i`. */
  predicate MatchAt(s: string, pat: string, i: int) {
    0 <= i && i + |pat| <= |s| && s[i..i + |pat|] == pat
  }

  /** `pat` occurs somewhere in `s` (so `strstr(s, pat)` is not NULL). */
  predicate Occurs(pat: string, s: string) {
    exists i :: 0 <= i <= |s| && MatchAt(s, pat, i)
  }

  /** `strstr(s, pat)`: the index of the leftmost occurrence of `pat` in `s`, if any. */
  function Find(s: string, pat: string): (r: Option<nat>)
    ensures r.Some? ==> MatchAt(s, pat, r.value)
    ensures r.Some? ==> forall j :: 0 <= j < r.value ==> !MatchAt(s, pat, j)
    ensures r.None? <==> !Occurs(pat, s)
  {
    FindFrom(s, pat, 0)
  }

  /** The leftmost occurrence of `pat` at or after `k`, knowing there is none before `k`. */
  function FindFrom(s: string, pat: string, k: nat): (r: Option<nat>)
    requires forall j :: 0 <= j < k ==> !MatchAt(s, pat, j)
    ensures r.Some? ==> k <= r.value && MatchAt(s, pat, r.value)
    ensures r.Some? ==> forall j :: 0 <= j < r.value ==> !MatchAt(s, pat, j)
    ensures r.None? ==> forall j :: !MatchAt(s, pat, j)
    decreases |s| - k
  {
    if k + |pat| > |s| then None
    else if s[k..k + |pat|] == pat then Some(k)
    else FindFrom(s, pat, k + 1)
  }

  /** A tag-like pattern: it starts with `<` and contains no other `<`, so it cannot overlap itself. */
  predicate Tag(pat: string) {
    |pat| >= 2 && pat[0] == '<' && forall k :: 1 <= k < |pat| ==> pat[k] != '<'
  }

  /** An occurrence in `b` is an occurrence in `a + b`, shifted by `|a|`, and conversely. */
  lemma MatchShift(a: string, b: string, pat: string, i: int)
    requires 0 <= i
    ensures MatchAt(b, pat, i) <==> MatchAt(a + b, pat, |a| + i)
  {
    if 0 <= i && i + |pat| <= |b| {
      assert (a + b)[|a| + i..|a| + i + |pat|] == b[i..i + |pat|];
    }
  }

  /** An occurrence that ends inside `a` is an occurrence in `a + b`, and conversely. */
  lemma MatchPrefix(a: string, b: string, pat: string, i: int)
    requires i + |pat| <= |a|
    ensures MatchAt(a, pat, i) <==> MatchAt(a + b, pat, i)
  {
    if 0 <= i {
      assert (a + b)[i..i + |pat|] == a[i..i + |pat|];
    }
  }

  /** Whatever occurs in the middle piece occurs in the whole. */
  lemma OccursInMiddle(a: string, b: string, c: string, pat: string)
    requires Occurs(pat, b)
    ensures Occurs(pat, a + b + c)
  {
    var i :| 0 <= i <= |b| && MatchAt(b, pat, i);
    MatchPrefix(b, c, pat, i);
    MatchShift(a, b + c, pat, i);
    assert a + b + c == a + (b + c);
  }

  /**
   * When `a` does not contain the tag and `b` starts with it, the leftmost occurrence in
   * `a + b` is the one at `|a|`: no occurrence can straddle the boundary because the tag's
   * only `<` is its first character.
   */
  lemma FindAtBoundary(a: string, b: string, pat: string)
    requires Tag(pat)
    requires !Occurs(pat, a)
    requires MatchAt(b, pat, 0)
    ensures Find(a + b, pat) == Some(|a|)
  {
    MatchShift(a, b, pat, 0);
    forall j | 0 <= j < |a|
      ensures !MatchAt(a + b, pat, j)
    {
      if j + |pat| <= |a| {
        MatchPrefix(a, b, pat, j);
      } else if j + |pat| <= |a + b| {
        // the boundary character would have to be a non-first character of the tag
        var k := |a| - j;
        assert (a + b)[j..j + |pat|][k] == (a + b)[|a|] == b[0] == '<';
        assert pat[k] != '<';
      }
    }
  }

  /**
   * An opening tag followed by text free of the closing tag is still free of it, provided the
   * two tags differ in their second character (`<name>` against `</name>`).
   */
  lemma NoCloseAfterOpen(open: string, close: string, d: string)
    requires Tag(open) && Tag(close) && open[1] != close[1]
    requires !Occurs(close, d)
    ensures !Occurs(close, open + d)
  {
    forall j | 0 <= j <= |open + d|
      ensures !MatchAt(open + d, close, j)
    {
      if j >= |open| {
        MatchShift(open, d, close, j - |open|);
      } else if j + |close| <= |open + d| {
        if j == 0 {
          assert (open + d)[0..|close|][1] == open[1] != close[1];
        } else {
          assert (open + d)[j..j + |close|][0] == open[j] != '<';
        }
      }
    }
  }
}
