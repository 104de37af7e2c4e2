/** Substring containment on strings: the meaning of Python's `needle in hay`
    when both operands are `str`. */
module Substring {

  /** `needle` sits in `hay` starting at offset `k`. */
  ghost predicate OccursAt(hay: string, needle: string, k: int) {
    0 <= k && k + |needle| <= |hay| && hay[k..k + |needle|] == needle
  }

  /** Compares `needle[j..]` with `hay` from offset `i + j`, one character at a time. */
  function MatchesAt(hay: string, needle: string, i: nat, j: nat): bool
    requires i + |needle| <= |hay|
    requires j <= |needle|
    decreases |needle| - j
  {
    j == |needle| || (hay[i + j] == needle[j] && MatchesAt(hay, needle, i, j + 1))
  }

  /** Naive left-to-right search for `needle` at offsets `i`, `i + 1`, ... */
  function Search(hay: string, needle: string, i: nat): bool
    decreases |hay| - i
  {
    if i + |needle| > |hay| then false
    else MatchesAt(hay, needle, i, 0) || Search(hay, needle, i + 1)
  }

  /** The character comparison succeeds exactly when the rest of `needle`
      equals the stretch of `hay` it is laid against. */
  lemma {:induction false} MatchesAtCorrect(hay: string, needle: string, i: nat, j: nat)
    requires i + |needle| <= |hay|
    requires j <= |needle|
    ensures MatchesAt(hay, needle, i, j) <==> hay[i + j..i + |needle|] == needle[j..]
    decreases |needle| - j
  {
    if j < |needle| {
      MatchesAtCorrect(hay, needle, i, j + 1);
      assert hay[i + j..i + |needle|] == [hay[i + j]] + hay[i + j + 1..i + |needle|];
      assert needle[j..] == [needle[j]] + needle[j + 1..];
    }
  }

  /** The search from offset `i` succeeds exactly when `needle` occurs at
      some offset `i` or later. */
  lemma {:induction false} SearchCorrect(hay: string, needle: string, i: nat)
    ensures Search(hay, needle, i) <==> exists k :: i <= k && OccursAt(hay, needle, k)
    decreases |hay| - i
  {
    if i + |needle| <= |hay| {
      MatchesAtCorrect(hay, needle, i, 0);
      SearchCorrect(hay, needle, i + 1);
      if MatchesAt(hay, needle, i, 0) {
        assert OccursAt(hay, needle, i);
      }
      if exists k :: i <= k && OccursAt(hay, needle, k) {
        var k :| i <= k && OccursAt(hay, needle, k);
        if k == i {
          assert MatchesAt(hay, needle, i, 0);
        } else {
          assert i + 1 <= k;
        }
      }
    }
  }

  /** Python's `needle in hay`: some offset of `hay` starts a copy of `needle`. */
  predicate Contains(hay: string, needle: string)
  {
    Search(hay, needle, 0)
  }

  /** `Contains` agrees with the declarative definition of a substring. */
  lemma ContainsIff(hay: string, needle: string)
    ensures Contains(hay, needle) <==> exists k :: OccursAt(hay, needle, k)
  {
    SearchCorrect(hay, needle, 0);
  }

  /** The empty string holds no substring but itself. */
  lemma {:induction false} NothingInEmpty(needle: string)
    ensures Contains("", needle) <==> needle == ""
  {
    ContainsIff("", needle);
    if needle == "" {
      assert OccursAt("", needle, 0);
    }
  }

  /** Text added on either side of `hay` cannot remove an occurrence. */
  lemma {:induction false} ContainsInContext(pre: string, hay: string, post: string, needle: string)
    requires Contains(hay, needle)
    ensures Contains(pre + hay + post, needle)
  {
    ContainsIff(hay, needle);
    var k :| 0 <= k && OccursAt(hay, needle, k);
    var big := pre + hay + post;
    assert big[|pre| + k..|pre| + k + |needle|] == hay[k..k + |needle|];
    assert OccursAt(big, needle, |pre| + k);
    ContainsIff(big, needle);
  }

  /** A substring of a substring is a substring. */
  lemma {:induction false} ContainsTransitive(a: string, b: string, c: string)
    requires Contains(a, b) && Contains(b, c)
    ensures Contains(a, c)
  {
    ContainsIff(a, b);
    ContainsIff(b, c);
    var i :| 0 <= i && OccursAt(a, b, i);
    var j :| 0 <= j && OccursAt(b, c, j);
    forall t | 0 <= t < |c|
      ensures a[i + j + t] == c[t]
    {
      assert a[i..i + |b|][j + t] == b[j + t];
      assert b[j..j + |c|][t] == c[t];
    }
    assert a[i + j..i + j + |c|] == c;
    assert OccursAt(a, c, i + j);
    ContainsIff(a, c);
  }

  /** A needle with a character the haystack lacks does not occur in it. */
  lemma MissingChar(hay: string, needle: string, c: char)
    requires c in needle && c !in hay
    ensures !Contains(hay, needle)
  {
    ContainsIff(hay, needle);
  }

  /** An occurrence at a known offset witnesses containment. */
  lemma {:induction false} ContainsAt(hay: string, needle: string, k: nat)
    requires k + |needle| <= |hay| && hay[k..k + |needle|] == needle
    ensures Contains(hay, needle)
  {
    assert OccursAt(hay, needle, k);
    ContainsIff(hay, needle);
  }
}
