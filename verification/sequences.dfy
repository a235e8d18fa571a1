/** Facts about sequences without repeated elements, shared by the two listings. */
module Sequences {

  predicate Distinct<T(==)>(s: seq<T>) {
    forall i, j :: 0 <= i < j < |s| ==> s[i] != s[j]
  }

  /** A value at two positions of a sequence occurs at least twice in it. */
  lemma {:induction false} TwiceInSeq<T>(s: seq<T>, i: int, j: int)
    requires 0 <= i < j < |s| && s[i] == s[j]
    ensures multiset(s)[s[i]] >= 2
  {
    assert s == s[..j] + s[j..];
    assert s[i] in s[..j];
    assert s[j] in s[j..];
  }

  /** In a sequence without repetition every element occurs once. */
  lemma {:induction false} OnceInSeq<T>(s: seq<T>, k: int)
    requires 0 <= k < |s| && Distinct(s)
    ensures multiset(s)[s[k]] == 1
    decreases |s|
  {
    assert s == [s[0]] + s[1..];
    if k == 0 {
      assert s[0] !in s[1..];
    } else {
      OnceInSeq(s[1..], k - 1);
      assert s[k] != s[0];
    }
  }

  /** Whatever is drawn without repetition from a sequence without repetition has none either. */
  lemma {:induction false} SubMultisetDistinct<T>(s: seq<T>, r: seq<T>)
    requires Distinct(s) && multiset(r) <= multiset(s)
    ensures Distinct(r)
  {
    forall i, j | 0 <= i < j < |r|
      ensures r[i] != r[j]
    {
      if r[i] == r[j] {
        TwiceInSeq(r, i, j);
        assert r[i] in multiset(s);
        var k :| 0 <= k < |s| && s[k] == r[i];
        OnceInSeq(s, k);
        assert false;
      }
    }
  }
}
