/** Facts about sequences and their contents. */
module Seqs {

  /** A value that occurs twice occurs at two places, and conversely. */
  lemma {:induction false} TwoPlaces<T>(s: seq<T>, v: T)
    ensures multiset(s)[v] >= 1 <==> v in s
    ensures multiset(s)[v] >= 2 <==> exists i, j :: 0 <= i < j < |s| && s[i] == v && s[j] == v
  {
    if s == [] {
    } else {
      var init := s[..|s| - 1];
      assert s == init + [s[|s| - 1]];
      TwoPlaces(init, v);
      if i, j :| 0 <= i < j < |init| && init[i] == v && init[j] == v {
        assert s[i] == v && s[j] == v;
      }
      if s[|s| - 1] == v && v in init {
        var i :| 0 <= i < |init| && init[i] == v;
        assert s[i] == v && s[|s| - 1] == v;
      }
      if i, j :| 0 <= i < j < |s| && s[i] == v && s[j] == v {
        assert init[i] == v;
        if j < |init| { assert init[j] == v; }
      }
    }
  }

  /** Without repeats, the same members are the same contents. */
  lemma SameMembers<T(!new)>(a: seq<T>, b: seq<T>)
    requires forall i, j :: 0 <= i < j < |a| ==> a[i] != a[j]
    requires forall i, j :: 0 <= i < j < |b| ==> b[i] != b[j]
    requires forall x :: x in a <==> x in b
    ensures multiset(a) == multiset(b)
  {
    forall x ensures multiset(a)[x] == multiset(b)[x] {
      TwoPlaces(a, x);
      TwoPlaces(b, x);
    }
  }

  lemma MultisetMiddle<T>(x: seq<T>, v: seq<T>, y: seq<T>)
    ensures multiset(x + v + y) == multiset(x + y) + multiset(v)
  {
  }
}
