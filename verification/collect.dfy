// Loops that walk a slice and append at most one result per element.

module Collecting {
  import opened Wrappers

  /** The results of f, in order, for the elements it does not skip. */
  function Collect<T, U>(s: seq<T>, f: T -> Option<U>): seq<U> {
    if s == [] then []
    else
      var last := s[|s| - 1];
      Collect(s[..|s| - 1], f) + match f(last) case Some(u) => [u] case None => []
  }

  /** One more turn of such a loop. */
  lemma CollectStep<T, U>(s: seq<T>, i: nat, f: T -> Option<U>)
    requires i < |s|
    ensures Collect(s[..i + 1], f) == Collect(s[..i], f) + match f(s[i]) case Some(u) => [u] case None => []
  {
    assert s[..i + 1][..i] == s[..i];
  }

  lemma {:induction false} InCollect<T, U>(s: seq<T>, f: T -> Option<U>, u: U)
    ensures u in Collect(s, f) <==> exists x | x in s :: f(x) == Some(u)
  {
    if s != [] {
      var init, last := s[..|s| - 1], s[|s| - 1];
      InCollect(init, f, u);
      assert s == init + [last];
      assert forall x | x in init :: x in s;
    }
  }

  /** No two elements have the same key. */
  ghost predicate DistinctBy<T, K>(s: seq<T>, key: T -> K) {
    forall i, j | 0 <= i < j < |s| :: key(s[i]) != key(s[j])
  }

  /** Results carry their element's key, so distinct keys stay distinct. */
  lemma {:induction false} CollectDistinct<T, U, K>(s: seq<T>, f: T -> Option<U>, key: U -> K, source: T -> K)
    requires forall x | x in s && f(x).Some? :: key(f(x).value) == source(x)
    requires DistinctBy(s, source)
    ensures DistinctBy(Collect(s, f), key)
  {
    if s != [] {
      var init, last := s[..|s| - 1], s[|s| - 1];
      CollectDistinct(init, f, key, source);
      if f(last).Some? {
        var c := Collect(init, f);
        assert Collect(s, f) == c + [f(last).value];
        forall k | 0 <= k < |c| ensures key(c[k]) != key(f(last).value) {
          InCollect(init, f, c[k]);
          var x :| x in init && f(x) == Some(c[k]);
          var i :| 0 <= i < |init| && init[i] == x;
          assert source(s[i]) != source(s[|s| - 1]);
        }
      }
    }
  }
}
