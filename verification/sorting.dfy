// sort.SliceStable under the orders the panel uses, and why the result does not
// depend on the order in which Go enumerates a map.

module Sorting {
  import opened Text
  import opened Collecting

  /** Ports first, then names, then identifiers; unused components are 0 or "". */
  datatype Key = Key(rank: int, name: string, id: string)

  predicate Before(a: Key, b: Key) {
    a.rank < b.rank || (a.rank == b.rank && (Less(a.name, b.name) || (a.name == b.name && Less(a.id, b.id))))
  }

  lemma BeforeTotal(a: Key, b: Key)
    ensures Before(a, b) || Before(b, a) || a == b
    ensures !(Before(a, b) && Before(b, a))
    ensures !Before(a, a)
  {
    LessTotal(a.name, b.name);
    LessTotal(a.id, b.id);
  }

  lemma BeforeTransitive(a: Key, b: Key, c: Key)
    requires Before(a, b) && Before(b, c)
    ensures Before(a, c)
  {
    if a.rank == b.rank == c.rank {
      LessTotal(a.name, b.name);
      if Less(a.name, b.name) && Less(b.name, c.name) {
        LessTransitive(a.name, b.name, c.name);
      }
      if a.name == b.name == c.name {
        LessTransitive(a.id, b.id, c.id);
      }
    }
  }

  /** Every element comes strictly before the later ones. */
  ghost predicate Ascending<T>(s: seq<T>, key: T -> Key) {
    forall i, j | 0 <= i < j < |s| :: Before(key(s[i]), key(s[j]))
  }

  /** Insert after all elements that x does not come before. */
  function Insert<T>(s: seq<T>, x: T, key: T -> Key): seq<T> {
    if s != [] && Before(key(x), key(s[|s| - 1])) then Insert(s[..|s| - 1], x, key) + [s[|s| - 1]] else s + [x]
  }

  /** sort.SliceStable, as an insertion sort. */
  function StableSort<T>(s: seq<T>, key: T -> Key): seq<T> {
    if s == [] then [] else Insert(StableSort(s[..|s| - 1], key), s[|s| - 1], key)
  }

  lemma {:induction false} InInsert<T>(s: seq<T>, x: T, key: T -> Key, y: T)
    ensures y in Insert(s, x, key) <==> y in s || y == x
  {
    if s != [] && Before(key(x), key(s[|s| - 1])) {
      InInsert(s[..|s| - 1], x, key, y);
      assert s == s[..|s| - 1] + [s[|s| - 1]];
    }
  }

  /** Sorting neither loses nor invents an element. */
  lemma {:induction false} InSorted<T>(s: seq<T>, key: T -> Key, y: T)
    ensures y in StableSort(s, key) <==> y in s
  {
    if s != [] {
      InSorted(s[..|s| - 1], key, y);
      InInsert(StableSort(s[..|s| - 1], key), s[|s| - 1], key, y);
      assert s == s[..|s| - 1] + [s[|s| - 1]];
    }
  }

  lemma {:induction false} InsertAscends<T>(s: seq<T>, x: T, key: T -> Key)
    requires Ascending(s, key) && forall y | y in s :: key(y) != key(x)
    ensures Ascending(Insert(s, x, key), key)
  {
    if s != [] {
      var init, last := s[..|s| - 1], s[|s| - 1];
      if Before(key(x), key(last)) {
        InsertAscends(init, x, key);
        var t := Insert(init, x, key);
        forall i | 0 <= i < |t| ensures Before(key(t[i]), key(last)) {
          InInsert(init, x, key, t[i]);
        }
      } else {
        BeforeTotal(key(x), key(last));
        assert last in s;
        forall i | 0 <= i < |s| ensures Before(key(s[i]), key(x)) {
          if i < |s| - 1 {
            BeforeTransitive(key(s[i]), key(last), key(x));
          }
        }
      }
    }
  }

  /** Without equal keys the result ascends. */
  lemma {:induction false} SortAscends<T>(s: seq<T>, key: T -> Key)
    requires DistinctBy(s, key)
    ensures Ascending(StableSort(s, key), key)
  {
    if s != [] {
      var init, x := s[..|s| - 1], s[|s| - 1];
      SortAscends(init, key);
      forall y | y in StableSort(init, key) ensures key(y) != key(x) {
        InSorted(init, key, y);
        var i :| 0 <= i < |init| && init[i] == y;
        assert s[i] == y;
      }
      InsertAscends(StableSort(init, key), x, key);
    }
  }

  ghost predicate SameElements<T>(a: seq<T>, b: seq<T>) {
    (forall x | x in a :: x in b) && (forall x | x in b :: x in a)
  }

  lemma FirstIsLeast<T>(a: seq<T>, key: T -> Key, x: T)
    requires Ascending(a, key) && x in a
    ensures x == a[0] || Before(key(a[0]), key(x))
  {
  }

  lemma DropFirst<T>(a: seq<T>, key: T -> Key)
    requires Ascending(a, key) && a != []
    ensures Ascending(a[1..], key) && a[0] !in a[1..]
    ensures forall x | x in a && x != a[0] :: x in a[1..]
  {
    forall x | x in a[1..] ensures x != a[0] {
      BeforeTotal(key(a[0]), key(x));
    }
    forall x | x in a && x != a[0] ensures x in a[1..] {
      var i :| 0 <= i < |a| && a[i] == x;
      assert a[1..][i - 1] == x;
    }
  }

  lemma NonEmptyToo<T>(a: seq<T>, b: seq<T>)
    requires forall x | x in a :: x in b
    ensures a != [] ==> b != []
  {
    if a != [] {
      assert a[0] in b;
    }
  }

  /** There is one ascending arrangement of given elements. */
  lemma {:induction false} AscendingUnique<T>(a: seq<T>, b: seq<T>, key: T -> Key)
    requires Ascending(a, key) && Ascending(b, key) && SameElements(a, b)
    ensures a == b
    decreases |a|
  {
    NonEmptyToo(a, b);
    NonEmptyToo(b, a);
    if a != [] {
      assert a[0] in b && b[0] in a;
      FirstIsLeast(a, key, b[0]);
      FirstIsLeast(b, key, a[0]);
      BeforeTotal(key(a[0]), key(b[0]));
      DropFirst(a, key);
      DropFirst(b, key);
      AscendingUnique(a[1..], b[1..], key);
      assert a == [a[0]] + a[1..] && b == [b[0]] + b[1..];
    }
  }

  /** Some enumeration of a set, each element once: what collecting a Go map yields. */
  ghost predicate Enumerates<T>(s: seq<T>, all: set<T>) {
    && (forall x | x in s :: x in all) && (forall x | x in all :: x in s)
    && (forall i, j | 0 <= i < j < |s| :: s[i] != s[j])
  }

  ghost function Listing<T>(all: set<T>): (s: seq<T>)
    ensures Enumerates(s, all)
  {
    if all == {} then [] else
      var x :| x in all;
      [x] + Listing(all - {x})
  }

  /** No two elements share a key. */
  ghost predicate Keyed<T>(all: set<T>, key: T -> Key) {
    forall x, y | x in all && y in all && key(x) == key(y) :: x == y
  }

  lemma SortedEnumeration<T>(a: seq<T>, all: set<T>, key: T -> Key)
    requires Enumerates(a, all) && Keyed(all, key)
    ensures Ascending(StableSort(a, key), key)
    ensures forall x | x in StableSort(a, key) :: x in all
    ensures forall x | x in all :: x in StableSort(a, key)
  {
    forall i, j | 0 <= i < j < |a| ensures key(a[i]) != key(a[j]) {
      assert a[i] in a && a[j] in a;
    }
    SortAscends(a, key);
    forall x | x in StableSort(a, key) ensures x in all {
      InSorted(a, key, x);
    }
    forall x | x in all ensures x in StableSort(a, key) {
      InSorted(a, key, x);
    }
  }

  /** Whatever order the map was enumerated in, sorting gives the same slice. */
  lemma SortForgetsOrder<T>(a: seq<T>, b: seq<T>, all: set<T>, key: T -> Key)
    requires Enumerates(a, all) && Enumerates(b, all) && Keyed(all, key)
    ensures StableSort(a, key) == StableSort(b, key)
  {
    SortedEnumeration(a, all, key);
    SortedEnumeration(b, all, key);
    AscendingUnique(StableSort(a, key), StableSort(b, key), key);
  }
}
