// Loops that keep one element of a slice, a later one taking its place when it beats it.

module Choosing {
  /** The element such a loop ends with. */
  function Chosen<T>(list: seq<T>, beats: (T, T) -> bool): (w: T)
    requires list != []
    ensures w in list
  {
    if |list| == 1 then list[0]
    else
      var kept, last := Chosen(list[..|list| - 1], beats), list[|list| - 1];
      if beats(last, kept) then last else kept
  }

  /** One more turn of the loop. */
  lemma ChosenStep<T>(list: seq<T>, i: nat, beats: (T, T) -> bool)
    requires 0 < i < |list|
    ensures var kept := Chosen(list[..i], beats);
      Chosen(list[..i + 1], beats) == if beats(list[i], kept) then list[i] else kept
  {
    assert list[..i + 1][..i] == list[..i];
  }

  lemma ChosenAppend<T>(list: seq<T>, x: T, beats: (T, T) -> bool)
    ensures Chosen(list + [x], beats) == if list == [] then x else if beats(x, Chosen(list, beats)) then x else Chosen(list, beats)
  {
    assert (list + [x])[..|list|] == list;
  }

  ghost predicate NoRepeats<T>(list: seq<T>) { forall i, j | 0 <= i < j < |list| :: list[i] != list[j] }

  lemma NoRepeatsAppend<T>(list: seq<T>, x: T)
    requires NoRepeats(list) && x !in list
    ensures NoRepeats(list + [x])
  {
  }

  /** It beats every other element, and none beats it. */
  ghost predicate Dominates<T(!new)>(w: T, list: seq<T>, beats: (T, T) -> bool) {
    w in list && forall x | x in list && x != w :: beats(w, x) && !beats(x, w)
  }

  lemma {:induction false} DominantIsChosen<T(!new)>(w: T, list: seq<T>, beats: (T, T) -> bool)
    requires Dominates(w, list, beats)
    ensures Chosen(list, beats) == w
  {
    if |list| > 1 {
      var init, last := list[..|list| - 1], list[|list| - 1];
      assert list == init + [last];
      if w in init {
        DominantIsChosen(w, init, beats);
      }
    }
  }

  /** Once lost, an element that does not come again stays lost. */
  lemma {:induction false} LostForGood<T(!new)>(w: T, head: seq<T>, rest: seq<T>, beats: (T, T) -> bool)
    requires head != [] && Chosen(head, beats) != w && w !in rest
    ensures Chosen(head + rest, beats) != w
  {
    if rest == [] {
      assert head + rest == head;
    } else {
      var init, last := rest[..|rest| - 1], rest[|rest| - 1];
      assert rest == init + [last] && last in rest;
      LostForGood(w, head, init, beats);
      assert (head + rest)[..|head + rest| - 1] == head + init;
    }
  }

  function Drop<T(==)>(list: seq<T>, x: T): seq<T> {
    if list == [] then [] else if list[0] == x then list[1..] else [list[0]] + Drop(list[1..], x)
  }

  lemma {:induction false} DropKeepsRest<T>(list: seq<T>, x: T)
    requires x in list
    ensures multiset([x]) + multiset(Drop(list, x)) == multiset(list)
  {
    assert list == [list[0]] + list[1..];
    if list[0] != x {
      DropKeepsRest(list[1..], x);
    }
  }

  lemma {:induction false} DropIsOthers<T>(list: seq<T>, x: T, y: T)
    requires NoRepeats(list)
    ensures y in Drop(list, x) <==> y in list && y != x
  {
    if list != [] {
      var tail := list[1..];
      assert list == [list[0]] + tail && NoRepeats(tail) && list[0] !in tail;
      if list[0] != x {
        DropIsOthers(tail, x, y);
      }
    }
  }

  lemma {:induction false} DropKeepsDistinct<T>(list: seq<T>, x: T)
    requires NoRepeats(list)
    ensures NoRepeats(Drop(list, x))
  {
    if list != [] && list[0] != x {
      var tail := list[1..];
      assert list == [list[0]] + tail && NoRepeats(tail) && list[0] !in tail;
      DropKeepsDistinct(tail, x);
      DropIsOthers(tail, x, list[0]);
    }
  }

  /** In every arrangement the loop ends with w. */
  ghost predicate AlwaysChosen<T(!new)>(w: T, list: seq<T>, beats: (T, T) -> bool) {
    forall other: seq<T> | other != [] && multiset(other) == multiset(list) :: Chosen(other, beats) == w
  }

  /** Two elements brought to the front, in either order. */
  lemma PairInFront<T>(list: seq<T>, w: T, x: T) returns (rest: seq<T>)
    requires NoRepeats(list) && w in list && x in list && x != w
    ensures multiset([w, x] + rest) == multiset(list) && multiset([x, w] + rest) == multiset(list)
    ensures w !in rest && x !in rest
  {
    var others := Drop(list, w);
    DropKeepsRest(list, w);
    DropKeepsDistinct(list, w);
    DropIsOthers(list, w, x);
    DropIsOthers(list, w, w);
    rest := Drop(others, x);
    DropKeepsRest(others, x);
    DropIsOthers(others, x, x);
    DropIsOthers(others, x, w);
  }

  lemma FirstOfTwo<T>(w: T, x: T, beats: (T, T) -> bool)
    ensures Chosen([w, x], beats) == if beats(x, w) then x else w
  {
    assert [w, x][..1] == [w];
  }

  lemma AlwaysChosenDominates<T(!new)>(w: T, list: seq<T>, beats: (T, T) -> bool, x: T)
    requires NoRepeats(list) && AlwaysChosen(w, list, beats) && w in list && x in list && x != w
    ensures beats(w, x) && !beats(x, w)
  {
    var rest := PairInFront(list, w, x);
    FirstOfTwo(w, x, beats);
    FirstOfTwo(x, w, beats);
    if beats(x, w) {
      LostForGood(w, [w, x], rest, beats);
    }
    if !beats(w, x) {
      LostForGood(w, [x, w], rest, beats);
    }
  }

  /**
   The order of distinct elements does not matter exactly when one of them beats all the others
   and is beaten by none; that one is then chosen.
   */
  lemma OrderIsForgottenExactly<T(!new)>(list: seq<T>, beats: (T, T) -> bool)
    requires list != [] && NoRepeats(list)
    ensures (exists w :: AlwaysChosen(w, list, beats)) <==> exists w :: Dominates(w, list, beats)
    ensures forall w | Dominates(w, list, beats) :: AlwaysChosen(w, list, beats)
  {
    forall w | Dominates(w, list, beats) ensures AlwaysChosen(w, list, beats) {
      forall other: seq<T> | other != [] && multiset(other) == multiset(list) ensures Chosen(other, beats) == w {
        assert forall x :: (x in other <==> x in multiset(other)) && (x in list <==> x in multiset(list));
        DominantIsChosen(w, other, beats);
      }
    }
    if w :| AlwaysChosen(w, list, beats) {
      assert Chosen(list, beats) == w;
      forall x | x in list && x != w ensures beats(w, x) && !beats(x, w) {
        AlwaysChosenDominates(w, list, beats, x);
      }
      assert Dominates(w, list, beats);
    }
  }
}
