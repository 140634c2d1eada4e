/** internal/utils/slices.go: order-preserving removal of duplicates. */
module Slices {

  ghost predicate Distinct<T(!new)>(s: seq<T>) {
    forall i, j :: 0 <= i < j < |s| ==> s[i] != s[j]
  }

  /** Specification: keep an element when it does not occur before. */
  function Dedupe<T(==, !new)>(items: seq<T>): (r: seq<T>)
    ensures forall x :: x in r <==> x in items
    ensures |r| <= |items|
  {
    if items == [] then []
    else
      var front, last := items[..|items| - 1], items[|items| - 1];
      assert items == front + [last];
      if last in front then Dedupe(front) else Dedupe(front) + [last]
  }

  lemma {:induction false} DedupeDistinct<T(!new)>(items: seq<T>)
    ensures Distinct(Dedupe(items))
  {
    if items != [] {
      var front, last := items[..|items| - 1], items[|items| - 1];
      DedupeDistinct(front);
      assert last !in front ==> last !in Dedupe(front);
    }
  }

  /** The position at which `x` is first seen. */
  function FirstSeen<T(==)>(items: seq<T>, x: T): (i: nat)
    requires x in items
    ensures i < |items| && items[i] == x
    ensures forall j :: 0 <= j < i ==> items[j] != x
  {
    if items[0] == x then 0 else
      assert x in items[1..];
      1 + FirstSeen(items[1..], x)
  }

  lemma FirstSeenIs<T>(items: seq<T>, x: T, i: nat)
    requires i < |items| && items[i] == x
    requires forall j :: 0 <= j < i ==> items[j] != x
    ensures FirstSeen(items, x) == i
  {
  }

  /** Elements come out in the order in which they are first seen. */
  lemma {:induction false} DedupeKeepsFirstSeenOrder<T(!new)>(items: seq<T>, i: nat, j: nat)
    requires i < j < |Dedupe(items)|
    ensures FirstSeen(items, Dedupe(items)[i]) < FirstSeen(items, Dedupe(items)[j])
  {
    var front, last := items[..|items| - 1], items[|items| - 1];
    var d := Dedupe(front);
    forall x | x in front ensures FirstSeen(items, x) == FirstSeen(front, x) {
      FirstSeenIs(items, x, FirstSeen(front, x));
    }
    if j < |d| {
      assert Dedupe(items)[i] == d[i] && Dedupe(items)[j] == d[j];
      DedupeKeepsFirstSeenOrder(front, i, j);
    } else {
      assert Dedupe(items)[j] == last && Dedupe(items)[i] == d[i];
      FirstSeenIs(items, last, |items| - 1);
    }
  }

  lemma {:induction false} DedupeOfDistinct<T(!new)>(items: seq<T>)
    requires Distinct(items)
    ensures Dedupe(items) == items
  {
    if items != [] {
      var front, last := items[..|items| - 1], items[|items| - 1];
      DedupeOfDistinct(front);
      assert items == front + [last];
    }
  }

  /** `kept` is `all` at these increasing positions, which are exactly those of the elements to keep. */
  ghost predicate Selects<T>(all: seq<T>, kept: seq<T>, positions: seq<nat>, keep: T -> bool) {
    && |positions| == |kept|
    && (forall k :: 0 <= k < |kept| ==> positions[k] < |all| && kept[k] == all[positions[k]])
    && (forall j, k :: 0 <= j < k < |positions| ==> positions[j] < positions[k])
    && (forall i :: 0 <= i < |all| ==> (i in positions <==> keep(all[i])))
  }

  /** One element more at the end of the list. */
  lemma SelectsOneMore<T>(front: seq<T>, last: T, kept: seq<T>, positions: seq<nat>, keep: T -> bool)
    requires Selects(front, kept, positions, keep)
    ensures keep(last) ==> Selects(front + [last], kept + [last], positions + [|front|], keep)
    ensures !keep(last) ==> Selects(front + [last], kept, positions, keep)
  {
    var all := front + [last];
    forall i | 0 <= i < |all| && i in positions ensures i < |front| {
      var k :| 0 <= k < |positions| && positions[k] == i;
    }
    if keep(last) {
      var more := positions + [|front|];
      forall i | 0 <= i < |all| ensures i in more <==> keep(all[i]) {
        assert i < |front| ==> (i in more <==> i in positions);
      }
    }
  }

  lemma SelectsNext<T>(front: seq<T>, last: T, kept: seq<T>, positions: seq<nat>, keep: T -> bool)
      returns (more: seq<T>, at: seq<nat>)
    requires Selects(front, kept, positions, keep)
    ensures Selects(front + [last], more, at, keep) && more == kept + if keep(last) then [last] else []
  {
    SelectsOneMore(front, last, kept, positions, keep);
    more, at := if keep(last) then kept + [last] else kept, if keep(last) then positions + [|front|] else positions;
  }

  lemma SelectsNothing<T>(keep: T -> bool)
    ensures Selects([], [], [], keep)
  {
  }

  method DedupePreserveOrder<T(==, !new)>(items: seq<T>) returns (out: seq<T>)
    ensures out == Dedupe(items)
  {
    var seen: set<T> := {};
    out := [];
    for i := 0 to |items|
      invariant seen == set x | x in items[..i]
      invariant out == Dedupe(items[..i])
    {
      assert items[..i + 1] == items[..i] + [items[i]];
      assert items[..i + 1][..i] == items[..i];
      if items[i] !in seen {
        seen := seen + {items[i]};
        out := out + [items[i]];
      }
    }
    assert items[..|items|] == items;
  }
}
