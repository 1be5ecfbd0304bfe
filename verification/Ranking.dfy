/** Orders of indices: the stable descending sort of gains, with ineligible entries at the end. */
module Ranking {

  /** A gain, or minus infinity where the entry is not eligible. */
  datatype Rank = Rank(eligible: bool, gain: real)

  /** `a` comes strictly before `b`. */
  predicate Above(a: Rank, b: Rank) { if a.eligible != b.eligible then a.eligible else a.eligible && a.gain > b.gain }

  predicate IsOrder(order: seq<nat>, n: nat) {
    (forall k :: 0 <= k < |order| ==> order[k] < n) && forall j, k :: 0 <= j < k < |order| ==> order[j] != order[k]
  }

  /** Inserts index `i`, larger than all in the order, behind the last entry that is not below it. */
  function Place(ranks: seq<Rank>, order: seq<nat>, i: nat): (r: seq<nat>)
    requires i < |ranks| && forall k :: 0 <= k < |order| ==> order[k] < i
    ensures |r| == |order| + 1 && forall k :: 0 <= k < |r| ==> r[k] <= i
    ensures forall x :: x in r <==> x == i || x in order
  {
    if order == [] then [i]
    else
      var front, last := order[..|order| - 1], order[|order| - 1];
      assert order == front + [last];
      if Above(ranks[i], ranks[last]) then Place(ranks, front, i) + [last] else order + [i]
  }

  /** `argsort(-gain, kind="stable")` of the first `n` entries. */
  function Sorted(ranks: seq<Rank>, n: nat): (order: seq<nat>)
    requires n <= |ranks|
    ensures |order| == n && forall k :: 0 <= k < |order| ==> order[k] < n
    ensures forall x :: x in order <==> 0 <= x < n
  {
    if n == 0 then [] else Place(ranks, Sorted(ranks, n - 1), n - 1)
  }

  ghost predicate Descending(ranks: seq<Rank>, order: seq<nat>) {
    (forall k :: 0 <= k < |order| ==> order[k] < |ranks|) &&
    forall j, k :: 0 <= j < k < |order| ==> Before(ranks, order[j], order[k])
  }

  /** A higher gain comes first; of equal gains, the smaller index. */
  predicate Before(ranks: seq<Rank>, x: nat, y: nat)
    requires x < |ranks| && y < |ranks|
  {
    !Above(ranks[y], ranks[x]) && (Above(ranks[x], ranks[y]) || x < y)
  }

  lemma AboveOrder(a: Rank, b: Rank, c: Rank)
    ensures Above(a, b) ==> !Above(b, a)
    ensures !Above(a, b) && !Above(b, c) ==> !Above(a, c)
  {}

  lemma {:induction false} PlaceKeeps(ranks: seq<Rank>, order: seq<nat>, i: nat)
    requires i < |ranks| && (forall k :: 0 <= k < |order| ==> order[k] < i)
    requires IsOrder(order, i) && Descending(ranks, order)
    ensures IsOrder(Place(ranks, order, i), i + 1) && Descending(ranks, Place(ranks, order, i))
  {
    hide Above;
    if order != [] {
      var front, last := order[..|order| - 1], order[|order| - 1];
      AboveOrder(ranks[i], ranks[last], ranks[i]);
      if Above(ranks[i], ranks[last]) {
        PlaceKeeps(ranks, front, i);
        LastIsBelow(ranks, order);
        Extend(ranks, Place(ranks, front, i), last, i + 1);
      } else {
        forall j | 0 <= j < |order|
          ensures Before(ranks, order[j], i)
        {
          AboveOrder(ranks[i], ranks[last], ranks[order[j]]);
        }
        Extend(ranks, order, i, i + 1);
      }
    }
  }

  lemma LastIsBelow(ranks: seq<Rank>, order: seq<nat>)
    requires order != [] && IsOrder(order, |ranks|) && Descending(ranks, order)
    ensures
      var front, last := order[..|order| - 1], order[|order| - 1];
      forall x :: x in front ==> x != last && Before(ranks, x, last)
  {
    hide Above;
    var front, last := order[..|order| - 1], order[|order| - 1];
    forall x | x in front
      ensures x != last && Before(ranks, x, last)
    {
      var k :| 0 <= k < |front| && front[k] == x;
      assert order[k] == x;
    }
  }

  lemma Extend(ranks: seq<Rank>, order: seq<nat>, last: nat, n: nat)
    requires last < n <= |ranks| && IsOrder(order, n) && Descending(ranks, order)
    requires forall x :: x in order ==> x != last && Before(ranks, x, last)
    ensures IsOrder(order + [last], n) && Descending(ranks, order + [last])
  {
    hide Above;
    assert forall k :: 0 <= k < |order| ==> order[k] in order;
  }

  lemma {:induction false} SortedIsOrder(ranks: seq<Rank>, n: nat)
    requires n <= |ranks|
    ensures IsOrder(Sorted(ranks, n), n) && Descending(ranks, Sorted(ranks, n))
  {
    hide Place, Above, Descending, IsOrder;
    if n == 0 {
      NothingIsOrdered(ranks);
    } else {
      SortedIsOrder(ranks, n - 1);
      PlaceKeeps(ranks, Sorted(ranks, n - 1), n - 1);
    }
  }

  lemma NothingIsOrdered(ranks: seq<Rank>)
    ensures IsOrder([], 0) && Descending(ranks, [])
  {}

  /** Number of eligible entries in an order. */
  function EligibleCount(ranks: seq<Rank>, order: seq<nat>): (n: nat)
    requires forall k :: 0 <= k < |order| ==> order[k] < |ranks|
    ensures n <= |order|
  {
    if order == [] then 0
    else EligibleCount(ranks, order[..|order| - 1]) + if ranks[order[|order| - 1]].eligible then 1 else 0
  }

  /** In a descending order the eligible entries come first. */
  lemma {:induction false} EligibleFirst(ranks: seq<Rank>, order: seq<nat>, k: nat)
    requires Descending(ranks, order) && k < |order|
    ensures ranks[order[k]].eligible <==> k < EligibleCount(ranks, order)
  {
    var front, last := order[..|order| - 1], |order| - 1;
    if k < last {
      EligibleFirst(ranks, front, k);
      if ranks[order[last]].eligible {
        assert Before(ranks, order[k], order[last]);
      }
    } else if last > 0 {
      EligibleFirst(ranks, front, last - 1);
      assert Before(ranks, order[last - 1], order[last]);
    }
  }

  /** All indices, in descending order. */
  ghost predicate IsRanking(ranks: seq<Rank>, order: seq<nat>) {
    IsOrder(order, |ranks|) && Descending(ranks, order) && forall x :: x in order <==> 0 <= x < |ranks|
  }

  lemma SortedIsRanking(ranks: seq<Rank>)
    ensures IsRanking(ranks, Sorted(ranks, |ranks|)) && IsOrder(Sorted(ranks, |ranks|), |ranks|)
    ensures Descending(ranks, Sorted(ranks, |ranks|))
  {
    hide Descending, IsOrder;
    SortedIsOrder(ranks, |ranks|);
  }

  /** No index comes twice. */
  lemma NotYet(order: seq<nat>, bound: nat, n: nat)
    requires IsOrder(order, bound) && n < |order|
    ensures order[n] < bound && order[n] !in order[..n] && order[..n + 1] == order[..n] + [order[n]]
  {}

  /** There is one such order. */
  lemma {:induction false} RankingUnique(ranks: seq<Rank>, x: seq<nat>, y: seq<nat>)
    requires Descending(ranks, x) && Descending(ranks, y) && forall v :: v in x <==> v in y
    ensures x == y
    decreases |x|
  {
    hide Above;
    SameEmptiness(x, y);
    if x != [] {
      var m, n := |x| - 1, |y| - 1;
      var p, q := x[m], y[n];
      LastIsElsewhere(ranks, x);
      LastIsElsewhere(ranks, y);
      assert p in x && q in y;
      NotBoth(ranks, p, q);
      assert p == q;
      forall v
        ensures v in x[..m] <==> v in y[..n]
      {
        assert v in x <==> v in y;
      }
      RankingUnique(ranks, x[..m], y[..n]);
    }
  }

  lemma SameEmptiness(x: seq<nat>, y: seq<nat>)
    requires forall v :: v in x <==> v in y
    ensures x == [] <==> y == []
  {
    assert x != [] ==> x[0] in x && x[0] in y;
    assert y != [] ==> y[0] in y && y[0] in x;
  }

  lemma NotBoth(ranks: seq<Rank>, x: nat, y: nat)
    requires x < |ranks| && y < |ranks|
    ensures !(Before(ranks, x, y) && Before(ranks, y, x))
  {}

  lemma LastIsElsewhere(ranks: seq<Rank>, order: seq<nat>)
    requires Descending(ranks, order) && order != []
    ensures order[|order| - 1] !in order[..|order| - 1]
    ensures forall v :: v in order <==> v in order[..|order| - 1] || v == order[|order| - 1]
    ensures forall v :: v in order && v != order[|order| - 1] ==> Before(ranks, v, order[|order| - 1])
  {
    hide Above;
    assert order == order[..|order| - 1] + [order[|order| - 1]];
  }
}
