/** The order of the cars on the road: the stable descending sort of their total distances. */
module Ranking {

  /** Car a is ranked before car b: further ahead, or level with a smaller index. */
  predicate Before(totals: seq<real>, a: nat, b: nat)
    requires a < |totals| && b < |totals|
  {
    totals[a] > totals[b] || (totals[a] == totals[b] && a < b)
  }

  predicate InRange(order: seq<nat>, n: nat) {
    forall p :: 0 <= p < |order| ==> order[p] < n
  }

  /** `order` lists cars from first to last. */
  ghost predicate Ordered(totals: seq<real>, order: seq<nat>)
    requires InRange(order, |totals|)
  {
    forall p, q :: 0 <= p < q < |order| ==> Before(totals, order[p], order[q])
  }

  /** `order` is a full ranking: every car, once, in order. */
  ghost predicate IsRanking(totals: seq<real>, order: seq<nat>) {
    && |order| == |totals|
    && InRange(order, |totals|)
    && Ordered(totals, order)
    && (forall i :: 0 <= i < |totals| ==> i in order)
  }

  /** Puts a car with a larger index than all listed ones behind every car at least as far ahead. */
  function Insert(totals: seq<real>, order: seq<nat>, i: nat): (r: seq<nat>)
    requires InRange(order, |totals|) && i < |totals|
    ensures InRange(r, |totals|) && |r| == |order| + 1
    ensures forall x :: x in r <==> x in order || x == i
  {
    if order == [] || totals[order[|order| - 1]] >= totals[i] then order + [i]
    else
      var front, last := order[..|order| - 1], order[|order| - 1];
      assert order == front + [last];
      Insert(totals, front, i) + [last]
  }

  /** What `std::stable_sort` of 0..n-1 by descending total yields. */
  function StableOrder(totals: seq<real>, n: nat): (r: seq<nat>)
    requires n <= |totals|
    ensures InRange(r, n) && |r| == n
    ensures forall i :: 0 <= i < n ==> i in r
  {
    if n == 0 then [] else
      var r := Insert(totals, StableOrder(totals, n - 1), n - 1);
      assert forall p :: 0 <= p < |r| ==> r[p] in r;
      r
  }

  lemma {:induction false} InsertOrdered(totals: seq<real>, order: seq<nat>, i: nat)
    requires InRange(order, |totals|) && i < |totals| && Ordered(totals, order)
    requires forall p :: 0 <= p < |order| ==> order[p] < i
    ensures Ordered(totals, Insert(totals, order, i))
  {
    var r := Insert(totals, order, i);
    if order == [] || totals[order[|order| - 1]] >= totals[i] {
      forall p, q | 0 <= p < q < |r| ensures Before(totals, r[p], r[q]) {
        if q == |order| && p < |order| - 1 {
          assert Before(totals, order[p], order[|order| - 1]);
        }
      }
    } else {
      var n := |order| - 1;
      var front := order[..n];
      InsertOrdered(totals, front, i);
      var s := Insert(totals, front, i);
      forall p, q | 0 <= p < q < |r| ensures Before(totals, r[p], r[q]) {
        if q == n + 1 {
          assert r[p] == s[p] && s[p] in s;
          if s[p] in front {
            var k :| 0 <= k < n && front[k] == s[p];
            assert Before(totals, order[k], order[n]);
          }
        } else {
          assert r[p] == s[p] && r[q] == s[q];
        }
      }
    }
  }

  lemma {:induction false} StableOrderOrdered(totals: seq<real>, n: nat)
    requires n <= |totals|
    ensures Ordered(totals, StableOrder(totals, n))
  {
    if n > 0 {
      StableOrderOrdered(totals, n - 1);
      InsertOrdered(totals, StableOrder(totals, n - 1), n - 1);
    }
  }

  /** Sorting yields a full ranking. */
  lemma StableOrderRanks(totals: seq<real>)
    ensures IsRanking(totals, StableOrder(totals, |totals|))
  {
    StableOrderOrdered(totals, |totals|);
  }

  /** In a ranking, places decide who is before whom, and no car has two places. */
  lemma PlacesDecide(totals: seq<real>, order: seq<nat>, p: nat, q: nat)
    requires IsRanking(totals, order) && p < |order| && q < |order|
    ensures Before(totals, order[p], order[q]) <==> p < q
    ensures order[p] == order[q] <==> p == q
  {
    assert p < q ==> Before(totals, order[p], order[q]);
    assert q < p ==> Before(totals, order[q], order[p]);
  }

  /** The cars ranked before car i. */
  function AheadOf(totals: seq<real>, i: nat): set<nat>
    requires i < |totals|
  {
    set j: nat | 0 <= j < |totals| && Before(totals, j, i)
  }

  lemma {:induction false} PrefixSize(order: seq<nat>, p: nat)
    requires p <= |order| && forall a, b :: 0 <= a < b < |order| ==> order[a] != order[b]
    ensures |set k | 0 <= k < p :: order[k]| == p
  {
    if p > 0 {
      PrefixSize(order, p - 1);
      assert (set k | 0 <= k < p :: order[k]) == (set k | 0 <= k < p - 1 :: order[k]) + {order[p - 1]};
    }
  }

  /** In any full ranking a car's place is the number of cars ahead of it - so there is only one full ranking. */
  lemma PlaceIsCarsAhead(totals: seq<real>, order: seq<nat>, p: nat)
    requires IsRanking(totals, order) && p < |order|
    ensures |AheadOf(totals, order[p])| == p
  {
    var prefix := set k | 0 <= k < p :: order[k];
    forall j: nat | j in AheadOf(totals, order[p]) ensures j in prefix {
      assert j in order;
      var k :| 0 <= k < |order| && order[k] == j;
      PlacesDecide(totals, order, k, p);
    }
    assert AheadOf(totals, order[p]) == prefix;
    forall a, b | 0 <= a < b < |order| ensures order[a] != order[b] {
      PlacesDecide(totals, order, a, b);
    }
    PrefixSize(order, p);
  }
}
