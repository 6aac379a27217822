/**
 * 2023 day 11, `position.rs`: coordinates of a galaxy as `(y, x)`, their componentwise
 * absolute difference, the Manhattan distance, and unordered pairs of coordinates.
 */
module Position {

  /** `Coordinates((y, x))`, a row and a column. */
  datatype Coordinates = Coordinates(y: nat, x: nat)

  /** `usize::abs_diff`. */
  function AbsDiff(a: nat, b: nat): (d: nat)
    ensures a + d == b || b + d == a
  {
    if a >= b then a - b else b - a
  }

  /** `&a - &b`: the absolute difference of each component. */
  function Sub(a: Coordinates, b: Coordinates): (c: Coordinates)
    ensures a.y + c.y == b.y || b.y + c.y == a.y
    ensures a.x + c.x == b.x || b.x + c.x == a.x
  {
    Coordinates(AbsDiff(a.y, b.y), AbsDiff(a.x, b.x))
  }

  /** `distance_to`: the sum of the components of the difference. */
  function DistanceTo(a: Coordinates, b: Coordinates): nat
  {
    var d := Sub(a, b);
    d.y + d.x
  }

  /** The absolute value of an integer, as a reference for the distance. */
  function Abs(n: int): nat
  {
    if n < 0 then -n else n
  }

  lemma SubSymmetric(a: Coordinates, b: Coordinates)
    ensures Sub(a, b) == Sub(b, a)
  {
  }

  lemma SubZero(a: Coordinates, b: Coordinates)
    ensures Sub(a, b) == Coordinates(0, 0) <==> a == b
  {
  }

  /** The distance is the Manhattan distance `|ay - by| + |ax - bx|`. */
  lemma DistanceManhattan(a: Coordinates, b: Coordinates)
    ensures DistanceTo(a, b) == Abs(a.y - b.y) + Abs(a.x - b.x)
  {
  }

  lemma DistanceSymmetric(a: Coordinates, b: Coordinates)
    ensures DistanceTo(a, b) == DistanceTo(b, a)
  {
  }

  lemma DistanceZero(a: Coordinates, b: Coordinates)
    ensures DistanceTo(a, b) == 0 <==> a == b
  {
  }

  lemma DistanceTriangle(a: Coordinates, b: Coordinates, c: Coordinates)
    ensures DistanceTo(a, c) <= DistanceTo(a, b) + DistanceTo(b, c)
  {
  }

  /** No coordinates occur twice: none occurs among those before it. */
  predicate Distinct(g: seq<Coordinates>)
  {
    forall j :: 0 <= j < |g| ==> g[j] !in g[..j]
  }

  lemma DistinctAt(g: seq<Coordinates>, i: nat, j: nat)
    requires Distinct(g) && i < |g| && j < |g| && i != j
    ensures g[i] != g[j]
  {
    if i < j {
      assert g[..j][i] == g[i];
    } else {
      assert g[..i][j] == g[j];
    }
  }

  /** `Pair(a, b)`: two coordinates whose order does not matter for equality. */
  datatype Pair = Pair(first: Coordinates, second: Coordinates)

  /** `into_coordinates`: the two coordinates in the order the pair was built with. */
  function IntoCoordinates(p: Pair): (r: (Coordinates, Coordinates))
  {
    (p.first, p.second)
  }

  lemma IntoCoordinatesOfNew(a: Coordinates, b: Coordinates)
    ensures IntoCoordinates(Pair(a, b)) == (a, b)
  {
  }

  /** `PartialEq for Pair`: the same two coordinates, in either order. */
  predicate PairEq(p: Pair, q: Pair)
  {
    (p.first == q.first && p.second == q.second) || (p.first == q.second && p.second == q.first)
  }

  /** `PartialEq<(&Coordinates, &Coordinates)> for Pair`: build a pair from the tuple and compare. */
  predicate PairEqTuple(p: Pair, t: (Coordinates, Coordinates))
  {
    PairEq(Pair(t.0, t.1), p)
  }

  /** Two pairs are equal exactly when they hold the same multiset of coordinates. */
  lemma PairEqMultiset(p: Pair, q: Pair)
    ensures PairEq(p, q) <==> multiset{p.first, p.second} == multiset{q.first, q.second}
  {
    var mp := multiset{p.first, p.second};
    var mq := multiset{q.first, q.second};
    if mp == mq {
      assert q.first in mp && q.second in mp;
      assert mp[p.first] == mq[p.first] && mp[p.second] == mq[p.second];
    }
  }

  lemma PairEqReflexive(p: Pair)
    ensures PairEq(p, p)
  {
  }

  lemma PairEqSymmetric(p: Pair, q: Pair)
    ensures PairEq(p, q) <==> PairEq(q, p)
  {
  }

  lemma PairEqTransitive(p: Pair, q: Pair, r: Pair)
    requires PairEq(p, q) && PairEq(q, r)
    ensures PairEq(p, r)
  {
  }

  /** A pair equals the same pair built the other way round. */
  lemma PairCrossed(a: Coordinates, b: Coordinates)
    ensures PairEq(Pair(a, b), Pair(b, a))
  {
  }

  /** Comparing with a tuple is comparing with the pair built from it. */
  lemma PairEqTupleMeans(p: Pair, t: (Coordinates, Coordinates))
    ensures PairEqTuple(p, t) <==> PairEq(p, Pair(t.0, t.1))
  {
  }

  /** Equal pairs are at the same distance. */
  lemma PairEqDistance(p: Pair, q: Pair)
    requires PairEq(p, q)
    ensures DistanceTo(p.first, p.second) == DistanceTo(q.first, q.second)
  {
  }
}

/** The unit tests of `2023/day-11/src/position.rs` (lines 64-122), stated as lemmas. */
module PositionExamples {
  import opened Position

  /** Test `sub1`. */
  lemma Sub1()
    ensures Sub(Coordinates(2, 5), Coordinates(6, 4)) == Coordinates(4, 1)
  {
  }

  /** Test `sub2`. */
  lemma Sub2()
    ensures Sub(Coordinates(123, 654), Coordinates(56, 44)) == Coordinates(67, 610)
  {
  }

  /** Test `sub3`. */
  lemma Sub3()
    ensures Sub(Coordinates(65, 10), Coordinates(19, 90)) == Coordinates(46, 80)
  {
  }

  /** Test `distance1`. */
  lemma Distance1()
    ensures DistanceTo(Coordinates(5, 1), Coordinates(0, 5)) == 9
  {
  }

  /** Test `distance2`. */
  lemma Distance2()
    ensures DistanceTo(Coordinates(9, 0), Coordinates(4, 12)) == 17
  {
  }

  /** Test `pair_normal`. */
  lemma PairNormal()
    ensures PairEq(Pair(Coordinates(1, 2), Coordinates(4, 7)), Pair(Coordinates(1, 2), Coordinates(4, 7)))
  {
  }

  /** Test `pair_crossed`. */
  lemma PairCrossedExample()
    ensures PairEq(Pair(Coordinates(1, 2), Coordinates(4, 7)), Pair(Coordinates(4, 7), Coordinates(1, 2)))
  {
  }
}
