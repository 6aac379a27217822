/**
 * 2023 day 11, `main.rs`: the sum of the distances between every pair of galaxies.
 * The source walks the galaxies in order; for each it collects the pairs with every other
 * galaxy that are not yet in `pairs_seen` (where a pair equals its reverse), records them
 * and adds up their distances.
 */
module CosmicExpansion {
  import opened Position
  import opened Observatory

  /** Some recorded pair equals `q`, in either order. */
  predicate ContainsPair(seen: seq<Pair>, q: Pair)
  {
    seen != [] && (ContainsPair(seen[..|seen| - 1], q) || PairEq(seen[|seen| - 1], q))
  }

  lemma {:induction false} ContainsPairMeans(seen: seq<Pair>, q: Pair)
    ensures ContainsPair(seen, q) <==> exists e :: e in seen && PairEq(e, q)
  {
    if seen != [] {
      var init := seen[..|seen| - 1];
      assert seen == init + [seen[|seen| - 1]];
      ContainsPairMeans(init, q);
    }
  }

  /**
   * The pairs galaxy `a` forms with `g[..n]`: each galaxy different from `a`, in order,
   * unless the pair was already recorded before `a`'s turn.
   */
  function NewPairs(g: seq<Coordinates>, a: Coordinates, seen: seq<Pair>, n: nat): seq<Pair>
    requires n <= |g|
  {
    if n == 0 then []
    else
      var b := g[n - 1];
      NewPairs(g, a, seen, n - 1) + (if b != a && !ContainsPair(seen, Pair(a, b)) then [Pair(a, b)] else [])
  }

  /** `pairs_seen` after the turns of `g[..i]`. */
  function SeenAfter(g: seq<Coordinates>, i: nat): seq<Pair>
    requires i <= |g|
  {
    if i == 0 then []
    else
      var seen := SeenAfter(g, i - 1);
      seen + NewPairs(g, g[i - 1], seen, |g|)
  }

  /** The distances of the pairs added up. */
  function PairsDistance(ps: seq<Pair>): nat
  {
    if ps == [] then 0 else PairsDistance(ps[..|ps| - 1]) + DistanceTo(ps[|ps| - 1].first, ps[|ps| - 1].second)
  }

  /** The reference: `Pair(g[i], g[j])` for `i < j < |g|`, row `i` of them taken from `g[..n]`. */
  function RowPairs(g: seq<Coordinates>, i: nat, n: nat): (r: seq<Pair>)
    requires i < |g| && n <= |g|
    ensures |r| == if i < n then n - i - 1 else 0
  {
    if n == 0 then []
    else RowPairs(g, i, n - 1) + (if i < n - 1 then [Pair(g[i], g[n - 1])] else [])
  }

  /** Every pair `Pair(g[i], g[j])` with `i < j` and `i < n`, row by row. */
  function AllPairs(g: seq<Coordinates>, n: nat): seq<Pair>
    requires n <= |g|
  {
    if n == 0 then [] else AllPairs(g, n - 1) + RowPairs(g, n - 1, |g|)
  }

  /** `pairs_seen.contains(pair)`: a linear search with the order-insensitive equality. */
  method Contains(seen: seq<Pair>, pair: Pair) returns (found: bool)
    ensures found <==> ContainsPair(seen, pair)
  {
    var t := 0;
    while t < |seen|
      invariant 0 <= t <= |seen|
      invariant forall u :: 0 <= u < t ==> !PairEq(seen[u], pair)
    {
      if PairEq(seen[t], pair) {
        ContainsPairMeans(seen, pair);
        return true;
      }
      t := t + 1;
    }
    ContainsPairMeans(seen, pair);
    return false;
  }

  /** The `filter`/`map`/`collect` chain: the pairs `galaxy` forms that are not yet recorded. */
  method CollectPairs(galaxies: seq<Coordinates>, galaxy: Coordinates, pairsSeen: seq<Pair>) returns (pairs: seq<Pair>)
    ensures pairs == NewPairs(galaxies, galaxy, pairsSeen, |galaxies|)
  {
    pairs := [];
    var j := 0;
    while j < |galaxies|
      invariant 0 <= j <= |galaxies|
      invariant pairs == NewPairs(galaxies, galaxy, pairsSeen, j)
    {
      var point := galaxies[j];
      if point != galaxy {
        var seenBefore := Contains(pairsSeen, Pair(galaxy, point));
        if !seenBefore {
          pairs := pairs + [Pair(galaxy, point)];
        }
      }
      j := j + 1;
    }
  }

  /** Record each pair in `pairs_seen` and add its distance to the running sum. */
  method Record(pairsSeen: seq<Pair>, total: nat, pairs: seq<Pair>) returns (seen: seq<Pair>, sum: nat)
    ensures seen == pairsSeen + pairs
    ensures sum == total + PairsDistance(pairs)
  {
    seen := pairsSeen;
    sum := total;
    var k := 0;
    while k < |pairs|
      invariant 0 <= k <= |pairs|
      invariant seen == pairsSeen + pairs[..k]
      invariant sum == total + PairsDistance(pairs[..k])
    {
      assert pairs[..k + 1][..k] == pairs[..k];
      seen := seen + [pairs[k]];
      sum := sum + DistanceTo(pairs[k].first, pairs[k].second);
      k := k + 1;
    }
    assert pairs[..k] == pairs;
  }

  /**
   * `calculate_min_distance_sum`. For galaxies that are all different, as `to_galaxies`
   * yields them, the result is the sum of the distances over every unordered pair.
   */
  method MinDistanceSum(galaxies: seq<Coordinates>) returns (total: nat)
    ensures total == PairsDistance(SeenAfter(galaxies, |galaxies|))
    ensures Distinct(galaxies) ==> total == PairsDistance(AllPairs(galaxies, |galaxies|))
  {
    var pairsSeen: seq<Pair> := [];
    total := 0;
    var i := 0;
    while i < |galaxies|
      invariant 0 <= i <= |galaxies|
      invariant pairsSeen == SeenAfter(galaxies, i)
      invariant total == PairsDistance(pairsSeen)
    {
      var pairs := CollectPairs(galaxies, galaxies[i], pairsSeen);
      ghost var before := pairsSeen;
      pairsSeen, total := Record(pairsSeen, total, pairs);
      assert total == PairsDistance(pairsSeen) by {
        PairsDistanceAppend(before, pairs);
      }
      i := i + 1;
    }
    DistinctTotal(galaxies);
  }

  /**
   * `main`, with the expansion factor 2 of part one: expand, list the galaxies and sum
   * their distances. The sum is over every unordered pair of the expanded galaxies,
   * whatever order the list comes in.
   */
  method PartOne(o: Observation) returns (total: nat)
    requires Valid(o)
    ensures exists g: seq<Coordinates> ::
              && Distinct(g) && |g| == |o.galaxies|
              && (forall c: Coordinates :: c in g <==> (c.y, c.x) in Expanded(o, 2).value.galaxies)
              && total == PairsDistance(AllPairs(g, |g|))
  {
    var expanded := Expand(o, 2);
    ExpandedCount(o, 2);
    var galaxies := ToGalaxies(expanded.value);
    total := MinDistanceSum(galaxies);
  }

  // ---------------------------------------------------------------------------
  // What `pairs_seen` holds

  /** Every new pair is `a` with a different galaxy of `g[..n]`. */
  lemma {:induction false} NewPairsMembers(g: seq<Coordinates>, a: Coordinates, seen: seq<Pair>, n: nat, q: Pair)
    requires n <= |g| && q in NewPairs(g, a, seen, n)
    ensures q.first == a && q.second != a
    ensures exists j :: 0 <= j < n && q.second == g[j]
  {
    if q !in NewPairs(g, a, seen, n - 1) {
      assert q == Pair(a, g[n - 1]);
    } else {
      NewPairsMembers(g, a, seen, n - 1, q);
    }
  }

  /** A galaxy different from `a` whose pair with `a` is not yet recorded gives a new pair. */
  lemma {:induction false} NewPairsCovers(g: seq<Coordinates>, a: Coordinates, seen: seq<Pair>, n: nat, j: nat)
    requires j < n <= |g| && g[j] != a && !ContainsPair(seen, Pair(a, g[j]))
    ensures Pair(a, g[j]) in NewPairs(g, a, seen, n)
  {
    var b := g[n - 1];
    var last := if b != a && !ContainsPair(seen, Pair(a, b)) then [Pair(a, b)] else [];
    assert NewPairs(g, a, seen, n) == NewPairs(g, a, seen, n - 1) + last;
    if j < n - 1 {
      assert Pair(a, g[j]) in NewPairs(g, a, seen, n - 1) by {
        NewPairsCovers(g, a, seen, n - 1, j);
      }
    } else {
      assert last == [Pair(a, g[j])];
    }
  }

  /** Every recorded pair is the pair of an earlier galaxy with a different one. */
  lemma {:induction false} SeenMembers(g: seq<Coordinates>, i: nat, q: Pair)
    requires i <= |g| && q in SeenAfter(g, i)
    ensures exists k, j :: 0 <= k < i && 0 <= j < |g| && g[j] != g[k] && q == Pair(g[k], g[j])
  {
    var seen := SeenAfter(g, i - 1);
    var row := NewPairs(g, g[i - 1], seen, |g|);
    assert q in seen || q in row by {
      assert SeenAfter(g, i) == seen + row;
    }
    if q in seen {
      assert exists k, j :: 0 <= k < i - 1 && 0 <= j < |g| && g[j] != g[k] && q == Pair(g[k], g[j]) by {
        SeenMembers(g, i - 1, q);
      }
      var k, j :| 0 <= k < i - 1 && 0 <= j < |g| && g[j] != g[k] && q == Pair(g[k], g[j]);
      assert 0 <= k < i;
    } else {
      assert q.first == g[i - 1] && q.second != g[i - 1] && exists j :: 0 <= j < |g| && q.second == g[j] by {
        NewPairsMembers(g, g[i - 1], seen, |g|, q);
      }
      var j :| 0 <= j < |g| && q.second == g[j];
      assert q == Pair(g[i - 1], g[j]);
    }
  }

  /** After the turns of `g[..i]`, the pair of each of them with every different galaxy is recorded, in one order or the other. */
  lemma {:induction false} SeenCovers(g: seq<Coordinates>, i: nat, k: nat, j: nat)
    requires k < i <= |g| && j < |g| && g[j] != g[k]
    ensures ContainsPair(SeenAfter(g, i), Pair(g[k], g[j]))
  {
    var seen := SeenAfter(g, i - 1);
    var row := NewPairs(g, g[i - 1], seen, |g|);
    var q := Pair(g[k], g[j]);
    assert SeenAfter(g, i) == seen + row;
    if k < i - 1 {
      assert ContainsPair(seen, q) by {
        SeenCovers(g, i - 1, k, j);
      }
      ContainsPairMeans(seen, q);
      var e :| e in seen && PairEq(e, q);
      assert e in seen + row;
    } else if ContainsPair(seen, q) {
      ContainsPairMeans(seen, q);
      var e :| e in seen && PairEq(e, q);
      assert e in seen + row;
    } else {
      assert q in row by {
        NewPairsCovers(g, g[k], seen, |g|, j);
      }
      assert q in seen + row && PairEq(q, q);
    }
    ContainsPairMeans(seen + row, q);
  }

  /** For different galaxies, the pair of `g[i]` with `g[j]` is recorded before `g[i]`'s turn exactly when `j < i`. */
  lemma SeenBefore(g: seq<Coordinates>, i: nat, j: nat)
    requires Distinct(g) && i < |g| && j < |g| && i != j
    ensures ContainsPair(SeenAfter(g, i), Pair(g[i], g[j])) <==> j < i
  {
    ContainsPairMeans(SeenAfter(g, i), Pair(g[i], g[j]));
    if j < i {
      SeenCovers(g, i, j, i);
      ContainsPairMeans(SeenAfter(g, i), Pair(g[j], g[i]));
      var e :| e in SeenAfter(g, i) && PairEq(e, Pair(g[j], g[i]));
      assert PairEq(e, Pair(g[i], g[j]));
    } else {
      forall e | e in SeenAfter(g, i)
        ensures !PairEq(e, Pair(g[i], g[j]))
      {
        SeenMembers(g, i, e);
        var k, m :| 0 <= k < i && 0 <= m < |g| && g[m] != g[k] && e == Pair(g[k], g[m]);
        DistinctAt(g, k, i);
        DistinctAt(g, k, j);
      }
    }
  }

  /** With different galaxies, the turn of `g[i]` pairs it with exactly the later ones. */
  lemma {:induction false} NewPairsAreRow(g: seq<Coordinates>, i: nat, n: nat)
    requires Distinct(g) && i < |g| && n <= |g|
    ensures NewPairs(g, g[i], SeenAfter(g, i), n) == RowPairs(g, i, n)
  {
    if n > 0 {
      var j := n - 1;
      var seen := SeenAfter(g, i);
      var isNew := g[j] != g[i] && !ContainsPair(seen, Pair(g[i], g[j]));
      var newLast := if isNew then [Pair(g[i], g[j])] else [];
      var rowLast := if i < j then [Pair(g[i], g[j])] else [];
      assert NewPairs(g, g[i], seen, n) == NewPairs(g, g[i], seen, j) + newLast;
      assert RowPairs(g, i, n) == RowPairs(g, i, j) + rowLast;
      assert NewPairs(g, g[i], seen, j) == RowPairs(g, i, j) by {
        NewPairsAreRow(g, i, j);
      }
      assert isNew == (i < j) by {
        if j != i {
          SeenBefore(g, i, j);
          DistinctAt(g, i, j);
        }
      }
    }
  }

  /** With different galaxies, `pairs_seen` ends up holding every unordered pair once, row by row. */
  lemma {:induction false} SeenIsAllPairs(g: seq<Coordinates>, i: nat)
    requires Distinct(g) && i <= |g|
    ensures SeenAfter(g, i) == AllPairs(g, i)
  {
    if i > 0 {
      var seen := SeenAfter(g, i - 1);
      var row := RowPairs(g, i - 1, |g|);
      assert seen == AllPairs(g, i - 1) by {
        SeenIsAllPairs(g, i - 1);
      }
      assert NewPairs(g, g[i - 1], seen, |g|) == row by {
        NewPairsAreRow(g, i - 1, |g|);
      }
    }
  }

  /** With different galaxies, the recorded pairs add up to the sum over every unordered pair. */
  lemma DistinctTotal(g: seq<Coordinates>)
    ensures Distinct(g) ==> PairsDistance(SeenAfter(g, |g|)) == PairsDistance(AllPairs(g, |g|))
  {
    if Distinct(g) {
      SeenIsAllPairs(g, |g|);
    }
  }

  // ---------------------------------------------------------------------------
  // The reference pairs

  lemma {:induction false} RowPairsMeans(g: seq<Coordinates>, i: nat, n: nat, q: Pair)
    requires i < |g| && n <= |g|
    ensures q in RowPairs(g, i, n) <==> exists j :: i < j < n && q == Pair(g[i], g[j])
  {
    if n > 0 {
      RowPairsMeans(g, i, n - 1, q);
    }
  }

  /** `AllPairs` holds `Pair(g[k], g[j])` for `k < j`, and nothing else. */
  lemma {:induction false} AllPairsMeans(g: seq<Coordinates>, n: nat, q: Pair)
    requires n <= |g|
    ensures q in AllPairs(g, n) <==> exists k, j :: 0 <= k < n && k < j < |g| && q == Pair(g[k], g[j])
  {
    if n > 0 {
      var before := AllPairs(g, n - 1);
      var row := RowPairs(g, n - 1, |g|);
      assert AllPairs(g, n) == before + row;
      AllPairsMeans(g, n - 1, q);
      RowPairsMeans(g, n - 1, |g|, q);
      if q in before {
        var k, j :| 0 <= k < n - 1 && k < j < |g| && q == Pair(g[k], g[j]);
        assert 0 <= k < n;
      } else if q in row {
        var j :| n - 1 < j < |g| && q == Pair(g[n - 1], g[j]);
        assert 0 <= n - 1 < n;
      }
      if exists k, j :: 0 <= k < n && k < j < |g| && q == Pair(g[k], g[j]) {
        var k, j :| 0 <= k < n && k < j < |g| && q == Pair(g[k], g[j]);
        if k == n - 1 {
          assert q in row;
        } else {
          assert q in before;
        }
      }
    }
  }

  /** The rows `0..n` hold `n * (2|g| - n - 1) / 2` pairs. */
  lemma {:induction false} AllPairsLength(g: seq<Coordinates>, n: nat)
    requires n <= |g|
    ensures 2 * |AllPairs(g, n)| == n * (2 * |g| - n - 1)
  {
    if n > 0 {
      AllPairsLength(g, n - 1);
      var m := |g|;
      assert (n - 1) * (2 * m - (n - 1) - 1) + 2 * (m - n) == n * (2 * m - n - 1);
    }
  }

  /** There are `|g| * (|g| - 1) / 2` pairs: one for each way of choosing two galaxies. */
  lemma AllPairsCount(g: seq<Coordinates>)
    ensures 2 * |AllPairs(g, |g|)| == |g| * (|g| - 1)
  {
    AllPairsLength(g, |g|);
  }

  lemma {:induction false} PairsDistanceAppend(a: seq<Pair>, b: seq<Pair>)
    ensures PairsDistance(a + b) == PairsDistance(a) + PairsDistance(b)
    decreases |b|
  {
    if b == [] {
      assert a + b == a;
    } else {
      assert (a + b)[..|a + b| - 1] == a + b[..|b| - 1];
      PairsDistanceAppend(a, b[..|b| - 1]);
    }
  }

  /** Rows add up: the total of rows `0..n` is that of rows `0..n-1` plus row `n - 1`. */
  lemma AllPairsDistanceStep(g: seq<Coordinates>, n: nat)
    requires 0 < n <= |g|
    ensures PairsDistance(AllPairs(g, n)) == PairsDistance(AllPairs(g, n - 1)) + PairsDistance(RowPairs(g, n - 1, |g|))
  {
    PairsDistanceAppend(AllPairs(g, n - 1), RowPairs(g, n - 1, |g|));
  }
}

/** Part one on a small sky of three galaxies. */
module CosmicExpansionExamples {
  import opened Position
  import opened CosmicExpansion

  /** With three galaxies the pairs are the first with the other two, then the second with the third. */
  lemma ThreePairs(g: seq<Coordinates>)
    requires |g| == 3
    ensures AllPairs(g, 3) == [Pair(g[0], g[1]), Pair(g[0], g[2]), Pair(g[1], g[2])]
  {
    assert RowPairs(g, 0, 3) == [Pair(g[0], g[1]), Pair(g[0], g[2])];
    assert RowPairs(g, 1, 3) == [Pair(g[1], g[2])];
    assert RowPairs(g, 2, 3) == [];
    assert AllPairs(g, 1) == RowPairs(g, 0, 3);
    assert AllPairs(g, 2) == RowPairs(g, 0, 3) + RowPairs(g, 1, 3);
  }

  /** Three galaxies: the distances 3, 5 and 6 of their three pairs add up to 14. */
  lemma ThreeGalaxies()
    ensures PairsDistance(AllPairs([Coordinates(0, 0), Coordinates(0, 3), Coordinates(4, 1)], 3)) == 14
  {
    var g := [Coordinates(0, 0), Coordinates(0, 3), Coordinates(4, 1)];
    ThreePairs(g);
    var ps := [Pair(g[0], g[1]), Pair(g[0], g[2]), Pair(g[1], g[2])];
    assert ps[..2][..1] == [ps[0]] && ps[..2] == [ps[0], ps[1]];
    assert DistanceTo(g[0], g[1]) == 3 && DistanceTo(g[0], g[2]) == 5 && DistanceTo(g[1], g[2]) == 6;
    assert PairsDistance([ps[0]]) == 3;
    assert PairsDistance([ps[0], ps[1]]) == 8;
  }
}
