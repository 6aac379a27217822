/**
 * Strict orders on sequences, shared by the puzzles that sort: a sequence that each
 * element leads up to the next is increasing throughout, and a strictly increasing
 * arrangement of a multiset of values is unique.
 */
module Orders {

  /** `less` is irreflexive and transitive. */
  ghost predicate StrictOrder<T(!new)>(less: (T, T) -> bool)
  {
    (forall x :: !less(x, x)) &&
    forall x, y, z :: less(x, y) && less(y, z) ==> less(x, z)
  }

  /** Every element is below every later one. */
  ghost predicate Increasing<T>(s: seq<T>, less: (T, T) -> bool)
  {
    forall i, j :: 0 <= i < j < |s| ==> less(s[i], s[j])
  }

  /** Each element below the next one. */
  ghost predicate Chained<T>(s: seq<T>, less: (T, T) -> bool)
  {
    forall i :: 0 <= i < |s| - 1 ==> less(s[i], s[i + 1])
  }

  lemma {:induction false} ChainReaches<T(!new)>(s: seq<T>, less: (T, T) -> bool, i: nat, j: nat)
    requires StrictOrder(less) && Chained(s, less) && i < j < |s|
    ensures less(s[i], s[j])
    decreases j - i
  {
    if i + 1 < j {
      ChainReaches(s, less, i + 1, j);
      assert less(s[i], s[i + 1]);
    }
  }

  /** A chain of a transitive relation is increasing throughout. */
  lemma IncreasingByChain<T(!new)>(s: seq<T>, less: (T, T) -> bool)
    requires StrictOrder(less) && Chained(s, less)
    ensures Increasing(s, less)
  {
    forall i, j | 0 <= i < j < |s|
      ensures less(s[i], s[j])
    {
      ChainReaches(s, less, i, j);
    }
  }

  lemma IncreasingTail<T>(s: seq<T>, less: (T, T) -> bool)
    requires s != [] && Increasing(s, less)
    ensures Increasing(s[1..], less)
  {
    forall i, j | 0 <= i < j < |s| - 1
      ensures less(s[1..][i], s[1..][j])
    {
      assert s[1..][i] == s[i + 1] && s[1..][j] == s[j + 1];
    }
  }

  /** Two strictly increasing arrangements of the same values start with the same one. */
  lemma IncreasingHeads<T(!new)>(a: seq<T>, b: seq<T>, less: (T, T) -> bool)
    requires StrictOrder(less) && Increasing(a, less) && Increasing(b, less)
    requires multiset(a) == multiset(b) && a != []
    ensures b != [] && a[0] == b[0]
  {
    assert a[0] in multiset(b);
    var k :| 0 <= k < |b| && b[k] == a[0];
    assert b[0] in multiset(a);
    var m :| 0 <= m < |a| && a[m] == b[0];
  }

  /** Taking equal heads off equal multisets leaves equal multisets. */
  lemma SameTails<T>(a: seq<T>, b: seq<T>)
    requires a != [] && b != [] && a[0] == b[0] && multiset(a) == multiset(b)
    ensures multiset(a[1..]) == multiset(b[1..])
  {
    assert a == [a[0]] + a[1..] && b == [b[0]] + b[1..];
    assert multiset(a[1..]) == multiset(a) - multiset{a[0]};
    assert multiset(b[1..]) == multiset(b) - multiset{b[0]};
  }

  /** Two strictly increasing arrangements of the same values are the same sequence. */
  lemma {:induction false} IncreasingUnique<T(!new)>(a: seq<T>, b: seq<T>, less: (T, T) -> bool)
    requires StrictOrder(less) && Increasing(a, less) && Increasing(b, less)
    requires multiset(a) == multiset(b)
    ensures a == b
    decreases |a|
  {
    if a == [] {
      assert |multiset(b)| == 0;
    } else {
      assert |b| == |multiset(b)| == |multiset(a)| == |a|;
      IncreasingHeads(a, b, less);
      SameTails(a, b);
      IncreasingTail(a, less);
      IncreasingTail(b, less);
      IncreasingUnique(a[1..], b[1..], less);
    }
  }
}
