/**
 * 2022 day 1, "Calorie Counting": the elves list the calories they carry, one number per
 * line and one blank line between elves. Each elf's total is summed, the totals are
 * sorted, and the answer is the sum of the three largest.
 */
module CalorieCounting {
  import opened Common
  import opened Text

  /** `sum::<u32>()` from `acc` on: each partial sum beyond `u32` panics. */
  function SumU32From(acc: nat, ns: seq<nat>): Option<nat>
    decreases |ns|
  {
    if ns == [] then Some(acc)
    else if acc + ns[0] > U32_MAX then None
    else SumU32From(acc + ns[0], ns[1..])
  }

  /** `sum::<u32>()`. */
  function SumU32(ns: seq<nat>): Option<nat>
  {
    SumU32From(0, ns)
  }

  /** As no term is negative, the sum panics exactly when the whole sum does not fit in `u32`. */
  lemma {:induction false} SumU32FromIff(acc: nat, ns: seq<nat>)
    requires acc <= U32_MAX
    ensures SumU32From(acc, ns) == if acc + Sum(ns) <= U32_MAX then Some(acc + Sum(ns)) else None
    decreases |ns|
  {
    if ns != [] {
      SumNonNegative(ns[1..]);
      if acc + ns[0] <= U32_MAX {
        SumU32FromIff(acc + ns[0], ns[1..]);
      }
    }
  }

  lemma SumU32Iff(ns: seq<nat>)
    ensures SumU32(ns) == if Sum(ns) <= U32_MAX then Some(Sum(ns)) else None
  {
    SumU32FromIff(0, ns);
  }

  /**
   * The calories of one elf: the sum of the lines that parse as `u32`, the others
   * ignored; a sum beyond `u32` panics.
   */
  function GroupTotal(group: string): (r: Option<nat>)
    ensures r.Some? <==> Sum(ParsedU32s(Split(group, "\n"))) <= U32_MAX
    ensures r.Some? ==> r.value == Sum(ParsedU32s(Split(group, "\n")))
  {
    SumU32Iff(ParsedU32s(Split(group, "\n")));
    SumU32(ParsedU32s(Split(group, "\n")))
  }

  /** The `map` and `collect` of `main`: every elf's total, or a panic when one of them overflows. */
  function Totals(groups: seq<string>): (r: Option<seq<nat>>)
    ensures r.Some? <==> forall k :: 0 <= k < |groups| ==> GroupTotal(groups[k]).Some?
    ensures r.Some? ==> |r.value| == |groups|
    ensures r.Some? ==> forall k :: 0 <= k < |groups| ==> Some(r.value[k]) == GroupTotal(groups[k])
  {
    if forall k :: 0 <= k < |groups| ==> GroupTotal(groups[k]).Some? then
      Some(seq(|groups|, k requires 0 <= k < |groups| => GroupTotal(groups[k]).value))
    else None
  }

  /** Every total at or before another is at most that one. */
  predicate Sorted(s: seq<nat>)
  {
    forall i, j :: 0 <= i < j < |s| ==> s[i] <= s[j]
  }

  /** A total no larger than the first of a sorted list can go in front of it. */
  lemma SortedCons(h: nat, t: seq<nat>)
    requires Sorted(t) && (t == [] || h <= t[0])
    ensures Sorted([h] + t)
  {
    var s := [h] + t;
    forall i, j | 0 <= i < j < |s|
      ensures s[i] <= s[j]
    {
      if i == 0 && j > 1 {
        assert t[0] <= t[j - 1];
      }
    }
  }

  /** `x` put into its place in a sorted list. */
  function Insert(x: nat, s: seq<nat>): (r: seq<nat>)
    requires Sorted(s)
    ensures Sorted(r) && multiset(r) == multiset(s) + multiset{x}
    ensures |r| == |s| + 1 && (r[0] == x || (s != [] && r[0] == s[0]))
  {
    if s == [] then [x]
    else if x <= s[0] then
      SortedCons(x, s);
      [x] + s
    else
      SortedTail(s);
      var rest := Insert(x, s[1..]);
      assert s[1..] != [] ==> s[0] <= s[1..][0];
      SortedCons(s[0], rest);
      assert s == [s[0]] + s[1..];
      [s[0]] + rest
  }

  lemma SortedTail(s: seq<nat>)
    requires Sorted(s) && s != []
    ensures Sorted(s[1..])
  {
    forall i, j | 0 <= i < j < |s| - 1
      ensures s[1..][i] <= s[1..][j]
    {
      assert s[1..][i] == s[i + 1] && s[1..][j] == s[j + 1];
    }
  }

  /** The totals in ascending order: the list that `x.sort()` leaves. */
  function Sort(s: seq<nat>): (r: seq<nat>)
    ensures Sorted(r) && multiset(r) == multiset(s)
  {
    if s == [] then []
    else
      assert s == [s[0]] + s[1..];
      Insert(s[0], Sort(s[1..]))
  }

  /** Two sorted lists with the same elements are the same list: every correct sort gives one result. */
  lemma {:induction false} SortedUnique(a: seq<nat>, b: seq<nat>)
    requires Sorted(a) && Sorted(b) && multiset(a) == multiset(b)
    ensures a == b
  {
    if a != [] {
      SortedFirst(a, b);
      MultisetTail(a);
      MultisetTail(b);
      SortedUnique(a[1..], b[1..]);
      assert a == [a[0]] + a[1..] && b == [b[0]] + b[1..];
    }
  }

  /** Two sorted lists with the same elements start with the same, smallest, element. */
  lemma SortedFirst(a: seq<nat>, b: seq<nat>)
    requires Sorted(a) && Sorted(b) && multiset(a) == multiset(b) && a != []
    ensures b != [] && a[0] == b[0]
  {
    assert a[0] in multiset(b);
    var k :| 0 <= k < |b| && b[k] == a[0];
    assert b[0] in multiset(a);
    var l :| 0 <= l < |a| && a[l] == b[0];
    assert b[0] <= b[k] && a[0] <= a[l];
  }

  lemma MultisetTail(a: seq<nat>)
    requires a != []
    ensures multiset(a[1..]) == multiset(a) - multiset{a[0]}
  {
    assert a == [a[0]] + a[1..];
  }

  /** A sorted array whose prefix up to `i` is sorted, except that the element at `j` may be out of place. */
  predicate SortedBut(a: seq<nat>, i: nat, j: nat)
    requires j <= i < |a|
  {
    forall k, l :: 0 <= k < l <= i && l != j ==> a[k] <= a[l]
  }

  /** Before the new element at `i` moves, only it may be out of place. */
  lemma SortedButStart(a: seq<nat>, i: nat)
    requires i < |a| && Sorted(a[..i])
    ensures SortedBut(a, i, i)
  {
    forall k, l | 0 <= k < l <= i && l != i
      ensures a[k] <= a[l]
    {
      assert a[k] == a[..i][k] && a[l] == a[..i][l];
    }
  }

  /** Swapping two neighbours keeps the elements. */
  lemma SwapElements(a: seq<nat>, b: seq<nat>, j: nat)
    requires 0 < j < |a| && b == a[j - 1 := a[j]][j := a[j - 1]]
    ensures multiset(b) == multiset(a)
  {
    var c := a[j - 1 := a[j]];
    assert multiset(c) == multiset(a) - multiset{a[j - 1]} + multiset{a[j]};
    assert c[j] == a[j];
  }

  /** Swapping the moving element with a larger one before it moves it one place down. */
  lemma SortedButSwap(a: seq<nat>, b: seq<nat>, i: nat, j: nat)
    requires 0 < j <= i < |a| && SortedBut(a, i, j) && a[j - 1] > a[j]
    requires b == a[j - 1 := a[j]][j := a[j - 1]]
    ensures SortedBut(b, i, j - 1)
  {
  }

  /** Once the moving element stops, the prefix up to `i` is sorted. */
  lemma SortedButDone(a: seq<nat>, i: nat, j: nat)
    requires j <= i < |a| && SortedBut(a, i, j) && (j == 0 || a[j - 1] <= a[j])
    ensures Sorted(a[..i + 1])
  {
    forall k, l | 0 <= k < l <= i
      ensures a[k] <= a[l]
    {
      if l == j && k < j - 1 {
        assert a[k] <= a[j - 1];
      }
    }
  }

  /** `x.sort()`: the totals are sorted in place, as an insertion sort by swaps. */
  method SortInPlace(a: array<nat>)
    modifies a
    ensures Sorted(a[..]) && multiset(a[..]) == multiset(old(a[..]))
  {
    var i := 0;
    while i < a.Length
      invariant 0 <= i <= a.Length
      invariant Sorted(a[..i])
      invariant multiset(a[..]) == multiset(old(a[..]))
    {
      SortedButStart(a[..], i);
      var j := i;
      while j > 0 && a[j - 1] > a[j]
        invariant 0 <= j <= i
        invariant SortedBut(a[..], i, j)
        invariant multiset(a[..]) == multiset(old(a[..]))
      {
        ghost var before := a[..];
        a[j - 1], a[j] := a[j], a[j - 1];
        assert a[..] == before[j - 1 := before[j]][j := before[j - 1]];
        SortedButSwap(before, a[..], i, j);
        SwapElements(before, a[..], j);
        j := j - 1;
      }
      SortedButDone(a[..], i, j);
      assert a[..][..i + 1] == a[..i + 1];
      i := i + 1;
    }
    assert a[..] == a[..a.Length];
  }

  /** The sum of the last three totals of a sorted list, or a panic for fewer than three or on overflow. */
  function LastThree(s: seq<nat>): Option<nat>
  {
    if |s| < 3 then None else SumU32(s[|s| - 3..])
  }

  /** The last three of a sorted list are its three largest: no three other entries add up to more. */
  lemma LastThreeLargest(s: seq<nat>, i: nat, j: nat, k: nat)
    requires Sorted(s) && i < j < k < |s|
    ensures s[i] + s[j] + s[k] <= Sum(s[|s| - 3..])
  {
    var n := |s|;
    var top := s[n - 3..];
    assert top == [s[n - 3], s[n - 2], s[n - 1]];
    assert Sum(top) == s[n - 3] + Sum(top[1..]);
    assert Sum(top[1..]) == s[n - 2] + Sum(top[2..]);
    assert Sum(top[2..]) == s[n - 1] + Sum(top[3..]);
    assert s[i] <= s[n - 3] && s[j] <= s[n - 2] && s[k] <= s[n - 1];
  }

  /** The answer for an input: the totals, sorted, and the last three added up. */
  function TopThree(input: string): Option<nat>
  {
    match Totals(Split(input, "\n\n"))
    case Some(totals) => LastThree(Sort(totals))
    case None => None
  }

  /** The answer depends on the totals only, not on the order in which the elves are listed. */
  lemma LastThreeOrderFree(s: seq<nat>, t: seq<nat>)
    requires multiset(s) == multiset(t)
    ensures LastThree(Sort(s)) == LastThree(Sort(t))
  {
    SortedUnique(Sort(s), Sort(t));
  }

  /** Fewer than three elves, or an elf's total above `u32`, make the program panic. */
  lemma TopThreeFewer(input: string)
    requires Totals(Split(input, "\n\n")).None? || |Split(input, "\n\n")| < 3
    ensures TopThree(input).None?
  {
    var totals := Totals(Split(input, "\n\n"));
    if totals.Some? {
      assert |Sort(totals.value)| == |totals.value| by {
        assert |multiset(Sort(totals.value))| == |multiset(totals.value)|;
      }
    }
  }

  /**
   * `main`: the input split at blank lines, every elf's total summed, the totals sorted
   * in place, and the last three added up.
   */
  method MostCalories(input: string) returns (answer: Option<nat>)
    ensures answer == TopThree(input)
  {
    var totals := Totals(Split(input, "\n\n"));
    if totals.None? {
      return None;
    }
    var t := totals.value;
    var x := new nat[|t|](k requires 0 <= k < |t| => t[k]);
    assert x[..] == t;
    SortInPlace(x);
    SortedUnique(x[..], Sort(t));
    if x.Length < 3 {
      return None;
    }
    answer := SumU32(x[x.Length - 3..]);
  }

  /** The calories an elf carries. */
  function Calories(ns: seq<nat>): (n: nat)
    ensures n == Sum(ns)
  {
    SumNonNegative(ns);
    Sum(ns)
  }

  /** The lines of one elf: one number per line. */
  function GroupText(ns: seq<nat>): string
  {
    Join(Decimals(ns), "\n")
  }

  /** Reading the lines written for an elf gives back the numbers. */
  lemma GroupTextNumbers(ns: seq<nat>)
    requires forall k :: 0 <= k < |ns| ==> ns[k] <= U32_MAX
    requires |ns| >= 1
    ensures ParsedU32s(Split(GroupText(ns), "\n")) == ns
  {
    var ds := Decimals(ns);
    forall k | 0 <= k < |ds|
      ensures '\n' !in ds[k] && ParseUnsigned(ds[k], U32_MAX) == Some(ns[k])
    {
      DecimalsAt(ns, k);
      DecimalFree(ns[k], '\n');
      ParseDecimal(ns[k], U32_MAX);
    }
    SplitJoin(ds, '\n');
    ParsedU32sAll(ds);
  }

  /** The lines of an elf hold no blank line and do not end in a line feed. */
  lemma GroupTextBlankFree(ns: seq<nat>)
    requires |ns| >= 1
    ensures BlankFree(GroupText(ns))
  {
    var ds := Decimals(ns);
    forall k | 0 <= k < |ds|
      ensures |ds[k]| > 0 && '\n' !in ds[k] && IsDigit(ds[k][|ds[k]| - 1])
    {
      DecimalsAt(ns, k);
      DecimalFree(ns[k], '\n');
    }
    JoinLinesNoBlank(ds);
    NoBlankLineFree(GroupText(ns));
    JoinEnds(ds, "\n");
  }

  /** The input of a list of elves: their lines, with a blank line between two elves. */
  function InventoryText(elves: seq<seq<nat>>): string
  {
    Join(seq(|elves|, k requires 0 <= k < |elves| => GroupText(elves[k])), "\n\n")
  }

  /**
   * For the input written from a list of at least three elves, each carrying at least
   * one item and a total that fits in `u32`, the answer is the sum of the three largest
   * totals, when that fits too.
   */
  lemma InventoryTopThree(elves: seq<seq<nat>>)
    requires |elves| >= 3
    requires forall e :: 0 <= e < |elves| ==> |elves[e]| >= 1 && Sum(elves[e]) <= U32_MAX
    requires forall e :: 0 <= e < |elves| ==> forall k :: 0 <= k < |elves[e]| ==> elves[e][k] <= U32_MAX
    ensures var totals := seq(|elves|, e requires 0 <= e < |elves| => Calories(elves[e]));
      TopThree(InventoryText(elves)) == LastThree(Sort(totals))
  {
    var groups := seq(|elves|, k requires 0 <= k < |elves| => GroupText(elves[k]));
    var totals := seq(|elves|, e requires 0 <= e < |elves| => Calories(elves[e]));
    forall k | 0 <= k < |groups|
      ensures BlankFree(groups[k]) && !Contains(groups[k], "\n\n") && GroupTotal(groups[k]) == Some(totals[k])
    {
      GroupTextBlankFree(elves[k]);
      GroupTextNumbers(elves[k]);
    }
    SplitJoinBlank(groups);
    var r := Totals(groups);
    assert r.Some?;
    assert r.value == totals;
  }

  /**
   * Five elves carrying 6000, 4000, 11000, 24000 and 10000 calories, listed in any
   * order: the three carrying the most carry 45000.
   */
  lemma ExampleTopThree(totals: seq<nat>)
    requires multiset(totals) == multiset{6000, 4000, 11000, 24000, 10000}
    ensures LastThree(Sort(totals)) == Some(45000)
  {
    var sorted := [4000, 6000, 10000, 11000, 24000];
    ExampleSorted();
    ExampleElements();
    SortedUnique(sorted, Sort(totals));
  }

  lemma ExampleElements()
    ensures multiset([4000, 6000, 10000, 11000, 24000]) == multiset{6000, 4000, 11000, 24000, 10000}
  {
    assert [4000, 6000, 10000, 11000, 24000] == [4000, 6000] + [10000, 11000, 24000];
  }

  /** The five totals in ascending order, and the sum of their last three. */
  lemma ExampleSorted()
    ensures Sorted([4000, 6000, 10000, 11000, 24000])
    ensures LastThree([4000, 6000, 10000, 11000, 24000]) == Some(45000)
  {
    var sorted := [4000, 6000, 10000, 11000, 24000];
    assert sorted[2..] == [10000, 11000, 24000];
    LastThreeOf(sorted, 10000, 11000, 24000);
  }

  /** The sum of the last three of a list ending in `a`, `b`, `c` is theirs. */
  lemma LastThreeOf(s: seq<nat>, a: nat, b: nat, c: nat)
    requires |s| >= 3 && s[|s| - 3..] == [a, b, c] && a + b + c <= U32_MAX
    ensures LastThree(s) == Some(a + b + c)
  {
    var top := [a, b, c];
    assert Sum(top) == a + Sum(top[1..]);
    assert Sum(top[1..]) == b + Sum(top[2..]);
    assert Sum(top[2..]) == c + Sum(top[3..]);
    SumU32Iff(top);
  }
}
