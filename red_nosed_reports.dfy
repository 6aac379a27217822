/**
 * 2024 day 2, "Red-Nosed Reports", written in C: each report is a row of levels, and a
 * report is safe when its levels only increase or only decrease, by one to three at
 * every step. `main` counts the safe reports.
 */
module RedNosedReports {

  /** The `Row` struct: `size` levels held at the front of the fixed buffer `items[10]`. */
  class Row {
    var size: int
    var items: array<int>

    /** A row holding `levels`, as `read_line` fills one. */
    constructor(levels: seq<int>)
      requires |levels| <= 10
      ensures size == |levels| && items.Length == 10 && items[..size] == levels
      ensures fresh(items)
    {
      size := |levels|;
      var buffer := new int[10](i => 0);
      forall i | 0 <= i < |levels| {
        buffer[i] := levels[i];
      }
      items := buffer;
    }

    /** The levels the row reports: the first `size` entries of the buffer. */
    function Levels(): seq<int>
      reads this, items
      requires 0 <= size <= items.Length
    {
      items[..size]
    }
  }

  /** The `Variation` enum; `Unset` is its `None`, the trend before the first pair. */
  datatype Variation = Unset | Inc | Dec

  /** `next > current ? Inc : Dec`: equal levels count as a decrease. */
  function VariationOf(current: int, next: int): (v: Variation)
    ensures v != Unset
    ensures v == Inc <==> next > current
  {
    if next > current then Inc else Dec
  }

  function Abs(n: int): (a: nat)
    ensures a == n || a == -n
  {
    if n < 0 then -n else n
  }

  /** The step from level `i` to level `i + 1` changes by one to three. */
  predicate GentleStep(levels: seq<int>, i: nat)
    requires i + 1 < |levels|
  {
    1 <= Abs(levels[i + 1] - levels[i]) <= 3
  }

  /**
   * What `check_level_save` checks: every step is gentle and moves the way the first
   * step does.
   */
  predicate Safe(levels: seq<int>)
  {
    forall i :: 0 <= i < |levels| - 1 ==>
      GentleStep(levels, i) && VariationOf(levels[i], levels[i + 1]) == VariationOf(levels[0], levels[1])
  }

  /** Every step goes up by one to three. */
  predicate Increasing(levels: seq<int>)
  {
    forall i :: 0 <= i < |levels| - 1 ==> 1 <= levels[i + 1] - levels[i] <= 3
  }

  /** Every step goes down by one to three. */
  predicate Decreasing(levels: seq<int>)
  {
    forall i :: 0 <= i < |levels| - 1 ==> 1 <= levels[i] - levels[i + 1] <= 3
  }

  /**
   * `check_level_save`: the first step fixes the trend, and a step that turns the other
   * way, or changes by nothing or by more than three, makes the report unsafe.
   */
  method CheckLevelSave(report: Row) returns (safe: bool)
    requires 0 <= report.size <= report.items.Length
    ensures safe == Safe(report.Levels())
  {
    ghost var levels := report.Levels();
    var trend := Unset;
    var i := 0;
    while i < report.size - 1
      invariant 0 <= i <= if report.size == 0 then 0 else report.size - 1
      invariant i == 0 <==> trend == Unset
      invariant i > 0 ==> trend == VariationOf(levels[0], levels[1])
      invariant forall j :: 0 <= j < i ==>
        GentleStep(levels, j) && VariationOf(levels[j], levels[j + 1]) == VariationOf(levels[0], levels[1])
    {
      var current := report.items[i];
      var next := report.items[i + 1];
      assert current == levels[i] && next == levels[i + 1];
      var currentVariation := if next > current then Inc else Dec;
      if trend == Unset {
        trend := currentVariation;
      } else if trend != currentVariation {
        TurnUnsafe(levels, i);
        return false;
      }
      var difference := Abs(next - current);
      if difference > 3 || difference == 0 {
        assert !GentleStep(levels, i);
        return false;
      }
      i := i + 1;
    }
    return true;
  }

  /** A report with fewer than two levels has no step, so it is safe. */
  lemma ShortSafe(levels: seq<int>)
    requires |levels| < 2
    ensures Safe(levels)
  {
  }

  /** Two equal neighbouring levels make a report unsafe, wherever they are. */
  lemma EqualUnsafe(levels: seq<int>, i: nat)
    requires i + 1 < |levels| && levels[i] == levels[i + 1]
    ensures !Safe(levels)
  {
    assert !GentleStep(levels, i);
  }

  /** A step that turns against the first step makes a report unsafe. */
  lemma TurnUnsafe(levels: seq<int>, i: nat)
    requires 1 <= i && i + 1 < |levels|
    requires VariationOf(levels[i], levels[i + 1]) != VariationOf(levels[0], levels[1])
    ensures !Safe(levels)
  {
  }

  /** Safe means changing by one to three at every step, all up or all down. */
  lemma SafeIff(levels: seq<int>)
    ensures Safe(levels) <==> Increasing(levels) || Decreasing(levels)
  {
    if Safe(levels) && |levels| >= 2 {
      if levels[1] > levels[0] {
        forall i | 0 <= i < |levels| - 1
          ensures 1 <= levels[i + 1] - levels[i] <= 3
        {
          assert GentleStep(levels, i) && VariationOf(levels[i], levels[i + 1]) == Inc;
        }
      } else {
        forall i | 0 <= i < |levels| - 1
          ensures 1 <= levels[i] - levels[i + 1] <= 3
        {
          assert GentleStep(levels, i) && VariationOf(levels[i], levels[i + 1]) == Dec;
        }
      }
    }
    if Increasing(levels) && |levels| >= 2 {
      assert levels[1] > levels[0];
      forall i | 0 <= i < |levels| - 1
        ensures GentleStep(levels, i) && VariationOf(levels[i], levels[i + 1]) == VariationOf(levels[0], levels[1])
      {
      }
    }
    if Decreasing(levels) && |levels| >= 2 {
      assert levels[1] < levels[0];
      forall i | 0 <= i < |levels| - 1
        ensures GentleStep(levels, i) && VariationOf(levels[i], levels[i + 1]) == VariationOf(levels[0], levels[1])
      {
      }
    }
  }

  /** Reading a report backwards turns an increasing one into a decreasing one, so it keeps it safe. */
  lemma ReverseSafe(levels: seq<int>)
    ensures Safe(levels) <==> Safe(Reverse(levels))
  {
    var r := Reverse(levels);
    SafeIff(levels);
    SafeIff(r);
    ReverseTrend(levels);
    ReverseTrend(r);
    assert Reverse(r) == levels;
  }

  lemma ReverseTrend(levels: seq<int>)
    ensures Increasing(levels) ==> Decreasing(Reverse(levels))
    ensures Decreasing(levels) ==> Increasing(Reverse(levels))
  {
    var r := Reverse(levels);
    var n := |levels|;
    if Increasing(levels) {
      forall i | 0 <= i < n - 1
        ensures 1 <= r[i] - r[i + 1] <= 3
      {
        assert r[i] == levels[n - 1 - i] && r[i + 1] == levels[n - 2 - i];
      }
    }
    if Decreasing(levels) {
      forall i | 0 <= i < n - 1
        ensures 1 <= r[i + 1] - r[i] <= 3
      {
        assert r[i] == levels[n - 1 - i] && r[i + 1] == levels[n - 2 - i];
      }
    }
  }

  function Reverse(s: seq<int>): (r: seq<int>)
    ensures |r| == |s| && forall i :: 0 <= i < |s| ==> r[i] == s[|s| - 1 - i]
  {
    seq(|s|, i requires 0 <= i < |s| => s[|s| - 1 - i])
  }

  /** The number of safe reports among `reports`. */
  function SafeCount(reports: seq<seq<int>>): (n: nat)
    ensures n <= |reports|
  {
    if reports == [] then 0
    else SafeCount(reports[..|reports| - 1]) + (if Safe(reports[|reports| - 1]) then 1 else 0)
  }

  /** Every report safe, every report counted; none safe, none counted. */
  lemma {:induction false} SafeCountBounds(reports: seq<seq<int>>)
    ensures SafeCount(reports) == |reports| <==> forall k :: 0 <= k < |reports| ==> Safe(reports[k])
    ensures SafeCount(reports) == 0 <==> forall k :: 0 <= k < |reports| ==> !Safe(reports[k])
  {
    if reports != [] {
      var init := reports[..|reports| - 1];
      SafeCountBounds(init);
      assert forall k :: 0 <= k < |init| ==> init[k] == reports[k];
    }
  }

  lemma SafeCountStep(reports: seq<seq<int>>, k: nat)
    requires k < |reports|
    ensures SafeCount(reports[..k + 1]) == SafeCount(reports[..k]) + if Safe(reports[k]) then 1 else 0
  {
    assert reports[..k + 1][..k] == reports[..k];
  }

  /** Every row holds its levels in the buffer. */
  predicate RowsReady(reports: seq<Row>)
    reads reports
  {
    forall k :: 0 <= k < |reports| ==> 0 <= reports[k].size <= reports[k].items.Length
  }

  /** The levels of every row, in order. */
  function AllLevels(reports: seq<Row>): (all: seq<seq<int>>)
    reads reports, set k | 0 <= k < |reports| :: reports[k].items
    requires RowsReady(reports)
    ensures |all| == |reports| && forall k :: 0 <= k < |reports| ==> all[k] == reports[k].Levels()
  {
    if reports == [] then []
    else AllLevels(reports[..|reports| - 1]) + [reports[|reports| - 1].Levels()]
  }

  /** The loop of `main`: every report read is checked, and `safe_reports` counts the safe ones. */
  method CountSafeReports(reports: seq<Row>) returns (safeReports: nat)
    requires RowsReady(reports)
    ensures safeReports == SafeCount(AllLevels(reports))
  {
    ghost var all := AllLevels(reports);
    safeReports := 0;
    var k := 0;
    while k < |reports|
      invariant 0 <= k <= |reports|
      invariant safeReports == SafeCount(all[..k])
    {
      var safe := CheckLevelSave(reports[k]);
      assert all[k] == reports[k].Levels();
      SafeCountStep(all, k);
      if safe {
        safeReports := safeReports + 1;
      }
      k := k + 1;
    }
    assert all[..k] == all;
  }
}
