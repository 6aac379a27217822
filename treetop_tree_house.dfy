/**
 * 2022 day 8, "Treetop Tree House": a grid of tree heights, one digit per tree. A tree
 * is visible when it is taller than every tree between it and one edge of the grid, in
 * one of the four directions; the answer is the number of visible trees.
 */
module TreetopTreeHouse {
  import opened Common
  import opened Text
  import opened Grid
  import opened CompressedMatrix

  /** The height a digit stands for; other characters make `to_digit(10).unwrap()` panic. */
  function DigitOrZero(c: char): (d: nat)
    ensures d <= 9
    ensures IsDigit(c) ==> d == DigitValue(c)
  {
    if IsDigit(c) then DigitValue(c) else 0
  }

  /**
   * The filling loops of `main`: every character of every line is set, as a digit, at
   * its line and column, and a character that is not a digit panics.
   */
  method FillDigits(lines: seq<string>, rows: nat, columns: nat) returns (m: Option<Matrix>)
    ensures m.None? <==> exists p: Pos :: OnLine(lines, p) && !IsDigit(lines[p.0][p.1])
    ensures m.Some? ==> m.value.rows == rows && m.value.columns == columns
    ensures m.Some? ==> FilledFrom(m.value, lines, DigitOrZero)
  {
    var matrix := Zero(rows, columns);
    for r := 0 to |lines|
      invariant matrix.rows == rows && matrix.columns == columns
      invariant FilledUpTo(matrix, lines, DigitOrZero, r, 0)
      invariant forall p: Pos :: OnLine(lines, p) && Before(p, r, 0) ==> IsDigit(lines[p.0][p.1])
    {
      var line := lines[r];
      for c := 0 to |line|
        invariant matrix.rows == rows && matrix.columns == columns
        invariant FilledUpTo(matrix, lines, DigitOrZero, r, c)
        invariant forall p: Pos :: OnLine(lines, p) && Before(p, r, c) ==> IsDigit(lines[p.0][p.1])
      {
        if !IsDigit(line[c]) {
          assert OnLine(lines, (r, c));
          return None;
        }
        FillStep(matrix, lines, DigitOrZero, r, c);
        matrix := Set(matrix, (r, c), DigitValue(line[c]));
      }
      FillNextLine(matrix, lines, DigitOrZero, r);
    }
    FillDone(matrix, lines, DigitOrZero);
    return Some(matrix);
  }

  /** `(from..to).all(...)` along row `row`: every tree in those columns is shorter than `value`. */
  function ShorterInRow(m: Matrix, row: nat, from: nat, to: nat, value: nat): (r: bool)
    ensures r <==> (forall col: nat :: from <= col < to ==> Get(m, (row, col)) < value)
    decreases if to > from then to - from else 0
  {
    if from >= to then true
    else value > Get(m, (row, from)) && ShorterInRow(m, row, from + 1, to, value)
  }

  /** `(from..to).all(...)` along column `column`: every tree in those rows is shorter than `value`. */
  function ShorterInColumn(m: Matrix, column: nat, from: nat, to: nat, value: nat): (r: bool)
    ensures r <==> (forall row: nat :: from <= row < to ==> Get(m, (row, column)) < value)
    decreases if to > from then to - from else 0
  {
    if from >= to then true
    else value > Get(m, (from, column)) && ShorterInColumn(m, column, from + 1, to, value)
  }

  /** `is_tallest`: the tree is taller than every tree to its left, or right, or above, or below. */
  function IsTallest(m: Matrix, p: Pos): bool
  {
    var (row, column) := p;
    var value := Get(m, p);
    ShorterInRow(m, row, 0, column, value) || ShorterInRow(m, row, column + 1, m.columns, value)
      || ShorterInColumn(m, column, 0, row, value) || ShorterInColumn(m, column, row + 1, m.rows, value)
  }

  /** A tree is visible exactly when it is strictly taller than all the trees between it and some edge. */
  lemma TallestIff(m: Matrix, p: Pos)
    ensures IsTallest(m, p) <==>
      || (forall col: nat :: col < p.1 ==> Get(m, (p.0, col)) < Get(m, p))
      || (forall col: nat :: p.1 < col < m.columns ==> Get(m, (p.0, col)) < Get(m, p))
      || (forall row: nat :: row < p.0 ==> Get(m, (row, p.1)) < Get(m, p))
      || (forall row: nat :: p.0 < row < m.rows ==> Get(m, (row, p.1)) < Get(m, p))
  {
  }

  /** Every tree on the edge of the grid is visible, as no tree stands between it and that edge. */
  lemma EdgeVisible(m: Matrix, p: Pos)
    requires p.0 < m.rows && p.1 < m.columns
    requires p.0 == 0 || p.1 == 0 || p.0 == m.rows - 1 || p.1 == m.columns - 1
    ensures IsTallest(m, p)
  {
  }

  /**
   * A tree at least as tall in every direction hides the tree, and a hidden tree has one in
   * every direction.
   */
  lemma HiddenIff(m: Matrix, p: Pos)
    ensures !IsTallest(m, p) <==>
      && (exists col: nat :: col < p.1 && Get(m, (p.0, col)) >= Get(m, p))
      && (exists col: nat :: p.1 < col < m.columns && Get(m, (p.0, col)) >= Get(m, p))
      && (exists row: nat :: row < p.0 && Get(m, (row, p.1)) >= Get(m, p))
      && (exists row: nat :: p.0 < row < m.rows && Get(m, (row, p.1)) >= Get(m, p))
  {
    TallestIff(m, p);
  }

  /** The number of visible trees in columns `0..c` of row `row`. */
  function RowVisible(m: Matrix, row: nat, c: nat): (n: nat)
    ensures n <= c
  {
    if c == 0 then 0 else RowVisible(m, row, c - 1) + (if IsTallest(m, (row, c - 1)) then 1 else 0)
  }

  /** The number of visible trees in rows `0..r`. */
  function RowsVisible(m: Matrix, r: nat): (n: nat)
  {
    if r == 0 then 0 else RowsVisible(m, r - 1) + RowVisible(m, r - 1, m.columns)
  }

  /** The number of visible trees in the grid. */
  function CountVisible(m: Matrix): nat
  {
    RowsVisible(m, m.rows)
  }

  /** No more trees are visible than the grid holds. */
  lemma {:induction false} RowsVisibleBound(m: Matrix, r: nat)
    ensures RowsVisible(m, r) <= r * m.columns
  {
    if r > 0 {
      RowsVisibleBound(m, r - 1);
      assert (r - 1) * m.columns + m.columns == r * m.columns;
    }
  }

  /** A row of at least two trees shows its first and last tree at least, and a single tree shows itself. */
  lemma {:induction false} RowEdgesVisible(m: Matrix, row: nat)
    requires row < m.rows
    ensures m.columns >= 2 ==> RowVisible(m, row, m.columns) >= 2
    ensures m.columns == 1 ==> RowVisible(m, row, m.columns) == 1
  {
    if m.columns >= 1 {
      EdgeVisible(m, (row, m.columns - 1));
      if m.columns >= 2 {
        EdgeVisible(m, (row, 0));
        RowFirstVisible(m, row, m.columns - 1);
      } else {
        EdgeVisible(m, (row, 0));
      }
    }
  }

  lemma {:induction false} RowFirstVisible(m: Matrix, row: nat, c: nat)
    requires c >= 1 && IsTallest(m, (row, 0))
    ensures RowVisible(m, row, c) >= 1
  {
    if c > 1 {
      RowFirstVisible(m, row, c - 1);
    }
  }

  /** The count reads the grid only through its size and its heights. */
  lemma {:induction false} RowsVisibleSame(m: Matrix, n: Matrix, r: nat)
    requires m.rows == n.rows && m.columns == n.columns && forall p: Pos :: Get(m, p) == Get(n, p)
    ensures RowsVisible(m, r) == RowsVisible(n, r)
  {
    if r > 0 {
      RowsVisibleSame(m, n, r - 1);
      RowVisibleSame(m, n, r - 1, m.columns);
    }
  }

  lemma {:induction false} RowVisibleSame(m: Matrix, n: Matrix, row: nat, c: nat)
    requires m.rows == n.rows && m.columns == n.columns && forall p: Pos :: Get(m, p) == Get(n, p)
    ensures RowVisible(m, row, c) == RowVisible(n, row, c)
  {
    if c > 0 {
      var p := (row, c - 1);
      RowVisibleSame(m, n, row, c - 1);
      TallestSame(m, n, p);
      assert RowVisible(m, row, c) == RowVisible(m, row, c - 1) + (if IsTallest(m, p) then 1 else 0);
      assert RowVisible(n, row, c) == RowVisible(n, row, c - 1) + (if IsTallest(n, p) then 1 else 0);
    }
  }

  lemma TallestSame(m: Matrix, n: Matrix, p: Pos)
    requires m.rows == n.rows && m.columns == n.columns && forall q: Pos :: Get(m, q) == Get(n, q)
    ensures IsTallest(m, p) == IsTallest(n, p)
  {
    TallestIff(m, p);
    TallestIff(n, p);
  }

  /** The counting loops of `main`: every cell of the grid is tested, and `visible` counts the visible trees. */
  method CountVisibleLoop(m: Matrix) returns (visible: nat)
    ensures visible == CountVisible(m)
  {
    visible := 0;
    for row := 0 to m.rows
      invariant visible == RowsVisible(m, row)
    {
      for column := 0 to m.columns
        invariant visible == RowsVisible(m, row) + RowVisible(m, row, column)
      {
        if IsTallest(m, (row, column)) {
          visible := visible + 1;
        }
      }
    }
  }

  /**
   * `main`: one row per line feed and as many columns as the first line is long, the
   * grid filled from the lines, and the visible trees counted. An input without lines or
   * with a character that is not a digit panics.
   */
  method Visible(input: string) returns (visible: Option<nat>)
    ensures visible.None? <==>
      input == [] || exists p: Pos :: OnLine(Lines(input), p) && !IsDigit(Lines(input)[p.0][p.1])
    ensures visible.Some? ==> exists m: Matrix ::
      && m.rows == NewlineCount(input) && Some(m.columns) == FirstLineLength(input)
      && FilledFrom(m, Lines(input), DigitOrZero) && visible.value == CountVisible(m)
  {
    var rows := NewlineCount(input);
    var columns := FirstLineLength(input);
    if columns.None? {
      return None;
    }
    var matrix := FillDigits(Lines(input), rows, columns.value);
    if matrix.None? {
      return None;
    }
    var count := CountVisibleLoop(matrix.value);
    return Some(count);
  }

  /** The answer is one number: two grids filled from the same input count alike. */
  lemma VisibleDetermined(input: string, m: Matrix, n: Matrix)
    requires m.rows == n.rows && m.columns == n.columns
    requires FilledFrom(m, Lines(input), DigitOrZero) && FilledFrom(n, Lines(input), DigitOrZero)
    ensures CountVisible(m) == CountVisible(n)
  {
    RowsVisibleSame(m, n, m.rows);
  }
}
