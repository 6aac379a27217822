/**
 * Rectangular grids as sequences of rows, as the `matrix` crate's `Conventional` matrices
 * are used by the puzzle code: a position is `(row, column)`, i.e. `(y, x)`.
 * `GridSum` adds a weight over every cell; it is what the termination and counting
 * arguments of the grid searches are measured with.
 */
module Grid {

  type Pos = (nat, nat)

  predicate IsGrid<T>(g: seq<seq<T>>, rows: nat, columns: nat)
  {
    |g| == rows && forall y :: 0 <= y < rows ==> |g[y]| == columns
  }

  predicate InGrid(p: Pos, rows: nat, columns: nat)
  {
    p.0 < rows && p.1 < columns
  }

  /** A `rows` by `columns` grid holding `v` everywhere (`Matrix::zero`). */
  function Filled<T>(rows: nat, columns: nat, v: T): (g: seq<seq<T>>)
    ensures IsGrid(g, rows, columns)
    ensures forall y, x :: 0 <= y < rows && 0 <= x < columns ==> g[y][x] == v
  {
    seq(rows, _ => seq(columns, _ => v))
  }

  /** The grid with the cell at `p` replaced by `v`. */
  function Update<T>(g: seq<seq<T>>, p: Pos, v: T): (h: seq<seq<T>>)
    requires p.0 < |g| && p.1 < |g[p.0]|
    ensures |h| == |g| && forall y :: 0 <= y < |g| ==> |h[y]| == |g[y]|
    ensures h[p.0][p.1] == v
    ensures forall y, x :: 0 <= y < |g| && 0 <= x < |g[y]| && (y, x) != p ==> h[y][x] == g[y][x]
  {
    g[p.0 := g[p.0][p.1 := v]]
  }

  function RowSum<T>(row: seq<T>, f: T -> nat): nat
  {
    if row == [] then 0 else f(row[0]) + RowSum(row[1..], f)
  }

  function GridSum<T>(g: seq<seq<T>>, f: T -> nat): nat
  {
    if g == [] then 0 else RowSum(g[0], f) + GridSum(g[1..], f)
  }

  lemma {:induction false} RowSumUpdate<T>(row: seq<T>, x: nat, v: T, f: T -> nat)
    requires x < |row|
    ensures RowSum(row[x := v], f) + f(row[x]) == RowSum(row, f) + f(v)
  {
    if x > 0 {
      assert row[x := v][1..] == row[1..][x - 1 := v];
      RowSumUpdate(row[1..], x - 1, v, f);
    } else {
      assert row[x := v][1..] == row[1..];
    }
  }

  lemma {:induction false} GridSumUpdate<T>(g: seq<seq<T>>, p: Pos, v: T, f: T -> nat)
    requires p.0 < |g| && p.1 < |g[p.0]|
    ensures GridSum(Update(g, p, v), f) + f(g[p.0][p.1]) == GridSum(g, f) + f(v)
  {
    var h := Update(g, p, v);
    if p.0 > 0 {
      assert h[1..] == Update(g[1..], (p.0 - 1, p.1), v);
      GridSumUpdate(g[1..], (p.0 - 1, p.1), v, f);
    } else {
      assert h[1..] == g[1..];
      RowSumUpdate(g[0], p.1, v, f);
    }
  }

  lemma {:induction false} RowSumBound<T>(row: seq<T>, f: T -> nat, m: nat)
    requires forall i :: 0 <= i < |row| ==> f(row[i]) <= m
    ensures RowSum(row, f) <= m * |row|
  {
    if row != [] {
      RowSumBound(row[1..], f, m);
    }
  }

  lemma {:induction false} GridSumBound<T>(g: seq<seq<T>>, rows: nat, columns: nat, f: T -> nat, m: nat)
    requires IsGrid(g, rows, columns)
    requires forall y, x :: 0 <= y < rows && 0 <= x < columns ==> f(g[y][x]) <= m
    ensures GridSum(g, f) <= (m * columns) * rows
  {
    if g != [] {
      var row, rest := g[0], g[1..];
      assert |row| == columns && forall x :: 0 <= x < columns ==> row[x] == g[0][x];
      RowSumBound(row, f, m);
      assert forall y :: 0 <= y < rows - 1 ==> rest[y] == g[y + 1];
      GridSumBound(rest, rows - 1, columns, f, m);
      var k := m * columns;
      assert GridSum(g, f) == RowSum(row, f) + GridSum(rest, f);
      assert k * rows == k * (rows - 1) + k;
    }
  }
}
