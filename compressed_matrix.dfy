/**
 * The `Compressed` matrices of the `matrix` crate as the 2022 days 8 and 12 use them: a
 * size, and the cells set so far, every other cell reading as zero. The size is taken from
 * the input text: one row per line feed, and as many columns as the first line is long.
 */
module CompressedMatrix {
  import opened Common
  import opened Text
  import opened Grid

  datatype Matrix = Matrix(rows: nat, columns: nat, cells: map<Pos, nat>)

  /** `matrix.get`: the value set at `p`, or zero. */
  function Get(m: Matrix, p: Pos): nat
  {
    if p in m.cells then m.cells[p] else 0
  }

  /** `Compressed::zero((rows, columns))`. */
  function Zero(rows: nat, columns: nat): (m: Matrix)
    ensures m.rows == rows && m.columns == columns
    ensures forall p :: Get(m, p) == 0
  {
    Matrix(rows, columns, map[])
  }

  /** `matrix.set(p, v)`: only the cell at `p` changes, and the size stays. */
  function Set(m: Matrix, p: Pos, v: nat): (n: Matrix)
    ensures n.rows == m.rows && n.columns == m.columns
    ensures Get(n, p) == v
    ensures forall q :: q != p ==> Get(n, q) == Get(m, q)
  {
    m.(cells := m.cells[p := v])
  }

  /** `input.matches('\n').count()`. */
  function NewlineCount(s: string): (n: nat)
    ensures n <= |s|
    ensures n == 0 <==> '\n' !in s
    ensures n == multiset(s)['\n']
  {
    if s == [] then 0
    else
      assert s == [s[0]] + s[1..];
      (if s[0] == '\n' then 1 else 0) + NewlineCount(s[1..])
  }

  /** `input.lines().next().unwrap().len()`: the length of the first line, or a panic without one. */
  function FirstLineLength(s: string): (n: Option<nat>)
    ensures n.None? <==> s == []
  {
    LinesEmpty(s);
    var lines := Lines(s);
    if lines == [] then None else Some(|lines[0]|)
  }

  /** The cell `p` lies on a line: row `p.0` of the text, character `p.1` of it. */
  predicate OnLine(lines: seq<string>, p: Pos)
  {
    p.0 < |lines| && p.1 < |lines[p.0]|
  }

  /** The cell `p` comes before character `c` of line `r`, reading line by line. */
  predicate Before(p: Pos, r: nat, c: nat)
  {
    p.0 < r || (p.0 == r && p.1 < c)
  }

  /**
   * Every cell read before character `c` of line `r` holds `value` of its character, and
   * every other cell reads as zero.
   */
  ghost predicate FilledUpTo(m: Matrix, lines: seq<string>, value: char -> nat, r: nat, c: nat)
  {
    forall p: Pos :: Get(m, p) == if OnLine(lines, p) && Before(p, r, c) then value(lines[p.0][p.1]) else 0
  }

  /** Every cell on a line holds `value` of its character, and every other cell reads as zero. */
  ghost predicate FilledFrom(m: Matrix, lines: seq<string>, value: char -> nat)
  {
    forall p: Pos :: Get(m, p) == if OnLine(lines, p) then value(lines[p.0][p.1]) else 0
  }

  /** Setting the character at `(r, c)` moves the filled part one cell on. */
  lemma FillStep(m: Matrix, lines: seq<string>, value: char -> nat, r: nat, c: nat)
    requires r < |lines| && c < |lines[r]| && FilledUpTo(m, lines, value, r, c)
    ensures FilledUpTo(Set(m, (r, c), value(lines[r][c])), lines, value, r, c + 1)
  {
  }

  /** After the last character of line `r`, the filled part reaches the start of the next line. */
  lemma FillNextLine(m: Matrix, lines: seq<string>, value: char -> nat, r: nat)
    requires r < |lines| && FilledUpTo(m, lines, value, r, |lines[r]|)
    ensures FilledUpTo(m, lines, value, r + 1, 0)
  {
  }

  /** Once every line is read, the matrix holds them all. */
  lemma FillDone(m: Matrix, lines: seq<string>, value: char -> nat)
    requires FilledUpTo(m, lines, value, |lines|, 0)
    ensures FilledFrom(m, lines, value)
  {
  }
}
