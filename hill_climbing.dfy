/**
 * 2022 day 12, "Hill Climbing Algorithm", library part: the heightmap is read into a
 * `Compressed` matrix of bytes, and the start `S` and the end `E` are found in it.
 */
module HillClimbing {
  import opened Common
  import opened Text
  import opened Grid
  import opened CompressedMatrix

  /** `char as u8`: the low eight bits of the character's code. */
  function Byte(c: char): (b: nat)
    ensures b < 256
    ensures c as int < 256 ==> b == c as int
  {
    c as int % 256
  }

  /**
   * `get_matrix`: one row per line feed and as many columns as the first line has
   * characters; every character of every line is set, as a byte, at its line and
   * column. An input without lines panics.
   */
  method GetMatrix(input: string) returns (m: Option<Matrix>)
    ensures m.None? <==> input == []
    ensures m.Some? ==> m.value.rows == NewlineCount(input) && Some(m.value.columns) == FirstLineLength(input)
    ensures m.Some? ==> FilledFrom(m.value, Lines(input), Byte)
  {
    var rows := NewlineCount(input);
    var columns := FirstLineLength(input);
    if columns.None? {
      return None;
    }
    var lines := Lines(input);
    var matrix := Zero(rows, columns.value);
    for r := 0 to |lines|
      invariant matrix.rows == rows && matrix.columns == columns.value
      invariant FilledUpTo(matrix, lines, Byte, r, 0)
    {
      var line := lines[r];
      for c := 0 to |line|
        invariant matrix.rows == rows && matrix.columns == columns.value
        invariant FilledUpTo(matrix, lines, Byte, r, c)
      {
        FillStep(matrix, lines, Byte, r, c);
        matrix := Set(matrix, (r, c), Byte(line[c]));
      }
      FillNextLine(matrix, lines, Byte, r);
    }
    FillDone(matrix, lines, Byte);
    return Some(matrix);
  }

  /** A stored cell whose byte, read back as a character, is `ch`. */
  predicate Holds(m: Matrix, p: Pos, ch: char)
  {
    p in m.cells && ch as int < 256 && m.cells[p] == ch as int
  }

  /**
   * `find_char`: a stored cell whose byte is the character, or a panic when none is.
   * The crate's iteration order is not part of this model, so which matching cell is
   * found is left open.
   */
  ghost function FindChar(m: Matrix, ch: char): (r: Option<Pos>)
    ensures r.Some? ==> Holds(m, r.value, ch) && Get(m, r.value) == ch as int
    ensures r.None? <==> forall p :: p in m.cells ==> !Holds(m, p, ch)
  {
    if exists p :: p in m.cells && Holds(m, p, ch) then
      var p :| p in m.cells && Holds(m, p, ch);
      Some(p)
    else None
  }

  /** In a heightmap read from text, the cell found holds the character on its line. */
  lemma FindCharOnLine(input: string, m: Matrix, ch: char)
    requires FilledFrom(m, Lines(input), Byte) && FindChar(m, ch).Some? && ch != '\0'
    ensures var p := FindChar(m, ch).value;
      OnLine(Lines(input), p) && Byte(Lines(input)[p.0][p.1]) == ch as int
  {
    var p := FindChar(m, ch).value;
    assert Get(m, p) == ch as int;
  }

  /** A heightmap whose lines hold the character finds it, for a character below 256 other than NUL. */
  lemma FindCharFound(input: string, m: Matrix, ch: char, p: Pos)
    requires FilledFrom(m, Lines(input), Byte) && ch != '\0' && ch as int < 256
    requires OnLine(Lines(input), p) && Lines(input)[p.0][p.1] == ch
    ensures FindChar(m, ch).Some?
  {
    assert Get(m, p) == ch as int;
    assert p in m.cells;
    assert Holds(m, p, ch);
  }
}
