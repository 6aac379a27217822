/**
 * A sketch of a field of pipes (2023, day 10): one character per tile, `S` marking the
 * start. The model covers the pipe vocabulary (`Side`, `Pipe`), parsing the sketch,
 * the breadth-first search for the step count to the farthest point, extracting the
 * main loop, and counting the tiles it encloses by row-wise parity of inversions.
 */
module PipeMaze {
  import opened Common
  import opened Grid

  datatype Side = Up | Right | Down | Left

  /** The order in which `Side::iter()` yields the sides. */
  const AllSides: seq<Side> := [Up, Right, Down, Left]

  function Opposite(side: Side): Side
  {
    match side
    case Up => Down
    case Down => Up
    case Left => Right
    case Right => Left
  }

  /**
   * `Side::get_pos`: the position next to `p` on `side`; there is none above row 0 or to
   * the left of column 0. Right and Down are not checked against the grid.
   */
  function GetPos(side: Side, p: Pos): (r: Option<Pos>)
    ensures r.None? <==> (side == Up && p.0 == 0) || (side == Left && p.1 == 0)
    ensures r.Some? ==> r.value != p
  {
    match side
    case Up => if p.0 == 0 then None else Some((p.0 - 1, p.1))
    case Right => Some((p.0, p.1 + 1))
    case Down => Some((p.0 + 1, p.1))
    case Left => if p.1 == 0 then None else Some((p.0, p.1 - 1))
  }

  /** Stepping to a side and back to the opposite side returns to the same tile. */
  lemma GetPosOpposite(side: Side, p: Pos, q: Pos)
    requires GetPos(side, p) == Some(q)
    ensures GetPos(Opposite(side), q) == Some(p)
  {
  }

  /** Different sides lead to different tiles. */
  lemma GetPosInjective(s1: Side, s2: Side, p: Pos)
    requires GetPos(s1, p).Some? && GetPos(s1, p) == GetPos(s2, p)
    ensures s1 == s2
  {
  }

  datatype Pipe = Ground | Start | Vertical | Horizontal | NorthEast | NorthWest | SouthWest | SouthEast

  predicate IsPipe(p: Pipe)
  {
    p != Ground && p != Start
  }

  /**
   * Parsing one character into a `Pipe` (strum's `EnumString`): both the ASCII sketch
   * characters and the box-drawing characters the `Display` implementation writes.
   */
  function ParsePipe(c: char): (r: Option<Pipe>)
    ensures r == Some(Start) <==> c == 'S'
    ensures r.Some? <==> c in ".S|-LJ7F" || c in "│─└┘┐┌"
  {
    match c
    case '.' => Some(Ground)
    case 'S' => Some(Start)
    case '|' => Some(Vertical)
    case '-' => Some(Horizontal)
    case 'L' => Some(NorthEast)
    case 'J' => Some(NorthWest)
    case '7' => Some(SouthWest)
    case 'F' => Some(SouthEast)
    case '│' => Some(Vertical)
    case '─' => Some(Horizontal)
    case '└' => Some(NorthEast)
    case '┘' => Some(NorthWest)
    case '┐' => Some(SouthWest)
    case '┌' => Some(SouthEast)
    case _ => None
  }

  /** The character a sketch uses for the pipe. */
  function SketchChar(p: Pipe): char
  {
    match p
    case Ground => '.'
    case Start => 'S'
    case Vertical => '|'
    case Horizontal => '-'
    case NorthEast => 'L'
    case NorthWest => 'J'
    case SouthWest => '7'
    case SouthEast => 'F'
  }

  /** The character `Display` (strum's `to_string`) writes for the pipe. */
  function DisplayChar(p: Pipe): char
  {
    match p
    case Ground => '.'
    case Start => 'S'
    case Vertical => '│'
    case Horizontal => '─'
    case NorthEast => '└'
    case NorthWest => '┘'
    case SouthWest => '┐'
    case SouthEast => '┌'
  }

  /** Both renderings of a pipe parse back to it. */
  lemma ParsePipeRoundTrip(p: Pipe)
    ensures ParsePipe(SketchChar(p)) == Some(p)
    ensures ParsePipe(DisplayChar(p)) == Some(p)
  {
  }

  /** `Pipe::get_sides`: the two sides a pipe opens to; Ground has none. */
  function GetSides(p: Pipe): (r: Option<seq<Side>>)
    requires p != Start
    ensures r.None? <==> p == Ground
    ensures r.Some? ==> |r.value| == 2 && r.value[0] != r.value[1]
  {
    match p
    case Ground => None
    case Vertical => Some([Up, Down])
    case Horizontal => Some([Left, Right])
    case NorthEast => Some([Up, Right])
    case NorthWest => Some([Up, Left])
    case SouthWest => Some([Down, Left])
    case SouthEast => Some([Down, Right])
  }

  /** `Pipe::connects_from`: entering the tile when moving towards `side`. */
  function ConnectsFrom(p: Pipe, side: Side): bool
  {
    match p
    case Vertical => side == Up || side == Down
    case Horizontal => side == Left || side == Right
    case NorthEast => side == Down || side == Left
    case NorthWest => side == Down || side == Right
    case SouthWest => side == Up || side == Right
    case SouthEast => side == Up || side == Left
    case _ => false
  }

  /** A pipe can be entered moving towards `side` exactly when it opens to the opposite side. */
  lemma ConnectsFromOpening(p: Pipe, side: Side)
    ensures ConnectsFrom(p, side) <==> IsPipe(p) && Opposite(side) in GetSides(p).value
  {
  }

  /** `Pipe::is_inversion`. */
  function IsInversion(p: Pipe): bool
  {
    p == Vertical || p == NorthWest || p == NorthEast
  }

  /** The inversions are exactly the pipes that open upwards. */
  lemma InversionOpensUp(p: Pipe)
    ensures IsInversion(p) <==> IsPipe(p) && Up in GetSides(p).value
  {
  }

  /** `Sketch::get_start_pipe`: the pipe joining two sides; equal sides are a panic (`None`). */
  function GetStartPipe(a: Side, b: Side): (r: Option<Pipe>)
    ensures r.Some? <==> a != b
    ensures r.Some? ==> IsPipe(r.value)
    ensures r.Some? ==> var s := GetSides(r.value).value; (s[0] == a && s[1] == b) || (s[0] == b && s[1] == a)
  {
    match (a, b)
    case (Up, Down) => Some(Vertical)
    case (Up, Right) => Some(NorthEast)
    case (Up, Left) => Some(NorthWest)
    case (Right, Down) => Some(SouthEast)
    case (Right, Left) => Some(Horizontal)
    case (Right, Up) => Some(NorthEast)
    case (Down, Left) => Some(SouthWest)
    case (Down, Up) => Some(Vertical)
    case (Down, Right) => Some(SouthEast)
    case (Left, Up) => Some(NorthWest)
    case (Left, Right) => Some(Horizontal)
    case (Left, Down) => Some(SouthWest)
    case _ => None
  }

  lemma GetStartPipeSymmetric(a: Side, b: Side)
    ensures GetStartPipe(a, b) == GetStartPipe(b, a)
  {
  }

  /** The start pipe chosen for a pipe's own two sides is that pipe, in either order. */
  lemma StartPipeRecoversPipe(p: Pipe)
    requires IsPipe(p)
    ensures var s := GetSides(p).value; GetStartPipe(s[0], s[1]) == Some(p) && GetStartPipe(s[1], s[0]) == Some(p)
  {
  }

  /** The parsed sketch: row-major pipes and the position of the last `S` read. */
  datatype Sketch = Sketch(grid: seq<seq<Pipe>>, rows: nat, columns: nat, start: Option<Pos>)
  {
    predicate Valid()
    {
      IsGrid(grid, rows, columns) && (start.Some? ==> InGrid(start.value, rows, columns))
    }

    function At(p: Pos): Pipe
      requires Valid() && InGrid(p, rows, columns)
    {
      grid[p.0][p.1]
    }
  }

  // ---------------------------------------------------------------------------
  // Parsing (`Sketch::from`)
  // ---------------------------------------------------------------------------

  /** Number of bytes of the UTF-8 encoding of `c`. */
  function Utf8Len(c: char): nat
  {
    if c as int < 0x80 then 1 else if c as int < 0x800 then 2 else if c as int < 0x10000 then 3 else 4
  }

  /** The byte offset of the `i`-th character (`char_indices`), which is the column it is written to. */
  function ByteOffset(line: string, i: nat): nat
    requires i <= |line|
  {
    if i == 0 then 0 else ByteOffset(line, i - 1) + Utf8Len(line[i - 1])
  }

  lemma {:induction false} ByteOffsetIncreasing(line: string, i: nat, j: nat)
    requires i < j <= |line|
    ensures ByteOffset(line, i) < ByteOffset(line, j)
    decreases j
  {
    if i < j - 1 {
      ByteOffsetIncreasing(line, i, j - 1);
    }
  }

  /** On an ASCII line the byte offset of a character is its index. */
  lemma {:induction false} ByteOffsetAscii(line: string, i: nat)
    requires i <= |line|
    requires forall j :: 0 <= j < |line| ==> line[j] as int < 0x80
    ensures ByteOffset(line, i) == i
  {
    if i > 0 {
      ByteOffsetAscii(line, i - 1);
    }
  }

  /** The first `i` characters of the line name pipes and are stored inside the grid's width. */
  predicate PrefixParsable(line: string, i: nat, columns: nat)
    requires i <= |line|
  {
    i == 0 || (PrefixParsable(line, i - 1, columns) && ParsePipe(line[i - 1]).Some? && ByteOffset(line, i - 1) < columns)
  }

  predicate RowParsable(line: string, columns: nat)
  {
    PrefixParsable(line, |line|, columns)
  }

  predicate Parsable(lines: seq<string>, columns: nat)
  {
    forall y :: 0 <= y < |lines| ==> RowParsable(lines[y], columns)
  }

  /** Character `j` names a pipe, stored inside the width. */
  predicate CharFits(line: string, j: nat, columns: nat)
    requires j < |line|
  {
    ParsePipe(line[j]).Some? && ByteOffset(line, j) < columns
  }

  /** A prefix is parsable exactly when each of its characters names a pipe stored inside the width. */
  lemma PrefixParsableMeans(line: string, i: nat, columns: nat)
    requires i <= |line|
    ensures PrefixParsable(line, i, columns) <==> forall j :: 0 <= j < i ==> CharFits(line, j, columns)
  {
    if PrefixParsable(line, i, columns) {
      forall j | 0 <= j < i
        ensures CharFits(line, j, columns)
      {
        PrefixParsableFits(line, i, columns, j);
      }
    }
    if forall j :: 0 <= j < i ==> CharFits(line, j, columns) {
      FitsPrefixParsable(line, i, columns);
    }
  }

  lemma {:induction false} PrefixParsableFits(line: string, i: nat, columns: nat, j: nat)
    requires j < i <= |line| && PrefixParsable(line, i, columns)
    ensures CharFits(line, j, columns)
    decreases i
  {
    if j < i - 1 {
      PrefixParsableFits(line, i - 1, columns, j);
    }
  }

  lemma {:induction false} FitsPrefixParsable(line: string, i: nat, columns: nat)
    requires i <= |line| && forall j :: 0 <= j < i ==> CharFits(line, j, columns)
    ensures PrefixParsable(line, i, columns)
  {
    if i > 0 {
      assert CharFits(line, i - 1, columns);
      FitsPrefixParsable(line, i - 1, columns);
    }
  }

  lemma {:induction false} NotParsableBeyond(line: string, i: nat, j: nat, columns: nat)
    requires i <= j <= |line| && !PrefixParsable(line, i, columns)
    ensures !PrefixParsable(line, j, columns)
    decreases j - i
  {
    if i < j {
      NotParsableBeyond(line, i + 1, j, columns);
    }
  }

  /** The row after its first `i` characters have been stored at their byte offsets. */
  function WriteRow(row: seq<Pipe>, line: string, i: nat): (r: seq<Pipe>)
    requires i <= |line| && PrefixParsable(line, i, |row|)
    ensures |r| == |row|
  {
    if i == 0 then row else WriteRow(row, line, i - 1)[ByteOffset(line, i - 1) := ParsePipe(line[i - 1]).value]
  }

  /** Column `x` is the byte offset of one of the first `i` characters. */
  predicate WrittenBefore(line: string, i: nat, x: nat)
    requires i <= |line|
  {
    exists j :: 0 <= j < i && ByteOffset(line, j) == x
  }

  predicate WrittenAt(line: string, x: nat)
  {
    WrittenBefore(line, |line|, x)
  }

  /** Each character ends up at its own byte offset: later characters never overwrite it. */
  lemma {:induction false} WriteRowAt(row: seq<Pipe>, line: string, i: nat, j: nat)
    requires i <= |line| && PrefixParsable(line, i, |row|) && j < i
    ensures ParsePipe(line[j]).Some? && ByteOffset(line, j) < |row|
    ensures WriteRow(row, line, i)[ByteOffset(line, j)] == ParsePipe(line[j]).value
  {
    if j < i - 1 {
      ByteOffsetIncreasing(line, j, i - 1);
      WriteRowAt(row, line, i - 1, j);
    }
  }

  /** Columns no character is stored at keep their value. */
  lemma {:induction false} WriteRowElsewhere(row: seq<Pipe>, line: string, i: nat, x: nat)
    requires i <= |line| && PrefixParsable(line, i, |row|) && x < |row| && !WrittenBefore(line, i, x)
    ensures WriteRow(row, line, i)[x] == row[x]
  {
    if i > 0 {
      assert ByteOffset(line, i - 1) != x;
      forall j | 0 <= j < i - 1
        ensures ByteOffset(line, j) != x
      {
        assert 0 <= j < i;
      }
      WriteRowElsewhere(row, line, i - 1, x);
    }
  }

  /** Index of the last `S` among the first `i` characters, if there is one. */
  function LastStart(line: string, i: nat): (r: Option<nat>)
    requires i <= |line|
    ensures r.Some? ==> r.value < i
  {
    if i == 0 then None else if line[i - 1] == 'S' then Some(i - 1) else LastStart(line, i - 1)
  }

  /** `LastStart` finds an `S` exactly when there is one, and no `S` follows the one it finds. */
  lemma {:induction false} LastStartMeans(line: string, i: nat)
    requires i <= |line|
    ensures LastStart(line, i).None? <==> forall j :: 0 <= j < i ==> line[j] != 'S'
    ensures LastStart(line, i).Some? ==>
      var k := LastStart(line, i).value;
      k < i && line[k] == 'S' && forall j :: k < j < i ==> line[j] != 'S'
  {
    if i > 0 && line[i - 1] != 'S' {
      LastStartMeans(line, i - 1);
    }
  }

  /**
   * The inner loop of `Sketch::from` for one line: each character is parsed and stored
   * at its byte offset (`char_indices`), and the line's last `S` is reported. A character
   * that is not a pipe, or one stored beyond the grid's width, is a panic (`ok` false).
   */
  method ParseRow(line: string, row: seq<Pipe>) returns (ok: bool, row': seq<Pipe>, last: Option<nat>)
    ensures ok <==> RowParsable(line, |row|)
    ensures ok ==> row' == WriteRow(row, line, |line|) && last == LastStart(line, |line|)
  {
    row' := row;
    last := None;
    var i, offset := 0, 0;
    while i < |line|
      invariant 0 <= i <= |line|
      invariant offset == ByteOffset(line, i)
      invariant PrefixParsable(line, i, |row|)
      invariant row' == WriteRow(row, line, i)
      invariant last == LastStart(line, i)
    {
      var pipe := ParsePipe(line[i]);
      if pipe.None? {
        NotParsableBeyond(line, i + 1, |line|, |row|);
        return false, row', last;
      }
      if pipe.value == Start {
        last := Some(i);
      }
      if offset >= |row| {
        NotParsableBeyond(line, i + 1, |line|, |row|);
        return false, row', last;
      }
      row' := row'[offset := pipe.value];
      offset := offset + Utf8Len(line[i]);
      i := i + 1;
    }
    ok := true;
  }

  /** The grid rows for the first `y` lines, each line stored into a row of Ground. */
  function ParsedGrid(lines: seq<string>, y: nat, columns: nat): (g: seq<seq<Pipe>>)
    requires y <= |lines| && forall y' :: 0 <= y' < y ==> RowParsable(lines[y'], columns)
    ensures |g| == y
  {
    if y == 0 then []
    else
      var empty := seq(columns, _ => Ground);
      assert |empty| == columns && RowParsable(lines[y - 1], columns);
      ParsedGrid(lines, y - 1, columns) + [WriteRow(empty, lines[y - 1], |lines[y - 1]|)]
  }

  lemma {:induction false} ParsedGridRow(lines: seq<string>, y: nat, columns: nat, k: nat)
    requires y <= |lines| && (forall y' :: 0 <= y' < y ==> RowParsable(lines[y'], columns)) && k < y
    ensures ParsedGrid(lines, y, columns)[k] == WriteRow(seq(columns, _ => Ground), lines[k], |lines[k]|)
  {
    if k < y - 1 {
      ParsedGridRow(lines, y - 1, columns, k);
    }
  }

  /**
   * The parsed grid is `|lines|` by `columns`, holds every character's pipe at the
   * character's byte offset in its row, and Ground in every cell no character is stored at.
   */
  lemma ParsedGridCells(lines: seq<string>, columns: nat)
    requires Parsable(lines, columns)
    ensures IsGrid(ParsedGrid(lines, |lines|, columns), |lines|, columns)
    ensures forall y, i {:trigger ParsePipe(lines[y][i])} :: 0 <= y < |lines| && 0 <= i < |lines[y]| ==>
      ParsePipe(lines[y][i]).Some? && ByteOffset(lines[y], i) < columns
      && ParsedGrid(lines, |lines|, columns)[y][ByteOffset(lines[y], i)] == ParsePipe(lines[y][i]).value
    ensures forall y, x :: 0 <= y < |lines| && 0 <= x < columns && !WrittenAt(lines[y], x) ==>
      ParsedGrid(lines, |lines|, columns)[y][x] == Ground
  {
    var grid := ParsedGrid(lines, |lines|, columns);
    var empty := seq(columns, _ => Ground);
    forall y | 0 <= y < |lines|
      ensures grid[y] == WriteRow(empty, lines[y], |lines[y]|) && |grid[y]| == columns
    {
      ParsedGridRow(lines, |lines|, columns, y);
    }
    forall y, i | 0 <= y < |lines| && 0 <= i < |lines[y]|
      ensures ParsePipe(lines[y][i]).Some? && ByteOffset(lines[y], i) < columns
      ensures grid[y][ByteOffset(lines[y], i)] == ParsePipe(lines[y][i]).value
    {
      WriteRowAt(empty, lines[y], |lines[y]|, i);
    }
    forall y, x | 0 <= y < |lines| && 0 <= x < columns && !WrittenAt(lines[y], x)
      ensures grid[y][x] == Ground
    {
      WriteRowElsewhere(empty, lines[y], |lines[y]|, x);
    }
  }

  /** The start after the first `y` lines: the last `S` of the last of them that has one. */
  function StartOf(lines: seq<string>, y: nat): (r: Option<Pos>)
    requires y <= |lines|
    ensures r.Some? ==> r.value.0 < y
  {
    if y == 0 then None
    else
      var last := LastStart(lines[y - 1], |lines[y - 1]|);
      if last.Some? then Some((y - 1, ByteOffset(lines[y - 1], last.value))) else StartOf(lines, y - 1)
  }

  /**
   * There is a start exactly when some line has an `S`; it lies in the last such line,
   * at the byte offset of that line's last `S` (see `LastStartMeans`).
   */
  lemma {:induction false} StartOfMeans(lines: seq<string>, y: nat)
    requires y <= |lines|
    ensures StartOf(lines, y).None? <==> forall y' :: 0 <= y' < y ==> 'S' !in lines[y']
    ensures StartOf(lines, y).Some? ==> var p := StartOf(lines, y).value;
      (forall y' :: p.0 < y' < y ==> 'S' !in lines[y'])
      && LastStart(lines[p.0], |lines[p.0]|).Some?
      && p.1 == ByteOffset(lines[p.0], LastStart(lines[p.0], |lines[p.0]|).value)
  {
    if y > 0 {
      var line := lines[y - 1];
      LastStartMeans(line, |line|);
      StartOfMeans(lines, y - 1);
    }
  }

  /** On parsable lines the start lies inside the grid's width. */
  lemma {:induction false} StartInWidth(lines: seq<string>, y: nat, columns: nat)
    requires y <= |lines| && forall y' :: 0 <= y' < y ==> RowParsable(lines[y'], columns)
    ensures StartOf(lines, y).Some? ==> StartOf(lines, y).value.1 < columns
  {
    if y > 0 {
      var line := lines[y - 1];
      if LastStart(line, |line|).Some? {
        PrefixParsableMeans(line, |line|, columns);
        assert CharFits(line, LastStart(line, |line|).value, columns);
      } else {
        StartInWidth(lines, y - 1, columns);
      }
    }
  }

  /**
   * `Sketch::from`, given the file's lines: the grid is as high as the number of lines
   * and as wide as the first line has characters (see `ParsedGridCells`); the start is
   * the last `S` read (see `StartOfMeans`). An empty file, a character that is not a
   * pipe, or a character stored beyond the first line's width is a panic (`None`).
   */
  method FromLines(lines: seq<string>) returns (r: Option<Sketch>)
    ensures r.None? <==> |lines| == 0 || !Parsable(lines, |lines[0]|)
    ensures r.Some? ==>
      r.value.Valid() && r.value.rows == |lines| && r.value.columns == |lines[0]|
      && r.value.grid == ParsedGrid(lines, |lines|, |lines[0]|)
      && r.value.start == StartOf(lines, |lines|)
  {
    if |lines| == 0 {
      return None;
    }
    var rows, columns := |lines|, |lines[0]|;
    var ok, grid, start := ParseRows(lines, columns);
    if !ok {
      return None;
    }
    ParsedGridCells(lines, columns);
    StartInWidth(lines, rows, columns);
    r := Some(Sketch(grid, rows, columns, start));
  }

  /** The loop of `Sketch::from` over the lines, each stored in a row of `columns` tiles. */
  method ParseRows(lines: seq<string>, columns: nat) returns (ok: bool, grid: seq<seq<Pipe>>, start: Option<Pos>)
    ensures ok <==> Parsable(lines, columns)
    ensures ok ==> grid == ParsedGrid(lines, |lines|, columns) && start == StartOf(lines, |lines|)
  {
    var empty := seq(columns, _ => Ground);
    grid := [];
    start := None;
    var y := 0;
    while y < |lines|
      invariant RowsState(lines, columns, y, grid, start)
      decreases |lines| - y
    {
      var rowOk, row, last := ParseRow(lines[y], empty);
      if !rowOk {
        return false, grid, start;
      }
      RowsStep(lines, columns, y, grid, start, row, last);
      grid, start := grid + [row], if last.Some? then Some((y, ByteOffset(lines[y], last.value))) else start;
      y := y + 1;
    }
    ok := true;
  }

  /** The first `y` lines are parsable, and the grid and the start are the ones they give. */
  ghost predicate RowsState(lines: seq<string>, columns: nat, y: nat, grid: seq<seq<Pipe>>, start: Option<Pos>)
  {
    y <= |lines| && (forall y' :: 0 <= y' < y ==> RowParsable(lines[y'], columns))
    && grid == ParsedGrid(lines, y, columns) && start == StartOf(lines, y)
  }

  lemma RowsStep(lines: seq<string>, columns: nat, y: nat, grid: seq<seq<Pipe>>, start: Option<Pos>,
                 row: seq<Pipe>, last: Option<nat>)
    requires RowsState(lines, columns, y, grid, start) && y < |lines|
    requires RowParsable(lines[y], columns)
    requires row == WriteRow(seq(columns, _ => Ground), lines[y], |lines[y]|) && last == LastStart(lines[y], |lines[y]|)
    ensures RowsState(lines, columns, y + 1, grid + [row],
                      if last.Some? then Some((y, ByteOffset(lines[y], last.value))) else start)
  {
  }

  // ---------------------------------------------------------------------------
  // Walks along the pipes
  // ---------------------------------------------------------------------------

  /** From the start, a step onto a neighbour that connects back to it. */
  predicate StartStep(sk: Sketch, a: Pos, b: Pos)
    requires sk.Valid() && InGrid(b, sk.rows, sk.columns)
  {
    exists side: Side :: GetPos(side, a) == Some(b) && ConnectsFrom(sk.At(b), side)
  }

  /** From any other tile, a step through one of the sides its pipe opens to. */
  predicate PipeStep(sk: Sketch, a: Pos, b: Pos)
    requires sk.Valid() && InGrid(a, sk.rows, sk.columns)
  {
    IsPipe(sk.At(a)) && exists side: Side :: side in GetSides(sk.At(a)).value && GetPos(side, a) == Some(b)
  }

  /** A walk of `|w| - 1` steps from the start along the pipes, inside the grid. */
  predicate IsWalk(sk: Sketch, w: seq<Pos>)
    requires sk.Valid()
  {
    sk.start.Some? && |w| >= 1 && w[0] == sk.start.value
    && (forall i :: 0 <= i < |w| ==> InGrid(w[i], sk.rows, sk.columns))
    && (|w| >= 2 ==> StartStep(sk, w[0], w[1]))
    && (forall i :: 1 <= i < |w| - 1 ==> PipeStep(sk, w[i], w[i + 1]))
  }

  lemma ExtendWalk(sk: Sketch, w: seq<Pos>, b: Pos)
    requires sk.Valid() && IsWalk(sk, w) && |w| >= 2 && InGrid(b, sk.rows, sk.columns)
    requires PipeStep(sk, w[|w| - 1], b)
    ensures IsWalk(sk, w + [b])
  {
    var w' := w + [b];
    forall i | 1 <= i < |w'| - 1
      ensures PipeStep(sk, w'[i], w'[i + 1])
    {
      if i < |w| - 1 {
        assert w'[i] == w[i] && w'[i + 1] == w[i + 1];
      }
    }
  }

  lemma FirstStep(sk: Sketch, side: Side, p: Pos)
    requires sk.Valid() && sk.start.Some? && InGrid(p, sk.rows, sk.columns)
    requires GetPos(side, sk.start.value) == Some(p) && ConnectsFrom(sk.At(p), side)
    ensures IsWalk(sk, [sk.start.value, p])
  {
    assert StartStep(sk, sk.start.value, p);
  }

  /** A walk cut short is a walk. */
  lemma WalkPrefix(sk: Sketch, w: seq<Pos>, m: nat)
    requires sk.Valid() && IsWalk(sk, w) && 1 <= m <= |w|
    ensures IsWalk(sk, w[..m])
  {
    var v := w[..m];
    forall i | 1 <= i < |v| - 1
      ensures PipeStep(sk, v[i], v[i + 1])
    {
      assert v[i] == w[i] && v[i + 1] == w[i + 1];
    }
  }

  /** A tile is reached by a walk of at least one step from the start through the input's pipes. */
  ghost predicate Reached(sk: Sketch, p: Pos)
    requires sk.Valid()
  {
    exists w :: IsWalk(sk, w) && |w| >= 2 && w[|w| - 1] == p
  }

  /** The sides of the pipe at `pos` lead to tiles inside the grid, wherever they lead to a tile. */
  predicate SidesInGrid(sk: Sketch, pos: Pos)
    requires sk.Valid() && InGrid(pos, sk.rows, sk.columns) && IsPipe(sk.At(pos))
  {
    forall side :: side in GetSides(sk.At(pos)).value && GetPos(side, pos).Some? ==>
      InGrid(GetPos(side, pos).value, sk.rows, sk.columns)
  }

  /**
   * Every tile reached from the start along the pipes, other than the start, is a pipe
   * whose sides lead inside the grid. On such a sketch neither the search nor the copy of
   * the main loop panics.
   */
  ghost predicate Sound(sk: Sketch)
    requires sk.Valid() && sk.start.Some?
  {
    forall p: Pos :: InGrid(p, sk.rows, sk.columns) && p != sk.start.value && Reached(sk, p) ==>
      IsPipe(sk.At(p)) && SidesInGrid(sk, p)
  }

  /** The neighbours of the start that exist are inside the grid. */
  predicate NeighboursInGrid(sk: Sketch, k: nat)
    requires sk.Valid() && sk.start.Some? && k <= |AllSides|
  {
    forall j :: 0 <= j < k && GetPos(AllSides[j], sk.start.value).Some? ==>
      InGrid(GetPos(AllSides[j], sk.start.value).value, sk.rows, sk.columns)
  }

  /**
   * The neighbours of the start that connect back to it, among the first `k` sides in
   * `Side::iter()` order: what the seeding loops of both searches queue.
   */
  function SeedQueue(sk: Sketch, k: nat): (r: seq<Pos>)
    requires sk.Valid() && sk.start.Some? && k <= |AllSides| && NeighboursInGrid(sk, k)
    ensures forall q :: q in r ==> InGrid(q, sk.rows, sk.columns) && q != sk.start.value
  {
    if k == 0 then []
    else
      var pos := GetPos(AllSides[k - 1], sk.start.value);
      var r := SeedQueue(sk, k - 1);
      if pos.Some? && ConnectsFrom(sk.At(pos.value), AllSides[k - 1]) then r + [pos.value] else r
  }

  lemma {:induction false} SeedQueueMeans(sk: Sketch, k: nat, p: Pos)
    requires sk.Valid() && sk.start.Some? && k <= |AllSides| && NeighboursInGrid(sk, k)
    ensures p in SeedQueue(sk, k) <==>
      exists j :: 0 <= j < k && GetPos(AllSides[j], sk.start.value) == Some(p)
        && InGrid(p, sk.rows, sk.columns) && ConnectsFrom(sk.At(p), AllSides[j])
  {
    if k > 0 {
      SeedQueueMeans(sk, k - 1, p);
    }
  }

  /** The seeds are exactly the tiles one step from the start. */
  lemma SeedsAreFirstSteps(sk: Sketch, p: Pos)
    requires sk.Valid() && sk.start.Some? && NeighboursInGrid(sk, |AllSides|)
    ensures p in SeedQueue(sk, |AllSides|) <==> InGrid(p, sk.rows, sk.columns) && StartStep(sk, sk.start.value, p)
  {
    var s := sk.start.value;
    SeedQueueMeans(sk, |AllSides|, p);
    if InGrid(p, sk.rows, sk.columns) && StartStep(sk, s, p) {
      var side :| GetPos(side, s) == Some(p) && ConnectsFrom(sk.At(p), side);
      var j := match side case Up => 0 case Right => 1 case Down => 2 case Left => 3;
      assert AllSides[j] == side;
    }
  }

  // ---------------------------------------------------------------------------
  // Steps to the farthest point (`get_steps_to_farthest_point`)
  // ---------------------------------------------------------------------------

  function KnownWeight(d: Option<nat>): nat
  {
    if d.Some? then 1 else 0
  }

  /** The termination measure of the search: Unknown weighs more than any recorded distance. */
  function DistanceWeight(bound: nat): Option<nat> -> nat
  {
    (d: Option<nat>) => if d.None? then bound else d.value
  }

  /** Every recorded distance `d` of a tile is the length of a recorded walk from the start to it. */
  ghost predicate Recorded(sk: Sketch, dist: seq<seq<Option<nat>>>, paths: map<Pos, seq<Pos>>)
    requires sk.Valid() && IsGrid(dist, sk.rows, sk.columns)
  {
    forall y, x :: 0 <= y < sk.rows && 0 <= x < sk.columns && dist[y][x].Some? ==>
      (y, x) in paths && IsWalk(sk, paths[(y, x)])
      && |paths[(y, x)]| == dist[y][x].value + 1 && paths[(y, x)][dist[y][x].value] == (y, x)
  }

  lemma RecordedUpdate(sk: Sketch, dist: seq<seq<Option<nat>>>, paths: map<Pos, seq<Pos>>, p: Pos, d: nat, w: seq<Pos>)
    requires sk.Valid() && IsGrid(dist, sk.rows, sk.columns) && Recorded(sk, dist, paths)
    requires InGrid(p, sk.rows, sk.columns) && IsWalk(sk, w) && |w| == d + 1 && w[d] == p
    ensures IsGrid(Update(dist, p, Some(d)), sk.rows, sk.columns)
    ensures Recorded(sk, Update(dist, p, Some(d)), paths[p := w])
  {
  }

  /** Recorded distances are below `known`, and only the start is at distance 0. */
  predicate Bounded(sk: Sketch, dist: seq<seq<Option<nat>>>, known: nat)
    requires sk.Valid() && sk.start.Some? && IsGrid(dist, sk.rows, sk.columns)
  {
    forall y, x :: 0 <= y < sk.rows && 0 <= x < sk.columns && dist[y][x].Some? ==>
      dist[y][x].value < known && ((y, x) != sk.start.value ==> dist[y][x].value >= 1)
  }

  lemma BoundedUpdate(sk: Sketch, dist: seq<seq<Option<nat>>>, known: nat, known': nat, p: Pos, d: nat)
    requires sk.Valid() && sk.start.Some? && IsGrid(dist, sk.rows, sk.columns) && Bounded(sk, dist, known)
    requires InGrid(p, sk.rows, sk.columns) && p != sk.start.value && 1 <= d < known' && known <= known'
    ensures Bounded(sk, Update(dist, p, Some(d)), known')
  {
  }

  /**
   * What holds of the search at every step: the start is at distance 0, every other
   * recorded distance is at least 1 and smaller than the number of recorded tiles, every
   * queued tile has a distance, and every recorded distance is the length of a walk.
   */
  ghost predicate SearchState(sk: Sketch, dist: seq<seq<Option<nat>>>, queue: seq<Pos>, known: nat,
                              paths: map<Pos, seq<Pos>>)
    requires sk.Valid() && sk.start.Some?
  {
    var s := sk.start.value;
    IsGrid(dist, sk.rows, sk.columns)
    && dist[s.0][s.1] == Some(0)
    && known == GridSum(dist, KnownWeight) && 1 <= known
    && Queued(sk, dist, queue)
    && Bounded(sk, dist, known)
    && Recorded(sk, dist, paths)
  }

  /** Every queued tile is inside the grid, is not the start, and has a distance. */
  predicate Queued(sk: Sketch, dist: seq<seq<Option<nat>>>, queue: seq<Pos>)
    requires sk.Valid() && sk.start.Some? && IsGrid(dist, sk.rows, sk.columns)
  {
    forall q :: q in queue ==> InGrid(q, sk.rows, sk.columns) && q != sk.start.value && dist[q.0][q.1].Some?
  }

  lemma QueuedAppend(sk: Sketch, dist: seq<seq<Option<nat>>>, queue: seq<Pos>, p: Pos, d: nat)
    requires sk.Valid() && sk.start.Some? && IsGrid(dist, sk.rows, sk.columns) && Queued(sk, dist, queue)
    requires InGrid(p, sk.rows, sk.columns) && p != sk.start.value
    ensures Queued(sk, Update(dist, p, Some(d)), queue + [p])
  {
  }

  lemma KnownBelowSize(sk: Sketch, dist: seq<seq<Option<nat>>>)
    requires IsGrid(dist, sk.rows, sk.columns)
    ensures GridSum(dist, KnownWeight) <= sk.rows * sk.columns
  {
    GridSumBound(dist, sk.rows, sk.columns, KnownWeight, 1);
  }

  lemma FilledSum<T>(rows: nat, columns: nat, v: T, f: T -> nat)
    requires f(v) == 0
    ensures GridSum(Filled(rows, columns, v), f) == 0
  {
    GridSumBound(Filled(rows, columns, v), rows, columns, f, 0);
  }

  /** Before the search proper, the start is at 0, the queued tiles at 1, and no other tile has a distance. */
  predicate SeedDist(sk: Sketch, queue: seq<Pos>, dist: seq<seq<Option<nat>>>)
    requires sk.Valid() && sk.start.Some? && IsGrid(dist, sk.rows, sk.columns)
  {
    forall y, x :: 0 <= y < sk.rows && 0 <= x < sk.columns ==>
      dist[y][x] == if (y, x) == sk.start.value then Some(0) else if (y, x) in queue then Some(1) else None
  }

  lemma SeedDistUpdate(sk: Sketch, queue: seq<Pos>, dist: seq<seq<Option<nat>>>, p: Pos)
    requires sk.Valid() && sk.start.Some? && IsGrid(dist, sk.rows, sk.columns) && SeedDist(sk, queue, dist)
    requires InGrid(p, sk.rows, sk.columns) && p != sk.start.value
    ensures SeedDist(sk, queue + [p], Update(dist, p, Some(1)))
  {
  }

  /** What the seeding loop keeps after looking at the first `k` sides of the start. */
  ghost predicate SeedState(sk: Sketch, k: nat, dist: seq<seq<Option<nat>>>, queue: seq<Pos>, known: nat,
                            paths: map<Pos, seq<Pos>>)
    requires sk.Valid() && sk.start.Some?
  {
    k <= |AllSides| && NeighboursInGrid(sk, k) && SearchState(sk, dist, queue, known, paths)
    && queue == SeedQueue(sk, k) && SeedDist(sk, queue, dist)
  }

  lemma SeedInitial(sk: Sketch)
    requires sk.Valid() && sk.start.Some?
    ensures var s := sk.start.value;
      SeedState(sk, 0, Update(Filled(sk.rows, sk.columns, None), s, Some(0)), [], 1, map[s := [s]])
  {
    var s := sk.start.value;
    var dist := Filled(sk.rows, sk.columns, None);
    FilledSum(sk.rows, sk.columns, None, KnownWeight);
    GridSumUpdate(dist, s, Some(0), KnownWeight);
  }

  /** Recording the one-step walk to a connecting neighbour keeps the search state. */
  lemma SeedAddSearch(sk: Sketch, k: nat, dist: seq<seq<Option<nat>>>, queue: seq<Pos>, known: nat,
                paths: map<Pos, seq<Pos>>, p: Pos)
    requires sk.Valid() && sk.start.Some? && SeedState(sk, k, dist, queue, known, paths) && k < |AllSides|
    requires GetPos(AllSides[k], sk.start.value) == Some(p) && InGrid(p, sk.rows, sk.columns)
    requires ConnectsFrom(sk.At(p), AllSides[k])
    ensures var s := sk.start.value;
      SearchState(sk, Update(dist, p, Some(1)), queue + [p],
                  if dist[p.0][p.1].None? then known + 1 else known, paths[p := [s, p]])
  {
    var s := sk.start.value;
    var known' := if dist[p.0][p.1].None? then known + 1 else known;
    GridSumUpdate(dist, p, Some(1), KnownWeight);
    FirstStep(sk, AllSides[k], p);
    RecordedUpdate(sk, dist, paths, p, 1, [s, p]);
    BoundedUpdate(sk, dist, known, known', p, 1);
    QueuedAppend(sk, dist, queue, p, 1);
  }

  /** A neighbour that connects back to the start is recorded at distance 1 and queued. */
  lemma SeedAdd(sk: Sketch, k: nat, dist: seq<seq<Option<nat>>>, queue: seq<Pos>, known: nat,
                paths: map<Pos, seq<Pos>>, p: Pos)
    requires sk.Valid() && sk.start.Some? && SeedState(sk, k, dist, queue, known, paths) && k < |AllSides|
    requires GetPos(AllSides[k], sk.start.value) == Some(p) && InGrid(p, sk.rows, sk.columns)
    requires ConnectsFrom(sk.At(p), AllSides[k])
    ensures var s := sk.start.value;
      SeedState(sk, k + 1, Update(dist, p, Some(1)), queue + [p],
                if dist[p.0][p.1].None? then known + 1 else known, paths[p := [s, p]])
  {
    SeedAddSearch(sk, k, dist, queue, known, paths, p);
    SeedDistUpdate(sk, queue, dist, p);
  }

  /** A side with no neighbour, or whose neighbour does not connect back, changes nothing. */
  lemma SeedSkip(sk: Sketch, k: nat, dist: seq<seq<Option<nat>>>, queue: seq<Pos>, known: nat,
                 paths: map<Pos, seq<Pos>>)
    requires sk.Valid() && sk.start.Some? && SeedState(sk, k, dist, queue, known, paths) && k < |AllSides|
    requires var pos := GetPos(AllSides[k], sk.start.value);
      pos.Some? ==> InGrid(pos.value, sk.rows, sk.columns) && !ConnectsFrom(sk.At(pos.value), AllSides[k])
    ensures SeedState(sk, k + 1, dist, queue, known, paths)
  {
  }

  /**
   * One round of the seeding loop of the search: the neighbour across side `k` of the
   * start, if it connects back, is recorded at distance 1 and queued. A Right or Down
   * neighbour outside the grid is an out-of-bounds index (`ok` false).
   */
  method SeedNeighbour(sk: Sketch, k: nat, dist: seq<seq<Option<nat>>>, queue: seq<Pos>, ghost known: nat,
                       ghost paths: map<Pos, seq<Pos>>)
    returns (ok: bool, dist': seq<seq<Option<nat>>>, queue': seq<Pos>, ghost known': nat,
             ghost paths': map<Pos, seq<Pos>>)
    requires sk.Valid() && sk.start.Some? && SeedState(sk, k, dist, queue, known, paths) && k < |AllSides|
    ensures var pos := GetPos(AllSides[k], sk.start.value);
      ok <==> pos.None? || InGrid(pos.value, sk.rows, sk.columns)
    ensures ok ==> SeedState(sk, k + 1, dist', queue', known', paths')
  {
    var s := sk.start.value;
    var side := AllSides[k];
    var pos := GetPos(side, s);
    ok, dist', queue', known', paths' := pos.None? || InGrid(pos.value, sk.rows, sk.columns), dist, queue, known, paths;
    if pos.Some? && ok && ConnectsFrom(sk.At(pos.value), side) {
      var p := pos.value;
      SeedAdd(sk, k, dist, queue, known, paths, p);
      known' := if dist[p.0][p.1].None? then known + 1 else known;
      dist' := Update(dist, p, Some(1));
      paths' := paths[p := [s, p]];
      queue' := queue + [p];
    } else if ok {
      SeedSkip(sk, k, dist, queue, known, paths);
    }
  }

  /**
   * The seeding loop of the search: the start at distance 0 and each neighbour that
   * connects back to it at distance 1, queued in `Side::iter()` order. A Right or Down
   * neighbour outside the grid is an out-of-bounds index (`ok` false).
   */
  method SeedSearch(sk: Sketch) returns (ok: bool, dist: seq<seq<Option<nat>>>, queue: seq<Pos>,
                                         ghost known: nat, ghost paths: map<Pos, seq<Pos>>)
    requires sk.Valid() && sk.start.Some?
    ensures ok <==> NeighboursInGrid(sk, |AllSides|)
    ensures ok ==> SearchState(sk, dist, queue, known, paths)
    ensures ok ==> queue == SeedQueue(sk, |AllSides|) && SeedDist(sk, queue, dist)
  {
    var s := sk.start.value;
    SeedInitial(sk);
    dist := Update(Filled(sk.rows, sk.columns, None), s, Some(0));
    known := 1;
    paths := map[s := [s]];
    queue := [];
    var k := 0;
    ok := true;
    while k < |AllSides| && ok
      invariant k <= |AllSides|
      invariant ok ==> SeedState(sk, k, dist, queue, known, paths)
      invariant !ok ==> !NeighboursInGrid(sk, |AllSides|)
    {
      ghost var k0 := k;
      ok, dist, queue, known, paths := SeedNeighbour(sk, k, dist, queue, known, paths);
      k := k + 1;
      assert !ok ==> !NeighboursInGrid(sk, |AllSides|) by {
        if !ok {
          assert GetPos(AllSides[k0], s).Some? && !InGrid(GetPos(AllSides[k0], s).value, sk.rows, sk.columns);
        }
      }
    }
  }

  /** A walk of `n` steps from the start ends at `p`. */
  ghost predicate WalkTo(sk: Sketch, p: Pos, n: nat)
    requires sk.Valid()
  {
    exists w :: IsWalk(sk, w) && |w| == n + 1 && w[n] == p
  }

  /** On a sound sketch a queued tile is a pipe whose sides lead inside the grid. */
  lemma QueuedSound(sk: Sketch, dist: seq<seq<Option<nat>>>, queue: seq<Pos>, known: nat,
                    paths: map<Pos, seq<Pos>>, q: Pos)
    requires sk.Valid() && sk.start.Some? && SearchState(sk, dist, queue, known, paths) && q in queue
    ensures InGrid(q, sk.rows, sk.columns) && dist[q.0][q.1].Some?
    ensures Sound(sk) ==> IsPipe(sk.At(q)) && SidesInGrid(sk, q)
  {
    QueuedReached(sk, dist, queue, known, paths, q);
  }

  /** A queued tile is reached from the start: its recorded walk has at least one step. */
  lemma QueuedReached(sk: Sketch, dist: seq<seq<Option<nat>>>, queue: seq<Pos>, known: nat,
                      paths: map<Pos, seq<Pos>>, q: Pos)
    requires sk.Valid() && sk.start.Some? && SearchState(sk, dist, queue, known, paths) && q in queue
    ensures InGrid(q, sk.rows, sk.columns) && Reached(sk, q)
  {
    var w := paths[q];
    assert IsWalk(sk, w) && |w| >= 2 && w[|w| - 1] == q;
  }

  /**
   * Recording a walk of `cur` steps to `p`, which had no distance or a larger one, keeps
   * the search's invariant.
   */
  lemma Relax(sk: Sketch, dist: seq<seq<Option<nat>>>, queue: seq<Pos>, known: nat, paths: map<Pos, seq<Pos>>,
              p: Pos, cur: nat, w: seq<Pos>)
    requires sk.Valid() && sk.start.Some? && SearchState(sk, dist, queue, known, paths)
    requires InGrid(p, sk.rows, sk.columns) && IsWalk(sk, w) && |w| == cur + 1 && w[cur] == p
    requires 1 <= cur <= known && (dist[p.0][p.1].None? || cur < dist[p.0][p.1].value)
    ensures var known' := if dist[p.0][p.1].None? then known + 1 else known;
      SearchState(sk, Update(dist, p, Some(cur)), queue + [p], known', paths[p := w])
      && cur < known' <= sk.rows * sk.columns
  {
    var known' := if dist[p.0][p.1].None? then known + 1 else known;
    var dist' := Update(dist, p, Some(cur));
    GridSumUpdate(dist, p, Some(cur), KnownWeight);
    RecordedUpdate(sk, dist, paths, p, cur, w);
    BoundedUpdate(sk, dist, known, known', p, cur);
    QueuedAppend(sk, dist, queue, p, cur);
    KnownBelowSize(sk, dist');
  }

  /** The same step lowers the search's termination measure. */
  lemma RelaxMeasure(dist: seq<seq<Option<nat>>>, p: Pos, cur: nat, n: nat)
    requires p.0 < |dist| && p.1 < |dist[p.0]| && cur < n
    requires dist[p.0][p.1].None? || cur < dist[p.0][p.1].value
    ensures GridSum(Update(dist, p, Some(cur)), DistanceWeight(n)) < GridSum(dist, DistanceWeight(n))
  {
    GridSumUpdate(dist, p, Some(cur), DistanceWeight(n));
  }

  /** Every cell keeps its distance, or is given `cur` because it had none or a larger one. */
  predicate Relaxed(sk: Sketch, dist: seq<seq<Option<nat>>>, dist': seq<seq<Option<nat>>>, cur: nat)
    requires sk.Valid() && IsGrid(dist, sk.rows, sk.columns) && IsGrid(dist', sk.rows, sk.columns)
  {
    forall y, x :: 0 <= y < sk.rows && 0 <= x < sk.columns ==>
      dist'[y][x] == dist[y][x] || (dist'[y][x] == Some(cur) && (dist[y][x].None? || cur < dist[y][x].value))
  }

  /**
   * `queue'` is `queue` followed by tiles given distance `cur`, and every cell whose
   * distance changed is among those.
   */
  predicate AppendedAt(sk: Sketch, dist: seq<seq<Option<nat>>>, dist': seq<seq<Option<nat>>>,
                       queue: seq<Pos>, queue': seq<Pos>, cur: nat)
    requires sk.Valid() && IsGrid(dist, sk.rows, sk.columns) && IsGrid(dist', sk.rows, sk.columns)
  {
    |queue| <= |queue'| && queue'[..|queue|] == queue
    && (forall i :: |queue| <= i < |queue'| ==>
          InGrid(queue'[i], sk.rows, sk.columns) && dist'[queue'[i].0][queue'[i].1] == Some(cur))
    && (forall y, x :: 0 <= y < sk.rows && 0 <= x < sk.columns && dist'[y][x] != dist[y][x] ==>
          (y, x) in queue'[|queue|..])
  }

  /** The side `side` of the tile `u` leads, if anywhere, to a tile of the grid with a distance of at most `bound`. */
  predicate SideWithin(sk: Sketch, dist: seq<seq<Option<nat>>>, u: Pos, side: Side, bound: nat)
    requires sk.Valid() && IsGrid(dist, sk.rows, sk.columns)
  {
    GetPos(side, u).Some? ==>
      var t := GetPos(side, u).value;
      InGrid(t, sk.rows, sk.columns) && dist[t.0][t.1].Some? && dist[t.0][t.1].value <= bound
  }

  /** Every side the pipe at `u` opens to leads within `bound`. */
  predicate ClosedWithin(sk: Sketch, dist: seq<seq<Option<nat>>>, u: Pos, bound: nat)
    requires sk.Valid() && IsGrid(dist, sk.rows, sk.columns) && InGrid(u, sk.rows, sk.columns)
  {
    IsPipe(sk.At(u)) && forall side :: side in GetSides(sk.At(u)).value ==> SideWithin(sk, dist, u, side, bound)
  }

  /** A distance of at most `bound` is kept by a step that only relaxes to `cur >= bound`. */
  lemma SideWithinKept(sk: Sketch, dist: seq<seq<Option<nat>>>, dist': seq<seq<Option<nat>>>, u: Pos, side: Side,
                       bound: nat, cur: nat)
    requires sk.Valid() && IsGrid(dist, sk.rows, sk.columns) && IsGrid(dist', sk.rows, sk.columns)
    requires Relaxed(sk, dist, dist', cur) && bound <= cur && SideWithin(sk, dist, u, side, bound)
    ensures SideWithin(sk, dist', u, side, bound)
  {
  }

  /**
   * What visiting the first `k` sides of the tile `pos`, at distance `cur - 1`, has done:
   * the search state is kept; every cell kept its distance or was given `cur` because it
   * had none or a larger one; the tiles given `cur` were appended to the queue; `longest`
   * became `cur` if any was; each of those `k` sides leads to a tile at distance at most
   * `cur`; and the termination measure did not grow, shrinking if anything was queued.
   */
  ghost predicate VisitState(sk: Sketch, pos: Pos, cur: nat, dist: seq<seq<Option<nat>>>, queue: seq<Pos>,
                             longest: nat, k: nat, dist': seq<seq<Option<nat>>>, queue': seq<Pos>, known': nat,
                             paths': map<Pos, seq<Pos>>, longest': nat)
    requires sk.Valid() && sk.start.Some? && InGrid(pos, sk.rows, sk.columns) && IsPipe(sk.At(pos))
    requires IsGrid(dist, sk.rows, sk.columns) && k <= 2
  {
    var n := sk.rows * sk.columns;
    SearchState(sk, dist', queue', known', paths') && cur <= known' <= n
    && Relaxed(sk, dist, dist', cur) && AppendedAt(sk, dist, dist', queue, queue', cur)
    && longest' == (if |queue'| > |queue| then cur else longest)
    && (forall j :: 0 <= j < k ==> SideWithin(sk, dist', pos, GetSides(sk.At(pos)).value[j], cur))
    && GridSum(dist', DistanceWeight(n)) <= GridSum(dist, DistanceWeight(n))
    && (GridSum(dist', DistanceWeight(n)) == GridSum(dist, DistanceWeight(n)) ==> queue' == queue)
  }

  /**
   * The body of the inner loop of `get_steps_to_farthest_point`: side `k` of the tile
   * `pos`. A neighbour with no distance, or a larger one than `cur`, gets `cur` and is
   * queued. A neighbour outside the grid is an index error once it is dequeued (`ok`
   * false).
   */
  method VisitSide(sk: Sketch, pos: Pos, cur: nat, ghost walkToPos: seq<Pos>,
                   ghost dist: seq<seq<Option<nat>>>, ghost queue: seq<Pos>, ghost longest: nat, k: nat,
                   dist0: seq<seq<Option<nat>>>, queue0: seq<Pos>, ghost known0: nat, ghost paths0: map<Pos, seq<Pos>>,
                   longest0: nat)
    returns (ok: bool, dist': seq<seq<Option<nat>>>, queue': seq<Pos>, ghost known': nat, ghost paths': map<Pos, seq<Pos>>,
             longest': nat)
    requires sk.Valid() && sk.start.Some? && InGrid(pos, sk.rows, sk.columns) && IsPipe(sk.At(pos))
    requires IsGrid(dist, sk.rows, sk.columns) && k < 2 && 2 <= cur
    requires IsWalk(sk, walkToPos) && |walkToPos| == cur && walkToPos[cur - 1] == pos
    requires VisitState(sk, pos, cur, dist, queue, longest, k, dist0, queue0, known0, paths0, longest0)
    ensures var t := GetPos(GetSides(sk.At(pos)).value[k], pos);
      ok <==> t.None? || InGrid(t.value, sk.rows, sk.columns)
    ensures ok ==> VisitState(sk, pos, cur, dist, queue, longest, k + 1, dist', queue', known', paths', longest')
  {
    var side := GetSides(sk.At(pos)).value[k];
    dist', queue', known', paths', longest' := dist0, queue0, known0, paths0, longest0;
    var next := GetPos(side, pos);
    // The source records and queues a position outside the grid too; reading its pipe
    // when it is dequeued panics.
    ok := next.None? || InGrid(next.value, sk.rows, sk.columns);
    if next.Some? && ok {
      var p := next.value;
      var replace := match dist'[p.0][p.1] case None => true case Some(d) => cur < d;
      if replace {
        VisitRelax(sk, pos, cur, walkToPos, dist, queue, longest, k, dist0, queue0, known0, paths0, longest0, p);
        known' := if dist'[p.0][p.1].None? then known' + 1 else known';
        dist' := Update(dist', p, Some(cur));
        paths' := paths'[p := walkToPos + [p]];
        longest' := cur;
        queue' := queue' + [p];
      }
    }
  }

  /** Recording the walk to `p` keeps the search state and lowers the termination measure. */
  lemma VisitRelaxSearch(sk: Sketch, pos: Pos, cur: nat, walkToPos: seq<Pos>,
                   dist: seq<seq<Option<nat>>>, queue: seq<Pos>, longest: nat, k: nat,
                   dist0: seq<seq<Option<nat>>>, queue0: seq<Pos>, known0: nat, paths0: map<Pos, seq<Pos>>,
                   longest0: nat, p: Pos)
    requires sk.Valid() && sk.start.Some? && InGrid(pos, sk.rows, sk.columns) && IsPipe(sk.At(pos))
    requires IsGrid(dist, sk.rows, sk.columns) && k < 2 && 2 <= cur
    requires IsWalk(sk, walkToPos) && |walkToPos| == cur && walkToPos[cur - 1] == pos
    requires VisitState(sk, pos, cur, dist, queue, longest, k, dist0, queue0, known0, paths0, longest0)
    requires GetPos(GetSides(sk.At(pos)).value[k], pos) == Some(p) && InGrid(p, sk.rows, sk.columns)
    requires dist0[p.0][p.1].None? || cur < dist0[p.0][p.1].value
    ensures var known' := if dist0[p.0][p.1].None? then known0 + 1 else known0;
      var n := sk.rows * sk.columns;
      SearchState(sk, Update(dist0, p, Some(cur)), queue0 + [p], known', paths0[p := walkToPos + [p]])
      && cur <= known' <= n
      && GridSum(Update(dist0, p, Some(cur)), DistanceWeight(n)) < GridSum(dist0, DistanceWeight(n))
  {
    assert PipeStep(sk, pos, p);
    ExtendWalk(sk, walkToPos, p);
    Relax(sk, dist0, queue0, known0, paths0, p, cur, walkToPos + [p]);
    RelaxMeasure(dist0, p, cur, sk.rows * sk.columns);
  }

  /** Giving `p` the distance `cur` keeps the visit's record of changes, and side `k` now leads within `cur`. */
  lemma VisitRelaxSides(sk: Sketch, pos: Pos, cur: nat, walkToPos: seq<Pos>,
                   dist: seq<seq<Option<nat>>>, queue: seq<Pos>, longest: nat, k: nat,
                   dist0: seq<seq<Option<nat>>>, queue0: seq<Pos>, known0: nat, paths0: map<Pos, seq<Pos>>,
                   longest0: nat, p: Pos)
    requires sk.Valid() && sk.start.Some? && InGrid(pos, sk.rows, sk.columns) && IsPipe(sk.At(pos))
    requires IsGrid(dist, sk.rows, sk.columns) && k < 2 && 2 <= cur
    requires IsWalk(sk, walkToPos) && |walkToPos| == cur && walkToPos[cur - 1] == pos
    requires VisitState(sk, pos, cur, dist, queue, longest, k, dist0, queue0, known0, paths0, longest0)
    requires GetPos(GetSides(sk.At(pos)).value[k], pos) == Some(p) && InGrid(p, sk.rows, sk.columns)
    requires dist0[p.0][p.1].None? || cur < dist0[p.0][p.1].value
    ensures IsGrid(Update(dist0, p, Some(cur)), sk.rows, sk.columns)
    ensures Relaxed(sk, dist, Update(dist0, p, Some(cur)), cur)
    ensures AppendedAt(sk, dist, Update(dist0, p, Some(cur)), queue, queue0 + [p], cur)
    ensures forall j :: 0 <= j < k + 1 ==> SideWithin(sk, Update(dist0, p, Some(cur)), pos, GetSides(sk.At(pos)).value[j], cur)
  {
    RelaxStep(sk, dist, dist0, queue, queue0, p, cur);
    RelaxSides(sk, pos, cur, k, dist0, p);
  }

  /** After giving `p`, across side `k` of `pos`, the distance `cur`, the first `k + 1` sides lead within `cur`. */
  lemma RelaxSides(sk: Sketch, pos: Pos, cur: nat, k: nat, dist0: seq<seq<Option<nat>>>, p: Pos)
    requires sk.Valid() && InGrid(pos, sk.rows, sk.columns) && IsPipe(sk.At(pos)) && IsGrid(dist0, sk.rows, sk.columns)
    requires k < 2 && forall j :: 0 <= j < k ==> SideWithin(sk, dist0, pos, GetSides(sk.At(pos)).value[j], cur)
    requires GetPos(GetSides(sk.At(pos)).value[k], pos) == Some(p) && InGrid(p, sk.rows, sk.columns)
    requires dist0[p.0][p.1].None? || cur < dist0[p.0][p.1].value
    ensures IsGrid(Update(dist0, p, Some(cur)), sk.rows, sk.columns)
    ensures forall j :: 0 <= j < k + 1 ==> SideWithin(sk, Update(dist0, p, Some(cur)), pos, GetSides(sk.At(pos)).value[j], cur)
  {
    var d := Update(dist0, p, Some(cur));
    forall j | 0 <= j < k + 1
      ensures SideWithin(sk, d, pos, GetSides(sk.At(pos)).value[j], cur)
    {
      if j < k {
        assert SideWithin(sk, dist0, pos, GetSides(sk.At(pos)).value[j], cur);
      }
    }
  }

  /**
   * Giving the neighbour `p` of `pos`, across side `k`, the distance `cur` and queueing
   * it takes the visit from `k` sides to `k + 1`.
   */
  lemma VisitRelax(sk: Sketch, pos: Pos, cur: nat, walkToPos: seq<Pos>,
                   dist: seq<seq<Option<nat>>>, queue: seq<Pos>, longest: nat, k: nat,
                   dist0: seq<seq<Option<nat>>>, queue0: seq<Pos>, known0: nat, paths0: map<Pos, seq<Pos>>,
                   longest0: nat, p: Pos)
    requires sk.Valid() && sk.start.Some? && InGrid(pos, sk.rows, sk.columns) && IsPipe(sk.At(pos))
    requires IsGrid(dist, sk.rows, sk.columns) && k < 2 && 2 <= cur
    requires IsWalk(sk, walkToPos) && |walkToPos| == cur && walkToPos[cur - 1] == pos
    requires VisitState(sk, pos, cur, dist, queue, longest, k, dist0, queue0, known0, paths0, longest0)
    requires GetPos(GetSides(sk.At(pos)).value[k], pos) == Some(p) && InGrid(p, sk.rows, sk.columns)
    requires dist0[p.0][p.1].None? || cur < dist0[p.0][p.1].value
    ensures VisitState(sk, pos, cur, dist, queue, longest, k + 1, Update(dist0, p, Some(cur)), queue0 + [p],
                       if dist0[p.0][p.1].None? then known0 + 1 else known0, paths0[p := walkToPos + [p]], cur)
  {
    VisitRelaxSearch(sk, pos, cur, walkToPos, dist, queue, longest, k, dist0, queue0, known0, paths0, longest0, p);
    VisitRelaxSides(sk, pos, cur, walkToPos, dist, queue, longest, k, dist0, queue0, known0, paths0, longest0, p);
  }

  /**
   * The inner loop of `get_steps_to_farthest_point` for the tile `pos` at distance
   * `cur - 1`: every neighbour its pipe opens to that has no distance, or a larger one,
   * gets distance `cur` and is queued, and `longest` becomes `cur` when that happens.
   * Afterwards every side of `pos` leads to a tile with a distance of at most `cur`. A
   * neighbour outside the grid is an index error once it is dequeued (`ok` false), and
   * happens exactly when a side of `pos` leads out of the grid.
   */
  method VisitNeighbours(sk: Sketch, pos: Pos, cur: nat, ghost walkToPos: seq<Pos>,
                         dist: seq<seq<Option<nat>>>, queue: seq<Pos>, ghost known: nat, ghost paths: map<Pos, seq<Pos>>,
                         longest: nat)
    returns (ok: bool, dist': seq<seq<Option<nat>>>, queue': seq<Pos>, ghost known': nat, ghost paths': map<Pos, seq<Pos>>,
             longest': nat)
    requires sk.Valid() && sk.start.Some? && InGrid(pos, sk.rows, sk.columns) && IsPipe(sk.At(pos))
    requires SearchState(sk, dist, queue, known, paths) && known <= sk.rows * sk.columns
    requires 2 <= cur <= known && IsWalk(sk, walkToPos) && |walkToPos| == cur && walkToPos[cur - 1] == pos
    ensures ok <==> SidesInGrid(sk, pos)
    ensures ok ==> VisitState(sk, pos, cur, dist, queue, longest, 2, dist', queue', known', paths', longest')
  {
    var sides := GetSides(sk.At(pos)).value;
    dist', queue', known', paths', longest' := dist, queue, known, paths, longest;
    var k := 0;
    while k < 2
      invariant 0 <= k <= 2
      invariant VisitState(sk, pos, cur, dist, queue, longest, k, dist', queue', known', paths', longest')
      invariant forall j :: 0 <= j < k ==> GetPos(sides[j], pos).None? || InGrid(GetPos(sides[j], pos).value, sk.rows, sk.columns)
    {
      ok, dist', queue', known', paths', longest' :=
        VisitSide(sk, pos, cur, walkToPos, dist, queue, longest, k, dist', queue', known', paths', longest');
      if !ok {
        return;
      }
      k := k + 1;
    }
    ok := true;
  }

  /** Giving `p` the distance `cur` and queueing it keeps `Relaxed` and `AppendedAt`. */
  lemma RelaxStep(sk: Sketch, dist: seq<seq<Option<nat>>>, dist': seq<seq<Option<nat>>>,
                  queue: seq<Pos>, queue': seq<Pos>, p: Pos, cur: nat)
    requires sk.Valid() && IsGrid(dist, sk.rows, sk.columns) && IsGrid(dist', sk.rows, sk.columns)
    requires Relaxed(sk, dist, dist', cur) && AppendedAt(sk, dist, dist', queue, queue', cur)
    requires InGrid(p, sk.rows, sk.columns) && (dist'[p.0][p.1].None? || cur < dist'[p.0][p.1].value)
    ensures IsGrid(Update(dist', p, Some(cur)), sk.rows, sk.columns)
    ensures Relaxed(sk, dist, Update(dist', p, Some(cur)), cur)
    ensures AppendedAt(sk, dist, Update(dist', p, Some(cur)), queue, queue' + [p], cur)
  {
    var d := Update(dist', p, Some(cur));
    var q := queue' + [p];
    assert q[..|queue|] == queue' [..|queue|];
    assert q[|queue|..] == queue'[|queue|..] + [p];
    forall i | |queue| <= i < |q|
      ensures InGrid(q[i], sk.rows, sk.columns) && d[q[i].0][q[i].1] == Some(cur)
    {
      if i < |queue'| {
        assert q[i] == queue'[i];
      }
    }
  }

  /** The distance the queue's distances are bounded by: `longest`, or 1 before any is assigned beyond the seeds. */
  function Top(longest: nat): nat
  {
    if longest == 0 then 1 else longest
  }

  /** The distance of `p`, or 0 when it has none. */
  function Level(dist: seq<seq<Option<nat>>>, p: Pos): nat
  {
    if p.0 < |dist| && p.1 < |dist[p.0]| && dist[p.0][p.1].Some? then dist[p.0][p.1].value else 0
  }

  /** Every recorded distance is at most `top`. */
  predicate AtMost(sk: Sketch, dist: seq<seq<Option<nat>>>, top: nat)
    requires sk.Valid() && IsGrid(dist, sk.rows, sk.columns)
  {
    forall y, x :: 0 <= y < sk.rows && 0 <= x < sk.columns && dist[y][x].Some? ==> dist[y][x].value <= top
  }

  /** The distances of the queued tiles never decrease from the front to the back. */
  predicate QueueSorted(dist: seq<seq<Option<nat>>>, queue: seq<Pos>)
  {
    forall i, j :: 0 <= i < j < |queue| ==> Level(dist, queue[i]) <= Level(dist, queue[j])
  }

  /** The recorded tiles other than the start that are no longer queued have been visited. */
  ghost predicate Visited(sk: Sketch, dist: seq<seq<Option<nat>>>, queue: seq<Pos>)
    requires sk.Valid() && sk.start.Some? && IsGrid(dist, sk.rows, sk.columns)
  {
    forall y, x ::
      (0 <= y < sk.rows && 0 <= x < sk.columns && dist[y][x].Some? && (y, x) != sk.start.value && (y, x) !in queue)
      ==> ClosedWithin(sk, dist, (y, x), dist[y][x].value + 1)
  }

  /**
   * The invariant of the breadth-first loop: the search state; the start's connecting
   * neighbours at distance 1; every distance at most `Top(longest)`; the queue's
   * distances sorted, spanning at most one step, and ending at `Top(longest)`;
   * `longest` recorded at `lastPos`; and every visited tile's sides leading to tiles at
   * most one step further.
   */
  ghost predicate BfsState(sk: Sketch, dist: seq<seq<Option<nat>>>, queue: seq<Pos>, known: nat,
                           paths: map<Pos, seq<Pos>>, longest: nat, lastPos: Pos)
    requires sk.Valid() && sk.start.Some?
  {
    SearchState(sk, dist, queue, known, paths)
    && NeighboursInGrid(sk, |AllSides|)
    && (forall t :: t in SeedQueue(sk, |AllSides|) ==> dist[t.0][t.1] == Some(1))
    && AtMost(sk, dist, Top(longest))
    && QueueSorted(dist, queue)
    && (|queue| > 0 ==> Level(dist, queue[|queue| - 1]) == Top(longest) <= Level(dist, queue[0]) + 1)
    && (longest > 0 ==> 2 <= longest && InGrid(lastPos, sk.rows, sk.columns)
                        && dist[lastPos.0][lastPos.1] == Some(longest))
    && Visited(sk, dist, queue)
  }

  lemma BfsInitial(sk: Sketch, dist: seq<seq<Option<nat>>>, queue: seq<Pos>, known: nat, paths: map<Pos, seq<Pos>>)
    requires sk.Valid() && sk.start.Some? && SearchState(sk, dist, queue, known, paths)
    requires NeighboursInGrid(sk, |AllSides|) && queue == SeedQueue(sk, |AllSides|) && SeedDist(sk, queue, dist)
    ensures BfsState(sk, dist, queue, known, paths, 0, sk.start.value)
  {
    forall i | 0 <= i < |queue|
      ensures Level(dist, queue[i]) == 1
    {
      assert queue[i] in queue;
    }
  }

  /** Distances that are at most `cur` are untouched by a step that relaxes to `cur`. */
  lemma Frozen(sk: Sketch, dist: seq<seq<Option<nat>>>, dist': seq<seq<Option<nat>>>, cur: nat, top: nat)
    requires sk.Valid() && IsGrid(dist, sk.rows, sk.columns) && IsGrid(dist', sk.rows, sk.columns)
    requires Relaxed(sk, dist, dist', cur) && AtMost(sk, dist, top) && top <= cur
    ensures forall y, x :: 0 <= y < sk.rows && 0 <= x < sk.columns && dist[y][x].Some? ==> dist'[y][x] == dist[y][x]
    ensures forall y, x :: 0 <= y < sk.rows && 0 <= x < sk.columns && dist[y][x].None? ==>
      dist'[y][x].None? || dist'[y][x] == Some(cur)
  {
  }

  /** A visited tile stays visited when recorded distances are untouched. */
  lemma VisitedKept(sk: Sketch, dist: seq<seq<Option<nat>>>, dist': seq<seq<Option<nat>>>, u: Pos, b: nat)
    requires sk.Valid() && IsGrid(dist, sk.rows, sk.columns) && IsGrid(dist', sk.rows, sk.columns)
    requires forall y, x :: 0 <= y < sk.rows && 0 <= x < sk.columns && dist[y][x].Some? ==> dist'[y][x] == dist[y][x]
    requires InGrid(u, sk.rows, sk.columns) && ClosedWithin(sk, dist, u, b)
    ensures ClosedWithin(sk, dist', u, b)
  {
    forall side | side in GetSides(sk.At(u)).value
      ensures SideWithin(sk, dist', u, side, b)
    {
      assert SideWithin(sk, dist, u, side, b);
    }
  }

  /**
   * The queue after visiting its front tile at distance `cur - 1`: the rest of the queue
   * keeps its distances, and the tiles appended at `cur` keep it sorted and within one
   * step of its new front.
   */
  lemma QueueStep(sk: Sketch, dist: seq<seq<Option<nat>>>, dist': seq<seq<Option<nat>>>, queue: seq<Pos>,
                  queue': seq<Pos>, cur: nat, top: nat)
    requires sk.Valid() && IsGrid(dist, sk.rows, sk.columns) && IsGrid(dist', sk.rows, sk.columns) && |queue| > 0
    requires forall q :: q in queue ==> InGrid(q, sk.rows, sk.columns) && dist[q.0][q.1].Some?
    requires forall y, x :: 0 <= y < sk.rows && 0 <= x < sk.columns && dist[y][x].Some? ==> dist'[y][x] == dist[y][x]
    requires QueueSorted(dist, queue) && Level(dist, queue[|queue| - 1]) == top <= cur == Level(dist, queue[0]) + 1
    requires |queue| - 1 <= |queue'| && queue'[..|queue| - 1] == queue[1..]
    requires forall i :: |queue| - 1 <= i < |queue'| ==>
      InGrid(queue'[i], sk.rows, sk.columns) && dist'[queue'[i].0][queue'[i].1] == Some(cur)
    ensures QueueSorted(dist', queue')
    ensures |queue'| > 0 ==>
      Level(dist', queue'[|queue'| - 1]) == (if |queue'| > |queue| - 1 then cur else top) <= Level(dist', queue'[0]) + 1
  {
    var m := |queue| - 1;
    forall i | 0 <= i < m
      ensures queue'[i] == queue[i + 1] && Level(dist', queue'[i]) == Level(dist, queue[i + 1])
    {
      assert queue'[..m][i] == queue[1..][i];
      assert queue[i + 1] in queue;
    }
    forall i, j | 0 <= i < j < |queue'|
      ensures Level(dist', queue'[i]) <= Level(dist', queue'[j])
    {
      if j < m {
        assert Level(dist, queue[i + 1]) <= Level(dist, queue[j + 1]);
      } else if i < m {
        assert Level(dist, queue[i + 1]) <= Level(dist, queue[|queue| - 1]);
      }
    }
    if m > 0 {
      assert Level(dist, queue[0]) <= Level(dist, queue[1]);
    }
  }

  /**
   * The visited tiles after visiting the front tile `pos`: `pos` itself now is, and every
   * tile visited before stays so, since recorded distances are untouched.
   */
  lemma VisitedStep(sk: Sketch, dist: seq<seq<Option<nat>>>, dist': seq<seq<Option<nat>>>, queue: seq<Pos>,
                    queue': seq<Pos>, pos: Pos, cur: nat)
    requires sk.Valid() && sk.start.Some? && IsGrid(dist, sk.rows, sk.columns) && IsGrid(dist', sk.rows, sk.columns)
    requires |queue| > 0 && pos == queue[0] && InGrid(pos, sk.rows, sk.columns) && dist[pos.0][pos.1] == Some(cur - 1)
    requires Visited(sk, dist, queue) && ClosedWithin(sk, dist', pos, cur)
    requires forall y, x :: 0 <= y < sk.rows && 0 <= x < sk.columns && dist[y][x].Some? ==> dist'[y][x] == dist[y][x]
    requires AppendedAt(sk, dist, dist', queue[1..], queue', cur)
    ensures Visited(sk, dist', queue')
  {
    var m := |queue| - 1;
    assert |queue[1..]| == m;
    forall z | z in queue'[m..]
      ensures z in queue'
    {
      var i :| 0 <= i < |queue'[m..]| && queue'[m..][i] == z;
      assert queue'[m + i] == z;
    }
    forall z | z in queue && z != pos
      ensures z in queue'
    {
      var i :| 0 <= i < |queue| && queue[i] == z;
      assert queue'[..m][i - 1] == queue[1..][i - 1];
    }
    forall y, x | 0 <= y < sk.rows && 0 <= x < sk.columns && dist'[y][x].Some? && (y, x) != sk.start.value
      && (y, x) !in queue'
      ensures ClosedWithin(sk, dist', (y, x), dist'[y][x].value + 1)
    {
      if (y, x) != pos {
        VisitedKept(sk, dist, dist', (y, x), dist[y][x].value + 1);
      }
    }
  }

  /** A tile whose two sides lead within `bound` is closed within it. */
  lemma ClosedBySides(sk: Sketch, dist: seq<seq<Option<nat>>>, pos: Pos, bound: nat)
    requires sk.Valid() && IsGrid(dist, sk.rows, sk.columns) && InGrid(pos, sk.rows, sk.columns) && IsPipe(sk.At(pos))
    requires forall j :: 0 <= j < 2 ==> SideWithin(sk, dist, pos, GetSides(sk.At(pos)).value[j], bound)
    ensures ClosedWithin(sk, dist, pos, bound)
  {
    var sides := GetSides(sk.At(pos)).value;
    forall side | side in sides
      ensures SideWithin(sk, dist, pos, side, bound)
    {
      assert side == sides[0] || side == sides[1];
    }
  }

  /** The distances after a round: recorded ones are kept, and all stay within `Top(longest')`. */
  lemma BfsStepBounds(sk: Sketch, dist: seq<seq<Option<nat>>>, queue: seq<Pos>, known: nat, paths: map<Pos, seq<Pos>>,
                longest: nat, lastPos: Pos, pos: Pos, cur: nat,
                dist': seq<seq<Option<nat>>>, queue': seq<Pos>, known': nat, paths': map<Pos, seq<Pos>>,
                longest': nat, lastPos': Pos)
    requires sk.Valid() && sk.start.Some? && BfsState(sk, dist, queue, known, paths, longest, lastPos)
    requires |queue| > 0 && pos == queue[0] && InGrid(pos, sk.rows, sk.columns) && IsPipe(sk.At(pos))
    requires cur == Level(dist, pos) + 1
    requires VisitState(sk, pos, cur, dist, queue[1..], longest, 2, dist', queue', known', paths', longest')
    requires lastPos' == if |queue'| > |queue| - 1 then queue'[|queue'| - 1] else lastPos
    ensures forall y, x :: 0 <= y < sk.rows && 0 <= x < sk.columns && dist[y][x].Some? ==> dist'[y][x] == dist[y][x]
    ensures (forall t :: t in SeedQueue(sk, |AllSides|) ==> dist'[t.0][t.1] == Some(1))
    ensures AtMost(sk, dist', Top(longest'))
  {
    assert queue[0] in queue;
    Frozen(sk, dist, dist', cur, Top(longest));
    AtMostStep(sk, dist, dist', queue[1..], queue', Top(longest), cur);
  }

  /** Relaxing to `cur` bounds the distances by `cur` if a tile was queued, and by the old bound otherwise. */
  lemma AtMostStep(sk: Sketch, dist: seq<seq<Option<nat>>>, dist': seq<seq<Option<nat>>>, queue: seq<Pos>,
                   queue': seq<Pos>, top: nat, cur: nat)
    requires sk.Valid() && IsGrid(dist, sk.rows, sk.columns) && IsGrid(dist', sk.rows, sk.columns)
    requires AtMost(sk, dist, top) && top <= cur
    requires Relaxed(sk, dist, dist', cur) && AppendedAt(sk, dist, dist', queue, queue', cur)
    ensures AtMost(sk, dist', if |queue'| > |queue| then cur else top)
  {
    if |queue'| <= |queue| {
      forall y, x | 0 <= y < sk.rows && 0 <= x < sk.columns
        ensures dist'[y][x] == dist[y][x]
      {
        assert |queue'[|queue|..]| == 0;
      }
    }
  }

  /** After a round, `longest` is still the distance recorded at `lastPos`. */
  lemma BfsStepLast(sk: Sketch, dist: seq<seq<Option<nat>>>, queue: seq<Pos>, known: nat, paths: map<Pos, seq<Pos>>,
                longest: nat, lastPos: Pos, pos: Pos, cur: nat,
                dist': seq<seq<Option<nat>>>, queue': seq<Pos>, known': nat, paths': map<Pos, seq<Pos>>,
                longest': nat, lastPos': Pos)
    requires sk.Valid() && sk.start.Some? && BfsState(sk, dist, queue, known, paths, longest, lastPos)
    requires |queue| > 0 && pos == queue[0] && InGrid(pos, sk.rows, sk.columns) && IsPipe(sk.At(pos))
    requires cur == Level(dist, pos) + 1
    requires VisitState(sk, pos, cur, dist, queue[1..], longest, 2, dist', queue', known', paths', longest')
    requires lastPos' == if |queue'| > |queue| - 1 then queue'[|queue'| - 1] else lastPos
    requires forall y, x :: 0 <= y < sk.rows && 0 <= x < sk.columns && dist[y][x].Some? ==> dist'[y][x] == dist[y][x]
    ensures longest' > 0 ==> 2 <= longest' && InGrid(lastPos', sk.rows, sk.columns)
                             && dist'[lastPos'.0][lastPos'.1] == Some(longest')
  {
    assert queue[0] in queue;
    if |queue'| > |queue| - 1 {
      assert longest' == cur && 2 <= cur;
      assert dist'[lastPos'.0][lastPos'.1] == Some(cur);
    } else if longest > 0 {
      assert dist'[lastPos.0][lastPos.1] == dist[lastPos.0][lastPos.1];
    }
  }

  /** The queue after a round stays sorted and within one step of its front. */
  lemma BfsStepOrder(sk: Sketch, dist: seq<seq<Option<nat>>>, queue: seq<Pos>, known: nat, paths: map<Pos, seq<Pos>>,
                longest: nat, lastPos: Pos, pos: Pos, cur: nat,
                dist': seq<seq<Option<nat>>>, queue': seq<Pos>, known': nat, paths': map<Pos, seq<Pos>>,
                longest': nat, lastPos': Pos)
    requires sk.Valid() && sk.start.Some? && BfsState(sk, dist, queue, known, paths, longest, lastPos)
    requires |queue| > 0 && pos == queue[0] && InGrid(pos, sk.rows, sk.columns) && IsPipe(sk.At(pos))
    requires cur == Level(dist, pos) + 1
    requires VisitState(sk, pos, cur, dist, queue[1..], longest, 2, dist', queue', known', paths', longest')
    requires lastPos' == if |queue'| > |queue| - 1 then queue'[|queue'| - 1] else lastPos
    requires forall y, x :: 0 <= y < sk.rows && 0 <= x < sk.columns && dist[y][x].Some? ==> dist'[y][x] == dist[y][x]
    ensures QueueSorted(dist', queue')
    ensures |queue'| > 0 ==> Level(dist', queue'[|queue'| - 1]) == Top(longest') <= Level(dist', queue'[0]) + 1
  {
    var top := Top(longest);
    assert Level(dist, queue[|queue| - 1]) == top;
    QueueStep(sk, dist, dist', queue, queue', cur, top);
  }

  /** The visited part of the loop invariant after a round. */
  lemma BfsStepVisited(sk: Sketch, dist: seq<seq<Option<nat>>>, queue: seq<Pos>, pos: Pos, cur: nat,
                       dist': seq<seq<Option<nat>>>, queue': seq<Pos>)
    requires sk.Valid() && sk.start.Some? && IsGrid(dist, sk.rows, sk.columns) && IsGrid(dist', sk.rows, sk.columns)
    requires |queue| > 0 && pos == queue[0] && InGrid(pos, sk.rows, sk.columns) && IsPipe(sk.At(pos))
    requires dist[pos.0][pos.1] == Some(cur - 1) && Visited(sk, dist, queue)
    requires forall y, x :: 0 <= y < sk.rows && 0 <= x < sk.columns && dist[y][x].Some? ==> dist'[y][x] == dist[y][x]
    requires AppendedAt(sk, dist, dist', queue[1..], queue', cur)
    requires forall j :: 0 <= j < 2 ==> SideWithin(sk, dist', pos, GetSides(sk.At(pos)).value[j], cur)
    ensures Visited(sk, dist', queue')
  {
    ClosedBySides(sk, dist', pos, cur);
    VisitedStep(sk, dist, dist', queue, queue', pos, cur);
  }

  /** Visiting a tile keeps `known` and `longest` below the grid's size and lowers the termination measure. */
  lemma VisitBounds(sk: Sketch, pos: Pos, cur: nat, dist: seq<seq<Option<nat>>>, queue: seq<Pos>, longest: nat,
                    dist': seq<seq<Option<nat>>>, queue': seq<Pos>, known': nat, paths': map<Pos, seq<Pos>>,
                    longest': nat)
    requires sk.Valid() && sk.start.Some? && InGrid(pos, sk.rows, sk.columns) && IsPipe(sk.At(pos))
    requires IsGrid(dist, sk.rows, sk.columns) && longest < sk.rows * sk.columns
    requires VisitState(sk, pos, cur, dist, queue, longest, 2, dist', queue', known', paths', longest')
    ensures known' <= sk.rows * sk.columns && longest' < sk.rows * sk.columns
    ensures var n := sk.rows * sk.columns;
      GridSum(dist', DistanceWeight(n)) < GridSum(dist, DistanceWeight(n))
      || (GridSum(dist', DistanceWeight(n)) == GridSum(dist, DistanceWeight(n)) && |queue'| <= |queue|)
  {
    if |queue'| > |queue| {
      var q := queue'[|queue'| - 1];
      assert InGrid(q, sk.rows, sk.columns) && dist'[q.0][q.1] == Some(cur);
    }
  }

  /**
   * Visiting the front tile `pos` at distance `cur - 1` keeps the loop invariant: since
   * no distance exceeds `cur`, nothing recorded is overwritten, and the tiles appended
   * at distance `cur` keep the queue sorted.
   */
  lemma BfsStep(sk: Sketch, dist: seq<seq<Option<nat>>>, queue: seq<Pos>, known: nat, paths: map<Pos, seq<Pos>>,
                longest: nat, lastPos: Pos, pos: Pos, cur: nat,
                dist': seq<seq<Option<nat>>>, queue': seq<Pos>, known': nat, paths': map<Pos, seq<Pos>>,
                longest': nat, lastPos': Pos)
    requires sk.Valid() && sk.start.Some? && BfsState(sk, dist, queue, known, paths, longest, lastPos)
    requires |queue| > 0 && pos == queue[0] && InGrid(pos, sk.rows, sk.columns) && IsPipe(sk.At(pos))
    requires cur == Level(dist, pos) + 1
    requires VisitState(sk, pos, cur, dist, queue[1..], longest, 2, dist', queue', known', paths', longest')
    requires lastPos' == if |queue'| > |queue| - 1 then queue'[|queue'| - 1] else lastPos
    requires longest < sk.rows * sk.columns
    ensures BfsState(sk, dist', queue', known', paths', longest', lastPos')
    ensures known' <= sk.rows * sk.columns && longest' < sk.rows * sk.columns
    ensures var n := sk.rows * sk.columns;
      GridSum(dist', DistanceWeight(n)) < GridSum(dist, DistanceWeight(n))
      || (GridSum(dist', DistanceWeight(n)) == GridSum(dist, DistanceWeight(n)) && |queue'| < |queue|)
  {
    BfsStepBounds(sk, dist, queue, known, paths, longest, lastPos, pos, cur, dist', queue', known', paths', longest', lastPos');
    BfsStepOrder(sk, dist, queue, known, paths, longest, lastPos, pos, cur, dist', queue', known', paths', longest', lastPos');
    BfsStepLast(sk, dist, queue, known, paths, longest, lastPos, pos, cur, dist', queue', known', paths', longest', lastPos');
    VisitBounds(sk, pos, cur, dist, queue[1..], longest, dist', queue', known', paths', longest');
    assert queue[0] in queue;
    BfsStepVisited(sk, dist, queue, pos, cur, dist', queue');
  }

  /**
   * One round of the loop of `get_steps_to_farthest_point`: the front tile is dequeued
   * and, unless it is Ground or Start (a panic), its neighbours are visited. On a sound
   * sketch no panic happens.
   */
  method BfsRound(sk: Sketch, dist: seq<seq<Option<nat>>>, queue: seq<Pos>, ghost known: nat,
                  ghost paths: map<Pos, seq<Pos>>, longest: nat, ghost lastPos: Pos)
    returns (ok: bool, dist': seq<seq<Option<nat>>>, queue': seq<Pos>, ghost known': nat,
             ghost paths': map<Pos, seq<Pos>>, longest': nat, ghost lastPos': Pos)
    requires sk.Valid() && sk.start.Some? && BfsState(sk, dist, queue, known, paths, longest, lastPos)
    requires |queue| > 0 && known <= sk.rows * sk.columns && longest < sk.rows * sk.columns
    ensures Sound(sk) ==> ok
    ensures ok ==> BfsState(sk, dist', queue', known', paths', longest', lastPos')
    ensures ok ==> known' <= sk.rows * sk.columns && longest' < sk.rows * sk.columns
    ensures ok ==> var n := sk.rows * sk.columns;
      GridSum(dist', DistanceWeight(n)) < GridSum(dist, DistanceWeight(n))
      || (GridSum(dist', DistanceWeight(n)) == GridSum(dist, DistanceWeight(n)) && |queue'| < |queue|)
  {
    var pos := queue[0];
    QueuedSound(sk, dist, queue, known, paths, pos);
    // A queued tile has a recorded distance: the source's panic for an unknown one cannot happen.
    var cur := dist[pos.0][pos.1].value + 1;
    var item := sk.At(pos);
    ok, dist', queue', known', paths', longest', lastPos' := false, dist, queue, known, paths, longest, lastPos;
    if item != Start && item != Ground {
      ok, dist', queue', known', paths', longest' :=
        VisitNeighbours(sk, pos, cur, paths[pos], dist, queue[1..], known, paths, longest);
      if ok {
        lastPos' := if |queue'| > |queue| - 1 then queue'[|queue'| - 1] else lastPos;
        BfsStep(sk, dist, queue, known, paths, longest, lastPos, pos, cur, dist', queue', known', paths', longest', lastPos');
      }
    }
  }

  /**
   * The invariant once the queue is empty, on a sketch whose start tile is `S`: the tile
   * at the end of every walk has a distance of at most the walk's length.
   */
  lemma {:induction false} WalkWithin(sk: Sketch, dist: seq<seq<Option<nat>>>, known: nat, paths: map<Pos, seq<Pos>>,
                                      longest: nat, lastPos: Pos, w: seq<Pos>)
    requires sk.Valid() && sk.start.Some? && sk.At(sk.start.value) == Start
    requires BfsState(sk, dist, [], known, paths, longest, lastPos) && IsWalk(sk, w)
    ensures var t := w[|w| - 1]; dist[t.0][t.1].Some? && dist[t.0][t.1].value < |w|
  {
    var s := sk.start.value;
    if |w| == 2 {
      SeedsAreFirstSteps(sk, w[1]);
    } else if |w| > 2 {
      var m := |w| - 1;
      WalkPrefix(sk, w, m);
      WalkWithin(sk, dist, known, paths, longest, lastPos, w[..m]);
      var u, t := w[m - 1], w[m];
      assert w[..m][m - 1] == u;
      assert PipeStep(sk, u, t);
      assert u != s;
      assert ClosedWithin(sk, dist, u, dist[u.0][u.1].value + 1);
      var side :| side in GetSides(sk.At(u)).value && GetPos(side, u) == Some(t);
      assert SideWithin(sk, dist, u, side, dist[u.0][u.1].value + 1);
    }
  }

  /**
   * On a sketch whose start tile is `S`, the distances the search records are the start's
   * 0 and, for every tile reached from it, the fewest steps of a walk to it; other tiles
   * have none.
   */
  ghost predicate ShortestDistances(sk: Sketch, dist: seq<seq<Option<nat>>>)
    requires sk.Valid() && sk.start.Some? && IsGrid(dist, sk.rows, sk.columns)
  {
    forall y, x :: 0 <= y < sk.rows && 0 <= x < sk.columns ==>
      && (dist[y][x].Some? <==> (y, x) == sk.start.value || Reached(sk, (y, x)))
      && (dist[y][x].Some? ==>
            && WalkTo(sk, (y, x), dist[y][x].value)
            && (forall w :: IsWalk(sk, w) && w[|w| - 1] == (y, x) ==> dist[y][x].value < |w|))
  }

  lemma BfsShortest(sk: Sketch, dist: seq<seq<Option<nat>>>, known: nat, paths: map<Pos, seq<Pos>>,
                    longest: nat, lastPos: Pos)
    requires sk.Valid() && sk.start.Some? && sk.At(sk.start.value) == Start
    requires BfsState(sk, dist, [], known, paths, longest, lastPos)
    ensures ShortestDistances(sk, dist)
  {
    var s := sk.start.value;
    forall y, x | 0 <= y < sk.rows && 0 <= x < sk.columns
      ensures (dist[y][x].Some? <==> (y, x) == s || Reached(sk, (y, x)))
      ensures dist[y][x].Some? ==> WalkTo(sk, (y, x), dist[y][x].value)
      ensures dist[y][x].Some? ==> forall w :: IsWalk(sk, w) && w[|w| - 1] == (y, x) ==> dist[y][x].value < |w|
    {
      if dist[y][x].Some? {
        var w := paths[(y, x)];
        assert IsWalk(sk, w) && |w| == dist[y][x].value + 1 && w[dist[y][x].value] == (y, x);
        if (y, x) != s {
          assert |w| >= 2 && w[|w| - 1] == (y, x);
        }
      }
      if Reached(sk, (y, x)) {
        var w :| IsWalk(sk, w) && |w| >= 2 && w[|w| - 1] == (y, x);
        WalkWithin(sk, dist, known, paths, longest, lastPos, w);
      }
      forall w | IsWalk(sk, w) && w[|w| - 1] == (y, x)
        ensures dist[y][x].Some? && dist[y][x].value < |w|
      {
        WalkWithin(sk, dist, known, paths, longest, lastPos, w);
      }
    }
  }

  /**
   * What the search returns `n` for: the start at 0, its connecting neighbours at 1,
   * every distance the length of a walk to its tile and at most `Top(n)`, and `n`, unless
   * 0, at least 2 and the distance of some tile. `n` is 0 when no distance beyond the
   * seeds was assigned.
   */
  ghost predicate SearchResult(sk: Sketch, dist: seq<seq<Option<nat>>>, n: nat)
    requires sk.Valid() && sk.start.Some? && NeighboursInGrid(sk, |AllSides|)
  {
    var s := sk.start.value;
    IsGrid(dist, sk.rows, sk.columns) && dist[s.0][s.1] == Some(0)
    && (forall t :: t in SeedQueue(sk, |AllSides|) ==> dist[t.0][t.1] == Some(1))
    && (forall y, x :: 0 <= y < sk.rows && 0 <= x < sk.columns && dist[y][x].Some? ==>
          WalkTo(sk, (y, x), dist[y][x].value) && dist[y][x].value <= Top(n))
    && (n > 0 ==> 2 <= n && exists y, x :: 0 <= y < sk.rows && 0 <= x < sk.columns && dist[y][x] == Some(n))
  }

  lemma BfsResult(sk: Sketch, dist: seq<seq<Option<nat>>>, known: nat, paths: map<Pos, seq<Pos>>,
                  longest: nat, lastPos: Pos)
    requires sk.Valid() && sk.start.Some? && BfsState(sk, dist, [], known, paths, longest, lastPos)
    ensures SearchResult(sk, dist, longest)
  {
    forall y, x | 0 <= y < sk.rows && 0 <= x < sk.columns && dist[y][x].Some?
      ensures WalkTo(sk, (y, x), dist[y][x].value)
    {
      var w := paths[(y, x)];
      assert IsWalk(sk, w) && |w| == dist[y][x].value + 1 && w[dist[y][x].value] == (y, x);
    }
    if longest > 0 {
      assert dist[lastPos.0][lastPos.1] == Some(longest);
    }
  }

  /**
   * `get_steps_to_farthest_point`: a breadth-first search from the start. It returns the
   * last distance assigned after the seeding, which is the largest distance recorded
   * beyond the seeds, or 0 when there is none; `dist` is the final distance grid. On a
   * sketch whose start tile is `S`, every tile reached from the start gets the fewest
   * steps of a walk to it. A missing start, an index outside the grid, and reaching a
   * Ground or second Start tile are panics (`None`); on a sound sketch none happens.
   */
  method StepsToFarthestPoint(sk: Sketch) returns (r: Option<nat>, ghost distances: seq<seq<Option<nat>>>)
    requires sk.Valid()
    ensures sk.start.None? ==> r.None?
    ensures sk.start.Some? && NeighboursInGrid(sk, |AllSides|) && Sound(sk) ==> r.Some?
    ensures r.Some? ==> sk.start.Some? && NeighboursInGrid(sk, |AllSides|) && r.value < sk.rows * sk.columns
    ensures r.Some? ==> SearchResult(sk, distances, r.value)
    ensures r.Some? && sk.At(sk.start.value) == Start ==> ShortestDistances(sk, distances)
  {
    distances := [];
    if sk.start.None? {
      return None, distances;
    }
    var s := sk.start.value;
    var ok, dist, queue;
    ghost var known: nat, paths: map<Pos, seq<Pos>>;
    ok, dist, queue, known, paths := SeedSearch(sk);
    if !ok {
      return None, distances;
    }
    var n := sk.rows * sk.columns;
    var longest: nat := 0;
    ghost var lastPos: Pos := s;
    KnownBelowSize(sk, dist);
    BfsInitial(sk, dist, queue, known, paths);
    while |queue| > 0
      invariant BfsState(sk, dist, queue, known, paths, longest, lastPos)
      invariant known <= n && longest < n
      decreases GridSum(dist, DistanceWeight(n)), |queue|
    {
      ok, dist, queue, known, paths, longest, lastPos := BfsRound(sk, dist, queue, known, paths, longest, lastPos);
      if !ok {
        return None, distances;
      }
    }
    BfsResult(sk, dist, known, paths, longest, lastPos);
    if sk.At(s) == Start {
      BfsShortest(sk, dist, known, paths, longest, lastPos);
    }
    r, distances := Some(longest), dist;
  }

  // ---------------------------------------------------------------------------
  // The main loop (`get_main_loop`)
  // ---------------------------------------------------------------------------

  /** The sides of the start whose neighbour connects back to it, in `Side::iter()` order. */
  function ConnectedSides(sk: Sketch, k: nat): (r: seq<Side>)
    requires sk.Valid() && sk.start.Some? && k <= |AllSides| && NeighboursInGrid(sk, k)
    ensures |r| <= k
  {
    if k == 0 then []
    else
      var pos := GetPos(AllSides[k - 1], sk.start.value);
      var r := ConnectedSides(sk, k - 1);
      if pos.Some? && ConnectsFrom(sk.At(pos.value), AllSides[k - 1]) then r + [AllSides[k - 1]] else r
  }

  /** The connected sides are drawn from the first `k` sides, each at most once. */
  lemma {:induction false} ConnectedSidesDistinct(sk: Sketch, k: nat)
    requires sk.Valid() && sk.start.Some? && k <= |AllSides| && NeighboursInGrid(sk, k)
    ensures forall side :: side in ConnectedSides(sk, k) ==> side in AllSides[..k]
    ensures forall i, j :: 0 <= i < j < |ConnectedSides(sk, k)| ==> ConnectedSides(sk, k)[i] != ConnectedSides(sk, k)[j]
  {
    if k > 0 {
      ConnectedSidesDistinct(sk, k - 1);
      var r := ConnectedSides(sk, k - 1);
      assert AllSides[..k] == AllSides[..k - 1] + [AllSides[k - 1]];
      assert AllSides[k - 1] !in AllSides[..k - 1];
    }
  }

  /** Two connected sides always make a start pipe. */
  lemma StartPipeOfConnected(sk: Sketch)
    requires sk.Valid() && sk.start.Some? && NeighboursInGrid(sk, |AllSides|) && |ConnectedSides(sk, |AllSides|)| == 2
    ensures GetStartPipe(ConnectedSides(sk, |AllSides|)[0], ConnectedSides(sk, |AllSides|)[1]).Some?
  {
    ConnectedSidesDistinct(sk, |AllSides|);
  }

  /** Index of the first queued tile whose input pipe is Ground, or the queue's length. */
  function FirstGround(sk: Sketch, queue: seq<Pos>): (i: nat)
    requires sk.Valid() && forall q :: q in queue ==> InGrid(q, sk.rows, sk.columns)
    ensures i <= |queue|
  {
    if queue == [] then 0
    else if sk.At(queue[0]) == Ground then 0
    else 1 + FirstGround(sk, queue[1..])
  }

  lemma {:induction false} FirstGroundAppend(sk: Sketch, queue: seq<Pos>, p: Pos)
    requires sk.Valid() && forall q :: q in queue ==> InGrid(q, sk.rows, sk.columns)
    requires InGrid(p, sk.rows, sk.columns)
    ensures FirstGround(sk, queue + [p]) <= |queue|
         || (FirstGround(sk, queue) == |queue| && sk.At(p) != Ground)
    ensures FirstGround(sk, queue) < |queue| ==> FirstGround(sk, queue + [p]) == FirstGround(sk, queue)
  {
    if queue == [] {
      assert [] + [p] == [p];
    } else {
      assert (queue + [p])[0] == queue[0];
      assert (queue + [p])[1..] == queue[1..] + [p];
      FirstGroundAppend(sk, queue[1..], p);
    }
  }

  function GroundWeight(p: Pipe): nat
  {
    if p == Ground then 1 else 0
  }

  /** Every tile other than the start is Ground or a copy of a reached input tile. */
  ghost predicate Copied(sk: Sketch, loop: seq<seq<Pipe>>)
    requires sk.Valid() && sk.start.Some? && IsGrid(loop, sk.rows, sk.columns)
  {
    forall y, x :: 0 <= y < sk.rows && 0 <= x < sk.columns && (y, x) != sk.start.value ==>
      loop[y][x] == Ground || (loop[y][x] == sk.grid[y][x] && Reached(sk, (y, x)))
  }

  ghost predicate LoopState(sk: Sketch, loop: seq<seq<Pipe>>, queue: seq<Pos>)
    requires sk.Valid() && sk.start.Some?
  {
    var s := sk.start.value;
    IsGrid(loop, sk.rows, sk.columns)
    && (forall q :: q in queue ==> InGrid(q, sk.rows, sk.columns) && q != s && Reached(sk, q))
    && Copied(sk, loop)
    && loop[s.0][s.1] != Ground
  }

  lemma LoopStateAdd(sk: Sketch, loop: seq<seq<Pipe>>, queue: seq<Pos>, p: Pos)
    requires sk.Valid() && sk.start.Some? && LoopState(sk, loop, queue)
    requires InGrid(p, sk.rows, sk.columns) && p != sk.start.value && Reached(sk, p)
    ensures LoopState(sk, Update(loop, p, sk.At(p)), queue + [p])
  {
  }

  /** Before the copy proper, the start is Start, the queued tiles are copied, and every other cell is Ground. */
  predicate SeedCopy(sk: Sketch, loop: seq<seq<Pipe>>, queue: seq<Pos>)
    requires sk.Valid() && sk.start.Some? && IsGrid(loop, sk.rows, sk.columns)
  {
    forall y, x :: 0 <= y < sk.rows && 0 <= x < sk.columns ==>
      loop[y][x] == if (y, x) == sk.start.value then Start else if (y, x) in queue then sk.grid[y][x] else Ground
  }

  /** What the seeding loop of `get_main_loop` keeps after looking at the first `k` sides. */
  ghost predicate LoopSeedState(sk: Sketch, k: nat, loop: seq<seq<Pipe>>, queue: seq<Pos>, connected: seq<Side>)
    requires sk.Valid() && sk.start.Some?
  {
    k <= |AllSides| && NeighboursInGrid(sk, k) && LoopState(sk, loop, queue) && connected == ConnectedSides(sk, k)
    && queue == SeedQueue(sk, k) && SeedCopy(sk, loop, queue)
  }

  lemma LoopSeedInitial(sk: Sketch)
    requires sk.Valid() && sk.start.Some?
    ensures LoopSeedState(sk, 0, Update(Filled(sk.rows, sk.columns, Ground), sk.start.value, Start), [], [])
  {
  }

  /** A neighbour that connects back to the start is copied, queued, and its side recorded. */
  lemma LoopSeedAdd(sk: Sketch, k: nat, loop: seq<seq<Pipe>>, queue: seq<Pos>, connected: seq<Side>, p: Pos)
    requires sk.Valid() && sk.start.Some? && LoopSeedState(sk, k, loop, queue, connected) && k < |AllSides|
    requires GetPos(AllSides[k], sk.start.value) == Some(p) && InGrid(p, sk.rows, sk.columns)
    requires ConnectsFrom(sk.At(p), AllSides[k])
    ensures LoopSeedState(sk, k + 1, Update(loop, p, sk.At(p)), queue + [p], connected + [AllSides[k]])
  {
    var s := sk.start.value;
    FirstStep(sk, AllSides[k], p);
    assert [s, p][1] == p;
    LoopStateAdd(sk, loop, queue, p);
  }

  /** A side with no neighbour, or whose neighbour does not connect back, changes nothing. */
  lemma LoopSeedSkip(sk: Sketch, k: nat, loop: seq<seq<Pipe>>, queue: seq<Pos>, connected: seq<Side>)
    requires sk.Valid() && sk.start.Some? && LoopSeedState(sk, k, loop, queue, connected) && k < |AllSides|
    requires var pos := GetPos(AllSides[k], sk.start.value);
      pos.Some? ==> InGrid(pos.value, sk.rows, sk.columns) && !ConnectsFrom(sk.At(pos.value), AllSides[k])
    ensures LoopSeedState(sk, k + 1, loop, queue, connected)
  {
  }

  /**
   * The seeding loop of `get_main_loop`: the start's connecting neighbours are copied and
   * queued, in `Side::iter()` order, and their sides collected; every other cell but the
   * start stays Ground. A Right or Down neighbour outside the grid is an out-of-bounds
   * index (`ok` false).
   */
  method SeedLoop(sk: Sketch) returns (ok: bool, loop: seq<seq<Pipe>>, queue: seq<Pos>, connected: seq<Side>)
    requires sk.Valid() && sk.start.Some?
    ensures ok <==> NeighboursInGrid(sk, |AllSides|)
    ensures ok ==> LoopState(sk, loop, queue) && connected == ConnectedSides(sk, |AllSides|)
    ensures ok ==> queue == SeedQueue(sk, |AllSides|) && SeedCopy(sk, loop, queue)
  {
    var s := sk.start.value;
    LoopSeedInitial(sk);
    loop := Update(Filled(sk.rows, sk.columns, Ground), s, Start);
    queue := [];
    connected := [];
    var k := 0;
    ok := true;
    while k < |AllSides| && ok
      invariant k <= |AllSides|
      invariant ok ==> LoopSeedState(sk, k, loop, queue, connected)
      invariant !ok ==> !NeighboursInGrid(sk, |AllSides|)
    {
      ghost var k0 := k;
      ok, loop, queue, connected := SeedSide(sk, k, loop, queue, connected);
      k := k + 1;
      assert !ok ==> !NeighboursInGrid(sk, |AllSides|) by {
        if !ok {
          assert GetPos(AllSides[k0], s).Some? && !InGrid(GetPos(AllSides[k0], s).value, sk.rows, sk.columns);
        }
      }
    }
  }

  /**
   * One side of the start in the seeding loop of `get_main_loop`: a neighbour that
   * connects back is copied and queued and its side recorded. A neighbour outside the
   * grid is an out-of-bounds index (`ok` false).
   */
  method SeedSide(sk: Sketch, k: nat, loop0: seq<seq<Pipe>>, queue0: seq<Pos>, connected0: seq<Side>)
    returns (ok: bool, loop: seq<seq<Pipe>>, queue: seq<Pos>, connected: seq<Side>)
    requires sk.Valid() && sk.start.Some? && k < |AllSides| && LoopSeedState(sk, k, loop0, queue0, connected0)
    ensures var pos := GetPos(AllSides[k], sk.start.value);
      ok <==> pos.None? || InGrid(pos.value, sk.rows, sk.columns)
    ensures ok ==> LoopSeedState(sk, k + 1, loop, queue, connected)
  {
    var side := AllSides[k];
    var pos := GetPos(side, sk.start.value);
    ok, loop, queue, connected := pos.None? || InGrid(pos.value, sk.rows, sk.columns), loop0, queue0, connected0;
    if pos.Some? && ok && ConnectsFrom(sk.At(pos.value), side) {
      var p := pos.value;
      LoopSeedAdd(sk, k, loop, queue, connected, p);
      loop, queue, connected := Update(loop, p, sk.At(p)), queue + [p], connected + [side];
    } else if ok {
      LoopSeedSkip(sk, k, loop, queue, connected);
    }
  }

  /**
   * Copying a Ground cell's input tile `p`, reached in one step from the reached tile
   * `pos`, keeps the state and lowers the measure: the number of Ground cells drops, or
   * it stays and the first queued Ground tile comes no later.
   */
  lemma CopyStep(sk: Sketch, loop: seq<seq<Pipe>>, queue: seq<Pos>, pos: Pos, p: Pos)
    requires sk.Valid() && sk.start.Some? && LoopState(sk, loop, queue)
    requires InGrid(pos, sk.rows, sk.columns) && Reached(sk, pos) && InGrid(p, sk.rows, sk.columns)
    requires PipeStep(sk, pos, p) && loop[p.0][p.1] == Ground
    ensures p != sk.start.value
    ensures LoopState(sk, Update(loop, p, sk.At(p)), queue + [p])
    ensures GridSum(Update(loop, p, sk.At(p)), GroundWeight) < GridSum(loop, GroundWeight)
         || (GridSum(Update(loop, p, sk.At(p)), GroundWeight) == GridSum(loop, GroundWeight)
             && FirstGround(sk, queue + [p]) <= FirstGround(sk, queue))
  {
    var w :| IsWalk(sk, w) && |w| >= 2 && w[|w| - 1] == pos;
    ExtendWalk(sk, w, p);
    assert (w + [p])[|w + [p]| - 1] == p;
    GridSumUpdate(loop, p, sk.At(p), GroundWeight);
    FirstGroundAppend(sk, queue, p);
    LoopStateAdd(sk, loop, queue, p);
  }

  /**
   * The side `side` of the tile `u` leads, if anywhere, to a cell of the grid that is
   * copied already (not Ground) or queued.
   */
  ghost predicate SideCopied(sk: Sketch, loop: seq<seq<Pipe>>, queue: seq<Pos>, u: Pos, side: Side)
    requires sk.Valid() && IsGrid(loop, sk.rows, sk.columns)
  {
    GetPos(side, u).Some? ==>
      var t := GetPos(side, u).value;
      InGrid(t, sk.rows, sk.columns) && (loop[t.0][t.1] != Ground || t in queue)
  }

  /** The pipe at `u` is followed: each side it opens to leads to a copied or queued cell. */
  ghost predicate Followed(sk: Sketch, loop: seq<seq<Pipe>>, queue: seq<Pos>, u: Pos)
    requires sk.Valid() && IsGrid(loop, sk.rows, sk.columns) && InGrid(u, sk.rows, sk.columns)
  {
    IsPipe(sk.At(u)) && forall side :: side in GetSides(sk.At(u)).value ==> SideCopied(sk, loop, queue, u, side)
  }

  /**
   * `loop'` and `queue'` extend `loop` and `queue`: the queue by tiles that were Ground
   * in `loop` and are now copied, and every cell that changed is one of those.
   */
  ghost predicate Grown(sk: Sketch, loop: seq<seq<Pipe>>, queue: seq<Pos>, loop': seq<seq<Pipe>>, queue': seq<Pos>)
    requires sk.Valid() && IsGrid(loop, sk.rows, sk.columns) && IsGrid(loop', sk.rows, sk.columns)
  {
    |queue| <= |queue'| && queue'[..|queue|] == queue
    && (forall i :: |queue| <= i < |queue'| ==>
          InGrid(queue'[i], sk.rows, sk.columns) && loop[queue'[i].0][queue'[i].1] == Ground
          && loop'[queue'[i].0][queue'[i].1] == sk.At(queue'[i]))
    && (forall y, x :: 0 <= y < sk.rows && 0 <= x < sk.columns && loop'[y][x] != loop[y][x] ==>
          loop[y][x] == Ground && loop'[y][x] == sk.grid[y][x] && (y, x) in queue'[|queue|..])
  }

  /**
   * What following the first `k` sides of the tile `pos` has done: the state is kept, the
   * copy has grown by queued tiles only, each of those `k` sides leads to a copied or
   * queued cell, and the termination measure did not grow.
   */
  ghost predicate FollowState(sk: Sketch, pos: Pos, loop: seq<seq<Pipe>>, queue: seq<Pos>, k: nat,
                              loop': seq<seq<Pipe>>, queue': seq<Pos>)
    requires sk.Valid() && sk.start.Some? && InGrid(pos, sk.rows, sk.columns) && IsPipe(sk.At(pos))
    requires IsGrid(loop, sk.rows, sk.columns) && k <= 2
  {
    LoopState(sk, loop', queue') && Grown(sk, loop, queue, loop', queue')
    && (forall j :: 0 <= j < k ==> SideCopied(sk, loop', queue', pos, GetSides(sk.At(pos)).value[j]))
    && GridSum(loop', GroundWeight) <= GridSum(loop, GroundWeight)
    && (GridSum(loop', GroundWeight) == GridSum(loop, GroundWeight) ==> FirstGround(sk, queue') <= FirstGround(sk, queue))
  }

  /** Copying the neighbour `p` across side `k` of `pos` grows the copy by one queued tile. */
  lemma FollowGrown(sk: Sketch, loop: seq<seq<Pipe>>, queue: seq<Pos>, loop0: seq<seq<Pipe>>, queue0: seq<Pos>, p: Pos)
    requires sk.Valid() && IsGrid(loop, sk.rows, sk.columns) && IsGrid(loop0, sk.rows, sk.columns)
    requires Grown(sk, loop, queue, loop0, queue0) && InGrid(p, sk.rows, sk.columns) && loop0[p.0][p.1] == Ground
    ensures IsGrid(Update(loop0, p, sk.At(p)), sk.rows, sk.columns)
    ensures Grown(sk, loop, queue, Update(loop0, p, sk.At(p)), queue0 + [p])
  {
    var l := Update(loop0, p, sk.At(p));
    var q := queue0 + [p];
    assert q[..|queue|] == queue0[..|queue|];
    assert q[|queue|..] == queue0[|queue|..] + [p];
    forall i | |queue| <= i < |q|
      ensures InGrid(q[i], sk.rows, sk.columns) && loop[q[i].0][q[i].1] == Ground && l[q[i].0][q[i].1] == sk.At(q[i])
    {
      if i < |queue0| {
        assert q[i] == queue0[i];
      }
    }
  }

  /** Copying the neighbour `p` across side `k` of `pos` takes the follow from `k` sides to `k + 1`. */
  lemma FollowCopy(sk: Sketch, pos: Pos, loop: seq<seq<Pipe>>, queue: seq<Pos>, k: nat,
                   loop0: seq<seq<Pipe>>, queue0: seq<Pos>, p: Pos)
    requires sk.Valid() && sk.start.Some? && InGrid(pos, sk.rows, sk.columns) && IsPipe(sk.At(pos)) && Reached(sk, pos)
    requires IsGrid(loop, sk.rows, sk.columns) && k < 2 && FollowState(sk, pos, loop, queue, k, loop0, queue0)
    requires GetPos(GetSides(sk.At(pos)).value[k], pos) == Some(p) && InGrid(p, sk.rows, sk.columns)
    requires loop0[p.0][p.1] == Ground
    ensures FollowState(sk, pos, loop, queue, k + 1, Update(loop0, p, sk.At(p)), queue0 + [p])
  {
    assert PipeStep(sk, pos, p);
    CopyStep(sk, loop0, queue0, pos, p);
    FollowGrown(sk, loop, queue, loop0, queue0, p);
    FollowCopySides(sk, pos, k, loop0, queue0, p);
  }

  /** After copying `p` across side `k` of `pos`, the first `k + 1` sides lead to copied or queued cells. */
  lemma FollowCopySides(sk: Sketch, pos: Pos, k: nat, loop0: seq<seq<Pipe>>, queue0: seq<Pos>, p: Pos)
    requires sk.Valid() && InGrid(pos, sk.rows, sk.columns) && IsPipe(sk.At(pos)) && IsGrid(loop0, sk.rows, sk.columns)
    requires k < 2 && forall j :: 0 <= j < k ==> SideCopied(sk, loop0, queue0, pos, GetSides(sk.At(pos)).value[j])
    requires GetPos(GetSides(sk.At(pos)).value[k], pos) == Some(p) && InGrid(p, sk.rows, sk.columns)
    ensures IsGrid(Update(loop0, p, sk.At(p)), sk.rows, sk.columns)
    ensures forall j :: 0 <= j < k + 1 ==>
      SideCopied(sk, Update(loop0, p, sk.At(p)), queue0 + [p], pos, GetSides(sk.At(pos)).value[j])
  {
    var l := Update(loop0, p, sk.At(p));
    var q := queue0 + [p];
    forall j | 0 <= j < k + 1
      ensures SideCopied(sk, l, q, pos, GetSides(sk.At(pos)).value[j])
    {
      if j < k {
        assert SideCopied(sk, loop0, queue0, pos, GetSides(sk.At(pos)).value[j]);
      }
    }
  }

  /**
   * One side of the inner loop of `get_main_loop`: a neighbour whose cell is still
   * Ground is copied from the input and queued. A neighbour outside the grid is an index
   * error (`ok` false).
   */
  method FollowSide(sk: Sketch, pos: Pos, ghost loop: seq<seq<Pipe>>, ghost queue: seq<Pos>, k: nat,
                    loop0: seq<seq<Pipe>>, queue0: seq<Pos>)
    returns (ok: bool, loop': seq<seq<Pipe>>, queue': seq<Pos>)
    requires sk.Valid() && sk.start.Some? && InGrid(pos, sk.rows, sk.columns) && IsPipe(sk.At(pos)) && Reached(sk, pos)
    requires IsGrid(loop, sk.rows, sk.columns) && k < 2 && FollowState(sk, pos, loop, queue, k, loop0, queue0)
    ensures var t := GetPos(GetSides(sk.At(pos)).value[k], pos);
      ok <==> t.None? || InGrid(t.value, sk.rows, sk.columns)
    ensures ok ==> FollowState(sk, pos, loop, queue, k + 1, loop', queue')
  {
    var next := GetPos(GetSides(sk.At(pos)).value[k], pos);
    ok, loop', queue' := next.None? || InGrid(next.value, sk.rows, sk.columns), loop0, queue0;
    if next.Some? && ok {
      var p := next.value;
      if loop'[p.0][p.1] == Ground {
        FollowCopy(sk, pos, loop, queue, k, loop0, queue0, p);
        loop', queue' := Update(loop', p, sk.At(p)), queue' + [p];
      }
    }
  }

  /**
   * The inner loop of `get_main_loop` for the reached tile `pos`: every neighbour its
   * pipe opens to whose cell is still Ground is copied from the input and queued, so that
   * afterwards every side of `pos` leads to a copied or queued cell. A neighbour outside
   * the grid is an index error (`ok` false), and happens exactly when a side of `pos`
   * leads out of the grid.
   */
  method FollowPipes(sk: Sketch, pos: Pos, loop: seq<seq<Pipe>>, queue: seq<Pos>)
    returns (ok: bool, loop': seq<seq<Pipe>>, queue': seq<Pos>)
    requires sk.Valid() && sk.start.Some? && LoopState(sk, loop, queue)
    requires InGrid(pos, sk.rows, sk.columns) && IsPipe(sk.At(pos)) && Reached(sk, pos)
    ensures ok <==> SidesInGrid(sk, pos)
    ensures ok ==> FollowState(sk, pos, loop, queue, 2, loop', queue')
  {
    var sides := GetSides(sk.At(pos)).value;
    loop', queue' := loop, queue;
    var k := 0;
    while k < 2
      invariant 0 <= k <= 2
      invariant FollowState(sk, pos, loop, queue, k, loop', queue')
      invariant forall j :: 0 <= j < k ==> GetPos(sides[j], pos).None? || InGrid(GetPos(sides[j], pos).value, sk.rows, sk.columns)
    {
      ok, loop', queue' := FollowSide(sk, pos, loop, queue, k, loop', queue');
      if !ok {
        return;
      }
      k := k + 1;
    }
    ok := true;
  }

  /**
   * The invariant of the copying loop: the copy's state; queued tiles are copied; the
   * seeds are copied or queued; and every copied tile other than the start that is no
   * longer queued has been followed.
   */
  ghost predicate CopyState(sk: Sketch, loop: seq<seq<Pipe>>, queue: seq<Pos>)
    requires sk.Valid() && sk.start.Some? && NeighboursInGrid(sk, |AllSides|)
  {
    LoopState(sk, loop, queue)
    && (forall q :: q in queue ==> loop[q.0][q.1] == sk.At(q))
    && (forall t :: t in SeedQueue(sk, |AllSides|) ==> loop[t.0][t.1] != Ground || t in queue)
    && (forall y, x ::
          (0 <= y < sk.rows && 0 <= x < sk.columns && (y, x) != sk.start.value && loop[y][x] != Ground
           && (y, x) !in queue)
          ==> Followed(sk, loop, queue, (y, x)))
  }

  lemma CopyInitial(sk: Sketch, loop: seq<seq<Pipe>>, queue: seq<Pos>, startPipe: Pipe)
    requires sk.Valid() && sk.start.Some? && NeighboursInGrid(sk, |AllSides|) && LoopState(sk, loop, queue)
    requires queue == SeedQueue(sk, |AllSides|) && SeedCopy(sk, loop, queue) && startPipe != Ground
    ensures CopyState(sk, Update(loop, sk.start.value, startPipe), queue)
  {
    var s := sk.start.value;
    var loop' := Update(loop, s, startPipe);
    assert Copied(sk, loop');
    forall q | q in queue
      ensures loop'[q.0][q.1] == sk.At(q)
    {
      assert q != s && loop'[q.0][q.1] == loop[q.0][q.1];
    }
    forall y, x | 0 <= y < sk.rows && 0 <= x < sk.columns && (y, x) != s && (y, x) !in queue
      ensures loop'[y][x] == Ground
    {
      assert loop'[y][x] == loop[y][x];
    }
  }

  /** A followed tile stays followed as the copy grows and the queue moves on past `pos`, which is copied. */
  lemma FollowedKept(sk: Sketch, loop: seq<seq<Pipe>>, queue: seq<Pos>, loop': seq<seq<Pipe>>, queue': seq<Pos>,
                     pos: Pos, u: Pos)
    requires sk.Valid() && IsGrid(loop, sk.rows, sk.columns) && IsGrid(loop', sk.rows, sk.columns)
    requires InGrid(u, sk.rows, sk.columns) && Followed(sk, loop, queue, u)
    requires forall y, x :: 0 <= y < sk.rows && 0 <= x < sk.columns && loop[y][x] != Ground ==> loop'[y][x] != Ground
    requires forall t :: t in queue && t != pos ==> t in queue'
    requires InGrid(pos, sk.rows, sk.columns) && loop'[pos.0][pos.1] != Ground
    ensures Followed(sk, loop', queue', u)
  {
    forall side | side in GetSides(sk.At(u)).value
      ensures SideCopied(sk, loop', queue', u, side)
    {
      assert SideCopied(sk, loop, queue, u, side);
    }
  }

  /** The copied cells stay copied, and the tiles still queued stay queued, after following the front tile. */
  lemma GrownFacts(sk: Sketch, loop: seq<seq<Pipe>>, queue: seq<Pos>, loop': seq<seq<Pipe>>, queue': seq<Pos>)
    requires sk.Valid() && IsGrid(loop, sk.rows, sk.columns) && IsGrid(loop', sk.rows, sk.columns)
    requires |queue| > 0 && Grown(sk, loop, queue[1..], loop', queue')
    ensures forall y, x :: 0 <= y < sk.rows && 0 <= x < sk.columns && loop[y][x] != Ground ==> loop'[y][x] == loop[y][x]
    ensures forall t :: t in queue && t != queue[0] ==> t in queue'
    ensures forall t :: t in queue'[|queue| - 1..] ==> t in queue'
  {
    var m := |queue| - 1;
    forall t | t in queue && t != queue[0]
      ensures t in queue'
    {
      var i :| 0 <= i < |queue| && queue[i] == t;
      assert queue'[..m][i - 1] == queue[1..][i - 1];
    }
    forall t | t in queue'[m..]
      ensures t in queue'
    {
      var i :| 0 <= i < |queue'[m..]| && queue'[m..][i] == t;
      assert queue'[m + i] == t;
    }
  }

  /** Following the front tile keeps the queued tiles copied and the seeds copied or queued. */
  lemma CopyStepQueue(sk: Sketch, loop: seq<seq<Pipe>>, queue: seq<Pos>, loop': seq<seq<Pipe>>, queue': seq<Pos>)
    requires sk.Valid() && sk.start.Some? && NeighboursInGrid(sk, |AllSides|) && IsGrid(loop, sk.rows, sk.columns)
    requires forall q :: q in queue ==> InGrid(q, sk.rows, sk.columns) && loop[q.0][q.1] == sk.At(q)
    requires forall t :: t in SeedQueue(sk, |AllSides|) ==> loop[t.0][t.1] != Ground || t in queue
    requires |queue| > 0 && IsPipe(sk.At(queue[0])) && IsGrid(loop', sk.rows, sk.columns)
    requires Grown(sk, loop, queue[1..], loop', queue')
    ensures forall q :: q in queue' ==> InGrid(q, sk.rows, sk.columns) && loop'[q.0][q.1] == sk.At(q)
    ensures forall t :: t in SeedQueue(sk, |AllSides|) ==> loop'[t.0][t.1] != Ground || t in queue'
  {
    var m := |queue| - 1;
    GrownFacts(sk, loop, queue, loop', queue');
    assert queue[0] in queue;
    forall q | q in queue'
      ensures InGrid(q, sk.rows, sk.columns) && loop'[q.0][q.1] == sk.At(q)
    {
      var i :| 0 <= i < |queue'| && queue'[i] == q;
      if i < m {
        assert queue'[..m][i] == queue[1..][i];
        assert q in queue;
      }
    }
  }

  /** Following the front tile keeps every followed tile followed, and the front tile is followed now. */
  lemma CopyStepFollowed(sk: Sketch, loop: seq<seq<Pipe>>, queue: seq<Pos>, loop': seq<seq<Pipe>>, queue': seq<Pos>)
    requires sk.Valid() && sk.start.Some? && IsGrid(loop, sk.rows, sk.columns) && IsGrid(loop', sk.rows, sk.columns)
    requires |queue| > 0 && InGrid(queue[0], sk.rows, sk.columns) && IsPipe(sk.At(queue[0]))
    requires loop[queue[0].0][queue[0].1] == sk.At(queue[0])
    requires forall y, x ::
          (0 <= y < sk.rows && 0 <= x < sk.columns && (y, x) != sk.start.value && loop[y][x] != Ground
           && (y, x) !in queue)
          ==> Followed(sk, loop, queue, (y, x))
    requires Grown(sk, loop, queue[1..], loop', queue')
    requires forall j :: 0 <= j < 2 ==> SideCopied(sk, loop', queue', queue[0], GetSides(sk.At(queue[0])).value[j])
    ensures forall y, x ::
          (0 <= y < sk.rows && 0 <= x < sk.columns && (y, x) != sk.start.value && loop'[y][x] != Ground
           && (y, x) !in queue')
          ==> Followed(sk, loop', queue', (y, x))
  {
    var pos := queue[0];
    GrownFacts(sk, loop, queue, loop', queue');
    var sides := GetSides(sk.At(pos)).value;
    forall side | side in sides
      ensures SideCopied(sk, loop', queue', pos, side)
    {
      assert side == sides[0] || side == sides[1];
    }
    forall y, x | 0 <= y < sk.rows && 0 <= x < sk.columns && (y, x) != sk.start.value && loop'[y][x] != Ground
      && (y, x) !in queue'
      ensures Followed(sk, loop', queue', (y, x))
    {
      if (y, x) != pos {
        FollowedKept(sk, loop, queue, loop', queue', pos, (y, x));
      }
    }
  }

  /**
   * One round of the copying loop of `get_main_loop`: the front tile is dequeued and,
   * unless it is Ground or Start (a panic), its pipes are followed. On a sound sketch no
   * panic happens.
   */
  method CopyRound(sk: Sketch, loop: seq<seq<Pipe>>, queue: seq<Pos>) returns (ok: bool, loop': seq<seq<Pipe>>, queue': seq<Pos>)
    requires sk.Valid() && sk.start.Some? && NeighboursInGrid(sk, |AllSides|) && CopyState(sk, loop, queue)
    requires |queue| > 0
    ensures Sound(sk) ==> ok
    ensures ok ==> CopyState(sk, loop', queue')
    ensures ok ==> loop'[sk.start.value.0][sk.start.value.1] == loop[sk.start.value.0][sk.start.value.1]
    ensures ok ==> (GridSum(loop', GroundWeight) < GridSum(loop, GroundWeight)
      || (GridSum(loop', GroundWeight) == GridSum(loop, GroundWeight) && FirstGround(sk, queue') < FirstGround(sk, queue)))
  {
    var pos := queue[0];
    assert pos in queue;
    var item := sk.At(pos);
    ok, loop', queue' := false, loop, queue;
    if item != Start && item != Ground {
      ok, loop', queue' := FollowPipes(sk, pos, loop, queue[1..]);
      if ok {
        CopyStepQueue(sk, loop, queue, loop', queue');
        CopyStepFollowed(sk, loop, queue, loop', queue');
        assert FirstGround(sk, queue) == 1 + FirstGround(sk, queue[1..]);
      }
    }
  }

  /**
   * Once the queue is empty, on a sketch whose start tile is `S`, the tile at the end of
   * every walk of at least one step is copied.
   */
  lemma {:induction false} WalkCopied(sk: Sketch, loop: seq<seq<Pipe>>, w: seq<Pos>)
    requires sk.Valid() && sk.start.Some? && sk.At(sk.start.value) == Start && NeighboursInGrid(sk, |AllSides|)
    requires CopyState(sk, loop, []) && IsWalk(sk, w) && |w| >= 2
    ensures loop[w[|w| - 1].0][w[|w| - 1].1] != Ground
    decreases |w|
  {
    var p := w[|w| - 1];
    if |w| == 2 {
      SeedsAreFirstSteps(sk, p);
    } else {
      var v := w[..|w| - 1];
      WalkPrefix(sk, w, |w| - 1);
      WalkCopied(sk, loop, v);
      var u := v[|v| - 1];
      assert PipeStep(sk, u, p) by {
        assert w[|w| - 2] == u;
      }
      var side :| side in GetSides(sk.At(u)).value && GetPos(side, u) == Some(p);
      assert Followed(sk, loop, [], u);
      assert SideCopied(sk, loop, [], u, side);
    }
  }

  /** Once the queue is empty, on a sketch whose start tile is `S`, every reached tile is copied. */
  lemma CopyComplete(sk: Sketch, loop: seq<seq<Pipe>>)
    requires sk.Valid() && sk.start.Some? && sk.At(sk.start.value) == Start && NeighboursInGrid(sk, |AllSides|)
    requires CopyState(sk, loop, [])
    ensures forall p: Pos :: InGrid(p, sk.rows, sk.columns) && p != sk.start.value && Reached(sk, p) ==>
      loop[p.0][p.1] == sk.grid[p.0][p.1]
  {
    forall p: Pos | InGrid(p, sk.rows, sk.columns) && p != sk.start.value && Reached(sk, p)
      ensures loop[p.0][p.1] == sk.grid[p.0][p.1]
    {
      var w :| IsWalk(sk, w) && |w| >= 2 && w[|w| - 1] == p;
      WalkCopied(sk, loop, w);
    }
  }

  /**
   * `get_main_loop`: a grid of the same size that keeps the tiles reached from the start
   * through the pipes, with Ground elsewhere and the start replaced by the pipe joining
   * its two connected sides. A missing start, an index outside the grid, a number of
   * connected sides other than two, and reaching a Ground or second Start tile are
   * panics (`None`); on a sound sketch with two connected sides none happens.
   */
  method GetMainLoop(sk: Sketch) returns (r: Option<Sketch>)
    requires sk.Valid()
    ensures sk.start.None? ==> r.None?
    ensures sk.start.Some? && NeighboursInGrid(sk, 4) && |ConnectedSides(sk, 4)| != 2 ==> r.None?
    ensures sk.start.Some? && NeighboursInGrid(sk, 4) && |ConnectedSides(sk, 4)| == 2 && Sound(sk) ==> r.Some?
    ensures r.Some? ==>
      sk.start.Some? && NeighboursInGrid(sk, 4) && |ConnectedSides(sk, 4)| == 2
      && r.value.Valid() && r.value.rows == sk.rows && r.value.columns == sk.columns && r.value.start == sk.start
      && GetStartPipe(ConnectedSides(sk, 4)[0], ConnectedSides(sk, 4)[1]) == Some(r.value.At(sk.start.value))
    ensures r.Some? ==> IsGrid(r.value.grid, sk.rows, sk.columns) && Copied(sk, r.value.grid)
    ensures r.Some? && sk.At(sk.start.value) == Start ==>
      forall p: Pos :: InGrid(p, sk.rows, sk.columns) && p != sk.start.value && Reached(sk, p) ==>
        r.value.grid[p.0][p.1] == sk.grid[p.0][p.1]
  {
    if sk.start.None? {
      return None;
    }
    var s := sk.start.value;
    var ok, loop, queue, connected := SeedLoop(sk);
    if !ok || |connected| != 2 {
      return None;
    }
    StartPipeOfConnected(sk);
    var startPipe := GetStartPipe(connected[0], connected[1]);
    if startPipe.None? {
      return None;
    }
    CopyInitial(sk, loop, queue, startPipe.value);
    loop := Update(loop, s, startPipe.value);
    while |queue| > 0
      invariant CopyState(sk, loop, queue)
      invariant loop[s.0][s.1] == startPipe.value
      decreases GridSum(loop, GroundWeight), FirstGround(sk, queue)
    {
      ok, loop, queue := CopyRound(sk, loop, queue);
      if !ok {
        return None;
      }
    }
    r := Some(Sketch(loop, sk.rows, sk.columns, sk.start));
    if sk.At(s) == Start {
      CopyComplete(sk, loop);
    }
  }

  // ---------------------------------------------------------------------------
  // Enclosed tiles (`get_tiles_enclosed_by_main_loop`)
  // ---------------------------------------------------------------------------

  /** Number of inversions among the first `x` tiles of a row. */
  function InversionsBefore(row: seq<Pipe>, x: nat): nat
    requires x <= |row|
  {
    if x == 0 then 0 else InversionsBefore(row, x - 1) + (if IsInversion(row[x - 1]) then 1 else 0)
  }

  /** A Ground tile with an odd number of inversions to its left lies inside the loop. */
  predicate Enclosed(row: seq<Pipe>, x: nat)
    requires x < |row|
  {
    row[x] == Ground && InversionsBefore(row, x) % 2 == 1
  }

  /** Enclosed tiles among the first `x` tiles of a row. */
  function EnclosedInRow(row: seq<Pipe>, x: nat): nat
    requires x <= |row|
  {
    if x == 0 then 0 else EnclosedInRow(row, x - 1) + (if Enclosed(row, x - 1) then 1 else 0)
  }

  /** Enclosed tiles in the first `y` rows. */
  function EnclosedTiles(g: seq<seq<Pipe>>, y: nat): nat
    requires y <= |g|
  {
    if y == 0 then 0 else EnclosedTiles(g, y - 1) + EnclosedInRow(g[y - 1], |g[y - 1]|)
  }

  /** Ground tiles among the first `x` tiles of a row. */
  function GroundInRow(row: seq<Pipe>, x: nat): nat
    requires x <= |row|
  {
    if x == 0 then 0 else GroundInRow(row, x - 1) + (if row[x - 1] == Ground then 1 else 0)
  }

  /** Only Ground tiles are counted, so the count is at most the number of Ground tiles. */
  lemma {:induction false} EnclosedAtMostGround(row: seq<Pipe>, x: nat)
    requires x <= |row|
    ensures EnclosedInRow(row, x) <= GroundInRow(row, x) <= x
  {
    if x > 0 {
      EnclosedAtMostGround(row, x - 1);
    }
  }

  /**
   * `get_tiles_enclosed_by_main_loop`: counts, row by row, the Ground tiles with an odd
   * number of inversions to their left.
   */
  method TilesEnclosed(sk: Sketch) returns (n: nat)
    requires sk.Valid()
    ensures n == EnclosedTiles(sk.grid, sk.rows)
  {
    n := 0;
    var y := 0;
    while y < sk.rows
      invariant 0 <= y <= sk.rows
      invariant n == EnclosedTiles(sk.grid, y)
    {
      var x := 0;
      var inRow := 0;
      while x < sk.columns
        invariant 0 <= x <= sk.columns
        invariant inRow == EnclosedInRow(sk.grid[y], x)
      {
        if sk.grid[y][x] == Ground {
          var inversions := InversionsBefore(sk.grid[y], x);
          if inversions % 2 == 1 {
            inRow := inRow + 1;
          }
        }
        x := x + 1;
      }
      n := n + inRow;
      y := y + 1;
    }
  }

  /** The main loop of the small square example: one Ground tile lies inside it. */
  lemma SmallLoopEnclosesOne()
    ensures EnclosedTiles([[Ground, Ground, Ground, Ground, Ground],
                           [Ground, SouthEast, Horizontal, SouthWest, Ground],
                           [Ground, Vertical, Ground, Vertical, Ground],
                           [Ground, NorthEast, Horizontal, NorthWest, Ground],
                           [Ground, Ground, Ground, Ground, Ground]], 5) == 1
  {
  }
}
