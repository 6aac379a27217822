/**
 * 2023 day 11, `observatory.rs`: an image of the sky as a sparse matrix of galaxies,
 * parsed from `.` and `#`, written back as text, and expanded so that every row and
 * every column without a galaxy becomes `to` rows or columns.
 *
 * A `Compressed<Item>` matrix stores only the cells that are not zero, and `Void` is the
 * zero item, so an observation is its size and the set of its galaxy cells.
 */
module Observatory {
  import opened Common
  import opened Text
  import opened Grid
  import opened Position

  datatype Item = Void | Galaxy

  /** The `EnumString` derive: `.` is `Void`, `#` is `Galaxy`, anything else is an error. */
  function ItemOf(c: char): (r: Option<Item>)
  {
    if c == '.' then Some(Void) else if c == '#' then Some(Galaxy) else None
  }

  /** The `strum::Display` derive. */
  function ItemChar(i: Item): char
  {
    match i
    case Void => '.'
    case Galaxy => '#'
  }

  lemma ItemOfChar(i: Item)
    ensures ItemOf(ItemChar(i)) == Some(i)
  {
  }

  lemma ItemOfMeans(c: char)
    ensures ItemOf(c).None? <==> c != '.' && c != '#'
    ensures ItemOf(c).Some? ==> ItemChar(ItemOf(c).value) == c
  {
  }

  /** `Observation`: `rows` by `columns` cells, of which those in `galaxies` hold a galaxy. */
  datatype Observation = Observation(rows: nat, columns: nat, galaxies: set<Pos>)

  /** Every stored cell lies inside the matrix. */
  predicate Valid(o: Observation)
  {
    forall p :: p in o.galaxies ==> InGrid(p, o.rows, o.columns)
  }

  /** `matrix.get((y, x))`: a cell that is not stored reads as the zero item. */
  function Get(o: Observation, p: Pos): Item
  {
    if p in o.galaxies then Galaxy else Void
  }

  /** One line of the image, character by character; any character but `.` and `#` fails. */
  function ParseRow(line: string): (r: Option<seq<Item>>)
    ensures r.Some? ==> |r.value| == |line|
  {
    if line == [] then Some([])
    else
      var item := ItemOf(line[0]);
      var rest := ParseRow(line[1..]);
      if item.None? || rest.None? then None else Some([item.value] + rest.value)
  }

  /** The lines of the image; the first line that fails makes the whole image fail. */
  function ParseImage(lines: seq<string>): (r: Option<seq<seq<Item>>>)
    ensures r.Some? ==> |r.value| == |lines|
  {
    if lines == [] then Some([])
    else
      var row := ParseRow(lines[0]);
      var rest := ParseImage(lines[1..]);
      if row.None? || rest.None? then None else Some([row.value] + rest.value)
  }

  /** The cells of a grid that hold a galaxy. */
  function GalaxiesOf(img: seq<seq<Item>>, rows: nat, columns: nat): set<Pos>
    requires IsGrid(img, rows, columns)
  {
    set y: nat, x: nat | y < rows && x < columns && img[y][x] == Galaxy :: (y, x)
  }

  /**
   * `Observation::<Raw>::from_str`: one row per line and as many columns as the first
   * line has characters; an image whose lines differ in length is refused.
   */
  function FromStr(s: string): (r: Option<Observation>)
    ensures r.Some? ==> Valid(r.value) && r.value.rows == |Lines(s)|
  {
    var img := ParseImage(Lines(s));
    if img.None? then None
    else
      var rows := |img.value|;
      var columns := if rows == 0 then 0 else |img.value[0]|;
      if !IsGrid(img.value, rows, columns) then None
      else Some(Observation(rows, columns, GalaxiesOf(img.value, rows, columns)))
  }

  /** Row `y` of the text: one character per cell. */
  function RowText(o: Observation, y: nat): (t: string)
    ensures |t| == o.columns
  {
    seq(o.columns, x requires 0 <= x < o.columns => ItemChar(Get(o, (y, x))))
  }

  /** The rows of the text. */
  function Rows(o: Observation): (t: seq<string>)
    ensures |t| == o.rows
  {
    seq(o.rows, y requires 0 <= y < o.rows => RowText(o, y))
  }

  /** `Display`: each row's characters followed by a line feed. */
  function Render(o: Observation): string
  {
    Unlines(Rows(o))
  }

  // ---------------------------------------------------------------------------
  // Parsing and writing back

  /** A picture: lines of `.` and `#`, all as long as the first. */
  predicate Picture(lines: seq<string>)
  {
    (forall y, x :: 0 <= y < |lines| && 0 <= x < |lines[y]| ==> lines[y][x] == '.' || lines[y][x] == '#') &&
    (forall y :: 0 <= y < |lines| ==> |lines[y]| == |lines[0]|)
  }

  lemma {:induction false} ParseRowText(line: string)
    requires forall x :: 0 <= x < |line| ==> line[x] == '.' || line[x] == '#'
    ensures ParseRow(line).Some?
    ensures forall x :: 0 <= x < |line| ==> ItemChar(ParseRow(line).value[x]) == line[x]
  {
    if line != [] {
      ParseRowText(line[1..]);
      var rest := ParseRow(line[1..]).value;
      var r := ParseRow(line).value;
      assert r == [ItemOf(line[0]).value] + rest;
      forall x | 0 < x < |line|
        ensures ItemChar(r[x]) == line[x]
      {
        assert r[x] == rest[x - 1] && line[x] == line[1..][x - 1];
      }
    }
  }

  /** A line with a character other than `.` and `#` fails to parse. */
  lemma {:induction false} ParseRowBad(line: string, x: nat)
    requires x < |line| && line[x] != '.' && line[x] != '#'
    ensures ParseRow(line).None?
  {
    if x > 0 {
      assert line[1..][x - 1] == line[x];
      ParseRowBad(line[1..], x - 1);
    }
  }

  lemma {:induction false} ParseImageText(lines: seq<string>)
    requires forall y, x :: 0 <= y < |lines| && 0 <= x < |lines[y]| ==> lines[y][x] == '.' || lines[y][x] == '#'
    ensures ParseImage(lines).Some?
    ensures forall y :: 0 <= y < |lines| ==> ParseRow(lines[y]).Some?
    ensures forall y :: 0 <= y < |lines| ==> ParseImage(lines).value[y] == ParseRow(lines[y]).value
  {
    if lines != [] {
      ParseRowText(lines[0]);
      ParseImageText(lines[1..]);
      var rest := ParseImage(lines[1..]).value;
      var r := ParseImage(lines).value;
      assert r == [ParseRow(lines[0]).value] + rest;
      forall y | 0 < y < |lines|
        ensures r[y] == ParseRow(lines[y]).value && ParseRow(lines[y]).Some?
      {
        assert r[y] == rest[y - 1] && lines[y] == lines[1..][y - 1];
      }
    }
  }

  /** An image with a bad character on some line fails to parse. */
  lemma {:induction false} ParseImageBad(lines: seq<string>, y: nat, x: nat)
    requires y < |lines| && x < |lines[y]| && lines[y][x] != '.' && lines[y][x] != '#'
    ensures ParseImage(lines).None?
  {
    if y == 0 {
      ParseRowBad(lines[0], x);
    } else {
      assert lines[1..][y - 1] == lines[y];
      ParseImageBad(lines[1..], y - 1, x);
    }
  }

  /** Text holding a character other than `.`, `#` and line breaks does not parse. */
  lemma FromStrBad(s: string, y: nat, x: nat)
    requires y < |Lines(s)| && x < |Lines(s)[y]| && Lines(s)[y][x] != '.' && Lines(s)[y][x] != '#'
    ensures FromStr(s).None?
  {
    ParseImageBad(Lines(s), y, x);
  }

  lemma PictureLines(lines: seq<string>)
    requires Picture(lines)
    ensures Lines(Unlines(lines)) == lines
  {
    forall i | 0 <= i < |lines|
      ensures '\n' !in lines[i]
      ensures |lines[i]| == 0 || lines[i][|lines[i]| - 1] != '\r'
    {
      assert forall x :: 0 <= x < |lines[i]| ==> lines[i][x] != '\n';
    }
    LinesUnlines(lines);
  }

  /** Parsing a picture gives its size, and a cell holds a galaxy exactly where the picture has `#`. */
  lemma FromStrPicture(lines: seq<string>)
    requires Picture(lines)
    ensures FromStr(Unlines(lines)).Some?
    ensures var o := FromStr(Unlines(lines)).value;
      o.rows == |lines| && o.columns == (if lines == [] then 0 else |lines[0]|) &&
      forall y, x :: 0 <= y < o.rows && 0 <= x < o.columns ==> ItemChar(Get(o, (y, x))) == lines[y][x]
  {
    PictureLines(lines);
    ParseImageText(lines);
    var img := ParseImage(lines).value;
    var rows := |img|;
    var columns := if rows == 0 then 0 else |img[0]|;
    forall y | 0 <= y < rows
      ensures |img[y]| == columns
      ensures forall x :: 0 <= x < |lines[y]| ==> ItemChar(img[y][x]) == lines[y][x]
    {
      ParseRowText(lines[y]);
      ParseRowText(lines[0]);
    }
    assert IsGrid(img, rows, columns);
    var o := FromStr(Unlines(lines)).value;
    assert o.galaxies == GalaxiesOf(img, rows, columns);
    forall y, x | 0 <= y < o.rows && 0 <= x < o.columns
      ensures ItemChar(Get(o, (y, x))) == lines[y][x]
    {
      if img[y][x] == Galaxy {
        assert (y, x) in o.galaxies;
      }
    }
  }

  /** Test `parse` in general: a picture, parsed and written back, is the same text. */
  lemma ParseDisplay(lines: seq<string>)
    requires Picture(lines)
    ensures FromStr(Unlines(lines)).Some?
    ensures Render(FromStr(Unlines(lines)).value) == Unlines(lines)
  {
    FromStrPicture(lines);
    var o := FromStr(Unlines(lines)).value;
    forall y | 0 <= y < o.rows
      ensures Rows(o)[y] == lines[y]
    {
      assert |lines[y]| == |lines[0]|;
    }
    assert Rows(o) == lines;
  }

  lemma RowsPicture(o: Observation)
    requires o.rows > 0 || o.columns == 0
    ensures Picture(Rows(o))
    ensures |Rows(o)| == o.rows && (if o.rows == 0 then 0 else |Rows(o)[0]|) == o.columns
    ensures forall y, x :: 0 <= y < o.rows && 0 <= x < o.columns ==> Rows(o)[y][x] == ItemChar(Get(o, (y, x)))
  {
  }

  /** Two observations of the same size that agree on every cell are the same. */
  lemma SameCells(o: Observation, p: Observation)
    requires Valid(o) && Valid(p) && o.rows == p.rows && o.columns == p.columns
    requires forall y, x :: 0 <= y < o.rows && 0 <= x < o.columns ==> ItemChar(Get(o, (y, x))) == ItemChar(Get(p, (y, x)))
    ensures o == p
  {
    forall q | q in p.galaxies
      ensures q in o.galaxies
    {
      assert ItemChar(Get(o, (q.0, q.1))) == ItemChar(Get(p, (q.0, q.1)));
    }
    forall q | q in o.galaxies
      ensures q in p.galaxies
    {
      assert ItemChar(Get(o, (q.0, q.1))) == ItemChar(Get(p, (q.0, q.1)));
    }
    assert p.galaxies == o.galaxies;
  }

  /** Writing an observation as text and parsing it back gives the same observation. */
  lemma DisplayParse(o: Observation)
    requires Valid(o) && (o.rows > 0 || o.columns == 0)
    ensures FromStr(Render(o)) == Some(o)
  {
    RowsPicture(o);
    FromStrPicture(Rows(o));
    SameCells(o, FromStr(Render(o)).value);
  }

  // ---------------------------------------------------------------------------
  // Expansion

  /** Row `y` holds no galaxy. */
  predicate VoidRow(o: Observation, y: nat)
  {
    forall x :: 0 <= x < o.columns ==> (y, x) !in o.galaxies
  }

  /** Column `x` holds no galaxy. */
  predicate VoidColumn(o: Observation, x: nat)
  {
    forall y :: 0 <= y < o.rows ==> (y, x) !in o.galaxies
  }

  function RowVoids(o: Observation): (v: seq<bool>)
    ensures |v| == o.rows
  {
    seq(o.rows, y requires 0 <= y < o.rows => VoidRow(o, y))
  }

  function ColumnVoids(o: Observation): (v: seq<bool>)
    ensures |v| == o.columns
  {
    seq(o.columns, x requires 0 <= x < o.columns => VoidColumn(o, x))
  }

  /** How many of `bs` hold. */
  function CountTrue(bs: seq<bool>): nat
  {
    if bs == [] then 0 else (if bs[0] then 1 else 0) + CountTrue(bs[1..])
  }

  function ScanFrom(bs: seq<bool>, step: nat, acc: nat): (r: seq<nat>)
    ensures |r| == |bs|
  {
    if bs == [] then []
    else
      var a := acc + (if bs[0] then step else 0);
      [a] + ScanFrom(bs[1..], step, a)
  }

  function ScanOffsets(bs: seq<bool>, step: nat): (r: seq<nat>)
    ensures |r| == |bs|
  {
    ScanFrom(bs, step, 0)
  }

  /** `rows_offset`: for each row, `to - 1` for every empty row up to and including it. */
  function RowsOffset(o: Observation, to: nat): (r: seq<nat>)
    requires to > 1
    ensures |r| == o.rows
  {
    ScanOffsets(RowVoids(o), to - 1)
  }

  /** `columns_offset`, the same for the columns. */
  function ColumnsOffset(o: Observation, to: nat): (r: seq<nat>)
    requires to > 1
    ensures |r| == o.columns
  {
    ScanOffsets(ColumnVoids(o), to - 1)
  }

  /** `last().copied().unwrap_or_default()`. */
  function LastOr0(r: seq<nat>): nat
  {
    if r == [] then 0 else r[|r| - 1]
  }

  /** Where the galaxy at `p` lands: `(y + rows_offset[y], x + columns_offset[x])`. */
  function Shift(o: Observation, to: nat, p: Pos): Pos
    requires to > 1 && InGrid(p, o.rows, o.columns)
  {
    (p.0 + RowsOffset(o, to)[p.0], p.1 + ColumnsOffset(o, to)[p.1])
  }

  /** The galaxies of `o`, each moved to where it lands. */
  function ShiftedGalaxies(o: Observation, to: nat): set<Pos>
    requires to > 1 && Valid(o)
  {
    ShiftedSome(o, to, o.galaxies)
  }

  /** `expand(to)`: `None` where the assertion `to > 1` fails. */
  function Expanded(o: Observation, to: nat): (r: Option<Observation>)
    requires Valid(o)
    ensures r.Some? <==> to > 1
  {
    if to <= 1 then None
    else
      Some(Observation(o.rows + LastOr0(RowsOffset(o, to)), o.columns + LastOr0(ColumnsOffset(o, to)),
                       ShiftedGalaxies(o, to)))
  }

  /** The cells of `s` moved to where they land. */
  function ShiftedSome(o: Observation, to: nat, s: set<Pos>): set<Pos>
    requires to > 1 && forall p :: p in s ==> InGrid(p, o.rows, o.columns)
  {
    set p | p in s :: Shift(o, to, p)
  }

  lemma ShiftedAdd(o: Observation, to: nat, s: set<Pos>, p: Pos)
    requires to > 1 && forall q :: q in s ==> InGrid(q, o.rows, o.columns)
    requires InGrid(p, o.rows, o.columns)
    ensures ShiftedSome(o, to, s + {p}) == ShiftedSome(o, to, s) + {Shift(o, to, p)}
  {
  }

  /** `expand`: the offsets, an empty matrix of the new size, and one write per galaxy. */
  method Expand(o: Observation, to: nat) returns (r: Option<Observation>)
    requires Valid(o)
    ensures r == Expanded(o, to)
  {
    if to <= 1 {
      return None;
    }
    var rowsOffset := RowsOffset(o, to);
    var columnsOffset := ColumnsOffset(o, to);
    var y := o.rows + LastOr0(rowsOffset);
    var x := o.columns + LastOr0(columnsOffset);
    var expanded: set<Pos> := {};
    var rest := o.galaxies;
    while rest != {}
      invariant rest <= o.galaxies
      invariant expanded == ShiftedSome(o, to, o.galaxies - rest)
      decreases |rest|
    {
      var p :| p in rest;
      var moved := (p.0 + rowsOffset[p.0], p.1 + columnsOffset[p.1]);
      assert moved == Shift(o, to, p);
      ghost var done := o.galaxies - rest;
      ShiftedAdd(o, to, done, p);
      expanded := expanded + {moved};
      rest := rest - {p};
      assert o.galaxies - rest == done + {p};
    }
    assert o.galaxies - rest == o.galaxies;
    return Some(Observation(y, x, expanded));
  }

  // Properties of the offsets

  /** Multiplication distributes over addition. */
  lemma MulAdd(k: nat, a: nat, b: nat)
    ensures k * (a + b) == k * a + k * b
  {
  }

  lemma {:induction false} CountTrueAppend(a: seq<bool>, b: seq<bool>)
    ensures CountTrue(a + b) == CountTrue(a) + CountTrue(b)
  {
    if a == [] {
      assert a + b == b;
    } else {
      assert (a + b)[1..] == a[1..] + b;
      CountTrueAppend(a[1..], b);
    }
  }

  /** Entry `i` of the scan is the start value plus `step` for each `true` up to and including `i`. */
  lemma {:induction false} ScanFromAt(bs: seq<bool>, step: nat, acc: nat, i: nat)
    requires i < |bs|
    ensures ScanFrom(bs, step, acc)[i] == acc + step * CountTrue(bs[..i + 1])
  {
    var b0: nat := if bs[0] then 1 else 0;
    assert (if bs[0] then step else 0) == step * b0;
    var a := acc + step * b0;
    var c := CountTrue(bs[..i + 1][1..]);
    assert CountTrue(bs[..i + 1]) == b0 + c;
    MulAdd(step, b0, c);
    if i > 0 {
      assert bs[..i + 1][1..] == bs[1..][..i];
      ScanFromAt(bs[1..], step, a, i - 1);
    }
  }

  /** The offset at row `y` is `to - 1` times the number of empty rows among `0..=y`. */
  lemma RowsOffsetAt(o: Observation, to: nat, y: nat)
    requires to > 1 && y < o.rows
    ensures RowsOffset(o, to)[y] == (to - 1) * CountTrue(RowVoids(o)[..y + 1])
  {
    ScanFromAt(RowVoids(o), to - 1, 0, y);
  }

  /** The offset at column `x` is `to - 1` times the number of empty columns among `0..=x`. */
  lemma ColumnsOffsetAt(o: Observation, to: nat, x: nat)
    requires to > 1 && x < o.columns
    ensures ColumnsOffset(o, to)[x] == (to - 1) * CountTrue(ColumnVoids(o)[..x + 1])
  {
    ScanFromAt(ColumnVoids(o), to - 1, 0, x);
  }

  /** Between entries `i <= j`, the scan grows by `step` for each `true` in `i + 1..=j`. */
  lemma ScanGap(bs: seq<bool>, step: nat, i: nat, j: nat)
    requires i <= j < |bs|
    ensures ScanOffsets(bs, step)[j] == ScanOffsets(bs, step)[i] + step * CountTrue(bs[i + 1..j + 1])
  {
    ScanFromAt(bs, step, 0, i);
    ScanFromAt(bs, step, 0, j);
    assert bs[..j + 1] == bs[..i + 1] + bs[i + 1..j + 1];
    CountTrueAppend(bs[..i + 1], bs[i + 1..j + 1]);
    var c1 := CountTrue(bs[..i + 1]);
    var c2 := CountTrue(bs[i + 1..j + 1]);
    MulAdd(step, c1, c2);
  }

  /** The expanded matrix has `to - 1` more rows per empty row and `to - 1` more columns per empty column. */
  lemma ExpandedSize(o: Observation, to: nat)
    requires Valid(o) && to > 1
    ensures Expanded(o, to).value.rows == o.rows + (to - 1) * CountTrue(RowVoids(o))
    ensures Expanded(o, to).value.columns == o.columns + (to - 1) * CountTrue(ColumnVoids(o))
  {
    if o.rows > 0 {
      RowsOffsetAt(o, to, o.rows - 1);
      assert RowVoids(o)[..o.rows] == RowVoids(o);
    }
    if o.columns > 0 {
      ColumnsOffsetAt(o, to, o.columns - 1);
      assert ColumnVoids(o)[..o.columns] == ColumnVoids(o);
    }
  }

  /** Rows and columns keep their order, and two galaxies `y` rows apart land `y` rows plus `to - 1` per empty row between them apart. */
  lemma ShiftGap(o: Observation, to: nat, p: Pos, q: Pos)
    requires to > 1 && InGrid(p, o.rows, o.columns) && InGrid(q, o.rows, o.columns)
    ensures p.0 <= q.0 ==> Shift(o, to, q).0 == Shift(o, to, p).0 + (q.0 - p.0) + (to - 1) * CountTrue(RowVoids(o)[p.0 + 1..q.0 + 1])
    ensures p.1 <= q.1 ==> Shift(o, to, q).1 == Shift(o, to, p).1 + (q.1 - p.1) + (to - 1) * CountTrue(ColumnVoids(o)[p.1 + 1..q.1 + 1])
  {
    if p.0 <= q.0 {
      ScanGap(RowVoids(o), to - 1, p.0, q.0);
    }
    if p.1 <= q.1 {
      ScanGap(ColumnVoids(o), to - 1, p.1, q.1);
    }
  }

  /** How many of `bs` hold strictly after the smaller and up to the larger of `a` and `b`. */
  function VoidsBetween(bs: seq<bool>, a: nat, b: nat): nat
    requires a < |bs| && b < |bs|
  {
    if a <= b then CountTrue(bs[a + 1..b + 1]) else CountTrue(bs[b + 1..a + 1])
  }

  /**
   * After expansion two cells are as far apart as before plus `to - 1` for every empty row
   * and every empty column between them.
   */
  lemma ShiftDistance(o: Observation, to: nat, p: Pos, q: Pos)
    requires to > 1 && InGrid(p, o.rows, o.columns) && InGrid(q, o.rows, o.columns)
    ensures DistanceTo(AsCoordinates(Shift(o, to, p)), AsCoordinates(Shift(o, to, q))) ==
      DistanceTo(AsCoordinates(p), AsCoordinates(q)) +
      (to - 1) * (VoidsBetween(RowVoids(o), p.0, q.0) + VoidsBetween(ColumnVoids(o), p.1, q.1))
  {
    var k: nat := to - 1;
    var r := VoidsBetween(RowVoids(o), p.0, q.0);
    var c := VoidsBetween(ColumnVoids(o), p.1, q.1);
    var a := Shift(o, to, p);
    var b := Shift(o, to, q);
    ShiftRows(o, to, p, q);
    ShiftColumns(o, to, p, q);
    assert DistanceTo(AsCoordinates(a), AsCoordinates(b)) == AbsDiff(a.0, b.0) + AbsDiff(a.1, b.1);
    assert DistanceTo(AsCoordinates(p), AsCoordinates(q)) == AbsDiff(p.0, q.0) + AbsDiff(p.1, q.1);
    MulAdd(k, r, c);
  }

  lemma ShiftRows(o: Observation, to: nat, p: Pos, q: Pos)
    requires to > 1 && InGrid(p, o.rows, o.columns) && InGrid(q, o.rows, o.columns)
    ensures AbsDiff(Shift(o, to, p).0, Shift(o, to, q).0) == AbsDiff(p.0, q.0) + (to - 1) * VoidsBetween(RowVoids(o), p.0, q.0)
  {
    var v := RowVoids(o);
    if p.0 <= q.0 {
      var kc: nat := (to - 1) * CountTrue(v[p.0 + 1..q.0 + 1]);
      ShiftGap(o, to, p, q);
      assert Shift(o, to, q).0 == Shift(o, to, p).0 + (q.0 - p.0) + kc;
    } else {
      var kc: nat := (to - 1) * CountTrue(v[q.0 + 1..p.0 + 1]);
      ShiftGap(o, to, q, p);
      assert Shift(o, to, p).0 == Shift(o, to, q).0 + (p.0 - q.0) + kc;
    }
  }

  lemma ShiftColumns(o: Observation, to: nat, p: Pos, q: Pos)
    requires to > 1 && InGrid(p, o.rows, o.columns) && InGrid(q, o.rows, o.columns)
    ensures AbsDiff(Shift(o, to, p).1, Shift(o, to, q).1) == AbsDiff(p.1, q.1) + (to - 1) * VoidsBetween(ColumnVoids(o), p.1, q.1)
  {
    var v := ColumnVoids(o);
    if p.1 <= q.1 {
      var kc: nat := (to - 1) * CountTrue(v[p.1 + 1..q.1 + 1]);
      ShiftGap(o, to, p, q);
      assert Shift(o, to, q).1 == Shift(o, to, p).1 + (q.1 - p.1) + kc;
    } else {
      var kc: nat := (to - 1) * CountTrue(v[q.1 + 1..p.1 + 1]);
      ShiftGap(o, to, q, p);
      assert Shift(o, to, p).1 == Shift(o, to, q).1 + (p.1 - q.1) + kc;
    }
  }

  /** The expansion keeps the order of rows and of columns and never brings two cells closer. */
  lemma ShiftMonotone(o: Observation, to: nat, p: Pos, q: Pos)
    requires to > 1 && InGrid(p, o.rows, o.columns) && InGrid(q, o.rows, o.columns)
    ensures p.0 <= q.0 ==> Shift(o, to, p).0 + (q.0 - p.0) <= Shift(o, to, q).0
    ensures p.1 <= q.1 ==> Shift(o, to, p).1 + (q.1 - p.1) <= Shift(o, to, q).1
  {
    var k: nat := to - 1;
    if p.0 <= q.0 {
      var c: nat := CountTrue(RowVoids(o)[p.0 + 1..q.0 + 1]);
      assert k * c >= 0;
      ScanGap(RowVoids(o), k, p.0, q.0);
    }
    if p.1 <= q.1 {
      var c: nat := CountTrue(ColumnVoids(o)[p.1 + 1..q.1 + 1]);
      assert k * c >= 0;
      ScanGap(ColumnVoids(o), k, p.1, q.1);
    }
  }

  /** Different cells land on different cells. */
  lemma ShiftInjective(o: Observation, to: nat, p: Pos, q: Pos)
    requires to > 1 && InGrid(p, o.rows, o.columns) && InGrid(q, o.rows, o.columns)
    requires Shift(o, to, p) == Shift(o, to, q)
    ensures p == q
  {
    ShiftMonotone(o, to, p, q);
    ShiftMonotone(o, to, q, p);
  }

  /** Every cell lands inside the expanded matrix. */
  lemma ShiftInside(o: Observation, to: nat, p: Pos)
    requires Valid(o) && to > 1 && InGrid(p, o.rows, o.columns)
    ensures InGrid(Shift(o, to, p), Expanded(o, to).value.rows, Expanded(o, to).value.columns)
  {
    ShiftMonotone(o, to, p, (o.rows - 1, o.columns - 1));
  }

  /** The expanded observation is a matrix whose galaxies all lie inside it. */
  lemma ExpandedValid(o: Observation, to: nat)
    requires Valid(o) && to > 1
    ensures Valid(Expanded(o, to).value)
  {
    forall q | q in Expanded(o, to).value.galaxies
      ensures InGrid(q, Expanded(o, to).value.rows, Expanded(o, to).value.columns)
    {
      var p :| p in o.galaxies && Shift(o, to, p) == q;
      ShiftInside(o, to, p);
    }
  }

  /** A cell of the expanded matrix holds a galaxy exactly when some galaxy lands on it. */
  lemma ExpandedMeans(o: Observation, to: nat, q: Pos)
    requires Valid(o) && to > 1
    ensures Get(Expanded(o, to).value, q) == Galaxy <==> exists p :: p in o.galaxies && Shift(o, to, p) == q
  {
  }

  lemma {:induction false} ImageCount(o: Observation, to: nat, s: set<Pos>)
    requires Valid(o) && to > 1 && s <= o.galaxies
    ensures |set p | p in s :: Shift(o, to, p)| == |s|
    decreases |s|
  {
    if s != {} {
      var p :| p in s;
      var rest := s - {p};
      ImageCount(o, to, rest);
      var img := set q | q in s :: Shift(o, to, q);
      var imgRest := set q | q in rest :: Shift(o, to, q);
      assert img == imgRest + {Shift(o, to, p)};
      if Shift(o, to, p) in imgRest {
        var q :| q in rest && Shift(o, to, q) == Shift(o, to, p);
        ShiftInjective(o, to, p, q);
        assert false;
      }
    }
  }

  /** Expanding keeps the number of galaxies. */
  lemma ExpandedCount(o: Observation, to: nat)
    requires Valid(o) && to > 1
    ensures |Expanded(o, to).value.galaxies| == |o.galaxies|
  {
    ImageCount(o, to, o.galaxies);
  }

  /** A row that holds a galaxy is not empty, so it gets no extra rows of its own. */
  lemma GalaxyRowNotVoid(o: Observation, p: Pos)
    requires p in o.galaxies && InGrid(p, o.rows, o.columns)
    ensures !RowVoids(o)[p.0] && !ColumnVoids(o)[p.1]
  {
  }

  // ---------------------------------------------------------------------------
  // `to_galaxies`

  /** The galaxies as `Coordinates`. */
  function AsCoordinates(p: Pos): Coordinates
  {
    Coordinates(p.0, p.1)
  }

  /** `to_galaxies`: every galaxy once, in an order the source does not fix. */
  method ToGalaxies(o: Observation) returns (g: seq<Coordinates>)
    ensures Distinct(g) && |g| == |o.galaxies|
    ensures forall c :: c in g <==> (c.y, c.x) in o.galaxies
  {
    g := [];
    var rest := o.galaxies;
    while rest != {}
      invariant rest <= o.galaxies
      invariant Distinct(g) && |g| + |rest| == |o.galaxies|
      invariant forall c :: c in g <==> (c.y, c.x) in o.galaxies - rest
      decreases |rest|
    {
      var p :| p in rest;
      g := g + [AsCoordinates(p)];
      rest := rest - {p};
    }
  }
}
