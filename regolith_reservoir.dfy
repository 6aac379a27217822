/**
 * 2022 day 14: sand pours from a hole into a cave whose rock is listed as paths of
 * points, and each grain falls until it rests or reaches the bottom row.
 */
module RegolithReservoir {
  import opened Common
  import opened Text

  /** A cell of the cave. */
  datatype Stuff = Void | Rock | Sand

  /** A matrix index: row, then column. */
  type Pos = (nat, nat)

  /** Where every grain enters: row 0, column 500. */
  const SAND_HOLE: Pos := (0, 500)

  /** A `Compressed` matrix: its size and the cells set so far; every other cell reads as `Void`. */
  datatype Matrix = Matrix(rows: nat, columns: nat, cells: map<Pos, Stuff>)

  function Get(m: Matrix, p: Pos): Stuff
  {
    if p in m.cells then m.cells[p] else Void
  }

  function Set(m: Matrix, p: Pos, v: Stuff): (r: Matrix)
    ensures r.rows == m.rows && r.columns == m.columns
    ensures Get(r, p) == v
    ensures forall q :: q != p ==> Get(r, q) == Get(m, q)
  {
    m.(cells := m.cells[p := v])
  }

  // ---------------------------------------------------------------------------------
  // Building the matrix and placing the rock

  /** `input.iter().flatten()`: the points of all paths, path by path. */
  function Flatten(paths: seq<seq<(nat, nat)>>): (points: seq<(nat, nat)>)
    ensures paths != [] ==> points == paths[0] + Flatten(paths[1..])
  {
    if paths == [] then [] else paths[0] + Flatten(paths[1..])
  }

  /** The largest element of a non-empty sequence. */
  function MaxOf(xs: seq<nat>): (m: nat)
    requires xs != []
    ensures m in xs
    ensures forall i :: 0 <= i < |xs| ==> xs[i] <= m
  {
    if |xs| == 1 then xs[0] else Max(xs[0], MaxOf(xs[1..]))
  }

  /** The first numbers of the points. */
  function Firsts(points: seq<(nat, nat)>): (xs: seq<nat>)
    ensures |xs| == |points|
    ensures forall i :: 0 <= i < |points| ==> xs[i] == points[i].0
  {
    seq(|points|, i requires 0 <= i < |points| => points[i].0)
  }

  /** The second numbers of the points. */
  function Seconds(points: seq<(nat, nat)>): (ys: seq<nat>)
    ensures |ys| == |points|
    ensures forall i :: 0 <= i < |points| ==> ys[i] == points[i].1
  {
    seq(|points|, i requires 0 <= i < |points| => points[i].1)
  }

  /**
   * `build_matrix`: an all-`Void` matrix with one row more than the largest second number
   * and one column more than the largest first number. No point is a panic of `unwrap`,
   * and a largest number of `usize::MAX` overflows the `+ 1`.
   */
  function BuildMatrix(points: seq<(nat, nat)>): (r: Option<Matrix>)
    ensures r.Some? <==> points != [] && MaxOf(Seconds(points)) < U64_MAX && MaxOf(Firsts(points)) < U64_MAX
    ensures r.Some? ==> r.value.cells == map[]
    ensures r.Some? ==> forall i :: 0 <= i < |points| ==> points[i].1 < r.value.rows && points[i].0 < r.value.columns
    ensures r.Some? ==> exists i :: 0 <= i < |points| && points[i].1 == r.value.rows - 1
    ensures r.Some? ==> exists i :: 0 <= i < |points| && points[i].0 == r.value.columns - 1
  {
    if points == [] then None
    else
      var maxRow, maxColumn := MaxOf(Seconds(points)), MaxOf(Firsts(points));
      if maxRow >= U64_MAX || maxColumn >= U64_MAX then None
      else Some(Matrix(maxRow + 1, maxColumn + 1, map[]))
  }

  /** The rock cells of the points: the first number of a point is its column, the second its row. */
  function Rocks(points: seq<(nat, nat)>): (rocks: set<Pos>)
  {
    set i | 0 <= i < |points| :: (points[i].1, points[i].0)
  }

  /** The matrix after `main` has set the cell of each point to `Rock`, in order. */
  function RockMatrix(m: Matrix, points: seq<(nat, nat)>): (r: Matrix)
    ensures r.rows == m.rows && r.columns == m.columns
  {
    if points == [] then m
    else
      var p := points[|points| - 1];
      Set(RockMatrix(m, points[..|points| - 1]), (p.1, p.0), Rock)
  }

  /** Exactly the listed points become rock; every other cell keeps what it held. */
  lemma {:induction false} RockMatrixGet(m: Matrix, points: seq<(nat, nat)>, q: Pos)
    ensures Get(RockMatrix(m, points), q) == if q in Rocks(points) then Rock else Get(m, q)
  {
    if points != [] {
      var init := points[..|points| - 1];
      var p := points[|points| - 1];
      RockMatrixGet(m, init, q);
      assert Rocks(points) == Rocks(init) + {(p.1, p.0)} by {
        assert forall i :: 0 <= i < |init| ==> init[i] == points[i];
      }
    }
  }

  /** The rock loop of `main`: the cell of each point, column first in the input, becomes rock. */
  method PlaceRocks(matrix: Matrix, points: seq<(nat, nat)>) returns (m: Matrix)
    ensures m == RockMatrix(matrix, points)
  {
    m := matrix;
    for i := 0 to |points|
      invariant m == RockMatrix(matrix, points[..i])
    {
      var (col, row) := points[i];
      m := Set(m, (row, col), Rock);
      assert points[..i + 1][..i] == points[..i];
    }
    assert points[..|points|] == points;
  }

  // ---------------------------------------------------------------------------------
  // The game loop

  /** The moves `main` considers for a grain, in its order of preference after `Rest`. */
  datatype Move = Rest | Down | Left | Right

  /** The cell a grain moves to: one row down, and one column aside for `Left` and `Right`. */
  function Target(p: Pos, mv: Move): (q: Pos)
    requires mv != Rest && (mv == Left ==> p.1 > 0)
    ensures q.0 == p.0 + 1 && q.1 + 1 >= p.1 && q.1 <= p.1 + 1
  {
    match mv
    case Down => (p.0 + 1, p.1)
    case Left => (p.0 + 1, p.1 - 1)
    case Right => (p.0 + 1, p.1 + 1)
  }

  /**
   * The move of the grain at `p`: straight down, else down and left, else down and right,
   * into the first `Void` cell; otherwise it rests. When the cell below is taken and the
   * grain is in column 0, `col - 1` underflows, which is a panic (`None`).
   */
  function NextMove(m: Matrix, p: Pos): (r: Option<Move>)
    ensures r.Some? && r.value != Rest ==> (r.value == Left ==> p.1 > 0) && Get(m, Target(p, r.value)) == Void
  {
    var (row, col) := p;
    if Get(m, (row + 1, col)) == Void then Some(Down)
    else if col == 0 then None
    else if Get(m, (row + 1, col - 1)) == Void then Some(Left)
    else if Get(m, (row + 1, col + 1)) == Void then Some(Right)
    else Some(Rest)
  }

  /** The order in which a grain tries the cells below it, and when it rests or underflows. */
  lemma MoveOrder(m: Matrix, p: Pos)
    ensures NextMove(m, p) == Some(Down) <==> Get(m, (p.0 + 1, p.1)) == Void
    ensures NextMove(m, p) == None <==> Get(m, (p.0 + 1, p.1)) != Void && p.1 == 0
    ensures NextMove(m, p) == Some(Left) <==>
      Get(m, (p.0 + 1, p.1)) != Void && p.1 > 0 && Get(m, (p.0 + 1, p.1 - 1)) == Void
    ensures NextMove(m, p) == Some(Right) <==>
      Get(m, (p.0 + 1, p.1)) != Void && p.1 > 0 && Get(m, (p.0 + 1, p.1 - 1)) != Void && Get(m, (p.0 + 1, p.1 + 1)) == Void
    ensures NextMove(m, p) == Some(Rest) <==>
      p.1 > 0 && Get(m, (p.0 + 1, p.1)) != Void && Get(m, (p.0 + 1, p.1 - 1)) != Void && Get(m, (p.0 + 1, p.1 + 1)) != Void
  {
  }

  /**
   * A state the game loop can be in: the grain is inside the matrix's rows, no further
   * right than one column per row below the hole, and on a `Void` cell unless it is at
   * the hole.
   */
  predicate Fits(m: Matrix, p: Pos)
  {
    m.rows > 0 && p.0 < m.rows && p.1 <= SAND_HOLE.1 + p.0 && (p == SAND_HOLE || Get(m, p) == Void)
  }

  /** The `Void` cells a grain can reach, which bounds the number of grains that can rest. */
  function Free(m: Matrix): (cells: set<Pos>)
  {
    set r: nat, c: nat | r < m.rows && c <= SAND_HOLE.1 + m.rows && Get(m, (r, c)) == Void :: (r, c)
  }

  /** A grain resting on a `Void` cell away from the hole takes that cell, and nothing else. */
  lemma FreeShrinks(m: Matrix, p: Pos)
    requires Fits(m, p) && p != SAND_HOLE
    ensures Free(Set(m, p, Sand)) == Free(m) - {p}
    ensures p in Free(m)
  {
  }

  /** Why the game loop stopped: a grain reached the last row, or a grain rested at the hole. */
  datatype Stop = FellOut(at: Pos) | HoleBlocked

  /** The matrix, the count of grains at rest, and why the loop stopped. */
  datatype End = End(matrix: Matrix, count: nat, stop: Stop)

  /**
   * The rest of the game loop from a grain at `p` after `count` grains have come to rest;
   * `None` when `col - 1` underflows.
   */
  function Finish(m: Matrix, p: Pos, count: nat): Option<End>
    requires Fits(m, p)
    decreases |Free(m)|, m.rows - p.0
  {
    if p.0 == m.rows - 1 then Some(End(m, count, FellOut(p)))
    else
      var next := NextMove(m, p);
      if next.None? then None
      else if next.value != Rest then Finish(m, Target(p, next.value), count)
      else if p == SAND_HOLE then Some(End(m, count, HoleBlocked))
      else
        FreeShrinks(m, p);
        Finish(Set(m, p, Sand), SAND_HOLE, count + 1)
  }

  /**
   * What the game loop leaves from matrix `m` after `count` grains: the matrix keeps its
   * size, each further grain at rest has taken one free cell and turned it to sand, and
   * every other cell is unchanged.
   */
  ghost predicate Leaves(m: Matrix, count: nat, e: End)
  {
    && e.matrix.rows == m.rows && e.matrix.columns == m.columns
    && Free(e.matrix) <= Free(m)
    && e.count == count + |Free(m)| - |Free(e.matrix)|
    && (forall q :: q !in Free(m) - Free(e.matrix) ==> Get(e.matrix, q) == Get(m, q))
    && (forall q :: q in Free(m) - Free(e.matrix) ==> Get(e.matrix, q) == Sand)
  }

  /** The loop stopped at the last row, or with the hole blocked on all three cells below it. */
  predicate Stopped(rows: nat, e: End)
  {
    && (e.stop.FellOut? ==> e.stop.at.0 == rows - 1)
    && (e.stop.HoleBlocked? ==> rows > 1 && NextMove(e.matrix, SAND_HOLE) == Some(Rest))
  }

  /** What is left after a grain takes cell `p` is left from before it, with one grain more. */
  lemma LeavesRest(m: Matrix, p: Pos, count: nat, e: End)
    requires Fits(m, p) && p != SAND_HOLE
    requires Leaves(Set(m, p, Sand), count + 1, e)
    ensures Leaves(m, count, e)
  {
    var after := Set(m, p, Sand);
    FreeShrinks(m, p);
    assert Free(m) - Free(e.matrix) == (Free(after) - Free(e.matrix)) + {p};
    assert |Free(after)| == |Free(m)| - 1;
  }

  /** The game loop leaves what `Leaves` and `Stopped` describe. */
  lemma {:induction false} FinishFacts(m: Matrix, p: Pos, count: nat)
    requires Fits(m, p)
    ensures Finish(m, p, count).Some? ==> Leaves(m, count, Finish(m, p, count).value)
    ensures Finish(m, p, count).Some? ==> Stopped(m.rows, Finish(m, p, count).value)
    decreases |Free(m)|, m.rows - p.0
  {
    var next := NextMove(m, p);
    if p.0 < m.rows - 1 && next.Some? {
      if next.value != Rest {
        FinishFacts(m, Target(p, next.value), count);
      } else if p != SAND_HOLE {
        FreeShrinks(m, p);
        var after := Set(m, p, Sand);
        FinishFacts(after, SAND_HOLE, count + 1);
        if Finish(after, SAND_HOLE, count + 1).Some? {
          LeavesRest(m, p, count, Finish(after, SAND_HOLE, count + 1).value);
        }
      }
    }
  }

  /** A grain that moves goes on from its target cell. */
  lemma FinishMove(m: Matrix, p: Pos, count: nat, mv: Move)
    requires Fits(m, p) && p.0 < m.rows - 1 && NextMove(m, p) == Some(mv) && mv != Rest
    ensures Fits(m, Target(p, mv)) && Finish(m, Target(p, mv), count) == Finish(m, p, count)
  {
  }

  /** A grain that rests away from the hole turns its cell to sand, and the next grain starts at the hole. */
  lemma FinishRest(m: Matrix, p: Pos, count: nat)
    requires Fits(m, p) && p.0 < m.rows - 1 && NextMove(m, p) == Some(Rest) && p != SAND_HOLE
    ensures Fits(Set(m, p, Sand), SAND_HOLE) && Finish(Set(m, p, Sand), SAND_HOLE, count + 1) == Finish(m, p, count)
  {
  }

  /** The game loop ends at the last row, or with a grain at rest at the hole. */
  lemma FinishStops(m: Matrix, p: Pos, count: nat)
    requires Fits(m, p)
    ensures p.0 == m.rows - 1 ==> Finish(m, p, count) == Some(End(m, count, FellOut(p)))
    ensures p.0 < m.rows - 1 && p == SAND_HOLE && NextMove(m, p) == Some(Rest) ==>
      Finish(m, p, count) == Some(End(m, count, HoleBlocked))
    ensures p.0 < m.rows - 1 && NextMove(m, p) == None ==> Finish(m, p, count) == None
  {
  }

  /** How the fall of one grain ends. */
  datatype Landing = Bottom | Resting | Underflow

  /** The cells one grain passes through, from where it enters to where it stops, and how it stops. */
  datatype Fall = Fall(path: seq<Pos>, landing: Landing)

  /** Cell `i` of a path is where the grain in cell `i - 1` moves. */
  predicate Moved(m: Matrix, path: seq<Pos>, i: nat)
    requires 0 < i < |path|
  {
    var mv := NextMove(m, path[i - 1]);
    mv.Some? && mv.value != Rest && path[i] == Target(path[i - 1], mv.value)
  }

  /**
   * The fall of one grain from `p`: every move goes one row down, so a grain makes fewer
   * moves than there are rows, and it stops exactly at the last row, or earlier where it
   * rests or where `col - 1` underflows.
   */
  function FallFrom(m: Matrix, p: Pos): (f: Fall)
    requires Fits(m, p)
    ensures 1 <= |f.path| <= m.rows - p.0 && f.path[0] == p
    ensures Fits(m, f.path[|f.path| - 1])
    ensures f.landing == Bottom <==> f.path[|f.path| - 1].0 == m.rows - 1
    ensures f.landing == Resting ==> NextMove(m, f.path[|f.path| - 1]) == Some(Rest)
    ensures f.landing == Underflow ==> NextMove(m, f.path[|f.path| - 1]) == None
    decreases m.rows - p.0
  {
    if p.0 == m.rows - 1 then Fall([p], Bottom)
    else
      var next := NextMove(m, p);
      if next.None? then Fall([p], Underflow)
      else if next.value == Rest then Fall([p], Resting)
      else
        var t := Target(p, next.value);
        assert Fits(m, t);
        var f := FallFrom(m, t);
        Fall([p] + f.path, f.landing)
  }

  /** Each cell of a fall is where the grain in the cell before it moves, one row further down. */
  lemma {:induction false} FallMoves(m: Matrix, p: Pos, i: nat)
    requires Fits(m, p) && 0 < i < |FallFrom(m, p).path|
    ensures Moved(m, FallFrom(m, p).path, i)
    ensures FallFrom(m, p).path[i].0 == FallFrom(m, p).path[i - 1].0 + 1
    decreases m.rows - p.0
  {
    var mv := NextMove(m, p).value;
    var f := FallFrom(m, Target(p, mv));
    assert FallFrom(m, p).path == [p] + f.path;
    if i > 1 {
      FallMoves(m, Target(p, mv), i - 1);
    }
  }

  /** The `i`-th cell of a fall is `i` rows below where the grain entered. */
  lemma {:induction false} FallRows(m: Matrix, p: Pos, i: nat)
    requires Fits(m, p) && i < |FallFrom(m, p).path|
    ensures FallFrom(m, p).path[i].0 == p.0 + i
  {
    if i > 0 {
      FallRows(m, p, i - 1);
      FallMoves(m, p, i);
    }
  }

  /** A grain that moves ends its fall where a grain entering at its target would. */
  lemma FallStep(m: Matrix, p: Pos, mv: Move)
    requires Fits(m, p) && p.0 < m.rows - 1 && NextMove(m, p) == Some(mv) && mv != Rest
    ensures Fits(m, Target(p, mv))
    ensures var f, g := FallFrom(m, p), FallFrom(m, Target(p, mv));
      f.landing == g.landing && f.path[|f.path| - 1] == g.path[|g.path| - 1]
  {
    var f, g := FallFrom(m, p), FallFrom(m, Target(p, mv));
    assert f == Fall([p] + g.path, g.landing);
    var n := |g.path|;
    assert |f.path| == n + 1;
    assert f.path[n] == g.path[n - 1];
  }

  /** What follows a grain's fall that ends at `q`: the next grain, the end of the loop, or a panic. */
  function AfterFall(m: Matrix, q: Pos, landing: Landing, count: nat): Option<End>
    requires Fits(m, q)
  {
    match landing
    case Bottom => Some(End(m, count, FellOut(q)))
    case Underflow => None
    case Resting => if q == SAND_HOLE then Some(End(m, count, HoleBlocked))
                    else Finish(Set(m, q, Sand), SAND_HOLE, count + 1)
  }

  /** A grain that does not move ends its fall where it is. */
  lemma FinishStill(m: Matrix, p: Pos, count: nat)
    requires Fits(m, p)
    requires p.0 == m.rows - 1 || NextMove(m, p).None? || NextMove(m, p) == Some(Rest)
    ensures Finish(m, p, count) == AfterFall(m, p, FallFrom(m, p).landing, count)
  {
    if p.0 < m.rows - 1 && NextMove(m, p).Some? && p != SAND_HOLE {
      FinishRest(m, p, count);
    } else {
      FinishStops(m, p, count);
    }
  }

  /** The game loop is a sequence of falls: each grain falls, then rests, stops the loop or panics. */
  lemma {:induction false} FinishFall(m: Matrix, p: Pos, count: nat)
    requires Fits(m, p)
    ensures var f := FallFrom(m, p);
      Finish(m, p, count) == AfterFall(m, f.path[|f.path| - 1], f.landing, count)
    decreases m.rows - p.0
  {
    var next := NextMove(m, p);
    if p.0 < m.rows - 1 && next.Some? && next.value != Rest {
      var t := Target(p, next.value);
      FinishMove(m, p, count, next.value);
      FallStep(m, p, next.value);
      FinishFall(m, t, count);
    } else {
      assert FallFrom(m, p).path == [p];
      FinishStill(m, p, count);
    }
  }

  /** The `movement` of `main`'s game loop; `None` where `col - 1` underflows. */
  method ChooseMove(cave: Matrix, sand: Pos) returns (movement: Option<Move>)
    ensures movement == NextMove(cave, sand)
  {
    var (row, col) := sand;
    if Get(cave, (row + 1, col)) == Void {
      movement := Some(Down);
    } else if col == 0 {
      movement := None;
    } else if Get(cave, (row + 1, col - 1)) == Void {
      movement := Some(Left);
    } else if Get(cave, (row + 1, col + 1)) == Void {
      movement := Some(Right);
    } else {
      movement := Some(Rest);
    }
  }

  /**
   * The `match movement` of `main`'s game loop for a grain that does not stop the loop: a
   * move takes the grain one row down; a rest turns its cell to sand, counts it and starts
   * a new grain at the hole.
   */
  method Advance(cave: Matrix, sand: Pos, count: nat, movement: Move) returns (cave': Matrix, sand': Pos, count': nat)
    requires Fits(cave, sand) && sand.0 < cave.rows - 1 && NextMove(cave, sand) == Some(movement)
    requires movement == Rest ==> sand != SAND_HOLE
    ensures cave'.rows == cave.rows && Fits(cave', sand')
    ensures Finish(cave', sand', count') == Finish(cave, sand, count)
    ensures |Free(cave')| < |Free(cave)| || (Free(cave') == Free(cave) && sand'.0 > sand.0)
  {
    var (row, col) := sand;
    cave', count' := cave, count;
    match movement
    case Down =>
      sand' := (row + 1, col);
      FinishMove(cave, sand, count, movement);
    case Left =>
      sand' := (row + 1, col - 1);
      FinishMove(cave, sand, count, movement);
    case Right =>
      sand' := (row + 1, col + 1);
      FinishMove(cave, sand, count, movement);
    case Rest =>
      FreeShrinks(cave, sand);
      FinishRest(cave, sand, count);
      cave' := Set(cave, sand, Sand);
      count' := count + 1;
      sand' := SAND_HOLE;
  }

  /** The game loop of `main`, from a grain at the hole and no sand at rest. */
  method Pour(matrix: Matrix) returns (sandCount: Option<nat>, cave: Matrix)
    requires matrix.rows > 0
    ensures var e := Finish(matrix, SAND_HOLE, 0);
      sandCount.Some? == e.Some? && (e.Some? ==> sandCount.value == e.value.count && cave == e.value.matrix)
  {
    cave := matrix;
    var count := 0;
    var sand := SAND_HOLE;
    while true
      invariant cave.rows == matrix.rows
      invariant Fits(cave, sand)
      invariant Finish(cave, sand, count) == Finish(matrix, SAND_HOLE, 0)
      decreases |Free(cave)|, cave.rows - sand.0
    {
      FinishStops(cave, sand, count);
      if sand.0 == cave.rows - 1 {
        break;
      }
      var movement := ChooseMove(cave, sand);
      if movement.None? {
        return None, cave;
      }
      if movement.value == Rest && sand == SAND_HOLE {
        break;
      }
      cave, sand, count := Advance(cave, sand, count, movement.value);
    }
    sandCount := Some(count);
  }


  // ---------------------------------------------------------------------------------
  // Reading the scan and the whole of `main`

  /**
   * One point of a path as `main` reads it: trimmed, split on commas, and its first two
   * pieces parsed as `usize`. Fewer than two pieces, or a piece that is not a number,
   * panics (`None`); further pieces are never parsed.
   */
  function ParsePoint(piece: string): (r: Option<(nat, nat)>)
    ensures r.Some? ==> r.value.0 <= U64_MAX && r.value.1 <= U64_MAX
  {
    var parts := SplitTerminator(Trim(piece), ",");
    if |parts| < 2 then None
    else
      var first, second := ParseUnsigned(parts[0], U64_MAX), ParseUnsigned(parts[1], U64_MAX);
      if first.None? || second.None? then None else Some((first.value, second.value))
  }

  /** Each piece parsed as a point; `None` when any of them panics. */
  function ParsePoints(pieces: seq<string>): (r: Option<seq<(nat, nat)>>)
    ensures r.Some? ==> |r.value| == |pieces|
  {
    if pieces == [] then Some([])
    else
      var p, rest := ParsePoint(pieces[0]), ParsePoints(pieces[1..]);
      if p.None? || rest.None? then None else Some([p.value] + rest.value)
  }

  /** A line of the scan: the points between the `->` separators. */
  function ParsePath(line: string): (r: Option<seq<(nat, nat)>>)
    ensures r.Some? ==> |r.value| == |Split(line, "->")| >= 1
  {
    ParsePoints(Split(line, "->"))
  }

  /** The paths of the lines of the input; `None` when a point of any line panics. */
  function ParseScan(input: string): (r: Option<seq<seq<(nat, nat)>>>)
    ensures r.Some? ==> |r.value| == |Lines(input)|
    ensures r.Some? ==> forall i :: 0 <= i < |r.value| ==> ParsePath(Lines(input)[i]).Some? && ParsePath(Lines(input)[i]).value == r.value[i]
  {
    ParseLinesEach(Lines(input));
    ParseLines(Lines(input))
  }

  /** The paths of the given lines, one per line; `None` when any of them panics. */
  function ParseLines(lines: seq<string>): (r: Option<seq<seq<(nat, nat)>>>)
    ensures r.Some? ==> |r.value| == |lines|
  {
    if lines == [] then Some([])
    else
      var p, rest := ParsePath(lines[0]), ParseLines(lines[1..]);
      if p.None? || rest.None? then None else Some([p.value] + rest.value)
  }

  /** Each parsed path is the parse of its own line. */
  lemma {:induction false} ParseLinesEach(lines: seq<string>)
    ensures var r := ParseLines(lines);
      r.Some? ==> forall i :: 0 <= i < |lines| ==> ParsePath(lines[i]).Some? && ParsePath(lines[i]).value == r.value[i]
  {
    if lines != [] && ParseLines(lines).Some? {
      var v, x, w := ParseLinesUnfold(lines);
      ParseLinesEach(lines[1..]);
      EachStep(ParsePath, lines, v, x, w);
    }
  }

  /** The number of grains at rest when `main` stops, or `None` when it panics. */
  function Answer(input: string): (r: Option<nat>)
  {
    var paths := ParseScan(input);
    if paths.None? then None
    else
      var points := Flatten(paths.value);
      var matrix := BuildMatrix(points);
      if matrix.None? then None
      else
        var e := Finish(RockMatrix(matrix.value, points), SAND_HOLE, 0);
        if e.None? then None else Some(e.value.count)
  }

  /** The grains at rest number at most the free cells of the rock matrix, each filled with sand. */
  lemma AnswerBound(input: string)
    requires Answer(input).Some?
    ensures var points := Flatten(ParseScan(input).value);
      var rock := RockMatrix(BuildMatrix(points).value, points);
      Answer(input).value <= |Free(rock)|
  {
    var points := Flatten(ParseScan(input).value);
    var rock := RockMatrix(BuildMatrix(points).value, points);
    FinishFacts(rock, SAND_HOLE, 0);
  }

  /** `main`: read the scan, build the matrix, place the rock and run the game loop. */
  method Simulate(input: string) returns (sandCount: Option<nat>)
    ensures sandCount == Answer(input)
  {
    var paths := ParseScan(input);
    if paths.None? {
      return None;
    }
    var points := Flatten(paths.value);
    var matrix := BuildMatrix(points);
    if matrix.None? {
      return None;
    }
    var rock := PlaceRocks(matrix.value, points);
    var cave;
    sandCount, cave := Pour(rock);
  }

  /** A point written as `main` reads it. */
  function PointText(p: (nat, nat)): string
  {
    Decimal(p.0) + "," + Decimal(p.1)
  }

  /** A path written as in the scan, with ` -> ` between the points. */
  function PathText(path: seq<(nat, nat)>): string
    requires path != []
  {
    if |path| == 1 then PointText(path[0]) else PointText(path[0]) + " -> " + PathText(path[1..])
  }

  /** A written point is a word: it has no whitespace, so in particular none at its ends. */
  lemma PointTextWord(p: (nat, nat))
    ensures IsWord(PointText(p))
  {
    var a, b := Decimal(p.0), Decimal(p.1);
    var w := PointText(p);
    DecimalIsWord(p.0);
    DecimalIsWord(p.1);
    forall k | 0 <= k < |w|
      ensures !IsWhitespace(w[k])
    {
      if k < |a| {
        assert w[k] == a[k];
      } else if k > |a| {
        assert w[k] == b[k - |a| - 1];
      }
    }
  }

  /** A written point splits on its comma into its two numbers. */
  lemma PointTextSplit(p: (nat, nat))
    ensures SplitTerminator(PointText(p), ",") == [Decimal(p.0), Decimal(p.1)]
  {
    var a, b := Decimal(p.0), Decimal(p.1);
    DecimalFree(p.0, ',');
    DecimalFree(p.1, ',');
    DecimalIsWord(p.1);
    assert Join([a, b], [',']) == PointText(p) by {
      assert [a, b][1..] == [b];
    }
    SplitJoin([a, b], ',');
  }

  /** A point of `usize` numbers, written out with a space or nothing on each side, parses back to itself. */
  lemma PointRoundTrip(pre: string, p: (nat, nat), post: string)
    requires p.0 <= U64_MAX && p.1 <= U64_MAX
    requires pre in {"", " "} && post in {"", " "}
    ensures ParsePoint(pre + PointText(p) + post) == Some(p)
  {
    var w := PointText(p);
    assert Trim(pre + w + post) == w by {
      PointTextWord(p);
      TrimSpaced(pre, w, post);
    }
    assert SplitTerminator(w, ",") == [Decimal(p.0), Decimal(p.1)] by {
      PointTextSplit(p);
    }
    assert ParseUnsigned(Decimal(p.0), U64_MAX) == Some(p.0) by {
      ParseDecimal(p.0, U64_MAX);
    }
    assert ParseUnsigned(Decimal(p.1), U64_MAX) == Some(p.1) by {
      ParseDecimal(p.1, U64_MAX);
    }
  }

  /** The characters of a written point. */
  lemma PointTextChars(p: (nat, nat))
    ensures '-' !in PointText(p) && '\n' !in PointText(p)
    ensures |PointText(p)| > 0 && PointText(p)[|PointText(p)| - 1] != '\r'
  {
    DecimalFree(p.0, '-');
    DecimalFree(p.1, '-');
    DecimalFree(p.0, '\n');
    DecimalFree(p.1, '\n');
    DecimalFree(p.1, '\r');
    var b := Decimal(p.1);
    assert PointText(p)[|PointText(p)| - 1] == b[|b| - 1];
  }

  /** Points parse one piece at a time. */
  lemma ParsePointsCons(pieces: seq<string>, ps: seq<(nat, nat)>)
    requires pieces != [] && ps != []
    requires ParsePoint(pieces[0]) == Some(ps[0]) && ParsePoints(pieces[1..]) == Some(ps[1..])
    ensures ParsePoints(pieces) == Some(ps)
  {
    HeadTail(ps);
  }

  /** A single piece parses to a single point. */
  lemma ParsePointsOne(x: string, p: (nat, nat))
    requires ParsePoint(x) == Some(p)
    ensures ParsePoints([x]) == Some([p])
  {
    assert [x][1..] == [];
    assert [p] == [p] + [];
  }

  /** A path of one point, after an optional space, is one piece that parses to that point. */
  lemma PathOneRoundTrip(pad: string, p: (nat, nat))
    requires pad in {"", " "} && p.0 <= U64_MAX && p.1 <= U64_MAX
    ensures ParsePoints(Split(pad + PointText(p), "->")) == Some([p])
  {
    var s := pad + PointText(p);
    assert Split(s, "->") == [s] by {
      PointTextChars(p);
      FindFromAfter(s, "->", [], 0);
      assert s + [] == s;
    }
    assert ParsePoint(s) == Some(p) by {
      PointRoundTrip(pad, p, "");
      assert pad + PointText(p) + "" == s;
    }
    ParsePointsOne(s, p);
  }

  /** A longer written path splits at its first arrow into the first point and the rest. */
  lemma PathTextSplitHead(pad: string, path: seq<(nat, nat)>)
    requires |path| > 1 && '-' !in pad
    ensures Split(pad + PathText(path), "->") == [pad + PointText(path[0]) + " "] + Split(" " + PathText(path[1..]), "->")
  {
    var head := pad + PointText(path[0]) + " ";
    var rest := " " + PathText(path[1..]);
    assert pad + PathText(path) == head + "->" + rest;
    PointTextChars(path[0]);
    SplitAfter(head, "->", rest);
  }

  /** A longer written path parses to its first point followed by whatever the rest parses to. */
  lemma PathConsRoundTrip(pad: string, path: seq<(nat, nat)>)
    requires |path| > 1 && pad in {"", " "} && path[0].0 <= U64_MAX && path[0].1 <= U64_MAX
    requires ParsePoints(Split(" " + PathText(path[1..]), "->")) == Some(path[1..])
    ensures ParsePoints(Split(pad + PathText(path), "->")) == Some(path)
  {
    var head := pad + PointText(path[0]) + " ";
    var tail := Split(" " + PathText(path[1..]), "->");
    var whole := Split(pad + PathText(path), "->");
    assert whole == [head] + tail by {
      PathTextSplitHead(pad, path);
    }
    assert ParsePoint(head) == Some(path[0]) by {
      PointRoundTrip(pad, path[0], " ");
    }
    ParsePointsCons([head] + tail, path);
  }

  /** A path with `usize` numbers, written as in the scan after an optional space, parses back to itself. */
  lemma {:induction false} PathRoundTrip(pad: string, path: seq<(nat, nat)>)
    requires path != [] && pad in {"", " "}
    requires forall i :: 0 <= i < |path| ==> path[i].0 <= U64_MAX && path[i].1 <= U64_MAX
    ensures ParsePoints(Split(pad + PathText(path), "->")) == Some(path)
    decreases |path|
  {
    if |path| == 1 {
      PathOneRoundTrip(pad, path[0]);
      assert PathText(path) == PointText(path[0]);
      assert path == [path[0]];
    } else {
      PathRoundTrip(" ", path[1..]);
      PathConsRoundTrip(pad, path);
    }
  }

  /** Each path written as in the scan. */
  function PathTexts(paths: seq<seq<(nat, nat)>>): (texts: seq<string>)
    requires forall i :: 0 <= i < |paths| ==> paths[i] != []
    ensures |texts| == |paths|
  {
    if paths == [] then [] else [PathText(paths[0])] + PathTexts(paths[1..])
  }

  /** The scan written one path per line. */
  function ScanText(paths: seq<seq<(nat, nat)>>): string
    requires forall i :: 0 <= i < |paths| ==> paths[i] != []
  {
    Unlines(PathTexts(paths))
  }

  /** A written path has no line break, and does not end in a carriage return. */
  lemma {:induction false} PathTextChars(path: seq<(nat, nat)>)
    requires path != []
    ensures '\n' !in PathText(path)
    ensures PathText(path)[|PathText(path)| - 1] != '\r'
  {
    PointTextChars(path[0]);
    if |path| > 1 {
      PathTextChars(path[1..]);
      var rest := PathText(path[1..]);
      assert PathText(path) == PointText(path[0]) + " -> " + rest;
      assert PathText(path)[|PathText(path)| - 1] == rest[|rest| - 1];
    }
  }

  /** Paths that can be written and read back: none is empty and every number fits a `usize`. */
  predicate Writable(paths: seq<seq<(nat, nat)>>)
  {
    (forall i :: 0 <= i < |paths| ==> paths[i] != []) &&
    forall i, j :: 0 <= i < |paths| && 0 <= j < |paths[i]| ==> paths[i][j].0 <= U64_MAX && paths[i][j].1 <= U64_MAX
  }

  /** The paths after the first are writable as well. */
  lemma WritableTail(paths: seq<seq<(nat, nat)>>)
    requires paths != [] && Writable(paths)
    ensures Writable(paths[1..])
  {
    forall i | 0 <= i < |paths| - 1
      ensures paths[1..][i] == paths[i + 1]
    {
    }
  }

  /** A parsed list of lines is the first line's path followed by the paths of the rest. */
  lemma ParseLinesUnfold(lines: seq<string>) returns (v: seq<seq<(nat, nat)>>, x: seq<(nat, nat)>, w: seq<seq<(nat, nat)>>)
    requires lines != [] && ParseLines(lines).Some?
    ensures v == ParseLines(lines).value && v == [x] + w
    ensures ParsePath(lines[0]).Some? && ParsePath(lines[0]).value == x
    ensures ParseLines(lines[1..]).Some? && ParseLines(lines[1..]).value == w
  {
    v, x, w := ParseLines(lines).value, ParsePath(lines[0]).value, ParseLines(lines[1..]).value;
  }

  /** The step of `ParseLinesEach`, for any parser `f` of one line: the head line's parse followed by the tail's. */
  lemma EachStep<A, B>(f: A -> Option<B>, lines: seq<A>, v: seq<B>, x: B, w: seq<B>)
    requires lines != [] && v == [x] + w && |w| == |lines| - 1
    requires f(lines[0]).Some? && f(lines[0]).value == x
    requires forall j :: 0 <= j < |lines| - 1 ==> f(lines[1..][j]).Some? && f(lines[1..][j]).value == w[j]
    ensures forall i :: 0 <= i < |lines| ==> f(lines[i]).Some? && f(lines[i]).value == v[i]
  {
    forall i | 0 <= i < |lines|
      ensures f(lines[i]).Some? && f(lines[i]).value == v[i]
    {
      if i > 0 {
        ConsAt(v, x, w, i);
        assert lines[i] == lines[1..][i - 1];
      }
    }
  }

  /** Past the head, a sequence built by prepending one element is its tail shifted by one. */
  lemma ConsAt<T>(v: seq<T>, x: T, w: seq<T>, i: nat)
    requires v == [x] + w && 1 <= i < |v|
    ensures v[i] == w[i - 1]
  {
  }

  /** Lines parse one at a time. */
  lemma ParseLinesCons(lines: seq<string>, paths: seq<seq<(nat, nat)>>)
    requires lines != [] && paths != []
    requires ParsePath(lines[0]) == Some(paths[0]) && ParseLines(lines[1..]) == Some(paths[1..])
    ensures ParseLines(lines) == Some(paths)
  {
    HeadTail(paths);
  }

  /** The written paths after the first are the rest of the paths written. */
  lemma PathTextsTail(paths: seq<seq<(nat, nat)>>)
    requires paths != [] && forall i :: 0 <= i < |paths| ==> paths[i] != []
    ensures PathTexts(paths)[0] == PathText(paths[0])
    ensures PathTexts(paths)[1..] == PathTexts(paths[1..])
  {
  }

  /** Lines that are written paths parse back to those paths. */
  lemma {:induction false} LinesRoundTrip(paths: seq<seq<(nat, nat)>>)
    requires Writable(paths)
    ensures ParseLines(PathTexts(paths)) == Some(paths)
  {
    if paths != [] {
      var texts := PathTexts(paths);
      PathTextsTail(paths);
      assert ParsePath(texts[0]) == Some(paths[0]) by {
        PathRoundTrip("", paths[0]);
        assert "" + PathText(paths[0]) == texts[0];
      }
      WritableTail(paths);
      LinesRoundTrip(paths[1..]);
      ParseLinesCons(texts, paths);
    }
  }

  /** Written paths hold no line break and do not end in a carriage return. */
  lemma {:induction false} PathTextsChars(paths: seq<seq<(nat, nat)>>)
    requires forall i :: 0 <= i < |paths| ==> paths[i] != []
    ensures forall i :: 0 <= i < |paths| ==>
      var t := PathTexts(paths)[i]; '\n' !in t && |t| > 0 && t[|t| - 1] != '\r'
  {
    if paths != [] {
      PathTextChars(paths[0]);
      PointTextChars(paths[0][0]);
      PathTextsChars(paths[1..]);
      assert forall i :: 0 < i < |paths| ==> PathTexts(paths)[i] == PathTexts(paths[1..])[i - 1];
    }
  }

  /** A scan of paths with `usize` numbers, written one path per line, parses back to itself. */
  lemma ScanRoundTrip(paths: seq<seq<(nat, nat)>>)
    requires Writable(paths)
    ensures ParseScan(ScanText(paths)) == Some(paths)
  {
    PathTextsChars(paths);
    LinesUnlines(PathTexts(paths));
    LinesRoundTrip(paths);
  }
}
