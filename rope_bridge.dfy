/**
 * Rope bridge (2022, day 9). A rope of ten knots starts with every knot at the origin.
 * Each motion moves the head one cell at a time; after every step each later knot,
 * in order, follows the knot before it whenever the two no longer touch. The answer
 * is the number of distinct cells the last knot has visited.
 */
module RopeBridge {
  import opened Common
  import opened Text

  datatype Direction = Up | Down | Left | Right

  /** A motion of the input: a direction and a number of unit steps (a `u8`). */
  datatype Motion = Motion(direction: Direction, steps: nat)

  /** A cell `(row, column)`; the source uses `i32` pairs. */
  type Point = (int, int)

  /** The number of knots of the rope. */
  const KNOTS: nat := 10

  function Abs(n: int): (r: nat)
    ensures r == n || r == -n
  {
    if n < 0 then -n else n
  }

  /** The Chebyshev distance: the larger of the two coordinate distances. */
  function Chebyshev(p: Point, q: Point): (d: nat)
    ensures Abs(p.0 - q.0) <= d && Abs(p.1 - q.1) <= d
    ensures d == Abs(p.0 - q.0) || d == Abs(p.1 - q.1)
  {
    if Abs(p.0 - q.0) < Abs(p.1 - q.1) then Abs(p.1 - q.1) else Abs(p.0 - q.0)
  }

  lemma ChebyshevSymmetric(p: Point, q: Point)
    ensures Chebyshev(p, q) == Chebyshev(q, p)
  {
  }

  lemma ChebyshevZero(p: Point, q: Point)
    ensures Chebyshev(p, q) == 0 <==> p == q
  {
  }

  lemma ChebyshevTriangle(p: Point, q: Point, r: Point)
    ensures Chebyshev(p, r) <= Chebyshev(p, q) + Chebyshev(q, r)
  {
  }

  /** `is_same`: both coordinates agree. */
  function IsSame(p1: Point, p2: Point): (r: bool)
    ensures r <==> p1 == p2
  {
    p1.0 == p2.0 && p1.1 == p2.1
  }

  /** `is_adjacent`: one cell apart along an axis, or one cell apart diagonally. */
  function IsAdjacent(p1: Point, p2: Point): (r: bool)
    ensures r <==> Chebyshev(p1, p2) == 1
  {
    var dx := Abs(p1.0 - p2.0);
    var dy := Abs(p1.1 - p2.1);
    dx + dy == 1 || (dx > 0 && dy > 0 && dx + dy == 2)
  }

  /** `should_move`: the two knots neither coincide nor touch. */
  function ShouldMove(p1: Point, p2: Point): (r: bool)
    ensures r <==> Chebyshev(p1, p2) >= 2
  {
    !IsSame(p1, p2) && !IsAdjacent(p1, p2)
  }

  /** The step taken along one axis: towards the other knot, or none when level with it. */
  function Toward(diff: int): (s: int)
    ensures diff > 0 ==> s == 1
    ensures diff < 0 ==> s == -1
    ensures diff == 0 ==> s == 0
  {
    if diff > 0 then 1 else if diff < 0 then -1 else 0
  }

  /**
   * `move_knot`: the new position of `tail`. When the knots are more than one cell apart
   * along some axis, the tail takes one step towards the head along each axis where they
   * differ; otherwise it stays.
   */
  function MoveKnot(head: Point, tail: Point): (t: Point)
    ensures Chebyshev(head, tail) <= 1 ==> t == tail
    ensures Chebyshev(tail, t) <= 1
    ensures Chebyshev(head, tail) > 1 ==> Chebyshev(head, t) == Chebyshev(head, tail) - 1
  {
    var xDiff := head.0 - tail.0;
    var yDiff := head.1 - tail.1;
    if Abs(head.0 - tail.0) > 1 || Abs(head.1 - tail.1) > 1 then
      (tail.0 + Toward(xDiff), tail.1 + Toward(yDiff))
    else
      tail
  }

  /** A tail at most two cells from the head along each axis touches it after moving. */
  lemma MoveKnotTouches(head: Point, tail: Point)
    requires Chebyshev(head, tail) <= 2
    ensures Chebyshev(head, MoveKnot(head, tail)) <= 1
  {
  }

  /** A moving knot never lands on the knot it follows. */
  lemma MoveKnotApart(head: Point, tail: Point)
    requires ShouldMove(head, tail)
    ensures MoveKnot(head, tail) != head
  {
  }

  /** One step of the head. */
  function MoveHead(p: Point, d: Direction): (r: Point)
    ensures Abs(r.0 - p.0) + Abs(r.1 - p.1) == 1
    ensures d == Up || d == Down ==> r.1 == p.1
    ensures d == Left || d == Right ==> r.0 == p.0
  {
    match d
    case Up => (p.0 + 1, p.1)
    case Down => (p.0 - 1, p.1)
    case Left => (p.0, p.1 - 1)
    case Right => (p.0, p.1 + 1)
  }

  /** A knot's position after it has followed `lead`, as the inner loop of `main` moves it. */
  function Follow(lead: Point, knot: Point): (k: Point)
    ensures Chebyshev(knot, k) <= 1
    ensures Chebyshev(lead, knot) <= 2 ==> Chebyshev(lead, k) <= 1
  {
    if ShouldMove(lead, knot) then MoveKnot(lead, knot) else knot
  }

  /** The knots after `lead` once each has followed the knot just before it, in order. */
  function FollowChain(lead: Point, knots: seq<Point>): (r: seq<Point>)
    ensures |r| == |knots|
    decreases |knots|
  {
    if knots == [] then []
    else
      var k := Follow(lead, knots[0]);
      [k] + FollowChain(k, knots[1..])
  }

  /** One unit step of the rope: the head moves, then every later knot follows. */
  function Step(knots: seq<Point>, d: Direction): (r: seq<Point>)
    requires |knots| > 0
    ensures |r| == |knots| && r[0] == MoveHead(knots[0], d)
  {
    var head := MoveHead(knots[0], d);
    [head] + FollowChain(head, knots[1..])
  }

  /** Each knot of a followed chain follows the knot just before it. */
  lemma {:induction false} FollowChainAt(lead: Point, knots: seq<Point>, j: nat)
    requires j < |knots|
    ensures FollowChain(lead, knots)[j] == Follow(if j == 0 then lead else FollowChain(lead, knots)[j - 1], knots[j])
    decreases |knots|
  {
    if j > 0 {
      var k := Follow(lead, knots[0]);
      FollowChainAt(k, knots[1..], j - 1);
      assert FollowChain(lead, knots)[1..] == FollowChain(k, knots[1..]);
    }
  }

  /** Knot `i` touches the knot before it. */
  predicate Touching(knots: seq<Point>, i: nat)
    requires 0 < i < |knots|
  {
    Chebyshev(knots[i - 1], knots[i]) <= 1
  }

  /** Neighbouring knots touch. */
  predicate Taut(knots: seq<Point>)
  {
    forall i :: 0 < i < |knots| ==> Touching(knots, i)
  }

  /** Each knot moves at most one cell along each axis in a step. */
  predicate SmallMoves(before: seq<Point>, after: seq<Point>)
    requires |before| == |after|
  {
    forall i :: 0 <= i < |before| ==> Chebyshev(before[i], after[i]) <= 1
  }

  /**
   * A taut rope whose leading knot moved from `old` to `lead` by at most one cell per
   * axis stays taut while it follows, and every knot moves at most one cell per axis.
   */
  lemma FollowChainTaut(oldLead: Point, lead: Point, knots: seq<Point>)
    requires Chebyshev(oldLead, lead) <= 1
    requires Taut([oldLead] + knots)
    ensures Taut([lead] + FollowChain(lead, knots))
    ensures SmallMoves(knots, FollowChain(lead, knots))
  {
    var before := [oldLead] + knots;
    var r := FollowChain(lead, knots);
    var after := [lead] + r;
    forall i | 0 <= i < |knots|
      ensures Chebyshev(knots[i], r[i]) <= 1
    {
      FollowChainAt(lead, knots, i);
    }
    forall i | 0 < i < |after|
      ensures Touching(after, i)
    {
      FollowChainAt(lead, knots, i - 1);
      assert Touching(before, i);
      assert Chebyshev(before[i - 1], after[i - 1]) <= 1;
      ChebyshevSymmetric(before[i - 1], after[i - 1]);
      ChebyshevTriangle(after[i - 1], before[i - 1], knots[i - 1]);
    }
  }

  /** A step keeps a taut rope taut, and no knot moves more than one cell per axis. */
  lemma StepTaut(knots: seq<Point>, d: Direction)
    requires |knots| > 0 && Taut(knots)
    ensures Taut(Step(knots, d))
    ensures SmallMoves(knots, Step(knots, d))
  {
    var head := MoveHead(knots[0], d);
    assert knots == [knots[0]] + knots[1..];
    FollowChainTaut(knots[0], head, knots[1..]);
    assert Step(knots, d) == [head] + FollowChain(head, knots[1..]);
    forall i | 0 <= i < |knots|
      ensures Chebyshev(knots[i], Step(knots, d)[i]) <= 1
    {
      if i > 0 {
        assert knots[i] == knots[1..][i - 1];
      }
    }
  }

  /** The rope and the cells its last knot has visited. */
  datatype State = State(knots: seq<Point>, visited: set<Point>)

  /** The rope of `main` before any motion: every knot at the origin, the origin visited. */
  function Initial(): (s: State)
    ensures |s.knots| == KNOTS && (0, 0) in s.visited
  {
    State(seq(KNOTS, _ => (0, 0)), {(0, 0)})
  }

  /** One unit step, recording where the last knot ends. */
  function StepState(s: State, d: Direction): (r: State)
    requires |s.knots| > 0
    ensures |r.knots| == |s.knots|
    ensures r.visited == s.visited + {r.knots[|r.knots| - 1]}
  {
    var knots := Step(s.knots, d);
    State(knots, s.visited + {knots[|knots| - 1]})
  }

  /** The first `n` unit steps of one motion. */
  function RunSteps(s: State, d: Direction, n: nat): (r: State)
    requires |s.knots| > 0
    ensures |r.knots| == |s.knots|
    ensures s.visited <= r.visited
  {
    if n == 0 then s else StepState(RunSteps(s, d, n - 1), d)
  }

  /** The motions in order. */
  function Run(s: State, motions: seq<Motion>): (r: State)
    requires |s.knots| > 0
    ensures |r.knots| == |s.knots|
    ensures s.visited <= r.visited
  {
    if motions == [] then s
    else
      var m := motions[|motions| - 1];
      RunSteps(Run(s, motions[..|motions| - 1]), m.direction, m.steps)
  }

  /** The total number of unit steps of the motions. */
  function TotalSteps(motions: seq<Motion>): nat
  {
    if motions == [] then 0 else TotalSteps(motions[..|motions| - 1]) + motions[|motions| - 1].steps
  }

  /** A state whose last knot's cell has been recorded. */
  predicate Recorded(s: State)
  {
    |s.knots| > 0 && s.knots[|s.knots| - 1] in s.visited
  }

  lemma AddOne<T>(a: set<T>, x: T)
    ensures |a + {x}| <= |a| + 1
  {
    if x in a {
      assert a + {x} == a;
    }
  }

  /** Steps keep a taut rope taut. */
  lemma {:induction false} RunStepsTaut(s: State, d: Direction, n: nat)
    requires |s.knots| > 0 && Taut(s.knots)
    ensures Taut(RunSteps(s, d, n).knots)
  {
    if n > 0 {
      RunStepsTaut(s, d, n - 1);
      StepTaut(RunSteps(s, d, n - 1).knots, d);
    }
  }

  /** Each step records the last knot and at most one new cell. */
  lemma {:induction false} RunStepsCount(s: State, d: Direction, n: nat)
    requires |s.knots| > 0
    ensures n > 0 ==> Recorded(RunSteps(s, d, n))
    ensures |RunSteps(s, d, n).visited| <= |s.visited| + n
  {
    if n > 0 {
      var p := RunSteps(s, d, n - 1);
      RunStepsCount(s, d, n - 1);
      var knots := Step(p.knots, d);
      AddOne(p.visited, knots[|knots| - 1]);
    }
  }

  /** A run over the motions keeps the rope taut, and each unit step adds at most one visited cell. */
  lemma {:induction false} RunFacts(s: State, motions: seq<Motion>)
    requires |s.knots| > 0 && Taut(s.knots) && Recorded(s)
    ensures Taut(Run(s, motions).knots) && Recorded(Run(s, motions))
    ensures |Run(s, motions).visited| <= |s.visited| + TotalSteps(motions)
  {
    if motions != [] {
      var m := motions[|motions| - 1];
      var p := Run(s, motions[..|motions| - 1]);
      RunFacts(s, motions[..|motions| - 1]);
      RunStepsTaut(p, m.direction, m.steps);
      RunStepsCount(p, m.direction, m.steps);
    }
  }

  /** The cells the tail visits over the motions, starting from the rope of `main`. */
  function Visited(motions: seq<Motion>): (v: set<Point>)
    ensures (0, 0) in v
  {
    Run(Initial(), motions).visited
  }

  /** The tail visits at most one new cell per unit step, and the rope never comes apart. */
  lemma VisitedBound(motions: seq<Motion>)
    ensures 1 <= |Visited(motions)| <= 1 + TotalSteps(motions)
    ensures Taut(Run(Initial(), motions).knots)
  {
    var s := Initial();
    assert Taut(s.knots);
    assert Recorded(s);
    assert |s.visited| == 1;
    RunFacts(s, motions);
  }

  /** After one step, knot `i` is where it lands by following knot `i - 1` at its new position. */
  lemma StepAt(knots: seq<Point>, d: Direction, i: nat)
    requires 0 < i < |knots|
    ensures Step(knots, d)[i] == Follow(Step(knots, d)[i - 1], knots[i])
  {
    var head := MoveHead(knots[0], d);
    FollowChainAt(head, knots[1..], i - 1);
  }

  /** One knot of the inner loop of `main`: it moves towards `lead` when they no longer touch. */
  method FollowInPlace(knots: array<Point>, i: nat, lead: Point)
    requires i < knots.Length
    modifies knots
    ensures knots[..] == old(knots[..])[i := Follow(lead, old(knots[i]))]
  {
    if ShouldMove(lead, knots[i]) {
      knots[i] := MoveKnot(lead, knots[i]);
    }
  }

  /** The inner loop of `main` for one unit step: move the head, then each later knot follows in place. */
  method StepRope(knots: array<Point>, d: Direction)
    requires knots.Length > 0
    modifies knots
    ensures knots[..] == Step(old(knots[..]), d)
  {
    ghost var original := knots[..];
    ghost var target := Step(original, d);
    knots[0] := MoveHead(knots[0], d);
    var currentHead := knots[0];
    for i := 1 to knots.Length
      invariant currentHead == knots[i - 1]
      invariant forall j :: 0 <= j < i ==> knots[j] == target[j]
      invariant forall j :: i <= j < knots.Length ==> knots[j] == original[j]
    {
      FollowInPlace(knots, i, currentHead);
      assert knots[i] == target[i] by {
        StepAt(original, d, i);
      }
      currentHead := knots[i];
    }
    assert knots[..] == target;
  }

  /** One motion of `main`: `steps` unit steps, each inserting the last knot's cell into the set. */
  method MoveRope(knots: array<Point>, uniques: set<Point>, d: Direction, steps: nat) returns (visited: set<Point>)
    requires knots.Length > 0
    modifies knots
    ensures State(knots[..], visited) == RunSteps(State(old(knots[..]), uniques), d, steps)
  {
    ghost var start := State(knots[..], uniques);
    visited := uniques;
    for n := 0 to steps
      invariant State(knots[..], visited) == RunSteps(start, d, n)
    {
      StepRope(knots, d);
      visited := visited + {knots[knots.Length - 1]};
    }
  }

  /** The simulation of `main`: the number of distinct cells the last knot visits. */
  method CountVisited(motions: seq<Motion>) returns (count: nat)
    ensures count == |Visited(motions)|
  {
    var knots := new Point[KNOTS](_ => (0, 0));
    var uniques := {(0, 0)};
    assert knots[..] == Initial().knots;
    for m := 0 to |motions|
      invariant State(knots[..], uniques) == Run(Initial(), motions[..m])
    {
      uniques := MoveRope(knots, uniques, motions[m].direction, motions[m].steps);
      assert motions[..m + 1][..m] == motions[..m];
    }
    assert motions[..|motions|] == motions;
    count := |uniques|;
  }

  /** `U`, `D`, `L` and `R`; any other motion is a panic. */
  function ParseDirection(w: string): (r: Option<Direction>)
    ensures r.Some? <==> w in {"U", "D", "L", "R"}
  {
    match w
    case "U" => Some(Up)
    case "D" => Some(Down)
    case "L" => Some(Left)
    case "R" => Some(Right)
    case _ => None
  }

  /**
   * One line of the input: a direction and a `u8` step count. Fewer than two words, a
   * count that is not a `u8` or an unknown direction is a panic (`None`).
   */
  function ParseMotion(line: string): (r: Option<Motion>)
    ensures r.Some? <==> var row := SplitWhitespace(line);
      |row| >= 2 && ParseUnsigned(row[1], U8_MAX).Some? && ParseDirection(row[0]).Some?
    ensures r.Some? ==> var row := SplitWhitespace(line);
      r.value == Motion(ParseDirection(row[0]).value, ParseUnsigned(row[1], U8_MAX).value) && r.value.steps <= U8_MAX
  {
    var row := SplitWhitespace(line);
    if |row| < 2 then None
    else
      var steps := ParseUnsigned(row[1], U8_MAX);
      var direction := ParseDirection(row[0]);
      if steps.None? || direction.None? then None else Some(Motion(direction.value, steps.value))
  }

  /** The non-empty lines, each parsed as a motion; `None` when any of them panics. */
  function ParseMotions(lines: seq<string>): (r: Option<seq<Motion>>)
    ensures r.Some? ==> |r.value| <= |lines|
    ensures r.Some? ==> forall i :: 0 <= i < |r.value| ==> r.value[i].steps <= U8_MAX
  {
    if lines == [] then Some([])
    else
      var rest := ParseMotions(lines[1..]);
      if lines[0] == [] then rest
      else
        var m := ParseMotion(lines[0]);
        if m.None? || rest.None? then None else Some([m.value] + rest.value)
  }

  /** The puzzle's answer for an input; `None` when a line panics. */
  function Answer(input: string): (r: Option<nat>)
    ensures r.Some? ==> r.value >= 1
  {
    var motions := ParseMotions(Lines(input));
    if motions.None? then None else Some(|Visited(motions.value)|)
  }

  /** The letter of a direction. */
  function DirectionLetter(d: Direction): string
  {
    match d
    case Up => "U"
    case Down => "D"
    case Left => "L"
    case Right => "R"
  }

  /** A motion written as in the input. */
  function MotionText(m: Motion): string
  {
    DirectionLetter(m.direction) + " " + Decimal(m.steps)
  }

  /** A motion with a `u8` count, written as in the input, parses back to itself. */
  lemma MotionRoundTrip(m: Motion)
    requires m.steps <= U8_MAX
    ensures ParseMotion(MotionText(m)) == Some(m)
  {
    var a, b := DirectionLetter(m.direction), Decimal(m.steps);
    DecimalIsWord(m.steps);
    assert IsWord(a);
    assert Join([a, b], " ") == a + " " + b by {
      assert [a, b][1..] == [b];
    }
    SplitWhitespaceJoin([a, b]);
    ParseDecimal(m.steps, U8_MAX);
  }

  /** Motions with `u8` counts, one per line as in the input, parse back to themselves. */
  lemma {:induction false} MotionsRoundTrip(motions: seq<Motion>)
    requires forall i :: 0 <= i < |motions| ==> motions[i].steps <= U8_MAX
    ensures ParseMotions(seq(|motions|, i requires 0 <= i < |motions| => MotionText(motions[i]))) == Some(motions)
  {
    var lines := seq(|motions|, i requires 0 <= i < |motions| => MotionText(motions[i]));
    if motions != [] {
      MotionRoundTrip(motions[0]);
      assert lines[0] != [];
      MotionsRoundTrip(motions[1..]);
      assert lines[1..] == seq(|motions[1..]|, i requires 0 <= i < |motions[1..]| => MotionText(motions[1..][i]));
      assert motions == [motions[0]] + motions[1..];
    }
  }

  /** The answer counts the origin and at most one new cell per unit step. */
  lemma AnswerBound(input: string)
    requires Answer(input).Some?
    ensures 1 <= Answer(input).value <= 1 + TotalSteps(ParseMotions(Lines(input)).value)
  {
    VisitedBound(ParseMotions(Lines(input)).value);
  }
}
