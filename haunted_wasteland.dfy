/**
 * 2023 day 8 (`main.rs`): a map made of a line of left/right instructions and a network of
 * nodes, each naming its left and its right neighbour. Part one follows the instructions
 * cyclically from `AAA` until it reaches `ZZZ` and records every step; part two counts, for
 * every node whose name ends in `A`, the steps until a name ending in `Z`, and combines the
 * counts with their least common multiple.
 *
 * Both walks can run forever in the source. Here each takes a step budget `fuel` and ends
 * with `OutOfFuel` once it is spent; every `unwrap` that can fail ends with `Panic`.
 */
module HauntedWasteland {
  import opened Common
  import opened Text
  import opened NumberTheory

  /** `Instruction`. */
  datatype Instruction = Left | Right

  /** `c.to_string().parse::<Instruction>()`: `L` and `R` only. */
  function InstructionOf(c: char): (r: Option<Instruction>)
  {
    if c == 'L' then Some(Left) else if c == 'R' then Some(Right) else None
  }

  /** The character an instruction is written with. */
  function InstructionChar(i: Instruction): char
  {
    if i.Left? then 'L' else 'R'
  }

  lemma InstructionOfChar(i: Instruction)
    ensures InstructionOf(InstructionChar(i)) == Some(i)
  {
  }

  /** Only `L` and `R` parse, and each parses to the instruction written with it. */
  lemma InstructionOfMeans(c: char)
    ensures InstructionOf(c).Some? <==> c == 'L' || c == 'R'
    ensures InstructionOf(c).Some? ==> InstructionChar(InstructionOf(c).value) == c
  {
  }

  /** The first line of the input: one instruction per character. */
  function ParseInstructions(line: string): (r: Option<seq<Instruction>>)
    ensures r.Some? ==> |r.value| == |line|
    ensures r.Some? ==> forall k :: 0 <= k < |line| ==> InstructionChar(r.value[k]) == line[k]
    ensures r.None? <==> exists k :: 0 <= k < |line| && InstructionOf(line[k]).None?
  {
    if line == [] then Some([])
    else match InstructionOf(line[0])
      case None => None
      case Some(i) =>
        match ParseInstructions(line[1..])
        case None =>
          assert exists k :: 0 <= k < |line[1..]| && InstructionOf(line[1..][k]).None?;
          None
        case Some(rest) =>
          assert forall k :: 1 <= k < |line| ==> line[k] == line[1..][k - 1];
          Some([i] + rest)
  }

  function InstructionsText(ins: seq<Instruction>): (t: string)
  {
    seq(|ins|, k requires 0 <= k < |ins| => InstructionChar(ins[k]))
  }

  lemma ParseInstructionsText(ins: seq<Instruction>)
    ensures ParseInstructions(InstructionsText(ins)) == Some(ins)
  {
    var t := InstructionsText(ins);
    assert forall k :: 0 <= k < |t| ==> InstructionOf(t[k]) == Some(ins[k]);
    var r := ParseInstructions(t);
    assert r.Some?;
    assert forall k :: 0 <= k < |ins| ==> r.value[k] == ins[k] by {
      forall k | 0 <= k < |ins|
        ensures r.value[k] == ins[k]
      {
        assert InstructionChar(r.value[k]) == InstructionChar(ins[k]);
      }
    }
    assert |r.value| == |ins|;
    assert r.value == ins;
  }

  /** `Node`: the names of the left and the right neighbour. */
  datatype Node = Node(left: string, right: string)

  /** A node name: three characters, none of them whitespace. */
  predicate IsName(n: string)
  {
    |n| == 3 && forall k :: 0 <= k < 3 ==> !IsWhitespace(n[k])
  }

  /**
   * `Node::from_str`: characters 1 to 3 of the first word are the left name and characters
   * 0 to 2 of the second word the right name; a missing or shorter word panics.
   */
  function NodeFromStr(s: string): (r: Option<Node>)
    ensures r.Some? ==> IsName(r.value.left) && IsName(r.value.right)
  {
    var words := SplitWhitespace(s);
    SplitWhitespaceWords(s);
    if |words| < 2 || |words[0]| < 4 || |words[1]| < 3 then None
    else Some(Node(words[0][1..4], words[1][..3]))
  }

  /** How the input writes a node: `(BBB, CCC)`. */
  function NodeText(n: Node): string
  {
    "(" + n.left + ", " + n.right + ")"
  }

  lemma NodeRoundTrip(n: Node)
    requires IsName(n.left) && IsName(n.right)
    ensures NodeFromStr(NodeText(n)) == Some(n)
  {
    var w0 := "(" + n.left + ",";
    var w1 := n.right + ")";
    assert NodeText(n) == Join([w0, w1], " ") by {
      assert Join([w0, w1], " ") == w0 + " " + Join([w1], " ");
    }
    assert IsWord(w0) by {
      assert forall k :: 1 <= k < 4 ==> w0[k] == n.left[k - 1];
    }
    assert IsWord(w1) by {
      assert forall k :: 0 <= k < 3 ==> w1[k] == n.right[k];
    }
    SplitWhitespaceJoin([w0, w1]);
    assert w0[1..4] == n.left;
    assert w1[..3] == n.right;
  }

  /** A text with fewer than two words is not a node. */
  lemma NodeFromStrTooFewWords(s: string)
    requires |SplitWhitespace(s)| < 2
    ensures NodeFromStr(s) == None
  {
  }

  /** `Map`: the instructions and the network. */
  datatype Map = Map(instructions: seq<Instruction>, nodes: map<string, Node>)

  /** One network line `AAA = (BBB, CCC)`: the key is `line[0..3]` and the node is parsed from `line[6..]`. */
  function ParseEntry(line: string): (r: Option<(string, Node)>)
    ensures r.Some? ==> |line| >= 6 && r.value.0 == line[..3] && NodeFromStr(line[6..]) == Some(r.value.1)
    ensures |line| < 6 ==> r.None?
  {
    if |line| < 6 then None
    else match NodeFromStr(line[6..])
      case None => None
      case Some(n) => Some((line[..3], n))
  }

  function ParseEntries(lines: seq<string>): (r: Option<seq<(string, Node)>>)
    ensures r.Some? ==> |r.value| == |lines|
    ensures r.Some? ==> forall k :: 0 <= k < |lines| ==> ParseEntry(lines[k]) == Some(r.value[k])
    ensures r.None? <==> exists k :: 0 <= k < |lines| && ParseEntry(lines[k]).None?
  {
    if lines == [] then Some([])
    else match ParseEntry(lines[0])
      case None => None
      case Some(e) =>
        match ParseEntries(lines[1..])
        case None =>
          assert exists k :: 0 <= k < |lines[1..]| && ParseEntry(lines[1..][k]).None?;
          None
        case Some(rest) =>
          assert forall k :: 1 <= k < |lines| ==> lines[k] == lines[1..][k - 1];
          Some([e] + rest)
  }

  /** `collect()` into a `HashMap`: later entries replace earlier ones with the same key. */
  function Collect(es: seq<(string, Node)>): map<string, Node>
  {
    if es == [] then map[] else Collect(es[..|es| - 1])[es[|es| - 1].0 := es[|es| - 1].1]
  }

  /** The keys of the collected map are the keys of the entries. */
  lemma {:induction false} CollectKeys(es: seq<(string, Node)>, key: string)
    ensures key in Collect(es) <==> exists i :: 0 <= i < |es| && es[i].0 == key
  {
    if es != [] {
      var front := es[..|es| - 1];
      CollectKeys(front, key);
      if exists i :: 0 <= i < |front| && front[i].0 == key {
        var i :| 0 <= i < |front| && front[i].0 == key;
        assert es[i].0 == key;
      }
      if exists i :: 0 <= i < |es| && es[i].0 == key {
        var i :| 0 <= i < |es| && es[i].0 == key;
        if i < |front| {
          assert front[i].0 == key;
        }
      }
    }
  }

  /** Each key maps to the node of its last entry. */
  lemma {:induction false} CollectLastWins(es: seq<(string, Node)>, i: nat)
    requires i < |es|
    requires forall j :: i < j < |es| ==> es[j].0 != es[i].0
    ensures es[i].0 in Collect(es) && Collect(es)[es[i].0] == es[i].1
  {
    if i < |es| - 1 {
      var front := es[..|es| - 1];
      assert front[i] == es[i];
      CollectLastWins(front, i);
    }
  }

  /**
   * `Map::from_str`: instructions from the first line, then one line skipped, then one
   * network entry per line. No first line, a character other than `L` or `R`, or a
   * malformed entry panics.
   */
  function MapFromStr(s: string): (r: Option<Map>)
    ensures r.Some? ==> |Lines(s)| > 0 && ParseInstructions(Lines(s)[0]) == Some(r.value.instructions)
  {
    var lines := Lines(s);
    if lines == [] then None
    else match ParseInstructions(lines[0])
      case None => None
      case Some(ins) =>
        match ParseEntries(if |lines| <= 2 then [] else lines[2..])
        case None => None
        case Some(es) => Some(Map(ins, Collect(es)))
  }

  /** How the input writes a network entry: `AAA = (BBB, CCC)`. */
  function EntryLine(e: (string, Node)): string
  {
    e.0 + " = " + NodeText(e.1)
  }

  function EntryLines(es: seq<(string, Node)>): (lines: seq<string>)
    ensures |lines| == |es|
  {
    seq(|es|, k requires 0 <= k < |es| => EntryLine(es[k]))
  }

  /** An instructions line, a blank line and the entry lines. */
  function MapText(ins: seq<Instruction>, es: seq<(string, Node)>): string
  {
    Unlines([InstructionsText(ins), ""] + EntryLines(es))
  }

  predicate NamedEntry(e: (string, Node))
  {
    IsName(e.0) && IsName(e.1.left) && IsName(e.1.right)
  }

  lemma ParseEntryLine(e: (string, Node))
    requires NamedEntry(e)
    ensures ParseEntry(EntryLine(e)) == Some(e)
  {
    var line := EntryLine(e);
    assert line == e.0 + (" = " + NodeText(e.1));
    assert line[..3] == e.0;
    assert line[6..] == NodeText(e.1);
    NodeRoundTrip(e.1);
  }

  lemma EntryLineShape(e: (string, Node))
    requires NamedEntry(e)
    ensures '\n' !in EntryLine(e)
    ensures EntryLine(e)[|EntryLine(e)| - 1] == ')'
  {
    var line := EntryLine(e);
    assert line == e.0 + " = (" + e.1.left + ", " + e.1.right + ")";
    forall k | 0 <= k < |line|
      ensures line[k] != '\n'
    {
      if k < 3 {
        assert line[k] == e.0[k];
      } else if 7 <= k < 10 {
        assert line[k] == e.1.left[k - 7];
      } else if 12 <= k < 15 {
        assert line[k] == e.1.right[k - 12];
      }
    }
  }

  /** The lines of a map's text are the instructions line, the blank line and the entry lines. */
  lemma MapTextLines(ins: seq<Instruction>, es: seq<(string, Node)>)
    requires forall k :: 0 <= k < |es| ==> NamedEntry(es[k])
    ensures Lines(MapText(ins, es)) == [InstructionsText(ins), ""] + EntryLines(es)
  {
    var rows := [InstructionsText(ins), ""] + EntryLines(es);
    forall k | 0 <= k < |rows|
      ensures '\n' !in rows[k]
      ensures |rows[k]| == 0 || rows[k][|rows[k]| - 1] != '\r'
    {
      if k >= 2 {
        assert rows[k] == EntryLine(es[k - 2]);
        EntryLineShape(es[k - 2]);
      }
    }
    LinesUnlines(rows);
  }

  lemma ParseEntryLines(es: seq<(string, Node)>)
    requires forall k :: 0 <= k < |es| ==> NamedEntry(es[k])
    ensures ParseEntries(EntryLines(es)) == Some(es)
  {
    forall k | 0 <= k < |es|
      ensures ParseEntry(EntryLines(es)[k]) == Some(es[k])
    {
      ParseEntryLine(es[k]);
    }
    var r := ParseEntries(EntryLines(es));
    assert r.Some?;
    assert r.value == es;
  }

  /** Parsing the text of a map written out line by line gives the map back. */
  lemma MapRoundTrip(ins: seq<Instruction>, es: seq<(string, Node)>)
    requires forall k :: 0 <= k < |es| ==> NamedEntry(es[k])
    ensures MapFromStr(MapText(ins, es)) == Some(Map(ins, Collect(es)))
  {
    var lines := Lines(MapText(ins, es));
    assert lines == [InstructionsText(ins), ""] + EntryLines(es) by {
      MapTextLines(ins, es);
    }
    assert ParseInstructions(lines[0]) == Some(ins) by {
      ParseInstructionsText(ins);
    }
    assert (if |lines| <= 2 then [] else lines[2..]) == EntryLines(es);
    assert ParseEntries(EntryLines(es)) == Some(es) by {
      ParseEntryLines(es);
    }
  }

  /** `walk`: the left or right neighbour of `from`; a name that is not a key panics. */
  function Walk(m: Map, from: string, i: Instruction): (r: Option<string>)
  {
    if from !in m.nodes then None
    else if i.Left? then Some(m.nodes[from].left) else Some(m.nodes[from].right)
  }

  /** Walking left and walking right from a key give back its node; walking from a non-key fails. */
  lemma WalkRebuildsNode(m: Map, from: string)
    ensures Walk(m, from, Left).Some? <==> from in m.nodes
    ensures Walk(m, from, Right).Some? <==> from in m.nodes
    ensures from in m.nodes ==> Node(Walk(m, from, Left).value, Walk(m, from, Right).value) == m.nodes[from]
  {
  }

  /** The instruction of step `k` (counting from zero) when the instructions are repeated forever. */
  function Cycled(m: Map, k: nat): Instruction
    requires |m.instructions| > 0
  {
    m.instructions[k % |m.instructions|]
  }

  /** The name reached after `k` steps from `start`, or `None` once a step panics. */
  function After(m: Map, start: string, k: nat): Option<string>
    requires |m.instructions| > 0
  {
    if k == 0 then Some(start)
    else match After(m, start, k - 1)
      case None => None
      case Some(n) => Walk(m, n, Cycled(m, k - 1))
  }

  datatype Outcome<T> = Done(value: T) | Panic | OutOfFuel

  /** Step `k` of the walk from `AAA` reaches a key (that walk looks up every node it reaches). */
  ghost predicate Reaches(m: Map, k: nat)
  {
    |m.instructions| > 0 && After(m, "AAA", k).Some? && After(m, "AAA", k).value in m.nodes
  }

  /** The first `n` steps from `AAA` reach keys other than `ZZZ`. */
  ghost predicate OnTheWay(m: Map, n: nat)
  {
    forall j :: 1 <= j <= n ==> Reaches(m, j) && After(m, "AAA", j).value != "ZZZ"
  }

  /** The walk from `AAA` gets stuck at step `k`: it reaches a name that is not a key. */
  ghost predicate ZzzStuck(m: Map, k: nat)
  {
    k >= 1 && OnTheWay(m, k - 1) && !Reaches(m, k)
  }

  /**
   * `steps` is the record of the walk from `AAA` to the first `ZZZ`: entry `j` holds the
   * name reached by step `j + 1` and its node, and the last step is the first that reaches `ZZZ`.
   */
  ghost predicate ZzzSteps(m: Map, steps: seq<(string, Node)>)
  {
    && |m.instructions| > 0
    && |steps| >= 1
    && OnTheWay(m, |steps| - 1)
    && Reaches(m, |steps|)
    && After(m, "AAA", |steps|) == Some("ZZZ")
    && Recorded(m, steps)
  }

  /** Entry `j` of `steps` holds the name reached by step `j + 1` from `AAA` and its node. */
  ghost predicate Recorded(m: Map, steps: seq<(string, Node)>)
    requires |m.instructions| > 0
  {
    forall j :: 0 <= j < |steps| ==>
      After(m, "AAA", j + 1) == Some(steps[j].0) && steps[j].0 in m.nodes && steps[j].1 == m.nodes[steps[j].0]
  }

  lemma RecordedSnoc(m: Map, steps: seq<(string, Node)>, e: (string, Node))
    requires |m.instructions| > 0 && Recorded(m, steps)
    requires After(m, "AAA", |steps| + 1) == Some(e.0) && e.0 in m.nodes && e.1 == m.nodes[e.0]
    ensures Recorded(m, steps + [e])
  {
    var t := steps + [e];
    forall j | 0 <= j < |t|
      ensures After(m, "AAA", j + 1) == Some(t[j].0) && t[j].0 in m.nodes && t[j].1 == m.nodes[t[j].0]
    {
      if j < |steps| {
        assert t[j] == steps[j];
      }
    }
  }

  lemma OnTheWaySnoc(m: Map, n: nat)
    requires OnTheWay(m, n) && Reaches(m, n + 1) && After(m, "AAA", n + 1).value != "ZZZ"
    ensures OnTheWay(m, n + 1)
  {
  }

  /** One step of a walk: the name reached after `k + 1` steps is a walk from the name reached after `k`. */
  lemma AfterStep(m: Map, start: string, k: nat, name: string)
    requires |m.instructions| > 0 && After(m, start, k) == Some(name)
    ensures After(m, start, k + 1) == Walk(m, name, Cycled(m, k))
  {
  }

  /**
   * `walk_to_zzz`: the steps from `AAA` until `ZZZ`. With no instructions the cycle is
   * empty and no step is taken.
   */
  method WalkToZzz(m: Map, fuel: nat) returns (r: Outcome<seq<(string, Node)>>)
    ensures "AAA" !in m.nodes ==> r == Panic
    ensures |m.instructions| == 0 && "AAA" in m.nodes ==> r == Done([])
    ensures r.Done? && |m.instructions| > 0 ==> ZzzSteps(m, r.value) && |r.value| <= fuel
    ensures r.Panic? && |m.instructions| > 0 && "AAA" in m.nodes ==> exists k :: 1 <= k <= fuel && ZzzStuck(m, k)
    ensures r.OutOfFuel? ==> |m.instructions| > 0 && OnTheWay(m, fuel)
  {
    if "AAA" !in m.nodes {
      return Panic;
    }
    if |m.instructions| == 0 {
      return Done([]);
    }
    var name := "AAA";
    var node := m.nodes[name];
    var steps: seq<(string, Node)> := [];
    while |steps| < fuel
      invariant |steps| <= fuel
      invariant After(m, "AAA", |steps|) == Some(name) && name in m.nodes && node == m.nodes[name]
      invariant OnTheWay(m, |steps|)
      invariant Recorded(m, steps)
      decreases fuel - |steps|
    {
      var next := if Cycled(m, |steps|).Left? then node.left else node.right;
      assert After(m, "AAA", |steps| + 1) == Some(next) by {
        AfterStep(m, "AAA", |steps|, name);
      }
      if next !in m.nodes {
        assert ZzzStuck(m, |steps| + 1);
        return Panic;
      }
      node := m.nodes[next];
      name := next;
      assert Recorded(m, steps + [(next, node)]) by {
        RecordedSnoc(m, steps, (next, node));
      }
      if next == "ZZZ" {
        steps := steps + [(next, node)];
        return Done(steps);
      }
      assert OnTheWay(m, |steps| + 1) by {
        OnTheWaySnoc(m, |steps|);
      }
      steps := steps + [(next, node)];
    }
    return OutOfFuel;
  }

  /** The record ends with the first arrival at `ZZZ`: its last entry is `ZZZ` and no earlier one is. */
  lemma ZzzStepsEnds(m: Map, steps: seq<(string, Node)>)
    requires ZzzSteps(m, steps)
    ensures steps[|steps| - 1].0 == "ZZZ"
    ensures forall j :: 0 <= j < |steps| - 1 ==> steps[j].0 != "ZZZ"
  {
    forall j | 0 <= j < |steps| - 1
      ensures steps[j].0 != "ZZZ"
    {
      assert After(m, "AAA", j + 1) == Some(steps[j].0);
    }
  }

  /** The walk has one record: two records of it are equal. */
  lemma ZzzStepsUnique(m: Map, s: seq<(string, Node)>, t: seq<(string, Node)>)
    requires ZzzSteps(m, s) && ZzzSteps(m, t)
    ensures s == t
  {
    assert After(m, "AAA", |s|) == Some("ZZZ") && After(m, "AAA", |t|) == Some("ZZZ");
    forall j | 0 <= j < |s|
      ensures s[j] == t[j]
    {
      assert After(m, "AAA", j + 1) == Some(s[j].0);
    }
  }

  /** The walk cannot both arrive and get stuck, nor arrive and still be on its way after the arrival. */
  lemma ZzzOutcomesExclusive(m: Map, steps: seq<(string, Node)>, k: nat)
    requires ZzzSteps(m, steps)
    ensures !ZzzStuck(m, k)
    ensures !OnTheWay(m, k + |steps|)
  {
    assert After(m, "AAA", |steps|) == Some("ZZZ");
    assert k == 0 || k > |steps| || Reaches(m, k);
  }

  /** `ends_with`. */
  predicate EndsWith(s: string, c: char)
  {
    |s| > 0 && s[|s| - 1] == c
  }

  /** The keys that `walk_to_z_par` starts from: those ending in `A`. */
  function Starts(m: Map): set<string>
  {
    set k | k in m.nodes && EndsWith(k, 'A')
  }

  /** The first `n` steps from `start` reach names not ending in `Z`. */
  ghost predicate Unfinished(m: Map, start: string, n: nat)
    requires |m.instructions| > 0
  {
    forall j :: 1 <= j <= n ==> After(m, start, j).Some? && !EndsWith(After(m, start, j).value, 'Z')
  }

  /** `k` is the number of steps from `start` to the first name ending in `Z` (at least one). */
  ghost predicate ZCount(m: Map, start: string, k: nat)
    requires |m.instructions| > 0
  {
    k >= 1 && Unfinished(m, start, k - 1) && After(m, start, k).Some? && EndsWith(After(m, start, k).value, 'Z')
  }

  /** The walk from `start` panics at step `k`: it walks from a name that is not a key. */
  ghost predicate Stuck(m: Map, start: string, k: nat)
    requires |m.instructions| > 0
  {
    k >= 1 && Unfinished(m, start, k - 1) && After(m, start, k).None?
  }

  /** The step count of one start in `walk_to_z_par`. */
  method StepsToZ(m: Map, start: string, fuel: nat) returns (r: Outcome<nat>)
    requires |m.instructions| > 0
    ensures r.Done? ==> r.value <= fuel && ZCount(m, start, r.value)
    ensures r.Panic? ==> exists k: nat :: k <= fuel && Stuck(m, start, k)
    ensures r.OutOfFuel? ==> Unfinished(m, start, fuel)
  {
    var steps := 0;
    var next := start;
    while steps < fuel
      invariant steps <= fuel
      invariant After(m, start, steps) == Some(next)
      invariant Unfinished(m, start, steps)
      decreases fuel - steps
    {
      var w := Walk(m, next, Cycled(m, steps));
      steps := steps + 1;
      assert After(m, start, steps) == w;
      if w.None? {
        assert Stuck(m, start, steps);
        return Panic;
      }
      next := w.value;
      if EndsWith(next, 'Z') {
        return Done(steps);
      }
    }
    return OutOfFuel;
  }

  /** The walk stops at the first name ending in `Z`, so a start has at most one count. */
  lemma ZCountUnique(m: Map, start: string, k1: nat, k2: nat)
    requires |m.instructions| > 0
    requires ZCount(m, start, k1) && ZCount(m, start, k2)
    ensures k1 == k2
  {
    assert After(m, start, k1).Some? && After(m, start, k2).Some?;
  }

  /** A walk that arrives neither gets stuck nor is unfinished past its count. */
  lemma CountOutcomesExclusive(m: Map, start: string, k: nat, j: nat)
    requires |m.instructions| > 0 && ZCount(m, start, k)
    ensures !Stuck(m, start, j)
    ensures !Unfinished(m, start, k + j)
  {
    assert After(m, start, k).Some?;
    assert j < k ==> After(m, start, j).Some?;
  }

  /** `c` is a multiple of the count of every start. */
  ghost predicate CommonMultiple(m: Map, c: nat)
    requires |m.instructions| > 0
  {
    forall s, k :: s in Starts(m) && ZCount(m, s, k) ==> Divides(k, c)
  }

  /** `v` is the least common multiple of the counts of the starts. */
  ghost predicate IsLcmOfCounts(m: Map, v: nat)
    requires |m.instructions| > 0
  {
    CommonMultiple(m, v) && forall c: nat :: CommonMultiple(m, c) ==> Divides(v, c)
  }

  /** Every start reaches a name ending in `Z` within `fuel` steps. */
  ghost predicate AllCounted(m: Map, fuel: nat)
    requires |m.instructions| > 0
  {
    forall s :: s in Starts(m) ==> exists k: nat :: k <= fuel && ZCount(m, s, k)
  }

  /**
   * `walk_to_z_par`: the lcm of the step counts of the starts. The starts are taken in an
   * unspecified order, like the keys of a `HashMap`; `lcmx` of an empty list has no result.
   */
  method WalkToZPar(m: Map, fuel: nat) returns (r: Outcome<nat>)
    ensures |m.instructions| == 0 ==> r == (if Starts(m) == {} then Panic else Done(0))
    ensures |m.instructions| > 0 && r.Done? ==> Starts(m) != {} && AllCounted(m, fuel) && IsLcmOfCounts(m, r.value)
    ensures |m.instructions| > 0 && r.Panic? ==>
      Starts(m) == {} || exists s, k: nat :: s in Starts(m) && k <= fuel && Stuck(m, s, k)
    ensures |m.instructions| > 0 && r.OutOfFuel? ==> exists s :: s in Starts(m) && Unfinished(m, s, fuel)
  {
    var starts := Starts(m);
    if |m.instructions| == 0 {
      var zeros := seq(|starts|, _ => 0);
      match LcmOf(zeros) {
        case None => return Panic;
        case Some(v) =>
          LcmSeqZeros(zeros);
          return Done(v);
      }
    }
    var counted, order := CountSteps(m, starts, fuel);
    match counted {
      case Panic => return Panic;
      case OutOfFuel => return OutOfFuel;
      case Done(counts) =>
        match LcmOf(counts) {
          case None => return Panic;
          case Some(v) =>
            ParDone(m, fuel, counts, order);
            return Done(v);
        }
    }
  }

  /** A count for every start, and only counts, give the lcm of the counts. */
  lemma ParDone(m: Map, fuel: nat, counts: seq<nat>, order: seq<string>)
    requires |m.instructions| > 0 && counts != [] && |order| == |counts|
    requires forall i :: 0 <= i < |order| ==> order[i] in Starts(m) && counts[i] <= fuel && ZCount(m, order[i], counts[i])
    requires forall s :: s in Starts(m) ==> s in order
    ensures Starts(m) != {} && AllCounted(m, fuel) && IsLcmOfCounts(m, LcmSeq(counts))
  {
    assert order[0] in Starts(m);
    assert IsLcmOfCounts(m, LcmSeq(counts)) by {
      CountsLcm(m, counts, order);
    }
    forall s | s in Starts(m)
      ensures exists k: nat :: k <= fuel && ZCount(m, s, k)
    {
      var i :| 0 <= i < |order| && order[i] == s;
      assert counts[i] <= fuel && ZCount(m, s, counts[i]);
    }
  }

  /** The step counts of the starts, visited in an unspecified order, recorded in `order`. */
  method CountSteps(m: Map, starts: set<string>, fuel: nat) returns (r: Outcome<seq<nat>>, ghost order: seq<string>)
    requires |m.instructions| > 0
    ensures r.Done? ==> |order| == |r.value| && (r.value == [] <==> starts == {})
    ensures r.Done? ==> forall i :: 0 <= i < |order| ==> order[i] in starts && r.value[i] <= fuel && ZCount(m, order[i], r.value[i])
    ensures r.Done? ==> forall s :: s in starts ==> s in order
    ensures r.Panic? ==> exists s, k: nat :: s in starts && k <= fuel && Stuck(m, s, k)
    ensures r.OutOfFuel? ==> exists s :: s in starts && Unfinished(m, s, fuel)
  {
    var counts: seq<nat> := [];
    order := [];
    var rest := starts;
    while rest != {}
      invariant rest <= starts && |order| == |counts|
      invariant forall i :: 0 <= i < |order| ==> order[i] in starts && counts[i] <= fuel && ZCount(m, order[i], counts[i])
      invariant forall s :: s in starts ==> s in rest || s in order
      invariant counts == [] <==> rest == starts
      decreases |rest|
    {
      var s :| s in rest;
      var c := StepsToZ(m, s, fuel);
      if c.Panic? {
        return Panic, order;
      } else if c.OutOfFuel? {
        return OutOfFuel, order;
      }
      counts := counts + [c.value];
      order := order + [s];
      rest := rest - {s};
    }
    return Done(counts), order;
  }

  lemma {:induction false} LcmSeqZeros(ns: seq<nat>)
    requires |ns| > 0 && forall i :: 0 <= i < |ns| ==> ns[i] == 0
    ensures LcmSeq(ns) == 0
  {
    if |ns| > 1 {
      LcmSeqZeros(ns[..|ns| - 1]);
    }
  }

  /** The lcm of a list holding the count of every start, and only counts, is the lcm of the counts. */
  lemma CountsLcm(m: Map, counts: seq<nat>, order: seq<string>)
    requires |m.instructions| > 0 && |counts| > 0 && |order| == |counts|
    requires forall i :: 0 <= i < |order| ==> order[i] in Starts(m) && ZCount(m, order[i], counts[i])
    requires forall s :: s in Starts(m) ==> s in order
    ensures IsLcmOfCounts(m, LcmSeq(counts))
  {
    var v := LcmSeq(counts);
    forall s, k | s in Starts(m) && ZCount(m, s, k)
      ensures Divides(k, v)
    {
      var i :| 0 <= i < |order| && order[i] == s;
      ZCountUnique(m, s, k, counts[i]);
      LcmSeqMultiple(counts, i);
    }
    forall c: nat | CommonMultiple(m, c)
      ensures Divides(v, c)
    {
      forall i | 0 <= i < |counts|
        ensures Divides(counts[i], c)
      {
        assert order[i] in Starts(m) && ZCount(m, order[i], counts[i]);
      }
      LcmSeqLeast(counts, c);
    }
  }

  /**
   * The answer does not depend on the order the starts are visited in: when every start
   * has a count, the lcm of the counts is unique.
   */
  lemma ParResultUnique(m: Map, fuel: nat, v: nat, w: nat)
    requires |m.instructions| > 0 && AllCounted(m, fuel)
    requires IsLcmOfCounts(m, v) && IsLcmOfCounts(m, w)
    ensures v == w
  {
    DividesAntisymmetric(v, w);
  }
}

/**
 * The test of `2023/day-08/src/main.rs` (lines 149-175): the network of the example and
 * its answer to part two. The example file itself is not part of this model; the parse
 * test is stated for the text `MapText` writes for the same network.
 */
module HauntedWastelandExamples {
  import opened Common
  import opened NumberTheory
  import opened HauntedWasteland

  function ExampleEntries(): seq<(string, Node)>
  {
    [ ("11A", Node("11B", "XXX")), ("11B", Node("XXX", "11Z")), ("11Z", Node("11B", "XXX")),
      ("22A", Node("22B", "XXX")), ("22B", Node("22C", "22C")), ("22C", Node("22Z", "22Z")),
      ("22Z", Node("22B", "22B")), ("XXX", Node("XXX", "XXX")) ]
  }

  function ExampleMap(): Map
  {
    Map([Left, Right], map[
      "11A" := Node("11B", "XXX"), "11B" := Node("XXX", "11Z"), "11Z" := Node("11B", "XXX"),
      "22A" := Node("22B", "XXX"), "22B" := Node("22C", "22C"), "22C" := Node("22Z", "22Z"),
      "22Z" := Node("22B", "22B"), "XXX" := Node("XXX", "XXX")])
  }

  lemma ExampleNamed()
    ensures forall k :: 0 <= k < |ExampleEntries()| ==> NamedEntry(ExampleEntries()[k])
  {
    var es := ExampleEntries();
    forall k | 0 <= k < |es|
      ensures NamedEntry(es[k])
    {
    }
  }

  /** `HashMap::from` of the test's entries is the network of the example. */
  lemma ExampleCollect()
    ensures Collect(ExampleEntries()) == ExampleMap().nodes
  {
    var es := ExampleEntries();
    assert Collect(es[..1]) == map[][es[0].0 := es[0].1] by {
      assert es[..1][..0] == [];
    }
    assert Collect(es[..2]) == Collect(es[..1])[es[1].0 := es[1].1] by {
      assert es[..2][..1] == es[..1];
    }
    assert Collect(es[..3]) == Collect(es[..2])[es[2].0 := es[2].1] by {
      assert es[..3][..2] == es[..2];
    }
    assert Collect(es[..4]) == Collect(es[..3])[es[3].0 := es[3].1] by {
      assert es[..4][..3] == es[..3];
    }
    assert Collect(es[..5]) == Collect(es[..4])[es[4].0 := es[4].1] by {
      assert es[..5][..4] == es[..4];
    }
    assert Collect(es[..6]) == Collect(es[..5])[es[5].0 := es[5].1] by {
      assert es[..6][..5] == es[..5];
    }
    assert Collect(es[..7]) == Collect(es[..6])[es[6].0 := es[6].1] by {
      assert es[..7][..6] == es[..6];
    }
    assert Collect(es[..8]) == Collect(es[..7])[es[7].0 := es[7].1] by {
      assert es[..8][..7] == es[..7];
    }
    assert es[..8] == es;
  }

  /** Test `parse`. */
  lemma Parse()
    ensures MapFromStr(MapText([Left, Right], ExampleEntries())) == Some(ExampleMap())
  {
    ExampleNamed();
    MapRoundTrip([Left, Right], ExampleEntries());
    ExampleCollect();
  }

  /** Test `walk_par`: the counts are 2 and 3, and their lcm is 6. */
  lemma WalkPar()
    ensures IsLcmOfCounts(ExampleMap(), 6)
    ensures AllCounted(ExampleMap(), 3)
  {
    var m := ExampleMap();
    assert Starts(m) == {"11A", "22A"};
    assert ZCount(m, "11A", 2);
    assert ZCount(m, "22A", 3);
    assert Gcd(2, 3) == 1;
    assert Lcm(2, 3) == 6;
    LcmMultiple(2, 3);
    forall s, k | s in Starts(m) && ZCount(m, s, k)
      ensures Divides(k, 6)
    {
      if s == "11A" {
        ZCountUnique(m, s, k, 2);
      } else {
        ZCountUnique(m, s, k, 3);
      }
    }
    forall c: nat | CommonMultiple(m, c)
      ensures Divides(6, c)
    {
      LcmLeast(2, 3, c);
    }
  }
}
