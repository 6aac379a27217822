/**
 * 2022 day 3, "Rucksack Reorganization": each line lists the items of a rucksack, one
 * character per item, split into two compartments of equal size. Part one adds up the
 * priorities of the item found in both compartments, and part two the priorities of
 * the item shared by each group of three rucksacks.
 */
module RucksackReorganization {
  import opened Common
  import opened Text

  predicate IsLower(c: char)
  {
    'a' <= c <= 'z'
  }

  predicate IsUpper(c: char)
  {
    'A' <= c <= 'Z'
  }

  /** The priority of an item: `a` to `z` are 1 to 26, `A` to `Z` are 27 to 52, and others have none. */
  function Priority(c: char): (p: Option<nat>)
    ensures p.Some? <==> IsLower(c) || IsUpper(c)
    ensures p.Some? ==> 1 <= p.value <= 52
    ensures IsLower(c) ==> p.value <= 26
    ensures IsUpper(c) ==> p.value >= 27
  {
    if IsLower(c) then Some(c as int - 'a' as int + 1)
    else if IsUpper(c) then Some(c as int - 'A' as int + 27)
    else None
  }

  /** The letter of a priority, the inverse of `Priority`. */
  function LetterOf(p: nat): (c: char)
    requires 1 <= p <= 52
    ensures Priority(c) == Some(p)
  {
    if p <= 26 then ('a' as int + p - 1) as char else ('A' as int + p - 27) as char
  }

  /** Two items with the same priority are the same item. */
  lemma PriorityInjective(a: char, b: char)
    requires Priority(a).Some? && Priority(a) == Priority(b)
    ensures a == b
  {
  }

  /**
   * `init_priority`: the two `for_each` loops insert the lower-case letters with
   * priorities 1 to 26 and the upper-case letters with 27 to 52, which leaves 52 entries.
   */
  method InitPriority() returns (priority: map<char, nat>)
    ensures forall c :: c in priority <==> Priority(c).Some?
    ensures forall c :: c in priority ==> Some(priority[c]) == Priority(c)
    ensures |priority| == 26 * 2
  {
    priority := map[];
    for i := 0 to 26
      invariant Filled(priority, i)
    {
      var v := ('a' as int + i) as char;
      FilledStep(priority, i, v);
      priority := priority[v := i + 1];
    }
    for i := 0 to 26
      invariant Filled(priority, 26 + i)
    {
      var v := ('A' as int + i) as char;
      FilledStep(priority, 26 + i, v);
      priority := priority[v := i + 27];
    }
  }

  /** The table holds exactly the letters of priority up to `k`, each with its priority. */
  predicate Filled(priority: map<char, nat>, k: nat)
  {
    && (forall c :: c in priority <==> Priority(c).Some? && Priority(c).value <= k)
    && (forall c :: c in priority ==> Some(priority[c]) == Priority(c))
    && |priority| == k
  }

  /** Inserting the letter of the next priority fills the table one step further. */
  lemma FilledStep(priority: map<char, nat>, k: nat, v: char)
    requires Filled(priority, k) && Priority(v) == Some(k + 1)
    ensures Filled(priority[v := k + 1], k + 1)
  {
    forall c | Priority(c).Some? && Priority(c).value == k + 1
      ensures c == v
    {
      PriorityInjective(c, v);
    }
  }

  /** `second.iter().find(|&item| first.contains(item))`: the first item of `second` that `first` holds. */
  function FindShared(second: string, first: string): (r: Option<char>)
    ensures r.Some? <==> exists j :: 0 <= j < |second| && second[j] in first
    ensures r.Some? ==> exists j :: 0 <= j < |second| && second[j] == r.value && r.value in first &&
                                 (forall i :: 0 <= i < j ==> second[i] !in first)
  {
    if second == [] then None
    else if second[0] in first then
      Some(second[0])
    else
      var r := FindShared(second[1..], first);
      if r.Some? then
        ghost var j :| 0 <= j < |second[1..]| && second[1..][j] == r.value && r.value in first &&
          forall i :: 0 <= i < j ==> second[1..][i] !in first;
        assert second[j + 1] == r.value;
        assert forall i :: 0 <= i < j + 1 ==> second[i] !in first by {
          forall i | 0 <= i < j + 1
            ensures second[i] !in first
          {
            if i > 0 {
              assert second[i] == second[1..][i - 1];
            }
          }
        }
        r
      else
        assert forall j :: 0 <= j < |second| ==> second[j] !in first by {
          forall j | 0 <= j < |second|
            ensures second[j] !in first
          {
            if j > 0 {
              assert second[j] == second[1..][j - 1];
            }
          }
        }
        None
  }

  /**
   * The item in both compartments: the line is split after `len / 2` items, and the
   * first item of the second half that the first half holds is the one; none is a panic.
   */
  function Duplicate(line: string): Option<char>
  {
    var middle := |line| / 2;
    FindShared(line[middle..], line[..middle])
  }

  /** An item found in both compartments lies in each of them, and is the first of the second half to. */
  lemma DuplicateShared(line: string)
    requires Duplicate(line).Some?
    ensures var middle := |line| / 2;
      var c := Duplicate(line).value;
      c in line[..middle] && exists j :: middle <= j < |line| && line[j] == c &&
                                         (forall i :: middle <= i < j ==> line[i] !in line[..middle])
  {
    var middle := |line| / 2;
    var second := line[middle..];
    var c := Duplicate(line).value;
    var j :| 0 <= j < |second| && second[j] == c && c in line[..middle] &&
      forall i :: 0 <= i < j ==> second[i] !in line[..middle];
    assert line[middle + j] == c;
    forall i | middle <= i < middle + j
      ensures line[i] !in line[..middle]
    {
      assert line[i] == second[i - middle];
    }
  }

  /** A rucksack whose compartments share no item makes `expect` panic. */
  lemma DuplicatePanics(line: string)
    ensures var middle := |line| / 2;
      Duplicate(line).None? <==> forall j :: middle <= j < |line| ==> line[j] !in line[..middle]
  {
    var middle := |line| / 2;
    var second := line[middle..];
    forall j | middle <= j < |line|
      ensures line[j] == second[j - middle]
    {
    }
  }

  /** `prority_map.get`, with the `filter_map` that drops an item without a priority. */
  function PriorityOrZero(c: char): (p: nat)
    ensures p <= 52
  {
    if Priority(c).Some? then Priority(c).value else 0
  }

  /** The sum of the priorities of the duplicated items, or a panic when one rucksack has none. */
  function DuplicateSum(lines: seq<string>): (r: Option<nat>)
    ensures r.Some? <==> forall k :: 0 <= k < |lines| ==> Duplicate(lines[k]).Some?
    ensures r.Some? ==> r.value <= 52 * |lines|
  {
    if lines == [] then Some(0)
    else
      var d := Duplicate(lines[0]);
      var rest := DuplicateSum(lines[1..]);
      assert forall k :: 0 <= k < |lines[1..]| ==> lines[1..][k] == lines[k + 1];
      if d.None? then None
      else if rest.None? then None
      else Some(PriorityOrZero(d.value) + rest.value)
  }

  /** Part one: the sum over the lines of the input, split at every `\n`. */
  function PrioritySum(input: string): Option<nat>
  {
    DuplicateSum(SplitTerminator(input, "\n"))
  }

  /** `chunks(3)`: consecutive groups of three lines, the last one shorter when the lines run out. */
  function Chunks(lines: seq<string>): (groups: seq<seq<string>>)
    ensures |groups| == (|lines| + 2) / 3
    ensures forall g :: 0 <= g < |groups| ==> 1 <= |groups[g]| <= 3
    ensures forall g :: 0 <= g < |groups| - 1 ==> |groups[g]| == 3
    ensures |groups| >= 1 ==> |groups[|groups| - 1]| == |lines| - 3 * (|groups| - 1)
    decreases |lines|
  {
    if |lines| <= 3 then (if lines == [] then [] else [lines])
    else [lines[..3]] + Chunks(lines[3..])
  }

  /** The chunks, put back together, are the lines in order. */
  lemma {:induction false} ChunksConcat(lines: seq<string>)
    ensures Flatten(Chunks(lines)) == lines
    decreases |lines|
  {
    if |lines| > 3 {
      ChunksConcat(lines[3..]);
      FlattenCons(lines[..3], Chunks(lines[3..]));
      assert lines[..3] + lines[3..] == lines;
    } else if lines != [] {
      FlattenCons(lines, []);
    }
  }

  function Flatten(groups: seq<seq<string>>): seq<string>
  {
    if groups == [] then [] else groups[0] + Flatten(groups[1..])
  }

  lemma FlattenCons(g: seq<string>, groups: seq<seq<string>>)
    ensures Flatten([g] + groups) == g + Flatten(groups)
  {
    assert ([g] + groups)[1..] == groups;
  }

  /** The first item of the first line that both other lines hold. */
  function FindBadge(first: string, second: string, third: string): (r: Option<char>)
    ensures r.Some? <==> exists j :: 0 <= j < |first| && first[j] in second && first[j] in third
    ensures r.Some? ==> exists j :: 0 <= j < |first| && first[j] == r.value && r.value in second && r.value in third &&
                                 (forall i :: 0 <= i < j ==> !(first[i] in second && first[i] in third))
  {
    if first == [] then None
    else if first[0] in second && first[0] in third then
      Some(first[0])
    else
      var r := FindBadge(first[1..], second, third);
      if r.Some? then
        ghost var j :| 0 <= j < |first[1..]| && first[1..][j] == r.value && r.value in second && r.value in third &&
          forall i :: 0 <= i < j ==> !(first[1..][i] in second && first[1..][i] in third);
        assert first[j + 1] == r.value;
        assert forall i :: 0 <= i < j + 1 ==> !(first[i] in second && first[i] in third) by {
          forall i | 0 <= i < j + 1
            ensures !(first[i] in second && first[i] in third)
          {
            if i > 0 {
              assert first[i] == first[1..][i - 1];
            }
          }
        }
        r
      else
        assert forall j :: 0 <= j < |first| ==> !(first[j] in second && first[j] in third) by {
          forall j | 0 <= j < |first|
            ensures !(first[j] in second && first[j] in third)
          {
            if j > 0 {
              assert first[j] == first[1..][j - 1];
            }
          }
        }
        None
  }

  /** The badge of a group: a group of fewer than three lines, or with no shared item, panics. */
  function Badge(group: seq<string>): (r: Option<char>)
    ensures r.Some? ==> |group| >= 3 && r.value in group[0] && r.value in group[1] && r.value in group[2]
  {
    if |group| < 3 then None else FindBadge(group[0], group[1], group[2])
  }

  /** The sum of the priorities of the badges, or a panic when one group has none. */
  function BadgeSum(groups: seq<seq<string>>): (r: Option<nat>)
    ensures r.Some? <==> forall g :: 0 <= g < |groups| ==> Badge(groups[g]).Some?
    ensures r.Some? ==> r.value <= 52 * |groups|
  {
    if groups == [] then Some(0)
    else
      var b := Badge(groups[0]);
      var rest := BadgeSum(groups[1..]);
      assert forall g :: 0 <= g < |groups[1..]| ==> groups[1..][g] == groups[g + 1];
      if b.None? then None
      else if rest.None? then None
      else Some(PriorityOrZero(b.value) + rest.value)
  }

  /** Part two: the sum over the groups of three lines of the input. */
  function BadgePrioritySum(input: string): Option<nat>
  {
    BadgeSum(Chunks(SplitTerminator(input, "\n")))
  }

  /** Part two panics when the number of lines is not a multiple of three. */
  lemma BadgeRagged(input: string)
    requires |SplitTerminator(input, "\n")| % 3 != 0
    ensures BadgePrioritySum(input).None?
  {
    var groups := Chunks(SplitTerminator(input, "\n"));
    var last := |groups| - 1;
    assert |groups[last]| < 3;
  }
}
