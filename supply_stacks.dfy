/**
 * 2022 day 5: stacks of crates drawn as a text picture, rearranged by a crane that moves
 * crates one at a time; the answer is the crate on top of each stack.
 */
module SupplyStacks {
  import opened Common
  import opened Text

  /** The stacks by key `1..n`, each listed bottom to top. */
  type Table = map<nat, seq<char>>

  /** One rearrangement step: move `qty` crates from stack `from` to stack `to`. */
  datatype Procedure = Procedure(qty: nat, from: nat, to: nat)

  /** The elements of `s` in the opposite order. */
  function Reversed<T>(s: seq<T>): (r: seq<T>)
    ensures |r| == |s|
    ensures forall i :: 0 <= i < |s| ==> r[i] == s[|s| - 1 - i]
  {
    if s == [] then [] else Reversed(s[1..]) + [s[0]]
  }

  // ---------------------------------------------------------------------------------
  // The crane

  /**
   * One turn of the `qty` loop of `main`: the top crate of `from` is popped and pushed onto
   * `to`. A missing key or an empty `from` stack panics (`None`).
   */
  function MoveOne(t: Table, from: nat, to: nat): (r: Option<Table>)
  {
    if from !in t || t[from] == [] then None
    else
      var stack := t[from];
      var popped := t[from := stack[..|stack| - 1]];
      if to !in popped then None else Some(popped[to := popped[to] + [stack[|stack| - 1]]])
  }

  /** The table after `n` turns of the `qty` loop, or `None` if one of them panics. */
  function MoveTimes(t: Table, from: nat, to: nat, n: nat): (r: Option<Table>)
  {
    if n == 0 then Some(t)
    else
      var before := MoveTimes(t, from, to, n - 1);
      if before.None? then None else MoveOne(before.value, from, to)
  }

  /** A procedure carried out: its crates moved one at a time. */
  function Apply(t: Table, p: Procedure): Option<Table>
  {
    MoveTimes(t, p.from, p.to, p.qty)
  }

  /**
   * Moving `n` crates between two different stacks takes the top `n` crates of `from`
   * and puts them on `to` in reversed order; every other stack stays as it was.
   */
  lemma {:induction false} MoveBlock(t: Table, from: nat, to: nat, n: nat)
    requires from != to && from in t && to in t && n <= |t[from]|
    ensures var f := t[from];
      MoveTimes(t, from, to, n) == Some(t[from := f[..|f| - n]][to := t[to] + Reversed(f[|f| - n..])])
  {
    var f := t[from];
    if n == 0 {
      assert f[..|f|] == f && Reversed(f[|f|..]) == [];
      assert t[to] + [] == t[to];
      assert t[from := f][to := t[to]] == t;
    } else {
      MoveBlock(t, from, to, n - 1);
      var rest := t[to] + Reversed(f[|f| - (n - 1)..]);
      var before := t[from := f[..|f| - (n - 1)]][to := rest];
      assert MoveTimes(t, from, to, n - 1) == Some(before);
      assert MoveTimes(t, from, to, n) == MoveOne(before, from, to);
      var stack := before[from];
      assert stack == f[..|f| - n + 1];
      assert stack[..|stack| - 1] == f[..|f| - n];
      assert stack[|stack| - 1] == f[|f| - n];
      var popped := before[from := f[..|f| - n]];
      assert popped[to] == rest;
      assert Reversed(f[|f| - n..]) == Reversed(f[|f| - n + 1..]) + [f[|f| - n]] by {
        assert f[|f| - n..][1..] == f[|f| - n + 1..];
      }
      assert popped == t[from := f[..|f| - n]][to := rest];
      assert rest + [f[|f| - n]] == t[to] + Reversed(f[|f| - n..]);
      assert MoveOne(before, from, to) == Some(popped[to := rest + [f[|f| - n]]]);
      assert popped[to := rest + [f[|f| - n]]] == t[from := f[..|f| - n]][to := t[to] + Reversed(f[|f| - n..])];
    }
  }

  /** Between two different stacks, the crane panics exactly when a key is missing or `from` runs out. */
  lemma {:induction false} MovePanics(t: Table, from: nat, to: nat, n: nat)
    requires from != to && n > 0
    ensures MoveTimes(t, from, to, n).Some? <==> from in t && to in t && n <= |t[from]|
  {
    if from in t && to in t && n <= |t[from]| {
      MoveBlock(t, from, to, n);
    } else if n > 1 {
      MovePanics(t, from, to, n - 1);
      if MoveTimes(t, from, to, n - 1).Some? {
        MoveBlock(t, from, to, n - 1);
      }
    }
  }

  /** Moving crates from a stack onto itself changes nothing, but panics on an empty or missing stack. */
  lemma {:induction false} MoveSelf(t: Table, s: nat, n: nat)
    ensures MoveTimes(t, s, s, n) == if n == 0 || (s in t && t[s] != []) then Some(t) else None
  {
    if n > 0 {
      MoveSelf(t, s, n - 1);
      if s in t && t[s] != [] {
        var stack := t[s];
        assert stack[..|stack| - 1] + [stack[|stack| - 1]] == stack;
        assert t[s := stack[..|stack| - 1]][s := stack] == t;
      }
    }
  }

  /** The number of crates on the stacks with keys `1..n`. */
  function Total(t: Table, n: nat): nat
  {
    if n == 0 then 0 else Total(t, n - 1) + (if n in t then |t[n]| else 0)
  }

  /** Changing one stack among the keys `1..n` changes the total by its change in size. */
  lemma {:induction false} TotalUpdate(t: Table, k: nat, v: seq<char>, n: nat)
    requires k in t
    ensures Total(t[k := v], n) + (if 1 <= k <= n then |t[k]| else 0) == Total(t, n) + (if 1 <= k <= n then |v| else 0)
  {
    if n > 0 {
      TotalUpdate(t, k, v, n - 1);
    }
  }

  /** A move between two stacks of keys `1..n` keeps the number of crates on them. */
  lemma {:induction false} MoveOneTotal(t: Table, from: nat, to: nat, n: nat)
    requires MoveOne(t, from, to).Some? && 1 <= from <= n && 1 <= to <= n
    ensures Total(MoveOne(t, from, to).value, n) == Total(t, n)
  {
    var stack := t[from];
    var popped := t[from := stack[..|stack| - 1]];
    TotalUpdate(t, from, stack[..|stack| - 1], n);
    TotalUpdate(popped, to, popped[to] + [stack[|stack| - 1]], n);
  }

  /** A procedure between stacks of keys `1..n` keeps the number of crates on them. */
  lemma {:induction false} MoveTotal(t: Table, from: nat, to: nat, k: nat, n: nat)
    requires MoveTimes(t, from, to, k).Some? && 1 <= from <= n && 1 <= to <= n
    ensures Total(MoveTimes(t, from, to, k).value, n) == Total(t, n)
  {
    if k > 0 {
      MoveTotal(t, from, to, k - 1, n);
      MoveOneTotal(MoveTimes(t, from, to, k - 1).value, from, to, n);
    }
  }

  /** Moving crates neither adds nor removes a stack. */
  lemma {:induction false} MoveKeys(t: Table, from: nat, to: nat, k: nat)
    requires MoveTimes(t, from, to, k).Some?
    ensures MoveTimes(t, from, to, k).value.Keys == t.Keys
  {
    if k > 0 {
      MoveKeys(t, from, to, k - 1);
    }
  }

  /** The procedures carried out in order, or `None` at the first that panics. */
  function ApplyAll(t: Table, procedures: seq<Procedure>): Option<Table>
    decreases |procedures|
  {
    if procedures == [] then Some(t)
    else
      var next := Apply(t, procedures[0]);
      if next.None? then None else ApplyAll(next.value, procedures[1..])
  }

  /** Carrying out procedures neither adds nor removes a stack. */
  lemma {:induction false} ApplyAllKeys(t: Table, procedures: seq<Procedure>)
    requires ApplyAll(t, procedures).Some?
    ensures ApplyAll(t, procedures).value.Keys == t.Keys
    decreases |procedures|
  {
    if procedures != [] {
      var p := procedures[0];
      MoveKeys(t, p.from, p.to, p.qty);
      ApplyAllKeys(Apply(t, p).value, procedures[1..]);
    }
  }

  /** The procedures of the input, carried out one after another. */
  lemma {:induction false} ApplyAllAppend(t: Table, ps: seq<Procedure>, p: Procedure)
    ensures ApplyAll(t, ps + [p]) == if ApplyAll(t, ps).None? then None else Apply(ApplyAll(t, ps).value, p)
    decreases |ps|
  {
    if ps == [] {
      assert ([] + [p])[1..] == [];
    } else {
      assert (ps + [p])[0] == ps[0] && (ps + [p])[1..] == ps[1..] + [p];
      var next := Apply(t, ps[0]);
      if next.Some? {
        ApplyAllAppend(next.value, ps[1..], p);
      }
    }
  }

  /**
   * The output of `main`: the top crate of each stack `1..n`, in key order. A missing key or an
   * empty stack panics (`None`).
   */
  function TopsUpTo(t: Table, n: nat): (r: Option<string>)
    ensures r.Some? <==> forall k :: 1 <= k <= n ==> k in t && t[k] != []
    ensures r.Some? ==> |r.value| == n && forall k :: 1 <= k <= n ==> r.value[k - 1] == t[k][|t[k]| - 1]
  {
    if n == 0 then Some([])
    else
      var before := TopsUpTo(t, n - 1);
      if before.None? || n !in t || t[n] == [] then None else Some(before.value + [t[n][|t[n]| - 1]])
  }

  /** `(1..=table.len())` mapped to the last crate of each stack. */
  function Tops(t: Table): Option<string>
  {
    TopsUpTo(t, |t|)
  }

  /** The crane of `main`: the table it rearranges, by `pop` and `push`. */
  class Crane {
    var table: Table

    constructor (table: Table)
      ensures this.table == table
    {
      this.table := table;
    }

    /** One turn of the `qty` loop; `false` where the source panics. */
    method MoveCrate(from: nat, to: nat) returns (ok: bool)
      modifies this
      ensures ok == MoveOne(old(table), from, to).Some?
      ensures ok ==> table == MoveOne(old(table), from, to).value
    {
      if from !in table || table[from] == [] {
        return false;
      }
      var stack := table[from];
      var item := stack[|stack| - 1];
      table := table[from := stack[..|stack| - 1]];
      if to !in table {
        return false;
      }
      table := table[to := table[to] + [item]];
      return true;
    }

    /** `for _ in 0..procedure.qty`: the crates of one procedure, moved one at a time. */
    method Carry(p: Procedure) returns (ok: bool)
      modifies this
      ensures ok == Apply(old(table), p).Some?
      ensures ok ==> table == Apply(old(table), p).value
    {
      for i := 0 to p.qty
        invariant MoveTimes(old(table), p.from, p.to, i) == Some(table)
      {
        ok := MoveCrate(p.from, p.to);
        if !ok {
          NoneStaysNone(old(table), p.from, p.to, i + 1, p.qty);
          return;
        }
      }
      ok := true;
    }

    /** The `for_each` of `main`: the procedures carried out in order. */
    method CarryAll(procedures: seq<Procedure>) returns (ok: bool)
      modifies this
      ensures ok == ApplyAll(old(table), procedures).Some?
      ensures ok ==> table == ApplyAll(old(table), procedures).value
    {
      for i := 0 to |procedures|
        invariant ApplyAll(old(table), procedures[..i]) == Some(table)
      {
        ApplyAllAppend(old(table), procedures[..i], procedures[i]);
        assert procedures[..i + 1] == procedures[..i] + [procedures[i]];
        ok := Carry(procedures[i]);
        if !ok {
          ApplyAllNone(old(table), procedures[..i + 1], procedures[i + 1..]);
          assert procedures[..i + 1] + procedures[i + 1..] == procedures;
          return;
        }
      }
      assert procedures[..|procedures|] == procedures;
      ok := true;
    }
  }

  /** Once a turn of the loop panics, so does the whole loop. */
  lemma {:induction false} NoneStaysNone(t: Table, from: nat, to: nat, i: nat, n: nat)
    requires i <= n && MoveTimes(t, from, to, i).None?
    ensures MoveTimes(t, from, to, n).None?
    decreases n - i
  {
    if i < n {
      NoneStaysNone(t, from, to, i + 1, n);
    }
  }

  /** Once a procedure panics, so does the whole rearrangement. */
  lemma {:induction false} ApplyAllNone(t: Table, ps: seq<Procedure>, rest: seq<Procedure>)
    requires ApplyAll(t, ps).None?
    ensures ApplyAll(t, ps + rest).None?
    decreases |ps|
  {
    assert ps != [];
    assert (ps + rest)[0] == ps[0] && (ps + rest)[1..] == ps[1..] + rest;
    var next := Apply(t, ps[0]);
    if next.Some? {
      ApplyAllNone(next.value, ps[1..], rest);
    }
  }

  // ---------------------------------------------------------------------------------
  // Reading the drawing and the procedures

  /** The index of the first line that starts with ` 1`, the numbering line under the stacks. */
  function FindColumnLine(lines: seq<string>): (r: Option<nat>)
    ensures r.Some? ==> r.value < |lines| && |lines[r.value]| >= 2 && lines[r.value][..2] == " 1"
    ensures r.Some? ==> forall i :: 0 <= i < r.value ==> !(|lines[i]| >= 2 && lines[i][..2] == " 1")
    ensures r.None? ==> forall i :: 0 <= i < |lines| ==> !(|lines[i]| >= 2 && lines[i][..2] == " 1")
  {
    if lines == [] then None
    else if |lines[0]| >= 2 && lines[0][..2] == " 1" then Some(0)
    else
      var rest := FindColumnLine(lines[1..]);
      if rest.None? then None else Some(rest.value + 1)
  }

  /** The positions of the digits of `line` from `i` on, in increasing order. */
  function DigitColumnsFrom(line: string, i: nat): (columns: seq<nat>)
    requires i <= |line|
    ensures forall k :: 0 <= k < |columns| ==> i <= columns[k] < |line| && IsDigit(line[columns[k]])
    ensures forall k, l :: 0 <= k < l < |columns| ==> columns[k] < columns[l]
    ensures forall c :: i <= c < |line| && IsDigit(line[c]) ==> c in columns
    decreases |line| - i
  {
    if i == |line| then []
    else if IsDigit(line[i]) then [i] + DigitColumnsFrom(line, i + 1)
    else DigitColumnsFrom(line, i + 1)
  }

  /** The first part of `get_table`: the positions of the digits of the numbering line. */
  function DigitColumns(line: string): seq<nat>
  {
    DigitColumnsFrom(line, 0)
  }

  /**
   * The stack drawn in column `c` of `rows`, bottom to top: the letters in that column
   * from the last row up. A row too short to reach the column panics in `nth(column).unwrap()`.
   */
  function StackOf(rows: seq<string>, c: nat): (r: Option<seq<char>>)
    ensures r.Some? <==> forall i :: 0 <= i < |rows| ==> c < |rows[i]|
    ensures r.Some? ==> |r.value| <= |rows| && forall k :: 0 <= k < |r.value| ==> IsAsciiAlphabetic(r.value[k])
  {
    if rows == [] then Some([])
    else if |rows[0]| <= c then None
    else
      var below := StackOf(rows[1..], c);
      if below.None? then None
      else Some(below.value + if IsAsciiAlphabetic(rows[0][c]) then [rows[0][c]] else [])
  }

  /** The stacks of the given columns, keyed `1..` in column order, or `None` if one panics. */
  function StacksOf(rows: seq<string>, columns: seq<nat>): (r: Option<Table>)
    ensures r.Some? <==> forall k :: 0 <= k < |columns| ==> StackOf(rows, columns[k]).Some?
    ensures r.Some? ==> forall k :: k in r.value <==> 1 <= k <= |columns|
    ensures r.Some? ==> forall k :: 1 <= k <= |columns| ==> Some(r.value[k]) == StackOf(rows, columns[k - 1])
  {
    if columns == [] then Some(map[])
    else
      var n := |columns|;
      var before := StacksOf(rows, columns[..n - 1]);
      var last := StackOf(rows, columns[n - 1]);
      if before.None? || last.None? then None else Some(before.value[n := last.value])
  }

  /**
   * `get_table`: one stack per digit of the numbering line `lines[columnLine]`, read from
   * the lines above it in that digit's column.
   */
  function GetTable(columnLine: nat, lines: seq<string>): Option<Table>
    requires columnLine < |lines|
  {
    StacksOf(lines[..columnLine], DigitColumns(lines[columnLine]))
  }

  /** The `for_each` of `get_table`: each column's stack inserted under its key. */
  method BuildTable(columnLine: nat, lines: seq<string>) returns (table: Option<Table>)
    requires columnLine < |lines|
    ensures table == GetTable(columnLine, lines)
  {
    var columns := DigitColumns(lines[columnLine]);
    var rows := lines[..columnLine];
    var hashTable: Table := map[];
    for idx := 0 to |columns|
      invariant StacksOf(rows, columns[..idx]) == Some(hashTable)
    {
      var stack := StackOf(rows, columns[idx]);
      StacksOfStep(rows, columns, idx);
      if stack.None? {
        StacksOfNone(rows, columns, idx + 1);
        return None;
      }
      hashTable := hashTable[idx + 1 := stack.value];
    }
    assert columns[..|columns|] == columns;
    return Some(hashTable);
  }

  /** One more column of `get_table`. */
  lemma StacksOfStep(rows: seq<string>, columns: seq<nat>, idx: nat)
    requires idx < |columns|
    ensures var before, stack := StacksOf(rows, columns[..idx]), StackOf(rows, columns[idx]);
      StacksOf(rows, columns[..idx + 1])
        == if before.None? || stack.None? then None else Some(before.value[idx + 1 := stack.value])
  {
    assert columns[..idx + 1][..idx] == columns[..idx];
  }

  /** A column that panics makes the whole table panic. */
  lemma StacksOfNone(rows: seq<string>, columns: seq<nat>, n: nat)
    requires n <= |columns| && StacksOf(rows, columns[..n]).None?
    ensures StacksOf(rows, columns).None?
  {
    var k :| 0 <= k < n && StackOf(rows, columns[..n][k]).None?;
    assert columns[k] == columns[..n][k];
  }

  /** The numbers of a line that parse as `u32`, in order. */
  function Numbers(words: seq<string>): (ns: seq<nat>)
    ensures |ns| <= |words|
  {
    if words == [] then []
    else
      var n := ParseUnsigned(words[0], U32_MAX);
      (if n.Some? then [n.value] else []) + Numbers(words[1..])
  }

  /**
   * `Procedure::parse`: the first three words of the line that parse as `u32` are the
   * quantity, the source and the target; fewer than three is a panic.
   */
  function ParseProcedure(line: string): (r: Option<Procedure>)
    ensures r.Some? <==> |Numbers(SplitWhitespace(line))| >= 3
    ensures r.Some? ==> r.value.qty <= U32_MAX && r.value.from <= U32_MAX && r.value.to <= U32_MAX
  {
    var ns := Numbers(SplitWhitespace(line));
    NumbersBound(SplitWhitespace(line));
    if |ns| < 3 then None else Some(Procedure(ns[0], ns[1], ns[2]))
  }

  lemma {:induction false} NumbersBound(words: seq<string>)
    ensures forall k :: 0 <= k < |Numbers(words)| ==> Numbers(words)[k] <= U32_MAX
  {
    if words != [] {
      NumbersBound(words[1..]);
    }
  }

  /** The procedures of the lines below the drawing, skipping empty lines; `None` if one panics. */
  function ParseProcedures(lines: seq<string>): (r: Option<seq<Procedure>>)
    ensures r.Some? ==> |r.value| <= |lines|
  {
    if lines == [] then Some([])
    else
      var rest := ParseProcedures(lines[1..]);
      if lines[0] == [] then rest
      else
        var p := ParseProcedure(lines[0]);
        if p.None? || rest.None? then None else Some([p.value] + rest.value)
  }

  /**
   * The output of `main` for an input: the drawing read into stacks, every procedure
   * carried out, and the top crates in key order; `None` where it panics.
   */
  function Answer(input: string): Option<string>
  {
    var lines := Lines(input);
    var columnLine := FindColumnLine(lines);
    if columnLine.None? then None
    else
      var table := GetTable(columnLine.value, lines);
      var procedures := ParseProcedures(lines[columnLine.value + 1..]);
      if table.None? || procedures.None? then None
      else
        var final := ApplyAll(table.value, procedures.value);
        if final.None? then None else Tops(final.value)
  }

  /** `main`: the table is built, rearranged by the crane, and its top crates read off. */
  method Solve(input: string) returns (output: Option<string>)
    ensures output == Answer(input)
  {
    var lines := Lines(input);
    var columnLine := FindColumnLine(lines);
    if columnLine.None? {
      return None;
    }
    var table := BuildTable(columnLine.value, lines);
    var procedures := ParseProcedures(lines[columnLine.value + 1..]);
    if table.None? || procedures.None? {
      return None;
    }
    var crane := new Crane(table.value);
    var ok := crane.CarryAll(procedures.value);
    if !ok {
      return None;
    }
    output := Tops(crane.table);
  }

  // ---------------------------------------------------------------------------------
  // Writing the input

  /** Stacks that can be drawn: one to nine of them, every crate a letter. */
  predicate Drawable(stacks: seq<seq<char>>)
  {
    && 1 <= |stacks| <= 9
    && forall k, j :: 0 <= k < |stacks| && 0 <= j < |stacks[k]| ==> IsAsciiAlphabetic(stacks[k][j])
  }

  /** The keys `1..n`. */
  function Range(n: nat): (keys: set<nat>)
    ensures |keys| == n
    ensures forall k :: k in keys <==> 1 <= k <= n
  {
    if n == 0 then {} else Range(n - 1) + {n}
  }

  /** The stacks as the table `get_table` builds: stack `k` under key `k + 1`. */
  function TableOf(stacks: seq<seq<char>>): (t: Table)
    ensures t.Keys == Range(|stacks|) && |t| == |stacks|
    ensures forall k :: 1 <= k <= |stacks| ==> t[k] == stacks[k - 1]
  {
    map k | k in Range(|stacks|) :: stacks[k - 1]
  }

  /** The height of the tallest stack. */
  function Height(stacks: seq<seq<char>>): (h: nat)
    ensures forall k :: 0 <= k < |stacks| ==> |stacks[k]| <= h
  {
    if stacks == [] then 0 else Max(|stacks[0]|, Height(stacks[1..]))
  }

  /** Character `j` of the drawing's row for crates at `level`: `[X]` for a crate, spaces otherwise. */
  function CrateChar(stacks: seq<seq<char>>, level: nat, j: nat): char
    requires j / 4 < |stacks|
  {
    var k, m := j / 4, j % 4;
    if level >= |stacks[k]| || m == 3 then ' '
    else if m == 0 then '['
    else if m == 1 then stacks[k][level]
    else ']'
  }

  /** The row of the drawing for the crates at `level` (0 is the bottom). */
  function CrateRow(stacks: seq<seq<char>>, level: nat): (row: string)
    requires stacks != []
    ensures |row| == 4 * |stacks| - 1
  {
    seq(4 * |stacks| - 1, j requires 0 <= j < 4 * |stacks| - 1 => CrateChar(stacks, level, j))
  }

  /** The rows of crates, top row first. */
  function CrateRows(stacks: seq<seq<char>>): (rows: seq<string>)
    requires stacks != []
    ensures |rows| == Height(stacks)
  {
    var h := Height(stacks);
    seq(h, r requires 0 <= r < h => CrateRow(stacks, h - 1 - r))
  }

  /** The numbering line ` 1   2   3 ` under `n` stacks. */
  function NumberLine(n: nat): (line: string)
    requires 1 <= n <= 9
    ensures |line| == 4 * n - 1
  {
    seq(4 * n - 1, j requires 0 <= j < 4 * n - 1 => if j % 4 == 1 then DigitChar(j / 4 + 1) else ' ')
  }

  /** A procedure written as in the input. */
  function ProcedureText(p: Procedure): string
  {
    Join(ProcedureWords(p), " ")
  }

  function ProcedureTexts(procedures: seq<Procedure>): (lines: seq<string>)
    ensures |lines| == |procedures|
    ensures forall i :: 0 <= i < |procedures| ==> lines[i] == ProcedureText(procedures[i])
  {
    seq(|procedures|, i requires 0 <= i < |procedures| => ProcedureText(procedures[i]))
  }

  /** The input: the drawing, its numbering line, an empty line, and one procedure per line. */
  function InputText(stacks: seq<seq<char>>, procedures: seq<Procedure>): string
    requires Drawable(stacks)
  {
    Unlines(CrateRows(stacks) + [NumberLine(|stacks|), ""] + ProcedureTexts(procedures))
  }

  /** The positions `4k + 1` for `k` from `m` up to `n - 1`. */
  function NumberPositions(m: nat, n: nat): (ps: seq<nat>)
    requires m <= n
    ensures |ps| == n - m
    ensures forall k :: 0 <= k < n - m ==> ps[k] == 4 * (k + m) + 1
  {
    seq(n - m, k requires 0 <= k < n - m => 4 * (k + m) + 1)
  }

  lemma NumberPositionsCons(m: nat, n: nat)
    requires m < n
    ensures NumberPositions(m, n) == [4 * m + 1] + NumberPositions(m + 1, n)
  {
    var ps, qs := NumberPositions(m, n), NumberPositions(m + 1, n);
    forall k | 0 < k < n - m
      ensures ps[k] == qs[k - 1]
    {
      assert 4 * (k - 1 + m + 1) + 1 == 4 * (k + m) + 1;
    }
  }

  lemma ColumnsSkip(line: string, i: nat)
    requires i < |line| && !IsDigit(line[i])
    ensures DigitColumnsFrom(line, i) == DigitColumnsFrom(line, i + 1)
  {
  }

  lemma ColumnsTake(line: string, i: nat)
    requires i < |line| && IsDigit(line[i])
    ensures DigitColumnsFrom(line, i) == [i] + DigitColumnsFrom(line, i + 1)
  {
  }

  /** The four characters of a numbering line from `4m`: space, digit, space, and a space but after the last. */
  predicate NumberCell(line: string, n: nat, m: nat)
    requires |line| == 4 * n - 1 && m < n
  {
    !IsDigit(line[4 * m]) && IsDigit(line[4 * m + 1]) && !IsDigit(line[4 * m + 2])
    && (m + 1 < n ==> !IsDigit(line[4 * m + 3]))
  }

  /** The numbering line for `n` stacks holds the digit of stack `m + 1` at `4m + 1`, and spaces around it. */
  lemma NumberLineAt(n: nat, m: nat)
    requires 1 <= n <= 9 && m < n
    ensures NumberCell(NumberLine(n), n, m)
    ensures NumberLine(n)[4 * m + 1] == DigitChar(m + 1)
  {
    assert (4 * m) % 4 == 0 && (4 * m + 1) % 4 == 1 && (4 * m + 1) / 4 == m;
    assert (4 * m + 2) % 4 == 2 && (4 * m + 3) % 4 == 3;
  }

  /** A numbering cell holds one digit, at its second position. */
  lemma CellColumns(line: string, n: nat, m: nat)
    requires |line| == 4 * n - 1 && m < n && NumberCell(line, n, m)
    ensures DigitColumnsFrom(line, 4 * m) == [4 * m + 1] + DigitColumnsFrom(line, 4 * m + 3)
  {
    var i := 4 * m;
    ColumnsSkip(line, i);
    ColumnsTake(line, i + 1);
    ColumnsSkip(line, i + 2);
  }

  /** A numbering cell before the last ends in a space. */
  lemma CellNext(line: string, n: nat, m: nat)
    requires |line| == 4 * n - 1 && m + 1 < n && NumberCell(line, n, m)
    ensures DigitColumnsFrom(line, 4 * m + 3) == DigitColumnsFrom(line, 4 * (m + 1))
  {
    ColumnsSkip(line, 4 * m + 3);
  }

  /** A line of numbering cells has its digits at `4k + 1` from cell `m` on. */
  lemma {:induction false} NumberColumnsFrom(line: string, n: nat, m: nat)
    requires |line| == 4 * n - 1 && m < n
    requires forall k :: m <= k < n ==> NumberCell(line, n, k)
    ensures DigitColumnsFrom(line, 4 * m) == NumberPositions(m, n)
    decreases n - m
  {
    var i := 4 * m;
    assert NumberCell(line, n, m);
    CellColumns(line, n, m);
    if m + 1 < n {
      CellNext(line, n, m);
      NumberColumnsFrom(line, n, m + 1);
    } else {
      assert i + 3 == |line|;
    }
    NumberPositionsCons(m, n);
  }

  /** The numbering line has its numbers at positions `1, 5, 9, ...`, one per stack. */
  lemma NumberColumns(n: nat)
    requires 1 <= n <= 9
    ensures DigitColumns(NumberLine(n)) == NumberPositions(0, n)
  {
    forall k | 0 <= k < n
      ensures NumberCell(NumberLine(n), n, k)
    {
      NumberLineAt(n, k);
    }
    NumberColumnsFrom(NumberLine(n), n, 0);
  }

  /** What the drawing shows of stack `st` at `level`: its crate's letter, or a space above its top. */
  function LevelChar(st: seq<char>, level: nat): char
  {
    if level < |st| then st[level] else ' '
  }

  /** Column `c` of `rows` draws stack `st`, the top row showing the highest level. */
  predicate DrawnColumn(rows: seq<string>, c: nat, st: seq<char>)
  {
    && |st| <= |rows|
    && forall r :: 0 <= r < |rows| ==> c < |rows[r]| && rows[r][c] == LevelChar(st, |rows| - 1 - r)
  }

  /** The rows from `r` down hold the bottom `|rows| - r` levels of the drawn stack. */
  lemma {:induction false} StackOfDrawnFrom(rows: seq<string>, c: nat, st: seq<char>, r: nat)
    requires DrawnColumn(rows, c, st) && r <= |rows|
    requires forall j :: 0 <= j < |st| ==> IsAsciiAlphabetic(st[j])
    ensures StackOf(rows[r..], c) == Some(st[..Min(|st|, |rows| - r)])
    decreases |rows| - r
  {
    if r == |rows| {
      assert st[..0] == [];
    } else {
      StackOfDrawnFrom(rows, c, st, r + 1);
      var level := |rows| - 1 - r;
      assert rows[r..][0] == rows[r] && rows[r..][1..] == rows[r + 1..];
      assert rows[r][c] == LevelChar(st, level);
      if level < |st| {
        assert st[..level + 1] == st[..level] + [st[level]];
      } else {
        assert !IsAsciiAlphabetic(rows[r][c]);
        assert Min(|st|, |rows| - r) == Min(|st|, |rows| - (r + 1)) == |st|;
        var below := StackOf(rows[r + 1..], c).value;
        assert StackOf(rows[r..], c) == Some(below + []);
        assert below + [] == below;
      }
    }
  }

  /** A drawn column of letters reads back as its stack. */
  lemma StackOfDrawn(rows: seq<string>, c: nat, st: seq<char>)
    requires DrawnColumn(rows, c, st)
    requires forall j :: 0 <= j < |st| ==> IsAsciiAlphabetic(st[j])
    ensures StackOf(rows, c) == Some(st)
  {
    StackOfDrawnFrom(rows, c, st, 0);
    assert rows[0..] == rows;
    assert st[..|st|] == st;
  }

  /** The crate rows draw stack `k` in column `4k + 1`. */
  lemma CrateRowsColumn(stacks: seq<seq<char>>, k: nat)
    requires stacks != [] && k < |stacks|
    ensures DrawnColumn(CrateRows(stacks), 4 * k + 1, stacks[k])
  {
    var rows := CrateRows(stacks);
    var h := Height(stacks);
    forall r | 0 <= r < |rows|
      ensures 4 * k + 1 < |rows[r]| && rows[r][4 * k + 1] == LevelChar(stacks[k], |rows| - 1 - r)
    {
      CrateRowAt(stacks, h - 1 - r, k);
    }
  }

  lemma CrateRowAt(stacks: seq<seq<char>>, level: nat, k: nat)
    requires k < |stacks|
    ensures CrateRow(stacks, level)[4 * k + 1] == LevelChar(stacks[k], level)
  {
    assert (4 * k + 1) % 4 == 1 && (4 * k + 1) / 4 == k;
  }

  lemma StacksOfAt(rows: seq<string>, columns: seq<nat>, k: nat)
    requires StacksOf(rows, columns).Some? && 1 <= k <= |columns|
    ensures StackOf(rows, columns[k - 1]) == Some(StacksOf(rows, columns).value[k])
  {
  }

  /** Columns that each read back as one of `stacks` give the table of `stacks`. */
  lemma StacksOfAll(rows: seq<string>, columns: seq<nat>, stacks: seq<seq<char>>)
    requires |columns| == |stacks|
    requires forall k :: 0 <= k < |columns| ==> StackOf(rows, columns[k]) == Some(stacks[k])
    ensures StacksOf(rows, columns) == Some(TableOf(stacks))
  {
    var r := StacksOf(rows, columns);
    assert r.Some?;
    var t, u := r.value, TableOf(stacks);
    forall k
      ensures k in t <==> k in u
    {
    }
    forall k | k in t
      ensures t[k] == u[k]
    {
      assert 1 <= k <= |columns|;
      StacksOfAt(rows, columns, k);
    }
    assert t == u;
  }

  /** The drawing of letter stacks under their numbering line reads back as their table. */
  lemma TableRoundTrip(stacks: seq<seq<char>>, lines: seq<string>)
    requires Drawable(stacks)
    requires |lines| > Height(stacks) && lines[..Height(stacks)] == CrateRows(stacks)
    requires lines[Height(stacks)] == NumberLine(|stacks|)
    ensures GetTable(Height(stacks), lines) == Some(TableOf(stacks))
  {
    var n, rows := |stacks|, CrateRows(stacks);
    var columns := NumberPositions(0, n);
    NumberColumns(n);
    forall k | 0 <= k < n
      ensures StackOf(rows, columns[k]) == Some(stacks[k])
    {
      CrateRowsColumn(stacks, k);
      StackOfDrawn(rows, 4 * k + 1, stacks[k]);
    }
    StacksOfAll(rows, columns, stacks);
  }

  /** The six words of a written procedure. */
  function ProcedureWords(p: Procedure): seq<string>
  {
    ["move", Decimal(p.qty), "from", Decimal(p.from), "to", Decimal(p.to)]
  }

  /** A procedure with `u32` numbers, written as in the input, parses back to itself. */
  lemma ProcedureRoundTrip(p: Procedure)
    requires Fits32(p)
    ensures ParseProcedure(ProcedureText(p)) == Some(p)
  {
    var words := ProcedureWords(p);
    assert SplitWhitespace(ProcedureText(p)) == words by {
      DecimalIsWord(p.qty);
      DecimalIsWord(p.from);
      DecimalIsWord(p.to);
      SplitWhitespaceJoin(words);
    }
    ProcedureNumbers(p);
  }

  /** One step of `Numbers`. */
  lemma NumbersCons(w: string, rest: seq<string>)
    ensures var n := ParseUnsigned(w, U32_MAX);
      Numbers([w] + rest) == (if n.Some? then [n.value] else []) + Numbers(rest)
  {
    assert ([w] + rest)[0] == w && ([w] + rest)[1..] == rest;
  }

  /** The numbers of a written procedure are its quantity, source and target. */
  lemma ProcedureNumbers(p: Procedure)
    requires Fits32(p)
    ensures Numbers(ProcedureWords(p)) == [p.qty, p.from, p.to]
  {
    ParseDecimal(p.qty, U32_MAX);
    ParseDecimal(p.from, U32_MAX);
    ParseDecimal(p.to, U32_MAX);
    assert !IsDigit('m') && !IsDigit('f') && !IsDigit('t');
    var w5: seq<string> := [Decimal(p.to)];
    NumbersCons(Decimal(p.to), []);
    var w4 := ["to"] + w5;
    NumbersCons("to", w5);
    var w3 := [Decimal(p.from)] + w4;
    NumbersCons(Decimal(p.from), w4);
    var w2 := ["from"] + w3;
    NumbersCons("from", w3);
    var w1 := [Decimal(p.qty)] + w2;
    NumbersCons(Decimal(p.qty), w2);
    NumbersCons("move", w1);
    assert ProcedureWords(p) == ["move"] + w1;
  }

  /** Written procedures, one per line, parse back to themselves. */
  lemma {:induction false} ProceduresRoundTrip(procedures: seq<Procedure>)
    requires forall i :: 0 <= i < |procedures| ==> Fits32(procedures[i])
    ensures ParseProcedures(ProcedureTexts(procedures)) == Some(procedures)
  {
    if procedures != [] {
      var lines := ProcedureTexts(procedures);
      ProcedureRoundTrip(procedures[0]);
      assert lines[0] != [] by {
        assert ParseProcedure(lines[0]).Some?;
      }
      assert lines[1..] == ProcedureTexts(procedures[1..]);
      ProceduresRoundTrip(procedures[1..]);
      assert [procedures[0]] + procedures[1..] == procedures;
    }
  }

  /** A procedure whose numbers are `u32` values. */
  predicate Fits32(p: Procedure)
  {
    p.qty <= U32_MAX && p.from <= U32_MAX && p.to <= U32_MAX
  }

  /** A written procedure is one non-empty line ending in a digit. */
  lemma ProcedureTextChars(p: Procedure)
    ensures var text := ProcedureText(p);
      '\n' !in text && |text| > 0 && IsDigit(text[|text| - 1])
  {
    var words := ProcedureWords(p);
    assert forall k :: 0 <= k < |words| ==> '\n' !in words[k] by {
      DecimalFree(p.qty, '\n');
      DecimalFree(p.from, '\n');
      DecimalFree(p.to, '\n');
    }
    JoinFree(words, " ", '\n');
    JoinEnds(words, " ");
  }

  /** A row of the drawing is one line whose last character is `]` or a space. */
  lemma CrateRowChars(stacks: seq<seq<char>>, level: nat)
    requires Drawable(stacks)
    ensures var row := CrateRow(stacks, level);
      '\n' !in row && row[|row| - 1] in {' ', ']'}
  {
    var row := CrateRow(stacks, level);
    forall j | 0 <= j < |row|
      ensures row[j] != '\n'
    {
      var k := j / 4;
      assert k < |stacks|;
      assert level < |stacks[k]| ==> IsAsciiAlphabetic(stacks[k][level]);
    }
    var last := |row| - 1;
    assert last % 4 == 2;
  }

  /** The numbering line is one line whose last character is a space. */
  lemma NumberLineChars(n: nat)
    requires 1 <= n <= 9
    ensures var line := NumberLine(n);
      '\n' !in line && line[|line| - 1] == ' '
  {
    var line := NumberLine(n);
    assert (|line| - 1) % 4 == 2;
  }

  /** The lines of the written input are the rows it was written from. */
  lemma InputLines(stacks: seq<seq<char>>, procedures: seq<Procedure>)
    requires Drawable(stacks)
    ensures Lines(InputText(stacks, procedures))
      == CrateRows(stacks) + [NumberLine(|stacks|), ""] + ProcedureTexts(procedures)
  {
    var crates, h := CrateRows(stacks), Height(stacks);
    var rows := crates + [NumberLine(|stacks|), ""] + ProcedureTexts(procedures);
    forall i | 0 <= i < |rows|
      ensures '\n' !in rows[i] && (|rows[i]| == 0 || rows[i][|rows[i]| - 1] != '\r')
    {
      if i < h {
        CrateRowChars(stacks, h - 1 - i);
      } else if i == h {
        NumberLineChars(|stacks|);
      } else if i > h + 1 {
        ProcedureTextChars(procedures[i - h - 2]);
      }
    }
    LinesUnlines(rows);
  }

  /** No crate row starts like the numbering line: its second character is a letter or a space. */
  lemma CrateRowsNotNumbers(stacks: seq<seq<char>>, i: nat)
    requires Drawable(stacks) && i < Height(stacks)
    ensures var row := CrateRows(stacks)[i];
      !(|row| >= 2 && row[..2] == " 1")
  {
    var level := Height(stacks) - 1 - i;
    CrateRowAt(stacks, level, 0);
    assert level < |stacks[0]| ==> IsAsciiAlphabetic(stacks[0][level]);
  }

  /** The first line starting like the numbering line is found. */
  lemma FindFirst(lines: seq<string>, h: nat)
    requires h < |lines| && |lines[h]| >= 2 && lines[h][..2] == " 1"
    requires forall i :: 0 <= i < h ==> !(|lines[i]| >= 2 && lines[i][..2] == " 1")
    ensures FindColumnLine(lines) == Some(h)
  {
  }

  /** The parts of `a + [x, y] + b`. */
  lemma Around<T>(a: seq<T>, x: T, y: T, b: seq<T>)
    ensures var s := a + [x, y] + b;
      s[..|a|] == a && s[|a|] == x && s[|a| + 1..] == [y] + b
  {
    var s := a + [x, y] + b;
    assert s[|a| + 1..] == [y] + b by {
      assert forall i :: 0 <= i < |b| + 1 ==> s[|a| + 1..][i] == ([y] + b)[i];
    }
  }

  /** The answer once the input's table and procedures are known. */
  lemma AnswerOf(input: string, h: nat, table: Table, procedures: seq<Procedure>)
    requires FindColumnLine(Lines(input)) == Some(h)
    requires GetTable(h, Lines(input)) == Some(table)
    requires ParseProcedures(Lines(input)[h + 1..]) == Some(procedures)
    ensures var final := ApplyAll(table, procedures);
      Answer(input) == if final.None? then None else Tops(final.value)
  {
  }

  /** The written input's lines: the numbering line is found below the drawing, and so on. */
  lemma InputParts(stacks: seq<seq<char>>, procedures: seq<Procedure>, lines: seq<string>)
    requires Drawable(stacks)
    requires forall i :: 0 <= i < |procedures| ==> Fits32(procedures[i])
    requires lines == CrateRows(stacks) + [NumberLine(|stacks|), ""] + ProcedureTexts(procedures)
    ensures FindColumnLine(lines) == Some(Height(stacks))
    ensures GetTable(Height(stacks), lines) == Some(TableOf(stacks))
    ensures ParseProcedures(lines[Height(stacks) + 1..]) == Some(procedures)
  {
    var h, numbers := Height(stacks), NumberLine(|stacks|);
    Around(CrateRows(stacks), numbers, "", ProcedureTexts(procedures));
    assert FindColumnLine(lines) == Some(h) by {
      assert |numbers| >= 2 && numbers[..2] == " 1" by {
        assert numbers[0] == ' ' && numbers[1] == DigitChar(1);
      }
      forall i | 0 <= i < h
        ensures !(|lines[i]| >= 2 && lines[i][..2] == " 1")
      {
        CrateRowsNotNumbers(stacks, i);
      }
      FindFirst(lines, h);
    }
    assert GetTable(h, lines) == Some(TableOf(stacks)) by {
      TableRoundTrip(stacks, lines);
    }
    var rest := lines[h + 1..];
    assert ParseProcedures(rest) == Some(procedures) by {
      assert rest[0] == [] && rest[1..] == ProcedureTexts(procedures);
      ProceduresRoundTrip(procedures);
    }
  }

  /**
   * The whole puzzle on a written input: the drawing reads back as its table, the procedures
   * as themselves, and the answer is the tops of the table the crane leaves.
   */
  lemma InputRoundTrip(stacks: seq<seq<char>>, procedures: seq<Procedure>)
    requires Drawable(stacks)
    requires forall i :: 0 <= i < |procedures| ==> Fits32(procedures[i])
    ensures var final := ApplyAll(TableOf(stacks), procedures);
      Answer(InputText(stacks, procedures)) == if final.None? then None else Tops(final.value)
  {
    var input, h := InputText(stacks, procedures), Height(stacks);
    var lines := Lines(input);
    assert lines == CrateRows(stacks) + [NumberLine(|stacks|), ""] + ProcedureTexts(procedures) by {
      InputLines(stacks, procedures);
    }
    assert && FindColumnLine(lines) == Some(h)
           && GetTable(h, lines) == Some(TableOf(stacks))
           && ParseProcedures(lines[h + 1..]) == Some(procedures) by {
      InputParts(stacks, procedures, lines);
    }
    AnswerOf(input, h, TableOf(stacks), procedures);
  }
}
