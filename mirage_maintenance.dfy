/**
 * 2023 day 9, "Mirage Maintenance": each line of the report is a history of readings.
 * Its next value is found by taking differences between neighbours, row after row, until
 * a row is all zeros, and then adding up the last reading of every row. The answer is
 * the sum of the next values of all histories.
 */
module MirageMaintenance {
  import opened Common
  import opened Text

  /** The differences between neighbouring readings, as `tuple_windows` pairs them up. */
  function Differences(s: seq<int>): (d: seq<int>)
    ensures |s| >= 1 ==> |d| == |s| - 1
    ensures |s| == 0 ==> d == []
  {
    if |s| == 0 then [] else seq(|s| - 1, i requires 0 <= i < |s| - 1 => s[i + 1] - s[i])
  }

  /** `all(|v| *v == 0)`: true of the empty row as well. */
  predicate AllZero(s: seq<int>)
  {
    forall i :: 0 <= i < |s| ==> s[i] == 0
  }

  /**
   * The rows `find_next` builds: the history, then the differences of the previous row,
   * up to and including the first row that is all zeros.
   */
  function Table(s: seq<int>): (rows: seq<seq<int>>)
    ensures |rows| >= 1 && rows[0] == s && AllZero(rows[|rows| - 1])
    decreases |s|
  {
    if AllZero(s) then [s] else [s] + Table(Differences(s))
  }

  /** Every row but the last is not all zeros, and the row after it holds its differences. */
  lemma {:induction false} TableRow(s: seq<int>, k: nat)
    requires k < |Table(s)| - 1
    ensures !AllZero(Table(s)[k]) && Table(s)[k + 1] == Differences(Table(s)[k])
    decreases |s|
  {
    if k > 0 {
      TableRow(Differences(s), k - 1);
    }
  }

  /** A row that is not all zeros is followed by its differences. */
  lemma TableGrow(s: seq<int>, n: nat)
    requires 1 <= n <= |Table(s)| && !AllZero(Table(s)[n - 1])
    ensures n < |Table(s)| && Table(s)[..n + 1] == Table(s)[..n] + [Differences(Table(s)[n - 1])]
  {
    var rows := Table(s);
    assert n < |rows| by {
      assert AllZero(rows[|rows| - 1]);
    }
    TableRow(s, n - 1);
    TakeOneMore(rows, n);
  }

  lemma TakeOneMore(rows: seq<seq<int>>, n: nat)
    requires n < |rows|
    ensures rows[..n + 1] == rows[..n] + [rows[n]]
  {
  }

  /** The table ends at its first all-zero row. */
  lemma TableEnd(s: seq<int>, n: nat)
    requires 1 <= n <= |Table(s)| && AllZero(Table(s)[n - 1])
    ensures Table(s)[..n] == Table(s)
  {
    if n < |Table(s)| {
      TableRow(s, n - 1);
    }
  }

  /** The last reading of every row added up; `None` when a row is empty, where `unwrap` panics. */
  function LastSum(rows: seq<seq<int>>): (r: Option<int>)
    ensures r.Some? <==> forall k :: 0 <= k < |rows| ==> rows[k] != []
  {
    if rows == [] then Some(0)
    else
      var rest := LastSum(rows[..|rows| - 1]);
      var last := rows[|rows| - 1];
      if rest.None? || last == [] then None else Some(rest.value + last[|last| - 1])
  }

  /** `Sequence::find_next` as a value. */
  function FindNext(s: seq<int>): Option<int>
  {
    LastSum(Table(s))
  }

  /** Every row of the table is one reading shorter than the one above it. */
  lemma TableShrinks(s: seq<int>)
    ensures var rows := Table(s);
      forall k :: 0 <= k < |rows| ==> |rows[k]| == |s| - k
  {
    var rows := Table(s);
    forall k | 0 <= k < |rows|
      ensures |rows[k]| == |s| - k
    {
      RowLength(s, k);
    }
  }

  lemma {:induction false} RowLength(s: seq<int>, k: nat)
    requires k < |Table(s)|
    ensures |Table(s)[k]| == |s| - k
  {
    if k > 0 {
      var rows := Table(s);
      RowLength(s, k - 1);
      TableRow(s, k - 1);
      var prev := rows[k - 1];
      assert prev != [] by {
        assert !AllZero(prev);
      }
      assert rows[k] == Differences(prev);
    }
  }

  /**
   * `find_next` panics exactly when the table ends in an empty row, that is when no row
   * before it is all zeros; otherwise the next value is the sum of the last readings.
   */
  lemma FindNextPanics(s: seq<int>)
    ensures var rows := Table(s);
      FindNext(s).None? <==> rows[|rows| - 1] == []
  {
    var rows := Table(s);
    forall k | 0 <= k < |rows| - 1
      ensures rows[k] != []
    {
      TableRow(s, k);
    }
  }

  /** The sum of the last readings of a table whose first row is `s`, split into `s`'s and the rest. */
  lemma {:induction false} LastSumFront(rows: seq<seq<int>>)
    requires |rows| >= 1
    ensures LastSum(rows).Some? ==>
      && rows[0] != [] && LastSum(rows[1..]).Some?
      && LastSum(rows).value == rows[0][|rows[0]| - 1] + LastSum(rows[1..]).value
  {
    if |rows| > 1 {
      var init := rows[..|rows| - 1];
      LastSumFront(init);
      assert init[1..] == rows[1..][..|rows| - 2];
    }
  }

  /**
   * The next value continues the history: appending it to the readings appends the next
   * value of the differences to the differences, so every row of the table grows by one
   * reading that keeps its differences. On an all-zero history the next value is zero.
   */
  lemma NextExtends(s: seq<int>)
    requires FindNext(s).Some?
    ensures AllZero(s) ==> FindNext(s).value == 0
    ensures !AllZero(s) ==>
      && FindNext(Differences(s)).Some?
      && var w := FindNext(Differences(s)).value;
        var v := FindNext(s).value;
        v == s[|s| - 1] + w && Differences(s + [v]) == Differences(s) + [w]
  {
    var rows := Table(s);
    LastSumFront(rows);
    if AllZero(s) {
      assert rows == [s];
      LastSumSingle(s);
    } else {
      var t := Table(Differences(s));
      assert rows == [s] + t;
      assert rows[1..] == t;
      assert FindNext(Differences(s)) == LastSum(t);
      DifferencesAppend(s, FindNext(s).value);
    }
  }

  /** Appending a reading appends its difference from the last one. */
  lemma DifferencesAppend(s: seq<int>, v: int)
    requires |s| >= 1
    ensures Differences(s + [v]) == Differences(s) + [v - s[|s| - 1]]
  {
    var e := Differences(s + [v]);
    forall i | 0 <= i < |e|
      ensures e[i] == (Differences(s) + [v - s[|s| - 1]])[i]
    {
      assert e[i] == (s + [v])[i + 1] - (s + [v])[i];
    }
  }

  /** The differences of a run with the common difference `d` are all `d`. */
  /** A constant history of at least two readings goes on with the same reading. */
  lemma ConstantNext(c: seq<int>, d: int)
    requires |c| >= 2 && forall i :: 0 <= i < |c| ==> c[i] == d
    ensures FindNext(c).Some? && FindNext(c).value == d
  {
    if d == 0 {
      ZeroNext(c);
    } else {
      var z := Differences(c);
      assert AllZero(z) by {
        forall i | 0 <= i < |z|
          ensures z[i] == 0
        {
          assert z[i] == c[i + 1] - c[i];
        }
      }
      ZeroNext(z);
      assert c[0] == d;
      FromDifferences(c, d);
    }
  }

  /** A history of zeros goes on with zero. */
  lemma ZeroNext(s: seq<int>)
    requires |s| >= 1 && AllZero(s)
    ensures FindNext(s).Some? && FindNext(s).value == 0
  {
    assert Table(s) == [s];
    LastSumSingle(s);
  }

  /**
   * A history of at least three readings whose neighbours all differ by `d` goes on
   * with its last reading plus `d`.
   */
  lemma ArithmeticNext(s: seq<int>, d: int)
    requires |s| >= 3 && forall i :: 0 <= i < |s| - 1 ==> s[i + 1] - s[i] == d
    ensures FindNext(s).Some? && FindNext(s).value == s[|s| - 1] + d
  {
    if AllZero(s) {
      assert d == s[1] - s[0] == 0;
      ZeroNext(s);
    } else {
      ConstantNext(Differences(s), d);
      FromDifferences(s, s[|s| - 1] + d);
    }
  }

  /**
   * `find_next`: rows are pushed onto `sequences` until the last one is all zeros, and the
   * fold then adds up their last readings; an empty row is a panic, here `None`.
   */
  method FindNextLoop(s: seq<int>) returns (r: Option<int>)
    ensures r == FindNext(s)
  {
    var sequences := [s];
    while !AllZero(sequences[|sequences| - 1])
      invariant 1 <= |sequences| <= |Table(s)| && sequences == Table(s)[..|sequences|]
      decreases |sequences[|sequences| - 1]|
    {
      TableGrow(s, |sequences|);
      sequences := sequences + [Differences(sequences[|sequences| - 1])];
    }
    TableEnd(s, |sequences|);
    r := LastSum(sequences);
  }

  /** `Sequence::from_str`: whitespace-separated `i64` readings; one that does not parse panics. */
  function ParseSequence(line: string): Option<seq<int>>
  {
    ParseWords(SplitWhitespace(line))
  }

  /** Each word parsed as an `i64`: all of them when every word parses, and `None` otherwise. */
  function ParseWords(words: seq<string>): (r: Option<seq<int>>)
    ensures r.Some? ==> |r.value| == |words|
    ensures r.Some? ==> forall i :: 0 <= i < |words| ==> ParseSigned(words[i], I64_MIN, I64_MAX) == Some(r.value[i])
    ensures r.None? <==> exists i :: 0 <= i < |words| && ParseSigned(words[i], I64_MIN, I64_MAX).None?
  {
    if words == [] then Some([])
    else
      var head := ParseSigned(words[0], I64_MIN, I64_MAX);
      var tail := ParseWords(words[1..]);
      if head.None? then None
      else if tail.None? then
        ghost var i :| 0 <= i < |words[1..]| && ParseSigned(words[1..][i], I64_MIN, I64_MAX).None?;
        assert ParseSigned(words[i + 1], I64_MIN, I64_MAX).None?;
        None
      else Some([head.value] + tail.value)
  }

  /** The answer of `main`: the next values of all lines added up; a panic on any line is `None`. */
  function SumNext(lines: seq<string>): (r: Option<int>)
  {
    if lines == [] then Some(0)
    else
      var s := ParseSequence(lines[0]);
      if s.None? then None
      else
        var v := FindNext(s.value);
        var rest := SumNext(lines[1..]);
        if v.None? || rest.None? then None else Some(v.value + rest.value)
  }

  function PartOne(text: string): Option<int>
  {
    SumNext(Lines(text))
  }

  /** A reading as `Display` writes an `i64`: a minus sign, then the digits of its size. */
  function SignedDecimal(n: int): (w: string)
    ensures IsWord(w)
  {
    DecimalIsWord(if n < 0 then -n else n);
    if n < 0 then "-" + Decimal(-n) else Decimal(n)
  }

  /** Every reading fits an `i64`. */
  predicate FitsI64(s: seq<int>)
  {
    forall i :: 0 <= i < |s| ==> I64_MIN <= s[i] <= I64_MAX
  }

  /** A history written as one line of the report: its readings separated by single spaces. */
  function HistoryText(s: seq<int>): string
  {
    Join(seq(|s|, i requires 0 <= i < |s| => SignedDecimal(s[i])), " ")
  }

  lemma ParseSignedDecimal(n: int)
    requires I64_MIN <= n <= I64_MAX
    ensures ParseSigned(SignedDecimal(n), I64_MIN, I64_MAX) == Some(n)
  {
    if n < 0 {
      ParseSignedNegative(-n);
      assert "-" + Decimal(-n) == ['-'] + Decimal(-n);
    } else {
      DecimalValue(n);
      assert IsDigit(Decimal(n)[0]);
    }
  }

  /** `from_str` reads a written history back, for readings that fit an `i64`. */
  lemma ParseHistoryText(s: seq<int>)
    requires FitsI64(s)
    ensures ParseSequence(HistoryText(s)).Some? && ParseSequence(HistoryText(s)).value == s
  {
    var words := seq(|s|, i requires 0 <= i < |s| => SignedDecimal(s[i]));
    SplitWhitespaceJoin(words);
    var r := ParseWords(words);
    forall i | 0 <= i < |s|
      ensures ParseSigned(words[i], I64_MIN, I64_MAX) == Some(s[i])
    {
      ParseSignedDecimal(s[i]);
    }
    assert r.Some?;
    assert r.value == s;
  }

  /** The first history of the example report goes on with 18. */
  lemma ExampleFirst()
    ensures FindNext([0, 3, 6, 9, 12, 15]).Some? && FindNext([0, 3, 6, 9, 12, 15]).value == 18
  {
    ArithmeticNext([0, 3, 6, 9, 12, 15], 3);
  }

  /** The second history of the example report goes on with 28. */
  lemma ExampleSecond()
    ensures FindNext([1, 3, 6, 10, 15, 21]).Some? && FindNext([1, 3, 6, 10, 15, 21]).value == 28
  {
    var a := [1, 3, 6, 10, 15, 21];
    assert Differences(a) == [2, 3, 4, 5, 6];
    ArithmeticNext([2, 3, 4, 5, 6], 1);
    assert a[0] != 0;
    FromDifferences(a, 28);
  }

  /** The third history of the example report goes on with 68. */
  lemma ExampleThird()
    ensures FindNext([10, 13, 16, 21, 30, 45]).Some? && FindNext([10, 13, 16, 21, 30, 45]).value == 68
  {
    var b := [10, 13, 16, 21, 30, 45];
    var c := [3, 3, 5, 9, 15];
    assert Differences(b) == c;
    assert Differences(c) == [0, 2, 4, 6];
    ArithmeticNext([0, 2, 4, 6], 2);
    assert c[0] != 0;
    FromDifferences(c, 23);
    assert b[0] != 0;
    FromDifferences(b, 68);
  }

  /** A line whose history goes on with `v` adds `v` to the rest of the report's sum. */
  lemma SumNextFront(lines: seq<string>, h: seq<int>, v: int, rest: int)
    requires |lines| >= 1 && ParseSequence(lines[0]).Some? && ParseSequence(lines[0]).value == h
    requires FindNext(h).Some? && FindNext(h).value == v
    requires SumNext(lines[1..]).Some? && SumNext(lines[1..]).value == rest
    ensures SumNext(lines).Some? && SumNext(lines).value == v + rest
  {
  }

  /** A report of three lines sums the three next values. */
  lemma SumNextThree(l0: string, l1: string, l2: string, h0: seq<int>, h1: seq<int>, h2: seq<int>, v0: int, v1: int, v2: int)
    requires ParseSequence(l0).Some? && ParseSequence(l0).value == h0
    requires FindNext(h0).Some? && FindNext(h0).value == v0
    requires ParseSequence(l1).Some? && ParseSequence(l1).value == h1
    requires FindNext(h1).Some? && FindNext(h1).value == v1
    requires ParseSequence(l2).Some? && ParseSequence(l2).value == h2
    requires FindNext(h2).Some? && FindNext(h2).value == v2
    ensures SumNext([l0, l1, l2]).Some? && SumNext([l0, l1, l2]).value == v0 + v1 + v2
  {
    var lines := [l0, l1, l2];
    assert lines[3..] == [];
    SumNextFront(lines[2..], h2, v2, 0);
    SumNextFront(lines[1..], h1, v1, v2);
    SumNextFront(lines, h0, v0, v1 + v2);
  }

  /** Three histories written as a report sum their three next values. */
  lemma ReportOfThree(h0: seq<int>, h1: seq<int>, h2: seq<int>, v0: int, v1: int, v2: int)
    requires FitsI64(h0) && FitsI64(h1) && FitsI64(h2)
    requires FindNext(h0).Some? && FindNext(h0).value == v0
    requires FindNext(h1).Some? && FindNext(h1).value == v1
    requires FindNext(h2).Some? && FindNext(h2).value == v2
    ensures var report := [HistoryText(h0), HistoryText(h1), HistoryText(h2)];
      SumNext(report).Some? && SumNext(report).value == v0 + v1 + v2
  {
    ParseHistoryText(h0);
    ParseHistoryText(h1);
    ParseHistoryText(h2);
    SumNextThree(HistoryText(h0), HistoryText(h1), HistoryText(h2), h0, h1, h2, v0, v1, v2);
  }

  lemma ExampleFits()
    ensures FitsI64([0, 3, 6, 9, 12, 15]) && FitsI64([1, 3, 6, 10, 15, 21]) && FitsI64([10, 13, 16, 21, 30, 45])
  {
  }

  /** The example report's three lines, as the `parse` test expects them, and their sum 114. */
  lemma ExampleReport()
    ensures var report := [HistoryText([0, 3, 6, 9, 12, 15]), HistoryText([1, 3, 6, 10, 15, 21]),
      HistoryText([10, 13, 16, 21, 30, 45])];
      SumNext(report).Some? && SumNext(report).value == 114
  {
    ExampleFits();
    ExampleFirst();
    ExampleSecond();
    ExampleThird();
    ReportOfThree([0, 3, 6, 9, 12, 15], [1, 3, 6, 10, 15, 21], [10, 13, 16, 21, 30, 45], 18, 28, 68);
  }

  lemma LastSumSingle(s: seq<int>)
    requires s != []
    ensures LastSum([s]).Some? && LastSum([s]).value == s[|s| - 1]
  {
    var rows := [s];
    assert rows[..0] == [];
  }

  /** A history that is not all zeros continues with its last reading plus the next difference. */
  lemma FromDifferences(s: seq<int>, v: int)
    requires |s| >= 1 && !AllZero(s) && FindNext(Differences(s)).Some?
    requires v == s[|s| - 1] + FindNext(Differences(s)).value
    ensures FindNext(s).Some? && FindNext(s).value == v
  {
    var t := Table(Differences(s));
    assert Table(s) == [s] + t;
    LastSumBack(s, t);
  }

  lemma {:induction false} LastSumBack(s: seq<int>, rows: seq<seq<int>>)
    requires |s| >= 1 && LastSum(rows).Some?
    ensures LastSum([s] + rows).Some? && LastSum([s] + rows).value == s[|s| - 1] + LastSum(rows).value
  {
    if rows == [] {
      assert [s] + rows == [s];
      assert |[s][..0]| == 0;
    } else {
      var init := rows[..|rows| - 1];
      LastSumBack(s, init);
      assert ([s] + rows)[..|rows|] == [s] + init;
    }
  }
}
