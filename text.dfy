/**
 * The pieces of Rust's `str` API that the puzzle code leans on, specified on `seq<char>`:
 * `split`, `split_terminator`, `lines`, `split_whitespace`, `trim`, and `parse` into
 * the unsigned and signed integer types. Characters are compared by code point; only
 * ASCII whitespace and ASCII digits are recognised.
 */
module Text {
  import opened Common

  predicate IsDigit(c: char)
  {
    '0' <= c <= '9'
  }

  predicate AllDigits(s: string)
  {
    forall i :: 0 <= i < |s| ==> IsDigit(s[i])
  }

  /** The ASCII characters that Rust's `char::is_whitespace` accepts. */
  predicate IsWhitespace(c: char)
  {
    c == ' ' || c == '\t' || c == '\n' || c == '\r' || c as int == 0x0B || c as int == 0x0C
  }

  predicate IsAsciiAlphabetic(c: char)
  {
    ('a' <= c <= 'z') || ('A' <= c <= 'Z')
  }

  function DigitValue(c: char): (d: nat)
    requires IsDigit(c)
    ensures d < 10
    ensures DigitChar(d) == c
  {
    (c as int) - ('0' as int)
  }

  function DigitChar(d: nat): (c: char)
    requires d < 10
    ensures IsDigit(c)
  {
    (('0' as int) + d) as char
  }

  /** Value of a string of decimal digits, most significant first. */
  function DigitsValue(s: string): nat
    requires AllDigits(s)
  {
    if s == [] then 0 else DigitsValue(s[..|s| - 1]) * 10 + DigitValue(s[|s| - 1])
  }

  /** `10` to the power `e`. */
  function Pow10(e: nat): (p: nat)
    ensures p >= 1
  {
    if e == 0 then 1 else 10 * Pow10(e - 1)
  }

  lemma ShiftArith(v: nat, p: nat, w: nat, d: nat)
    ensures (v * p + w) * 10 + d == v * (10 * p) + (w * 10 + d)
  {
  }

  /** The digits of `t` written after those of `s` shift the value of `s` by `|t|` places. */
  lemma {:induction false} DigitsValueAppend(s: string, t: string)
    requires AllDigits(s) && AllDigits(t)
    ensures AllDigits(s + t) && DigitsValue(s + t) == DigitsValue(s) * Pow10(|t|) + DigitsValue(t)
  {
    assert AllDigits(s + t) by {
      assert forall i :: 0 <= i < |s + t| ==> (s + t)[i] == if i < |s| then s[i] else t[i - |s|];
    }
    if t == [] {
      assert s + t == s;
    } else {
      var front, c := t[..|t| - 1], t[|t| - 1];
      assert (s + t)[..|s + t| - 1] == s + front;
      assert (s + t)[|s + t| - 1] == c;
      DigitsValueAppend(s, front);
      assert DigitsValue(s + t) == DigitsValue(s + front) * 10 + DigitValue(c);
      assert DigitsValue(t) == DigitsValue(front) * 10 + DigitValue(c);
      ShiftArith(DigitsValue(s), Pow10(|front|), DigitsValue(front), DigitValue(c));
    }
  }

  /** The shortest decimal rendering of `n` (no sign, no leading zero). */
  function Decimal(n: nat): (s: string)
    ensures |s| > 0 && AllDigits(s)
  {
    if n < 10 then [DigitChar(n)] else Decimal(n / 10) + [DigitChar(n % 10)]
  }

  lemma {:induction false} DecimalValue(n: nat)
    ensures DigitsValue(Decimal(n)) == n
  {
    if n >= 10 {
      DecimalValue(n / 10);
      var s := Decimal(n);
      assert s[..|s| - 1] == Decimal(n / 10);
    }
  }

  /** A decimal rendering holds no character other than digits. */
  lemma DecimalFree(n: nat, c: char)
    requires !IsDigit(c)
    ensures c !in Decimal(n)
  {
  }

  lemma DecimalIsWord(n: nat)
    ensures IsWord(Decimal(n))
  {
  }

  /** The decimal renderings of `ns`, in order. */
  function Decimals(ns: seq<nat>): (ws: seq<string>)
    ensures |ws| == |ns|
  {
    if ns == [] then [] else [Decimal(ns[0])] + Decimals(ns[1..])
  }

  lemma {:induction false} DecimalsAt(ns: seq<nat>, k: nat)
    requires k < |ns|
    ensures Decimals(ns)[k] == Decimal(ns[k])
  {
    if k > 0 {
      DecimalsAt(ns[1..], k - 1);
    }
  }

  /** The digits after an optional leading `+`, as Rust's integer parsers read them. */
  function UnsignedDigits(s: string): string
  {
    if |s| > 0 && s[0] == '+' then s[1..] else s
  }

  /**
   * `s.parse::<uN>()` where `max` is the largest value of `uN`: an optional `+`,
   * then at least one digit and nothing else; a value beyond `max` is an error.
   */
  function ParseUnsigned(s: string, max: nat): (r: Option<nat>)
    ensures r.Some? ==> r.value <= max
    ensures r.Some? ==> AllDigits(UnsignedDigits(s)) && DigitsValue(UnsignedDigits(s)) == r.value
    ensures |UnsignedDigits(s)| == 0 ==> r.None?
  {
    var d := UnsignedDigits(s);
    if |d| > 0 && AllDigits(d) && DigitsValue(d) <= max then Some(DigitsValue(d)) else None
  }

  lemma ParseDecimal(n: nat, max: nat)
    requires n <= max
    ensures ParseUnsigned(Decimal(n), max) == Some(n)
  {
    DecimalValue(n);
    assert Decimal(n)[0] != '+';
  }

  /** `filter_map(|n| n.parse::<u32>().ok())`: the pieces that parse as `u32`, in order. */
  function ParsedU32s(pieces: seq<string>): (ns: seq<nat>)
    ensures |ns| <= |pieces|
    ensures forall k :: 0 <= k < |ns| ==> ns[k] <= U32_MAX
  {
    if pieces == [] then []
    else
      var rest := ParsedU32s(pieces[1..]);
      match ParseUnsigned(pieces[0], U32_MAX)
      case Some(n) => [n] + rest
      case None => rest
  }

  /** When every piece parses, none is dropped and each number is its piece's. */
  lemma {:induction false} ParsedU32sAll(pieces: seq<string>)
    requires forall k :: 0 <= k < |pieces| ==> ParseUnsigned(pieces[k], U32_MAX).Some?
    ensures |ParsedU32s(pieces)| == |pieces|
    ensures forall k :: 0 <= k < |pieces| ==> ParsedU32s(pieces)[k] == ParseUnsigned(pieces[k], U32_MAX).value
  {
    if pieces != [] {
      ParsedU32sAll(pieces[1..]);
      var rest := ParsedU32s(pieces[1..]);
      assert ParsedU32s(pieces) == [ParseUnsigned(pieces[0], U32_MAX).value] + rest;
      forall k | 1 <= k < |pieces|
        ensures ParsedU32s(pieces)[k] == ParseUnsigned(pieces[k], U32_MAX).value
      {
        assert pieces[1..][k - 1] == pieces[k];
      }
    }
  }

  /** A piece that does not parse is skipped. */
  lemma {:induction false} ParsedU32sSkip(bad: string, pieces: seq<string>)
    requires ParseUnsigned(bad, U32_MAX).None?
    ensures ParsedU32s([bad] + pieces) == ParsedU32s(pieces)
  {
    assert ([bad] + pieces)[1..] == pieces;
  }

  /**
   * `s.parse::<iN>()` for a signed type with the bounds `min` and `max`: an optional
   * `+` or `-`, then at least one digit and nothing else, within the bounds.
   */
  function ParseSigned(s: string, min: int, max: int): (r: Option<int>)
    ensures r.Some? ==> min <= r.value <= max
    ensures |s| > 0 && s[0] == '-' && r.Some? ==> r.value <= 0
  {
    if |s| > 0 && s[0] == '-' then
      var d := s[1..];
      if |d| > 0 && AllDigits(d) && min <= -(DigitsValue(d) as int) <= max then Some(-(DigitsValue(d) as int)) else None
    else
      var d := UnsignedDigits(s);
      if |d| > 0 && AllDigits(d) && min <= DigitsValue(d) <= max then Some(DigitsValue(d)) else None
  }

  lemma ParseSignedNegative(n: nat)
    requires n <= -I64_MIN
    ensures ParseSigned(['-'] + Decimal(n), I64_MIN, I64_MAX) == Some(-(n as int))
  {
    DecimalValue(n);
    assert (['-'] + Decimal(n))[1..] == Decimal(n);
  }

  /** True when `sep` occurs in `s` at position `j`. */
  predicate OccursAt(s: string, sep: string, j: nat)
  {
    j + |sep| <= |s| && s[j..j + |sep|] == sep
  }

  predicate Contains(s: string, sep: string)
  {
    exists j: nat :: j <= |s| && OccursAt(s, sep, j)
  }

  /** Position of the first occurrence of `sep` at or after `i`, or `|s|` if there is none. */
  function FindFrom(s: string, sep: string, i: nat): (k: nat)
    requires |sep| > 0 && i <= |s|
    ensures i <= k <= |s|
    ensures k < |s| ==> OccursAt(s, sep, k)
    ensures forall j: nat :: i <= j < k ==> !OccursAt(s, sep, j)
    decreases |s| - i
  {
    if i + |sep| > |s| then |s|
    else if s[i..i + |sep|] == sep then i
    else FindFrom(s, sep, i + 1)
  }

  /** `s.split(sep)`: the pieces between the occurrences of `sep`, found left to right. */
  function Split(s: string, sep: string): (parts: seq<string>)
    requires |sep| > 0
    ensures |parts| >= 1
    decreases |s|
  {
    var k := FindFrom(s, sep, 0);
    if k == |s| then [s] else [s[..k]] + Split(s[k + |sep|..], sep)
  }

  /** `parts.join(sep)`. */
  function Join(parts: seq<string>, sep: string): string
  {
    if parts == [] then []
    else if |parts| == 1 then parts[0]
    else parts[0] + sep + Join(parts[1..], sep)
  }

  lemma {:induction false} JoinSplit(s: string, sep: string)
    requires |sep| > 0
    ensures Join(Split(s, sep), sep) == s
    decreases |s|
  {
    var k := FindFrom(s, sep, 0);
    if k < |s| {
      var rest := s[k + |sep|..];
      var tail := Split(rest, sep);
      assert Split(s, sep) == [s[..k]] + tail;
      JoinSplit(rest, sep);
      assert Join([s[..k]] + tail, sep) == s[..k] + sep + Join(tail, sep) by {
        assert ([s[..k]] + tail)[1..] == tail;
      }
      assert s == s[..k] + sep + rest by {
        assert s[k..k + |sep|] == sep;
      }
    }
  }

  lemma NoOccurrenceInPrefix(s: string, sep: string, k: nat)
    requires |sep| > 0 && k <= |s|
    requires forall j: nat :: j < k ==> !OccursAt(s, sep, j)
    ensures !Contains(s[..k], sep)
  {
    forall j: nat | OccursAt(s[..k], sep, j)
      ensures false
    {
      assert s[..k][j..j + |sep|] == s[j..j + |sep|];
      assert OccursAt(s, sep, j);
    }
  }

  lemma {:induction false} SplitPiecesFree(s: string, sep: string)
    requires |sep| > 0
    ensures forall i :: 0 <= i < |Split(s, sep)| ==> !Contains(Split(s, sep)[i], sep)
    decreases |s|
  {
    var k := FindFrom(s, sep, 0);
    NoOccurrenceInPrefix(s, sep, k);
    if k == |s| {
      assert s[..k] == s;
    } else {
      SplitPiecesFree(s[k + |sep|..], sep);
    }
  }

  /** A character in neither the pieces nor the separator is not in their join. */
  lemma {:induction false} JoinFree(parts: seq<string>, sep: string, c: char)
    requires c !in sep && forall k :: 0 <= k < |parts| ==> c !in parts[k]
    ensures c !in Join(parts, sep)
  {
    if |parts| > 1 {
      JoinFree(parts[1..], sep, c);
    }
  }

  /** A join of nonempty pieces starts with the first piece's first character and ends with the last piece's last. */
  lemma {:induction false} JoinEnds(parts: seq<string>, sep: string)
    requires |parts| >= 1 && forall k :: 0 <= k < |parts| ==> |parts[k]| > 0
    ensures var j := Join(parts, sep);
      |j| > 0 && j[0] == parts[0][0] && j[|j| - 1] == parts[|parts| - 1][|parts[|parts| - 1]| - 1]
  {
    if |parts| > 1 {
      JoinEnds(parts[1..], sep);
    }
  }

  /** The first occurrence of a one-character separator that `p` does not contain is right after `p`. */
  lemma {:induction false} FindFromChar(p: string, c: char, t: string, i: nat)
    requires c !in p && i <= |p| && (t == [] || t[0] == c)
    ensures FindFrom(p + t, [c], i) == |p|
    decreases |p| - i
  {
    var s := p + t;
    if i < |p| {
      assert s[i..i + 1] == [p[i]];
      FindFromChar(p, c, t, i + 1);
    } else if t != [] {
      assert s[i..i + 1] == [c];
    }
  }

  /** Splitting on a one-character separator undoes joining with it, when no piece contains it. */
  lemma {:induction false} SplitJoin(parts: seq<string>, c: char)
    requires |parts| >= 1 && forall k :: 0 <= k < |parts| ==> c !in parts[k]
    ensures Split(Join(parts, [c]), [c]) == parts
  {
    var s := Join(parts, [c]);
    if |parts| == 1 {
      FindFromChar(parts[0], c, [], 0);
      assert parts[0] + [] == parts[0];
    } else {
      var rest := Join(parts[1..], [c]);
      assert s == parts[0] + ([c] + rest);
      FindFromChar(parts[0], c, [c] + rest, 0);
      assert s[..|parts[0]|] == parts[0];
      assert s[|parts[0]| + 1..] == rest;
      assert Split(s, [c]) == [parts[0]] + Split(rest, [c]);
      SplitJoin(parts[1..], c);
      assert parts == [parts[0]] + parts[1..];
    }
  }

  /** `s.split_terminator(sep)`: `split`, without a final empty piece. */
  function SplitTerminator(s: string, sep: string): (parts: seq<string>)
    requires |sep| > 0
    ensures |parts| <= |Split(s, sep)|
    ensures parts == Split(s, sep) || parts + [[]] == Split(s, sep)
  {
    var p := Split(s, sep);
    if p[|p| - 1] == [] then p[..|p| - 1] else p
  }

  function StripCarriageReturn(line: string): string
  {
    if |line| > 0 && line[|line| - 1] == '\r' then line[..|line| - 1] else line
  }

  /** `s.lines()`: pieces of `s` ended by `\n` (or `\r\n`); the last line ending is optional. */
  function Lines(s: string): (lines: seq<string>)
    ensures |lines| == |SplitTerminator(s, "\n")|
  {
    var p := SplitTerminator(s, "\n");
    seq(|p|, i requires 0 <= i < |p| => StripCarriageReturn(p[i]))
  }

  /** Only the empty text has no lines. */
  lemma LinesEmpty(s: string)
    ensures Lines(s) == [] <==> s == []
  {
    assert FindFrom([], "\n", 0) == 0;
    if s != [] {
      var k := FindFrom(s, "\n", 0);
      if k < |s| {
        assert |Split(s, "\n")| >= 2;
      }
    }
  }

  /** Each row followed by a line feed: the text that `lines()` gives back unchanged. */
  function Unlines(rows: seq<string>): string
  {
    if rows == [] then [] else rows[0] + "\n" + Unlines(rows[1..])
  }

  lemma {:induction false} SplitUnlines(rows: seq<string>)
    requires forall i :: 0 <= i < |rows| ==> '\n' !in rows[i]
    ensures Split(Unlines(rows), "\n") == rows + [[]]
  {
    if rows != [] {
      var s := Unlines(rows);
      var r := rows[0];
      var k := FindFrom(s, "\n", 0);
      assert s == r + "\n" + Unlines(rows[1..]);
      forall j: nat | j < |r|
        ensures !OccursAt(s, "\n", j)
      {
        assert s[j..j + 1][0] == s[j] == r[j];
        assert r[j] in rows[0];
      }
      assert OccursAt(s, "\n", |r|) by {
        assert s[|r|..|r| + 1] == "\n";
      }
      assert k == |r|;
      assert s[..k] == r;
      assert s[k + 1..] == Unlines(rows[1..]);
      SplitUnlines(rows[1..]);
    } else {
      assert FindFrom([], "\n", 0) == 0;
    }
  }

  lemma LinesUnlines(rows: seq<string>)
    requires forall i :: 0 <= i < |rows| ==> '\n' !in rows[i]
    requires forall i :: 0 <= i < |rows| ==> |rows[i]| == 0 || rows[i][|rows[i]| - 1] != '\r'
    ensures Lines(Unlines(rows)) == rows
  {
    SplitUnlines(rows);
    var p := Split(Unlines(rows), "\n");
    assert p[|p| - 1] == [];
    assert SplitTerminator(Unlines(rows), "\n") == rows;
  }

  /** Rows joined by line feeds, without a final one, are the lines of the text when the last row is not empty. */
  lemma LinesJoin(rows: seq<string>)
    requires |rows| >= 1 && |rows[|rows| - 1]| > 0
    requires forall i :: 0 <= i < |rows| ==> '\n' !in rows[i]
    requires forall i :: 0 <= i < |rows| ==> |rows[i]| == 0 || rows[i][|rows[i]| - 1] != '\r'
    ensures Lines(Join(rows, "\n")) == rows
  {
    SplitJoin(rows, '\n');
    assert SplitTerminator(Join(rows, "\n"), "\n") == rows;
  }

  /** Rows joined by line feeds and ended by one are each row followed by a line feed. */
  lemma {:induction false} JoinUnlines(rows: seq<string>)
    requires |rows| >= 1
    ensures Join(rows, "\n") + "\n" == Unlines(rows)
  {
    if |rows| > 1 {
      JoinUnlines(rows[1..]);
    } else {
      assert rows[1..] == [];
    }
  }

  /** Text appended to a join extends its last piece. */
  lemma {:induction false} JoinAppendLast(parts: seq<string>, sep: string, x: string)
    requires |parts| >= 1
    ensures Join(parts, sep) + x == Join(parts[..|parts| - 1] + [parts[|parts| - 1] + x], sep)
  {
    var q := parts[..|parts| - 1] + [parts[|parts| - 1] + x];
    if |parts| > 1 {
      var tail := parts[1..];
      JoinAppendLast(tail, sep, x);
      assert q[1..] == tail[..|tail| - 1] + [tail[|tail| - 1] + x];
      assert q[0] == parts[0];
    }
  }

  /** No line feed is directly followed by another. */
  predicate NoBlankLine(s: string)
  {
    forall j :: 0 <= j < |s| - 1 ==> !(s[j] == '\n' && s[j + 1] == '\n')
  }

  /** Text without two line feeds in a row does not contain `\n\n`. */
  lemma NoBlankLineFree(s: string)
    requires NoBlankLine(s)
    ensures !Contains(s, "\n\n")
  {
    forall j: nat | j <= |s|
      ensures !OccursAt(s, "\n\n", j)
    {
      if j + 2 <= |s| {
        assert s[j..j + 2][0] == s[j] && s[j..j + 2][1] == s[j + 1];
      }
    }
  }

  /** A piece that `\n\n` can follow without an earlier match: it holds no `\n\n` and does not end in `\n`. */
  predicate BlankFree(p: string)
  {
    !Contains(p, "\n\n") && (p == [] || p[|p| - 1] != '\n')
  }

  lemma {:induction false} FindFromBlank(p: string, t: string, i: nat)
    requires BlankFree(p) && i <= |p|
    ensures FindFrom(p + "\n\n" + t, "\n\n", i) == |p|
    decreases |p| - i
  {
    var s := p + "\n\n" + t;
    if i < |p| {
      assert !OccursAt(s, "\n\n", i) by {
        assert s[i] == p[i] && s[i + 1] == (p + "\n\n")[i + 1];
        if i + 2 <= |p| {
          assert !OccursAt(p, "\n\n", i);
          assert s[i + 1] == p[i + 1];
          assert p[i..i + 2] == [p[i], p[i + 1]];
        } else {
          assert i == |p| - 1 && p[i] != '\n';
        }
      }
      FindFromBlank(p, t, i + 1);
    } else {
      assert s[i..i + 2] == "\n\n";
    }
  }

  lemma FindFromNoBlank(p: string)
    requires !Contains(p, "\n\n")
    ensures FindFrom(p, "\n\n", 0) == |p|
  {
  }

  /** Splitting on `\n\n` undoes joining with it, when no piece holds it and no piece but the last ends in `\n`. */
  lemma {:induction false} SplitJoinBlank(parts: seq<string>)
    requires |parts| >= 1
    requires forall k :: 0 <= k < |parts| ==> !Contains(parts[k], "\n\n")
    requires forall k :: 0 <= k < |parts| - 1 ==> BlankFree(parts[k])
    ensures Split(Join(parts, "\n\n"), "\n\n") == parts
  {
    var s := Join(parts, "\n\n");
    if |parts| == 1 {
      FindFromNoBlank(parts[0]);
      assert s[..|s|] == s;
    } else {
      var rest := Join(parts[1..], "\n\n");
      assert s == parts[0] + "\n\n" + rest;
      FindFromBlank(parts[0], rest, 0);
      assert s[..|parts[0]|] == parts[0];
      assert s[|parts[0]| + 2..] == rest;
      assert Split(s, "\n\n") == [parts[0]] + Split(rest, "\n\n");
      SplitJoinBlank(parts[1..]);
      assert parts == [parts[0]] + parts[1..];
    }
  }

  /** Nonempty rows without line feeds, joined by line feeds, never hold two line feeds in a row. */
  lemma {:induction false} JoinLinesNoBlank(rows: seq<string>)
    requires forall i :: 0 <= i < |rows| ==> |rows[i]| > 0 && '\n' !in rows[i]
    ensures NoBlankLine(Join(rows, "\n"))
  {
    if |rows| > 1 {
      var r := rows[0];
      var rest := Join(rows[1..], "\n");
      var s := Join(rows, "\n");
      JoinLinesNoBlank(rows[1..]);
      JoinEnds(rows[1..], "\n");
      assert s == r + "\n" + rest;
      forall j | 0 <= j < |s| - 1
        ensures !(s[j] == '\n' && s[j + 1] == '\n')
      {
        if j < |r| {
          assert s[j] == r[j] && r[j] in r;
        } else if j == |r| {
          assert s[j + 1] == rest[0] == rows[1][0] && rows[1][0] in rows[1];
        } else {
          assert s[j] == rest[j - |r| - 1] && s[j + 1] == rest[j - |r|];
        }
      }
    }
  }

  /** Text without line feeds is a piece `\n\n` can follow. */
  lemma NoNewlineBlankFree(s: string)
    requires '\n' !in s
    ensures BlankFree(s)
  {
    forall j | 0 <= j < |s| - 1
      ensures !(s[j] == '\n' && s[j + 1] == '\n')
    {
      assert s[j] in s;
    }
    NoBlankLineFree(s);
    if s != [] {
      assert s[|s| - 1] in s;
    }
  }

  /** A line feed after a piece that does not end in one adds no `\n\n`. */
  lemma BlankFreeNewline(p: string)
    requires NoBlankLine(p) && (p == [] || p[|p| - 1] != '\n')
    ensures NoBlankLine(p + "\n")
  {
    var s := p + "\n";
    forall j | 0 <= j < |s| - 1
      ensures !(s[j] == '\n' && s[j + 1] == '\n')
    {
      assert s[j] == p[j];
      if j == |p| - 1 {
        assert s[j] == p[|p| - 1];
      }
    }
  }

  /** Length of the run of non-whitespace characters that starts at `i`. */
  function WordEnd(s: string, i: nat): (k: nat)
    requires i <= |s|
    ensures i <= k <= |s|
    ensures forall j :: i <= j < k ==> !IsWhitespace(s[j])
    ensures k < |s| ==> IsWhitespace(s[k])
    decreases |s| - i
  {
    if i == |s| || IsWhitespace(s[i]) then i else WordEnd(s, i + 1)
  }

  /** `s.split_whitespace()`: the maximal runs of non-whitespace characters, in order. */
  function SplitWhitespace(s: string): (words: seq<string>)
    ensures forall i :: 0 <= i < |words| ==> |words[i]| > 0
    decreases |s|
  {
    if s == [] then []
    else if IsWhitespace(s[0]) then SplitWhitespace(s[1..])
    else
      var k := WordEnd(s, 0);
      [s[..k]] + SplitWhitespace(s[k..])
  }

  /** A nonempty string without whitespace: what `split_whitespace` yields. */
  predicate IsWord(w: string)
  {
    |w| > 0 && forall j :: 0 <= j < |w| ==> !IsWhitespace(w[j])
  }

  /** Every piece `split_whitespace` yields is a word. */
  lemma {:induction false} SplitWhitespaceWords(s: string)
    ensures forall i :: 0 <= i < |SplitWhitespace(s)| ==> IsWord(SplitWhitespace(s)[i])
    decreases |s|
  {
    if s != [] {
      if IsWhitespace(s[0]) {
        SplitWhitespaceWords(s[1..]);
      } else {
        var k := WordEnd(s, 0);
        SplitWhitespaceWords(s[k..]);
        assert IsWord(s[..k]);
      }
    }
  }

  lemma {:induction false} WordEndOfWord(w: string, t: string, i: nat)
    requires IsWord(w) && i <= |w| && (t == [] || IsWhitespace(t[0]))
    ensures WordEnd(w + t, i) == |w|
    decreases |w| - i
  {
    if i < |w| {
      assert (w + t)[i] == w[i];
      WordEndOfWord(w, t, i + 1);
    } else if t != [] {
      assert (w + t)[i] == t[0];
    }
  }

  lemma SplitWhitespaceWord(w: string, t: string)
    requires IsWord(w) && (t == [] || IsWhitespace(t[0]))
    ensures SplitWhitespace(w + t) == [w] + SplitWhitespace(t)
  {
    WordEndOfWord(w, t, 0);
    assert (w + t)[0] == w[0];
    assert (w + t)[..|w|] == w && (w + t)[|w|..] == t;
  }

  /** Leading whitespace does not change the words. */
  lemma {:induction false} SplitWhitespacePadded(pad: string, s: string)
    requires forall k :: 0 <= k < |pad| ==> IsWhitespace(pad[k])
    ensures SplitWhitespace(pad + s) == SplitWhitespace(s)
  {
    if pad == [] {
      assert pad + s == s;
    } else {
      assert (pad + s)[1..] == pad[1..] + s;
      SplitWhitespacePadded(pad[1..], s);
    }
  }

  /** Splitting words joined by single spaces on whitespace gives the words back. */
  lemma {:induction false} SplitWhitespaceJoin(words: seq<string>)
    requires forall k :: 0 <= k < |words| ==> IsWord(words[k])
    ensures SplitWhitespace(Join(words, " ")) == words
  {
    if |words| == 1 {
      SplitWhitespaceWord(words[0], []);
      assert words[0] + [] == words[0];
    } else if |words| > 1 {
      var rest := Join(words[1..], " ");
      assert Join(words, " ") == words[0] + (" " + rest);
      SplitWhitespaceWord(words[0], " " + rest);
      assert (" " + rest)[1..] == rest;
      SplitWhitespaceJoin(words[1..]);
    }
  }

  /** A trailing space after words joined by single spaces does not change the words. */
  lemma {:induction false} SplitWhitespaceTrailing(words: seq<string>)
    requires forall k :: 0 <= k < |words| ==> IsWord(words[k])
    ensures SplitWhitespace(Join(words, " ") + " ") == words
  {
    if |words| == 0 {
      assert Join(words, " ") + " " == " ";
    } else if |words| == 1 {
      assert Join(words, " ") + " " == words[0] + " ";
      SplitWhitespaceWord(words[0], " ");
      assert SplitWhitespace(" ") == SplitWhitespace(" "[1..]);
    } else {
      var rest := Join(words[1..], " ");
      assert Join(words, " ") + " " == words[0] + (" " + (rest + " "));
      SplitWhitespaceWord(words[0], " " + (rest + " "));
      assert (" " + (rest + " "))[1..] == rest + " ";
      SplitWhitespaceTrailing(words[1..]);
    }
  }

  /** The decimal renderings of numbers are words. */
  lemma DecimalsAreWords(ns: seq<nat>)
    ensures forall k :: 0 <= k < |Decimals(ns)| ==> IsWord(Decimals(ns)[k])
  {
    forall k | 0 <= k < |ns|
      ensures IsWord(Decimals(ns)[k])
    {
      DecimalsAt(ns, k);
      DecimalIsWord(ns[k]);
    }
  }

  /** A digit is neither a line feed nor a carriage return. */
  lemma DigitsShape(d: string)
    requires |d| > 0 && AllDigits(d)
    ensures '\n' !in d && d[|d| - 1] != '\r' && d[|d| - 1] != '\n'
  {
    assert IsDigit(d[|d| - 1]);
    forall j | 0 <= j < |d|
      ensures d[j] != '\n'
    {
      assert IsDigit(d[j]);
    }
  }

  /** Decimal numbers joined by spaces: not empty, no line feed, and a digit at the end. */
  lemma NumbersLineShape(head: seq<string>, ns: seq<nat>)
    requires forall k :: 0 <= k < |head| ==> |head[k]| > 0 && '\n' !in head[k]
    requires |ns| > 0
    ensures var line := Join(head + Decimals(ns), " ");
      |line| > 0 && '\n' !in line && line[|line| - 1] != '\r' && line[|line| - 1] != '\n'
  {
    var ws := head + Decimals(ns);
    forall k | 0 <= k < |ws|
      ensures |ws[k]| > 0 && '\n' !in ws[k]
    {
      if k >= |head| {
        assert ws[k] == Decimals(ns)[k - |head|];
        DecimalsAt(ns, k - |head|);
        DecimalFree(ns[k - |head|], '\n');
      }
    }
    JoinFree(ws, " ", '\n');
    JoinEnds(ws, " ");
    assert ws[|ws| - 1] == Decimal(ns[|ns| - 1]) by {
      DecimalsAt(ns, |ns| - 1);
    }
    DigitsShape(Decimal(ns[|ns| - 1]));
  }

  /** The words after the first of a labelled line of numbers are the numbers' decimals. */
  lemma LabelledWords(tag: string, ns: seq<nat>)
    requires IsWord(tag)
    ensures Skip1(SplitWhitespace(Join([tag] + Decimals(ns), " "))) == Decimals(ns)
  {
    var ws := [tag] + Decimals(ns);
    DecimalsAreWords(ns);
    forall k | 0 <= k < |ws|
      ensures IsWord(ws[k])
    {
      if k > 0 {
        assert ws[k] == Decimals(ns)[k - 1];
      }
    }
    SplitWhitespaceJoin(ws);
  }

  function Concat(parts: seq<string>): string
  {
    if parts == [] then [] else parts[0] + Concat(parts[1..])
  }

  /** The characters of `s` that are not whitespace, in order. */
  function NonWhitespace(s: string): string
  {
    if s == [] then [] else (if IsWhitespace(s[0]) then [] else [s[0]]) + NonWhitespace(s[1..])
  }

  lemma {:induction false} NonWhitespaceOfWord(s: string, k: nat)
    requires k <= |s|
    requires forall j :: 0 <= j < k ==> !IsWhitespace(s[j])
    ensures NonWhitespace(s) == s[..k] + NonWhitespace(s[k..])
  {
    if k > 0 {
      NonWhitespaceOfWord(s[1..], k - 1);
      assert s[1..][k - 1..] == s[k..];
      assert s[..k] == [s[0]] + s[1..][..k - 1];
    }
  }

  /** Splitting on whitespace loses exactly the whitespace. */
  lemma {:induction false} SplitWhitespaceKeepsText(s: string)
    ensures Concat(SplitWhitespace(s)) == NonWhitespace(s)
    decreases |s|
  {
    if s != [] {
      if IsWhitespace(s[0]) {
        SplitWhitespaceKeepsText(s[1..]);
      } else {
        var k := WordEnd(s, 0);
        SplitWhitespaceKeepsText(s[k..]);
        NonWhitespaceOfWord(s, k);
      }
    }
  }

  function TrimStart(s: string): (r: string)
    ensures |r| <= |s| && r == s[|s| - |r|..]
    ensures r == [] || !IsWhitespace(r[0])
  {
    if s != [] && IsWhitespace(s[0]) then TrimStart(s[1..]) else s
  }

  function TrimEnd(s: string): (r: string)
    ensures |r| <= |s| && r == s[..|r|]
    ensures r == [] || !IsWhitespace(r[|r| - 1])
  {
    if s != [] && IsWhitespace(s[|s| - 1]) then TrimEnd(s[..|s| - 1]) else s
  }

  /** `s.trim()`. */
  function Trim(s: string): string
  {
    TrimEnd(TrimStart(s))
  }

  /** Trimming leaves text that starts and ends with non-whitespace unchanged, after any leading whitespace. */
  lemma {:induction false} TrimPadded(pad: string, s: string)
    requires forall k :: 0 <= k < |pad| ==> IsWhitespace(pad[k])
    requires |s| > 0 && !IsWhitespace(s[0]) && !IsWhitespace(s[|s| - 1])
    ensures Trim(pad + s) == s
  {
    if pad == [] {
      assert pad + s == s;
    } else {
      assert (pad + s)[1..] == pad[1..] + s;
      TrimPadded(pad[1..], s);
    }
  }

  /** `trim_start` removes exactly the leading whitespace. */
  lemma {:induction false} TrimStartPadded(pad: string, s: string)
    requires forall k :: 0 <= k < |pad| ==> IsWhitespace(pad[k])
    requires |s| > 0 && !IsWhitespace(s[0])
    ensures TrimStart(pad + s) == s
  {
    if pad == [] {
      assert pad + s == s;
    } else {
      assert (pad + s)[1..] == pad[1..] + s;
      TrimStartPadded(pad[1..], s);
    }
  }

  /** `trim_end` removes exactly the trailing whitespace. */
  lemma {:induction false} TrimEndPadded(s: string, pad: string)
    requires forall k :: 0 <= k < |pad| ==> IsWhitespace(pad[k])
    requires |s| > 0 && !IsWhitespace(s[|s| - 1])
    ensures TrimEnd(s + pad) == s
  {
    if pad == [] {
      assert s + pad == s;
    } else {
      var t := s + pad;
      assert t[..|t| - 1] == s + pad[..|pad| - 1];
      TrimEndPadded(s, pad[..|pad| - 1]);
    }
  }

  /** Trimming removes whitespace on both sides of text that starts and ends with non-whitespace. */
  lemma TrimSpaced(pre: string, s: string, post: string)
    requires forall k :: 0 <= k < |pre| ==> IsWhitespace(pre[k])
    requires forall k :: 0 <= k < |post| ==> IsWhitespace(post[k])
    requires |s| > 0 && !IsWhitespace(s[0]) && !IsWhitespace(s[|s| - 1])
    ensures Trim(pre + s + post) == s
  {
    TrimStartPadded(pre, s + post);
    assert pre + s + post == pre + (s + post);
    TrimEndPadded(s, post);
  }

  /**
   * When `p` lacks the first character of `sep`, no occurrence of `sep` starts inside it,
   * so the first one from `i` on is at the end of `p`, where `t` may start with one.
   */
  lemma {:induction false} FindFromAfter(p: string, sep: string, t: string, i: nat)
    requires |sep| > 0 && sep[0] !in p && i <= |p|
    requires t == [] || (|sep| <= |t| && t[..|sep|] == sep)
    ensures FindFrom(p + t, sep, i) == |p|
    decreases |p| - i
  {
    var s := p + t;
    if i < |p| {
      if i + |sep| <= |s| {
        assert s[i..i + |sep|][0] == p[i];
      }
      FindFromAfter(p, sep, t, i + 1);
    } else if t != [] {
      assert s[i..i + |sep|] == t[..|sep|];
    }
  }

  /** A piece free of the separator's first character, then the separator, splits off first. */
  lemma SplitAfter(p: string, sep: string, t: string)
    requires |sep| > 0 && sep[0] !in p
    ensures Split(p + sep + t, sep) == [p] + Split(t, sep)
  {
    var s := p + sep + t;
    assert s == p + (sep + t);
    FindFromAfter(p, sep, sep + t, 0);
    assert s[..|p|] == p;
    assert s[|p| + |sep|..] == t;
  }
}
