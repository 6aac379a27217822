/**
 * Trebuchet calibration (2023, day 1). The calibration value of a line is the first digit
 * of the line times ten plus its last digit. In part two digits may also be spelled out:
 * before the digits are read, every name of a digit is replaced by the same name with its
 * middle letter turned into the digit ("eight" becomes "ei8ht"), so that a letter shared
 * by two overlapping names ("eightwo") serves both.
 *
 * The source applies the replacements in the iteration order of a hash map, which is
 * unspecified. The model takes that order as a parameter and proves that the result does
 * not depend on it: after all replacements, the character at each position is the digit
 * of the name whose middle letter lies there in the original line, if any, and the
 * original character otherwise.
 */
module Trebuchet {
  import opened Common
  import opened Text

  /** The `WORDS` table: the name of each digit from one to nine and the text that replaces it. */
  const WORDS: seq<(string, string)> := [
    ("one", "o1e"), ("two", "t2o"), ("three", "th3ee"), ("four", "fo4r"), ("five", "fi5e"),
    ("six", "s6x"), ("seven", "se7en"), ("eight", "ei8ht"), ("nine", "ni9e")]

  /** The name of the digit `i + 1`. */
  function Name(i: nat): string
    requires i < |WORDS|
  {
    WORDS[i].0
  }

  /** The text that replaces the name of the digit `i + 1`. */
  function Spelled(i: nat): string
    requires i < |WORDS|
  {
    WORDS[i].1
  }

  /** Position of the middle letter of a name. */
  function Mid(i: nat): nat
    requires i < |WORDS|
  {
    |Name(i)| / 2
  }

  /**
   * Every replacement keeps the length of the name and all its letters but the middle
   * one, which becomes the digit; in particular the first and last letters are kept.
   */
  lemma WordsShape(i: nat)
    requires i < |WORDS|
    ensures 3 <= |Name(i)| <= 5 && |Spelled(i)| == |Name(i)|
    ensures 1 <= Mid(i) <= |Name(i)| - 2
    ensures Spelled(i) == Name(i)[Mid(i) := DigitChar(i + 1)]
    ensures forall x :: 0 <= x < |Name(i)| ==> IsAsciiAlphabetic(Name(i)[x])
  {
  }

  /**
   * The first two letters of a name occur in no name except at its start, and the first
   * letter of a name differs from its last.
   */
  lemma WordsBigrams(i: nat, l: nat)
    requires i < |WORDS| && l < |WORDS|
    ensures forall x :: 1 <= x <= |Name(i)| - 2 ==> !(Name(i)[x] == Name(l)[0] && Name(i)[x + 1] == Name(l)[1])
    ensures Name(i)[0] == Name(l)[0] && Name(i)[1] == Name(l)[1] ==> i == l
    ensures Name(i)[|Name(i)| - 1] != Name(i)[0]
  {
  }

  /** An occurrence of a name in `s` puts its letters at `p`, `p + 1`, .... */
  lemma OccursChars(s: string, w: string, p: nat)
    requires OccursAt(s, w, p)
    ensures forall x :: 0 <= x < |w| ==> s[p + x] == w[x]
  {
    forall x | 0 <= x < |w|
      ensures s[p + x] == w[x]
    {
      assert s[p..p + |w|][x] == s[p + x];
    }
  }

  /** One letter of an occurrence; stated without preconditions so that it can be used in any branch. */
  lemma OccursChar(s: string, w: string, p: int, x: int)
    ensures 0 <= p && 0 <= x < |w| && OccursAt(s, w, p) ==> s[p + x] == w[x]
  {
    if 0 <= p && 0 <= x < |w| && OccursAt(s, w, p) {
      assert s[p..p + |w|][x] == s[p + x];
    }
  }

  /**
   * Two occurrences of names in a line overlap in at most one letter, and two
   * occurrences of the same name do not overlap at all.
   */
  lemma Overlap(s: string, i: nat, l: nat, p: nat, q: nat)
    requires i < |WORDS| && l < |WORDS|
    requires OccursAt(s, Name(i), p) && OccursAt(s, Name(l), q)
    requires p < q || (p == q && i != l)
    ensures q + 1 >= p + |Name(i)|
    ensures i == l ==> q >= p + |Name(i)|
  {
    var a, b := Name(i), Name(l);
    WordsShape(i);
    WordsShape(l);
    WordsBigrams(i, l);
    if q + 1 < p + |a| {
      OccursChar(s, a, p, q - p);
      OccursChar(s, a, p, q - p + 1);
      OccursChar(s, b, q, 0);
      OccursChar(s, b, q, 1);
      assert false;
    }
    if i == l && q + 1 == p + |a| {
      OccursChar(s, a, p, |a| - 1);
      OccursChar(s, b, q, 0);
      assert false;
    }
  }

  /** An occurrence of one name never covers the middle letter of an occurrence of another. */
  lemma MidUncovered(s: string, i: nat, l: nat, p: nat, q: nat)
    requires i < |WORDS| && l < |WORDS| && i != l
    requires OccursAt(s, Name(i), p) && OccursAt(s, Name(l), q)
    ensures !(q <= p + Mid(i) < q + |Name(l)|)
  {
    WordsShape(i);
    WordsShape(l);
    if p <= q {
      Overlap(s, i, l, p, q);
    } else {
      Overlap(s, l, i, q, p);
    }
  }

  /** `str::replace`: scanning from the left, each occurrence of `from` that does not overlap an earlier replaced one becomes `to`. */
  function Replace(s: string, from: string, to: string): (r: string)
    requires |from| > 0
    ensures |from| == |to| ==> |r| == |s|
    decreases |s|
  {
    if |s| < |from| then s
    else if OccursAt(s, from, 0) then to + Replace(s[|from|..], from, to)
    else [s[0]] + Replace(s[1..], from, to)
  }

  /** No two occurrences of `w` in `s` overlap. */
  ghost predicate Spaced(s: string, w: string)
  {
    forall p, q :: 0 <= p < q && OccursAt(s, w, p) && OccursAt(s, w, q) ==> q >= p + |w|
  }

  /** Occurrences in a suffix are the occurrences in the whole text, shifted. */
  lemma OccursShift(s: string, w: string, k: nat, p: nat)
    requires k <= |s|
    ensures OccursAt(s[k..], w, p) <==> OccursAt(s, w, p + k)
  {
    if p + |w| <= |s| - k {
      assert s[k..][p..p + |w|] == s[p + k..p + k + |w|];
    }
  }

  /** `r` is `s` with the character at offset `m` of every occurrence of `w` turned into `c`. */
  ghost predicate MarkedAt(s: string, r: string, w: string, m: nat, c: char)
  {
    |r| == |s| && forall j :: 0 <= j < |s| ==> r[j] == if m <= j && OccursAt(s, w, j - m) then c else s[j]
  }

  /** A suffix of a text without overlapping occurrences has none either. */
  lemma SpacedSuffix(s: string, w: string, k: nat)
    requires k <= |s| && Spaced(s, w)
    ensures Spaced(s[k..], w)
  {
    forall p, q | 0 <= p < q && OccursAt(s[k..], w, p) && OccursAt(s[k..], w, q)
      ensures q >= p + |w|
    {
      OccursShift(s, w, k, p);
      OccursShift(s, w, k, q);
    }
  }

  /** The step of `replace` at an occurrence: the replacement, then the rest of the text. */
  lemma ReplaceMatch(s: string, from: string, to: string, m: nat, c: char, rt: string)
    requires m < |from| <= |s| && to == from[m := c]
    requires Spaced(s, from) && OccursAt(s, from, 0)
    requires MarkedAt(s[|from|..], rt, from, m, c)
    ensures MarkedAt(s, to + rt, from, m, c)
  {
    var n := |from|;
    var r := to + rt;
    OccursChars(s, from, 0);
    forall j | 0 <= j < |s|
      ensures r[j] == if m <= j && OccursAt(s, from, j - m) then c else s[j]
    {
      if j < n {
        assert r[j] == to[j];
        if m < j {
          assert !OccursAt(s, from, j - m);
        }
      } else {
        assert r[j] == rt[j - n];
        if m <= j - n {
          OccursShift(s, from, n, j - n - m);
        } else {
          assert !OccursAt(s, from, j - m);
        }
      }
    }
  }

  /** The step of `replace` where no occurrence starts: the first character is kept. */
  lemma ReplaceSkip(s: string, from: string, m: nat, c: char, rt: string)
    requires |s| > 0 && !OccursAt(s, from, 0)
    requires MarkedAt(s[1..], rt, from, m, c)
    ensures MarkedAt(s, [s[0]] + rt, from, m, c)
  {
    var r := [s[0]] + rt;
    forall j | 0 <= j < |s|
      ensures r[j] == if m <= j && OccursAt(s, from, j - m) then c else s[j]
    {
      if j > 0 {
        assert r[j] == rt[j - 1];
        if m <= j - 1 {
          OccursShift(s, from, 1, j - 1 - m);
        }
      }
    }
  }

  /**
   * Replacing the non-overlapping occurrences of `from` by a text that differs from it at
   * position `m` only, where it holds `c`, changes exactly the character at offset `m` of
   * every occurrence.
   */
  lemma {:induction false} ReplaceAt(s: string, from: string, to: string, m: nat, c: char)
    requires m < |from| && to == from[m := c]
    requires Spaced(s, from)
    ensures MarkedAt(s, Replace(s, from, to), from, m, c)
    decreases |s|
  {
    var n := |from|;
    if |s| < n {
    } else if OccursAt(s, from, 0) {
      SpacedSuffix(s, from, n);
      ReplaceAt(s[n..], from, to, m, c);
      ReplaceMatch(s, from, to, m, c, Replace(s[n..], from, to));
    } else {
      SpacedSuffix(s, from, 1);
      ReplaceAt(s[1..], from, to, m, c);
      ReplaceSkip(s, from, m, c, Replace(s[1..], from, to));
    }
  }

  /** A list of entries of `WORDS`, by index. */
  predicate AreWords(ws: seq<nat>)
  {
    forall k :: 0 <= k < |ws| ==> ws[k] < |WORDS|
  }

  /** The name among `ws` whose middle letter lies at `j` in `s`; the last such in `ws`. */
  function Marker(s: string, ws: seq<nat>, j: nat): (r: Option<nat>)
    requires AreWords(ws)
    ensures r.Some? ==> r.value in ws && r.value < |WORDS| && Mid(r.value) <= j && OccursAt(s, Name(r.value), j - Mid(r.value))
    ensures r.None? ==> forall k :: 0 <= k < |ws| ==> !(Mid(ws[k]) <= j && OccursAt(s, Name(ws[k]), j - Mid(ws[k])))
  {
    if ws == [] then None
    else
      var w := ws[|ws| - 1];
      if Mid(w) <= j && OccursAt(s, Name(w), j - Mid(w)) then Some(w)
      else Marker(s, ws[..|ws| - 1], j)
  }

  /** The character at `j` once the names `ws` have been replaced. */
  function Updated(s: string, ws: seq<nat>, j: nat): char
    requires AreWords(ws) && j < |s|
  {
    match Marker(s, ws, j)
    case Some(i) => DigitChar(i + 1)
    case None => s[j]
  }

  /** At most one name has its middle letter at a given position, so any list holding it finds it. */
  lemma MarkerIs(s: string, ws: seq<nat>, j: nat, i: nat)
    requires AreWords(ws) && i in ws && Mid(i) <= j && OccursAt(s, Name(i), j - Mid(i))
    ensures Marker(s, ws, j) == Some(i)
  {
    var r := Marker(s, ws, j);
    if r.Some? && r.value != i {
      WordsShape(r.value);
      MidUncovered(s, i, r.value, j - Mid(i), j - Mid(r.value));
    }
  }

  /**
   * While the names `done` have been replaced and `w` has not, `w` occurs in the
   * updated line exactly where it occurs in the original.
   */
  lemma OccursSame(s: string, done: seq<nat>, w: nat, t: string, q: nat)
    requires AreWords(done) && w < |WORDS| && w !in done
    requires |t| == |s| && forall j :: 0 <= j < |s| ==> t[j] == Updated(s, done, j)
    ensures OccursAt(t, Name(w), q) <==> OccursAt(s, Name(w), q)
  {
    var n := |Name(w)|;
    WordsShape(w);
    if OccursAt(s, Name(w), q) {
      forall x | q <= x < q + n
        ensures t[x] == s[x]
      {
        var r := Marker(s, done, x);
        if r.Some? {
          MidUncovered(s, r.value, w, x - Mid(r.value), q);
        }
      }
      assert t[q..q + n] == s[q..q + n];
    }
    if OccursAt(t, Name(w), q) {
      OccursChars(t, Name(w), q);
      forall x | q <= x < q + n
        ensures t[x] == s[x]
      {
        assert IsAsciiAlphabetic(Name(w)[x - q]);
      }
      assert t[q..q + n] == s[q..q + n];
    }
  }

  /** One pass of the replacement loop: the name `w` joins the replaced names. */
  lemma ReplaceStep(s: string, done: seq<nat>, w: nat, t: string)
    requires AreWords(done) && w < |WORDS| && w !in done
    requires |t| == |s| && forall j :: 0 <= j < |s| ==> t[j] == Updated(s, done, j)
    ensures AreWords(done + [w])
    ensures |Replace(t, Name(w), Spelled(w))| == |s|
    ensures forall j :: 0 <= j < |s| ==> Replace(t, Name(w), Spelled(w))[j] == Updated(s, done + [w], j)
  {
    WordsShape(w);
    forall q | 0 <= q
      ensures OccursAt(t, Name(w), q) <==> OccursAt(s, Name(w), q)
    {
      OccursSame(s, done, w, t, q);
    }
    forall p, q | 0 <= p < q && OccursAt(t, Name(w), p) && OccursAt(t, Name(w), q)
      ensures q >= p + |Name(w)|
    {
      Overlap(s, w, w, p, q);
    }
    ReplaceAt(t, Name(w), Spelled(w), Mid(w), DigitChar(w + 1));
    var ws := done + [w];
    assert ws[..|ws| - 1] == done;
  }

  /** The indices of all entries of `WORDS`. */
  const ALL_WORDS: seq<nat> := [0, 1, 2, 3, 4, 5, 6, 7, 8]

  /** `ALL_WORDS` lists every entry, each at its own index. */
  lemma AllWords(i: nat)
    requires i < |WORDS|
    ensures AreWords(ALL_WORDS) && i < |ALL_WORDS| && ALL_WORDS[i] == i && i in ALL_WORDS
  {
  }

  /** An iteration order of the `WORDS` map: every entry exactly once. */
  predicate IsOrder(order: seq<nat>)
  {
    && AreWords(order)
    && (forall a, b :: 0 <= a < b < |order| ==> order[a] != order[b])
    && (forall i :: 0 <= i < |WORDS| ==> i in order)
  }

  /**
   * The line after all replacements, in whatever order: at each position the digit of
   * the name whose middle letter lies there, or else the original character.
   */
  function Marked(s: string): (r: string)
    ensures |r| == |s|
  {
    assert AreWords(ALL_WORDS);
    seq(|s|, j requires 0 <= j < |s| => Updated(s, ALL_WORDS, j))
  }

  /** Where a name has its middle letter, the replaced line holds that name's digit. */
  lemma MarkedName(s: string, j: nat, i: nat)
    requires j < |s| && i < |WORDS| && Mid(i) <= j && OccursAt(s, Name(i), j - Mid(i))
    ensures Marked(s)[j] == DigitChar(i + 1)
  {
    AllWords(i);
    MarkerIs(s, ALL_WORDS, j, i);
  }

  /** Where no name has its middle letter, the replaced line keeps the original character. */
  lemma MarkedPlain(s: string, j: nat)
    requires j < |s|
    requires forall i :: 0 <= i < |WORDS| && Mid(i) <= j ==> !OccursAt(s, Name(i), j - Mid(i))
    ensures Marked(s)[j] == s[j]
  {
    assert AreWords(ALL_WORDS);
    var r := Marker(s, ALL_WORDS, j);
    if r.Some? {
      assert false;
    }
  }

  /** Replacing in any iteration order gives the same character at every position. */
  lemma OrderIrrelevant(s: string, order: seq<nat>, j: nat)
    requires IsOrder(order) && j < |s|
    ensures Updated(s, order, j) == Marked(s)[j]
  {
    assert AreWords(ALL_WORDS);
    var r := Marker(s, ALL_WORDS, j);
    if r.Some? {
      MarkerIs(s, order, j, r.value);
    } else {
      var r' := Marker(s, order, j);
      if r'.Some? {
        AllWords(r'.value);
        MarkerIs(s, ALL_WORDS, j, r'.value);
      }
    }
  }

  /** Index of the first digit of `s` at or after `i`. */
  function FirstDigitIndex(s: string, i: nat): (r: Option<nat>)
    requires i <= |s|
    ensures r.Some? ==> i <= r.value < |s| && IsDigit(s[r.value])
    ensures forall k :: i <= k < |s| && (r.None? || k < r.value) ==> !IsDigit(s[k])
    decreases |s| - i
  {
    if i == |s| then None
    else if IsDigit(s[i]) then Some(i)
    else FirstDigitIndex(s, i + 1)
  }

  /** Index of the last digit of `s` before `n`. */
  function LastDigitIndex(s: string, n: nat): (r: Option<nat>)
    requires n <= |s|
    ensures r.Some? ==> r.value < n && IsDigit(s[r.value])
    ensures forall k :: 0 <= k < n && (r.None? || r.value < k) ==> !IsDigit(s[k])
  {
    if n == 0 then None
    else if IsDigit(s[n - 1]) then Some(n - 1)
    else LastDigitIndex(s, n - 1)
  }

  /** `find(is_numeric).and_then(to_digit).unwrap_or_default()`, from the front and from the back. */
  function FirstDigit(s: string): (d: nat)
    ensures d <= 9
  {
    match FirstDigitIndex(s, 0)
    case Some(k) => DigitValue(s[k])
    case None => 0
  }

  function LastDigit(s: string): (d: nat)
    ensures d <= 9
  {
    match LastDigitIndex(s, |s|)
    case Some(k) => DigitValue(s[k])
    case None => 0
  }

  /** `get_calibration`: at most 99, so the conversion to `u8` never fails. */
  function Calibration(line: string): (v: nat)
    ensures v <= 99 && v <= U8_MAX
  {
    10 * FirstDigit(line) + LastDigit(line)
  }

  /** The calibration value is ten times the first digit of the line plus its last digit. */
  lemma CalibrationDigits(line: string, f: nat, l: nat)
    requires f <= l < |line| && IsDigit(line[f]) && IsDigit(line[l])
    requires forall k :: 0 <= k < f ==> !IsDigit(line[k])
    requires forall k :: l < k < |line| ==> !IsDigit(line[k])
    ensures Calibration(line) == 10 * DigitValue(line[f]) + DigitValue(line[l])
  {
    var a := FirstDigitIndex(line, 0);
    var b := LastDigitIndex(line, |line|);
  }

  /** A line with a single digit uses it as both the first and the last digit. */
  lemma CalibrationSingleDigit(line: string, k: nat)
    requires k < |line| && IsDigit(line[k])
    requires forall j :: 0 <= j < |line| && j != k ==> !IsDigit(line[j])
    ensures Calibration(line) == 11 * DigitValue(line[k])
  {
    CalibrationDigits(line, k, k);
  }

  /** A line without digits has calibration value zero. */
  lemma CalibrationNoDigit(line: string)
    requires forall j :: 0 <= j < |line| ==> !IsDigit(line[j])
    ensures Calibration(line) == 0
  {
    var a := FirstDigitIndex(line, 0);
    var b := LastDigitIndex(line, |line|);
  }

  /** The part-two value of a line: the calibration of the line with every spelled digit in place. */
  function FancyValue(line: string): (v: nat)
    ensures v <= 99
  {
    Calibration(Marked(line))
  }

  /**
   * `get_fancy_calibration`: every entry of `WORDS`, in the map's iteration `order`, is
   * replaced throughout the line, and then the calibration rule is applied. The result is
   * the same for every order.
   */
  method FancyCalibration(line: string, order: seq<nat>) returns (v: nat)
    requires IsOrder(order)
    ensures v == FancyValue(line)
  {
    var t := line;
    for n := 0 to |order|
      invariant AreWords(order[..n])
      invariant |t| == |line| && forall j :: 0 <= j < |line| ==> t[j] == Updated(line, order[..n], j)
    {
      var w := order[n];
      assert w !in order[..n];
      ReplaceStep(line, order[..n], w, t);
      t := Replace(t, Name(w), Spelled(w));
      assert order[..n + 1] == order[..n] + [w];
    }
    assert order[..|order|] == order;
    forall j | 0 <= j < |line|
      ensures t[j] == Marked(line)[j]
    {
      OrderIrrelevant(line, order, j);
    }
    assert t == Marked(line);
    v := Calibration(t);
  }

  /** Part one: the calibrations of all lines added up; each line adds at most 99. */
  function CalibrationSum(lines: seq<string>): (total: nat)
    ensures total <= 99 * |lines|
    ensures lines != [] ==> total >= Calibration(lines[0])
  {
    if lines == [] then 0 else Calibration(lines[0]) + CalibrationSum(lines[1..])
  }

  /** Part two: the part-two values of all lines added up; each line adds at most 99. */
  function FancySum(lines: seq<string>): (total: nat)
    ensures total <= 99 * |lines|
    ensures lines != [] ==> total >= FancyValue(lines[0])
  {
    if lines == [] then 0 else FancyValue(lines[0]) + FancySum(lines[1..])
  }

  /** Both sums distribute over concatenation of the line lists. */
  lemma {:induction false} SumsAppend(a: seq<string>, b: seq<string>)
    ensures CalibrationSum(a + b) == CalibrationSum(a) + CalibrationSum(b)
    ensures FancySum(a + b) == FancySum(a) + FancySum(b)
  {
    if a != [] {
      assert (a + b)[1..] == a[1..] + b;
      SumsAppend(a[1..], b);
    } else {
      assert a + b == b;
    }
  }

  /** A line without spelled digits has the same value in both parts. */
  lemma PlainLineAgrees(line: string)
    requires forall j :: 0 <= j < |line| ==> Marked(line)[j] == line[j]
    ensures FancyValue(line) == Calibration(line)
  {
    assert Marked(line) == line;
  }

  function PartOne(input: string): (total: nat)
    ensures total <= 99 * |Lines(input)|
  {
    CalibrationSum(Lines(input))
  }

  function PartTwo(input: string): (total: nat)
    ensures total <= 99 * |Lines(input)|
  {
    FancySum(Lines(input))
  }
}
