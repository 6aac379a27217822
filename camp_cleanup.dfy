/**
 * 2022 day 4, "Camp Cleanup": each line holds two section ranges `a-b,c-d` assigned to a
 * pair of elves, and the answer is the number of pairs in which one range contains the
 * other.
 */
module CampCleanup {
  import opened Common
  import opened Text

  /** The `Section` struct: the first and the last section of a range, both `u32`. */
  datatype Section = Section(start: nat, end: nat)

  /** Both ends of the range fit in `u32`. */
  predicate IsU32Section(s: Section)
  {
    s.start <= U32_MAX && s.end <= U32_MAX
  }

  /**
   * `Section::from_string`: the first two pieces between the dashes that parse as `u32`
   * become the start and the end; with fewer than two, `unwrap` panics.
   */
  function SectionFromString(range: string): (s: Option<Section>)
    ensures s.Some? <==> |ParsedU32s(Split(range, "-"))| >= 2
    ensures s.Some? ==> IsU32Section(s.value)
  {
    var ns := ParsedU32s(Split(range, "-"));
    if |ns| < 2 then None else Some(Section(ns[0], ns[1]))
  }

  /** The text `start-end` of a range. */
  function SectionText(s: Section): (t: string)
    ensures ',' !in t && '\n' !in t
  {
    DecimalFree(s.start, ',');
    DecimalFree(s.end, ',');
    DecimalFree(s.start, '\n');
    DecimalFree(s.end, '\n');
    Decimal(s.start) + "-" + Decimal(s.end)
  }

  /** Reading the text of a range of `u32` gives the range back. */
  lemma SectionRoundTrip(s: Section)
    requires IsU32Section(s)
    ensures SectionFromString(SectionText(s)) == Some(s)
  {
    var parts := [Decimal(s.start), Decimal(s.end)];
    DecimalFree(s.start, '-');
    DecimalFree(s.end, '-');
    assert Join(parts, "-") == SectionText(s) by {
      assert parts[1..] == [Decimal(s.end)];
    }
    SplitJoin(parts, '-');
    ParseDecimal(s.start, U32_MAX);
    ParseDecimal(s.end, U32_MAX);
    ParsedU32sAll(parts);
  }

  /** The section `x` lies in the range. */
  predicate Covers(s: Section, x: nat)
  {
    s.start <= x <= s.end
  }

  /** Every section of `inner` is a section of `outer`. */
  ghost predicate Contains(outer: Section, inner: Section)
  {
    forall x: nat :: Covers(inner, x) ==> Covers(outer, x)
  }

  /** `Section::intersect`: one range starts no later and ends no earlier than the other. */
  function Intersect(a: Section, b: Section): bool
  {
    (a.start <= b.start && a.end >= b.end) || (b.start <= a.start && b.end >= a.end)
  }

  /** The order of the two ranges of a pair does not matter. */
  lemma IntersectSymmetric(a: Section, b: Section)
    ensures Intersect(a, b) == Intersect(b, a)
  {
  }

  /** Despite its name, `intersect` tests containment: of two ranges that are not empty, one contains the other. */
  lemma IntersectIff(a: Section, b: Section)
    requires a.start <= a.end && b.start <= b.end
    ensures Intersect(a, b) <==> Contains(a, b) || Contains(b, a)
  {
    if Contains(a, b) {
      assert Covers(b, b.start) && Covers(b, b.end);
    }
    if Contains(b, a) {
      assert Covers(a, a.start) && Covers(a, a.end);
    }
  }

  /** Every range contains itself. */
  lemma IntersectReflexive(a: Section)
    ensures Intersect(a, a)
  {
  }

  /** Two ranges that overlap only in part are not counted. */
  lemma PartialOverlap(a: Section, b: Section)
    requires a.start < b.start <= a.end < b.end
    ensures !Intersect(a, b)
  {
  }

  /**
   * One line: the pieces between the commas are read as ranges lazily, the first two
   * only; a missing piece, or one that is not a range, panics.
   */
  function ParsePair(line: string): (r: Option<(Section, Section)>)
    ensures r.Some? ==> |Split(line, ",")| >= 2
    ensures r.Some? ==> Some(r.value.0) == SectionFromString(Split(line, ",")[0])
    ensures r.Some? ==> Some(r.value.1) == SectionFromString(Split(line, ",")[1])
  {
    var pieces := Split(line, ",");
    var first := SectionFromString(pieces[0]);
    if first.None? || |pieces| < 2 then None
    else
      var second := SectionFromString(pieces[1]);
      if second.None? then None else Some((first.value, second.value))
  }

  /** The line `a-b,c-d` of a pair of ranges. */
  function PairText(a: Section, b: Section): (t: string)
    ensures '\n' !in t
  {
    SectionText(a) + "," + SectionText(b)
  }

  /** Reading the line of two ranges of `u32` gives the pair back. */
  lemma PairRoundTrip(a: Section, b: Section)
    requires IsU32Section(a) && IsU32Section(b)
    ensures ParsePair(PairText(a, b)) == Some((a, b))
  {
    var parts := [SectionText(a), SectionText(b)];
    assert Join(parts, ",") == PairText(a, b) by {
      assert parts[1..] == [SectionText(b)];
    }
    SplitJoin(parts, ',');
    SectionRoundTrip(a);
    SectionRoundTrip(b);
  }

  /** Every line read as a pair, or a panic when one of them does not hold two ranges. */
  function ParsePairs(lines: seq<string>): (r: Option<seq<(Section, Section)>>)
    ensures r.Some? <==> forall k :: 0 <= k < |lines| ==> ParsePair(lines[k]).Some?
    ensures r.Some? ==> |r.value| == |lines|
    ensures r.Some? ==> forall k :: 0 <= k < |lines| ==> Some(r.value[k]) == ParsePair(lines[k])
  {
    if forall k :: 0 <= k < |lines| ==> ParsePair(lines[k]).Some? then
      Some(seq(|lines|, k requires 0 <= k < |lines| => ParsePair(lines[k]).value))
    else None
  }

  /** The number of pairs of the list in which one range contains the other. */
  function Contained(pairs: seq<(Section, Section)>): (n: nat)
    ensures n <= |pairs|
  {
    if pairs == [] then 0
    else (if Intersect(pairs[0].0, pairs[0].1) then 1 else 0) + Contained(pairs[1..])
  }

  /** Every pair counted, every pair nests; none counted, none nests. */
  lemma {:induction false} ContainedBounds(pairs: seq<(Section, Section)>)
    ensures Contained(pairs) == |pairs| <==> forall k :: 0 <= k < |pairs| ==> Intersect(pairs[k].0, pairs[k].1)
    ensures Contained(pairs) == 0 <==> forall k :: 0 <= k < |pairs| ==> !Intersect(pairs[k].0, pairs[k].1)
  {
    if pairs != [] {
      ContainedBounds(pairs[1..]);
      assert forall k :: 1 <= k < |pairs| ==> pairs[1..][k - 1] == pairs[k];
    }
  }

  /**
   * `main`: the lines of the input, split at every `\n`, read as pairs, and the pairs in
   * which one range contains the other counted; a line that is not a pair panics.
   */
  function CountContained(input: string): (r: Option<nat>)
    ensures r.Some? <==> ParsePairs(SplitTerminator(input, "\n")).Some?
    ensures r.Some? ==> r.value <= |SplitTerminator(input, "\n")|
  {
    match ParsePairs(SplitTerminator(input, "\n"))
    case Some(pairs) => Some(Contained(pairs))
    case None => None
  }

  /** The lines of a list of pairs, each written as `a-b,c-d`. */
  function PairLines(pairs: seq<(Section, Section)>): (lines: seq<string>)
    ensures |lines| == |pairs|
    ensures forall k :: 0 <= k < |pairs| ==> lines[k] == PairText(pairs[k].0, pairs[k].1)
  {
    seq(|pairs|, k requires 0 <= k < |pairs| => PairText(pairs[k].0, pairs[k].1))
  }

  /** Reading the lines written for a list of pairs gives the pairs back. */
  lemma ParsePairsLines(pairs: seq<(Section, Section)>)
    requires forall k :: 0 <= k < |pairs| ==> IsU32Section(pairs[k].0) && IsU32Section(pairs[k].1)
    ensures ParsePairs(PairLines(pairs)) == Some(pairs)
  {
    var lines := PairLines(pairs);
    forall k | 0 <= k < |pairs|
      ensures ParsePair(lines[k]) == Some(pairs[k])
    {
      PairRoundTrip(pairs[k].0, pairs[k].1);
    }
    var r := ParsePairs(lines);
    assert r.Some?;
    assert r.value == pairs;
  }

  /** The input of the pairs, one line each, ends with a line feed; the answer counts the nesting pairs. */
  lemma CountContainedText(pairs: seq<(Section, Section)>)
    requires forall k :: 0 <= k < |pairs| ==> IsU32Section(pairs[k].0) && IsU32Section(pairs[k].1)
    ensures CountContained(Unlines(PairLines(pairs))) == Some(Contained(pairs))
  {
    var lines := PairLines(pairs);
    SplitUnlines(lines);
    var p := Split(Unlines(lines), "\n");
    assert p[|p| - 1] == [];
    assert SplitTerminator(Unlines(lines), "\n") == lines;
    ParsePairsLines(pairs);
  }

  /** Six pairs of which two nest, `2-8,3-7` and `6-6,4-6`, and four do not. */
  lemma ExampleCount()
    ensures Contained([
      (Section(2, 4), Section(6, 8)), (Section(2, 3), Section(4, 5)), (Section(5, 7), Section(7, 9)),
      (Section(2, 8), Section(3, 7)), (Section(6, 6), Section(4, 6)), (Section(2, 6), Section(4, 8))]) == 2
  {
  }
}
