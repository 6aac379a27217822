/**
 * 2023 day 6, toy boat races. Holding the button for `h` milliseconds of a race that
 * lasts `time` milliseconds moves the boat `h * (time - h)` millimetres; the winning
 * holding times are those that beat the race's record distance. Part one multiplies the
 * numbers of winning times of the races listed in columns; part two reads all the digits
 * of each line as one race.
 */
module BoatRace {
  import opened Common
  import opened Text

  /** `Race { time, distance }`: the length of the race and its record distance, both `u64`. */
  datatype Race = Race(time: nat, distance: nat)

  /** Facts about `h * t - h * h` that the distance needs. */
  lemma DistanceArith(h: nat, t: nat)
    ensures h <= t ==> h * h <= h * t && h * (t - h) == h * t - h * h
    ensures h > t ==> h * h > h * t
  {
    if h <= t {
      assert h * t == h * h + h * (t - h);
    } else {
      assert h * h == h * t + h * (h - t);
    }
  }

  /**
   * `get_distance`: `h * time - h * h` in `u64`. A product beyond `u64`, or a holding
   * time longer than the race, makes the arithmetic panic.
   */
  function GetDistance(r: Race, h: nat): (d: Option<nat>)
    ensures d.Some? <==> h <= r.time && h * r.time <= U64_MAX
    ensures d.Some? ==> d.value == h * (r.time - h)
  {
    DistanceArith(h, r.time);
    if h * r.time > U64_MAX || h * h > U64_MAX || h * h > h * r.time then None
    else Some(h * r.time - h * h)
  }

  /** `a * b <= a * c` when `b <= c`. */
  lemma MulMonotone(a: nat, b: nat, c: nat)
    requires b <= c
    ensures a * b <= a * c
  {
    assert a * c == a * b + a * (c - b);
  }

  /** Holding for `h` or for `time - h` goes equally far, and both fit when `time * time` does. */
  lemma DistanceSymmetric(r: Race, h: nat)
    requires h <= r.time && r.time * r.time <= U64_MAX
    ensures GetDistance(r, h).Some? && GetDistance(r, h) == GetDistance(r, r.time - h)
  {
    MulMonotone(r.time, h, r.time);
    MulMonotone(r.time, r.time - h, r.time);
    assert (r.time - h) * (r.time - (r.time - h)) == h * (r.time - h);
  }

  /** The distances for the holding times `0..n`, or a panic when one of them panics. */
  function DistancesUpTo(r: Race, n: nat): (ds: Option<seq<nat>>)
    ensures ds.Some? ==> |ds.value| == n
  {
    if n == 0 then Some([])
    else
      var front := DistancesUpTo(r, n - 1);
      var last := GetDistance(r, n - 1);
      if front.None? || last.None? then None else Some(front.value + [last.value])
  }

  /** The distances up to `n` exist exactly when each of them does, and entry `h` is the distance for `h`. */
  lemma {:induction false} DistancesUpToMeans(r: Race, n: nat)
    ensures DistancesUpTo(r, n).Some? <==> forall h :: 0 <= h < n ==> GetDistance(r, h).Some?
    ensures DistancesUpTo(r, n).Some? ==> forall h :: 0 <= h < n ==> GetDistance(r, h) == Some(DistancesUpTo(r, n).value[h])
  {
    if n > 0 {
      DistancesUpToMeans(r, n - 1);
    }
  }

  /** Every holding time up to the race's length fits exactly when the longest one does. */
  lemma AllDistancesFit(r: Race)
    ensures (forall h :: 0 <= h < r.time + 1 ==> GetDistance(r, h).Some?) <==> r.time * r.time <= U64_MAX
  {
    if r.time * r.time <= U64_MAX {
      forall h | 0 <= h < r.time + 1
        ensures GetDistance(r, h).Some?
      {
        MulMonotone(r.time, h, r.time);
      }
    } else {
      assert GetDistance(r, r.time).None?;
    }
  }

  /**
   * `get_all_distances`: the distance for every holding time from 0 to the race's
   * length, which panics when `time * time` exceeds `u64`.
   */
  function GetAllDistances(r: Race): (ds: Option<seq<nat>>)
    ensures ds.Some? <==> r.time * r.time <= U64_MAX
    ensures ds.Some? ==> |ds.value| == r.time + 1
    ensures ds.Some? ==> forall h :: 0 <= h <= r.time ==> ds.value[h] == h * (r.time - h)
  {
    DistancesUpToMeans(r, r.time + 1);
    AllDistancesFit(r);
    DistancesUpTo(r, r.time + 1)
  }

  /** The indexes below `n` whose distance beats `record`, in increasing order. */
  function Winners(ds: seq<nat>, record: nat, n: nat): (ws: seq<nat>)
    requires n <= |ds|
    ensures |ws| <= n
  {
    if n == 0 then [] else Winners(ds, record, n - 1) + (if ds[n - 1] > record then [n - 1] else [])
  }

  /** An index is listed exactly when it is below `n` and its distance beats the record. */
  lemma {:induction false} WinnersMembers(ds: seq<nat>, record: nat, n: nat, i: nat)
    requires n <= |ds|
    ensures i in Winners(ds, record, n) <==> i < n && ds[i] > record
  {
    if n > 0 {
      WinnersMembers(ds, record, n - 1, i);
    }
  }

  /** Every listed index is below `n`. */
  lemma {:induction false} WinnersBelow(ds: seq<nat>, record: nat, n: nat)
    requires n <= |ds|
    ensures forall k :: 0 <= k < |Winners(ds, record, n)| ==> Winners(ds, record, n)[k] < n
  {
    if n > 0 {
      WinnersBelow(ds, record, n - 1);
    }
  }

  /** The listed indexes are strictly increasing. */
  lemma {:induction false} WinnersIncreasing(ds: seq<nat>, record: nat, n: nat)
    requires n <= |ds|
    ensures forall j, k :: 0 <= j < k < |Winners(ds, record, n)| ==> Winners(ds, record, n)[j] < Winners(ds, record, n)[k]
  {
    if n > 0 {
      WinnersIncreasing(ds, record, n - 1);
      WinnersBelow(ds, record, n - 1);
    }
  }

  /**
   * `get_winning_times`: the holding times whose distance beats the record, in
   * increasing order; a panic when the distances do.
   */
  function GetWinningTimes(r: Race): (ws: Option<seq<nat>>)
    ensures ws.Some? <==> r.time * r.time <= U64_MAX
  {
    match GetAllDistances(r)
    case None => None
    case Some(ds) => Some(Winners(ds, r.distance, |ds|))
  }

  /** A holding time wins exactly when it is within the race and goes farther than the record. */
  lemma WinningTimesMeans(r: Race, h: nat)
    requires r.time * r.time <= U64_MAX
    ensures h in GetWinningTimes(r).value <==> h <= r.time && h * (r.time - h) > r.distance
  {
    var ds := GetAllDistances(r).value;
    WinnersMembers(ds, r.distance, |ds|, h);
  }

  /** The winning times are listed in strictly increasing order. */
  lemma WinningTimesIncreasing(r: Race)
    requires r.time * r.time <= U64_MAX
    ensures var ws := GetWinningTimes(r).value;
      forall j, k :: 0 <= j < k < |ws| ==> ws[j] < ws[k]
  {
    var ds := GetAllDistances(r).value;
    WinnersIncreasing(ds, r.distance, |ds|);
  }

  /** The numbers `a`, `a + 1`, ..., `b - 1`. */
  function Span(a: nat, b: nat): (s: seq<nat>)
    ensures |s| == if b <= a then 0 else b - a
    ensures forall k :: 0 <= k < |s| ==> s[k] == a + k
    decreases b
  {
    if b <= a then [] else Span(a, b - 1) + [b - 1]
  }

  /** When the beating indexes are exactly those in `[lo, hi)`, the list below `n` is that interval cut at `n`. */
  lemma {:induction false} WinnersSpan(ds: seq<nat>, record: nat, lo: nat, hi: nat, n: nat)
    requires n <= |ds|
    requires forall i :: 0 <= i < |ds| ==> (ds[i] > record <==> lo <= i < hi)
    ensures Winners(ds, record, n) == Span(lo, Min(n, hi))
  {
    if n > 0 {
      WinnersSpan(ds, record, lo, hi, n - 1);
    }
  }

  /** The distance grows with the holding time up to half the race. */
  lemma TravelMonotone(t: nat, a: nat, b: nat)
    requires a <= b && a + b <= t
    ensures a * (t - a) <= b * (t - b)
  {
    var x := b - a;
    var y := t - a - b;
    assert b * (t - b) == a * (t - a) + x * y;
  }

  /**
   * When `lo` is the shortest winning holding time, at most half the race, the winning
   * times are exactly those from `lo` to `time - lo`.
   */
  lemma WinsIff(t: nat, d: nat, lo: nat, h: nat)
    requires 0 < lo && 2 * lo <= t
    requires lo * (t - lo) > d && (lo - 1) * (t - (lo - 1)) <= d
    requires h <= t
    ensures h * (t - h) > d <==> lo <= h <= t - lo
  {
    var m := Min(h, t - h);
    assert m * (t - m) == h * (t - h);
    if m < lo {
      TravelMonotone(t, m, lo - 1);
    } else {
      TravelMonotone(t, lo, m);
    }
  }

  /** With `lo` as above, the winning times are `lo..=time - lo`, so there are `time - 2 * lo + 1` of them. */
  lemma WinningTimesInterval(r: Race, lo: nat)
    requires r.time * r.time <= U64_MAX
    requires 0 < lo && 2 * lo <= r.time
    requires lo * (r.time - lo) > r.distance && (lo - 1) * (r.time - (lo - 1)) <= r.distance
    ensures GetWinningTimes(r) == Some(Span(lo, r.time - lo + 1))
    ensures |GetWinningTimes(r).value| == r.time - 2 * lo + 1
  {
    var ds := GetAllDistances(r).value;
    forall i | 0 <= i < |ds|
      ensures ds[i] > r.distance <==> lo <= i < r.time - lo + 1
    {
      WinsIff(r.time, r.distance, lo, i);
    }
    WinnersSpan(ds, r.distance, lo, r.time - lo + 1, |ds|);
  }

  /** `Product(s + [x])` is `Product(s) * x`. */
  lemma {:induction false} ProductSnoc(s: seq<nat>, x: nat)
    ensures Product(s + [x]) == Product(s) * x
  {
    if s != [] {
      assert (s + [x])[1..] == s[1..] + [x];
      ProductSnoc(s[1..], x);
      assert s[0] * (Product(s[1..]) * x) == (s[0] * Product(s[1..])) * x;
    }
  }

  /**
   * `reduce(|acc, cur| acc * cur)` on `usize`, then `unwrap`: no result for an empty list,
   * and a panic once a partial product exceeds 64 bits.
   */
  function ReduceProduct(ns: seq<nat>): (r: Option<nat>)
    ensures r.Some? ==> ns != [] && r.value <= U64_MAX
  {
    if |ns| == 0 then None
    else if |ns| == 1 then (if ns[0] <= U64_MAX then Some(ns[0]) else None)
    else
      var acc := ReduceProduct(ns[..|ns| - 1]);
      if acc.None? || acc.value * ns[|ns| - 1] > U64_MAX then None else Some(acc.value * ns[|ns| - 1])
  }

  /** Every partial product of the list fits in 64 bits. */
  ghost predicate PrefixProductsFit(ns: seq<nat>)
  {
    forall k :: 1 <= k <= |ns| ==> Product(ns[..k]) <= U64_MAX
  }

  /** The partial products of a list fit when those of its front do and the whole product does. */
  lemma PrefixProductsFitSnoc(ns: seq<nat>)
    requires |ns| > 0
    ensures PrefixProductsFit(ns) <==> PrefixProductsFit(ns[..|ns| - 1]) && Product(ns) <= U64_MAX
  {
    var front := ns[..|ns| - 1];
    assert ns[..|ns|] == ns;
    if PrefixProductsFit(front) && Product(ns) <= U64_MAX {
      forall k | 1 <= k <= |ns|
        ensures Product(ns[..k]) <= U64_MAX
      {
        if k < |ns| {
          assert front[..k] == ns[..k];
        }
      }
    }
    if PrefixProductsFit(ns) {
      forall k | 1 <= k <= |front|
        ensures Product(front[..k]) <= U64_MAX
      {
        assert front[..k] == ns[..k];
      }
    }
  }

  /** The product is there exactly when the list is nonempty and no partial product overflows, and it is the product of the list. */
  lemma {:induction false} ReduceProductMeans(ns: seq<nat>)
    ensures ReduceProduct(ns).Some? <==> ns != [] && PrefixProductsFit(ns)
    ensures ReduceProduct(ns).Some? ==> ReduceProduct(ns).value == Product(ns)
  {
    if |ns| == 1 {
      assert ns[..1] == ns;
      assert Product(ns) == ns[0] by {
        assert ns[1..] == [];
      }
    } else if |ns| > 1 {
      var front := ns[..|ns| - 1];
      var last := ns[|ns| - 1];
      ReduceProductMeans(front);
      assert Product(ns) == Product(front) * last by {
        assert ns == front + [last];
        ProductSnoc(front, last);
      }
      PrefixProductsFitSnoc(ns);
    }
  }

  /** The number of winning times of each race, or a panic when one of them panics. */
  function Counts(races: seq<Race>): (cs: Option<seq<nat>>)
    ensures cs.Some? ==> |cs.value| == |races|
  {
    if races == [] then Some([])
    else
      var front := Counts(races[..|races| - 1]);
      var last := GetWinningTimes(races[|races| - 1]);
      if front.None? || last.None? then None else Some(front.value + [|last.value|])
  }

  /** The counts exist exactly when every race's winning times do, and count `k` is the number of race `k`'s winning times. */
  lemma {:induction false} CountsMeans(races: seq<Race>)
    ensures Counts(races).Some? <==> forall k :: 0 <= k < |races| ==> GetWinningTimes(races[k]).Some?
    ensures Counts(races).Some? ==> forall k :: 0 <= k < |races| ==> Counts(races).value[k] == |GetWinningTimes(races[k]).value|
  {
    if races != [] {
      var front := races[..|races| - 1];
      CountsMeans(front);
      assert forall k :: 0 <= k < |front| ==> front[k] == races[k];
    }
  }

  /** `get_part_one`: the product of the numbers of winning times; a panic for no races or on overflow. */
  function GetPartOne(races: seq<Race>): (r: Option<nat>)
    ensures r.Some? ==> races != []
  {
    match Counts(races)
    case None => None
    case Some(cs) => ReduceProduct(cs)
  }

  /** Part one is the product of the winning-time counts of the races, when it is there. */
  lemma PartOneMeans(races: seq<Race>)
    ensures GetPartOne(races).Some? <==> Counts(races).Some? && races != [] && PrefixProductsFit(Counts(races).value)
    ensures GetPartOne(races).Some? ==> GetPartOne(races).value == Product(Counts(races).value)
  {
    if Counts(races).Some? {
      ReduceProductMeans(Counts(races).value);
    }
  }

  /**
   * The `zip` of the time and distance columns. The zip asks for the next time before the
   * next distance, so a time word beyond the last distance is still parsed and may panic.
   */
  function ZipRaces(ts: seq<string>, ds: seq<string>): (r: Option<seq<Race>>)
    ensures r.Some? ==> |r.value| == Min(|ts|, |ds|)
  {
    if ts == [] then Some([])
    else
      var t := ParseUnsigned(ts[0], U64_MAX);
      if t.None? then None
      else if ds == [] then Some([])
      else
        var d := ParseUnsigned(ds[0], U64_MAX);
        var rest := ZipRaces(ts[1..], ds[1..]);
        if d.None? || rest.None? then None else Some([Race(t.value, d.value)] + rest.value)
  }

  /** Race `k` of the zip has the values of time word `k` and distance word `k`. */
  lemma {:induction false} ZipRacesAt(ts: seq<string>, ds: seq<string>, k: nat)
    requires ZipRaces(ts, ds).Some? && k < |ZipRaces(ts, ds).value|
    ensures ParseUnsigned(ts[k], U64_MAX) == Some(ZipRaces(ts, ds).value[k].time)
    ensures ParseUnsigned(ds[k], U64_MAX) == Some(ZipRaces(ts, ds).value[k].distance)
  {
    if k > 0 {
      ZipRacesAt(ts[1..], ds[1..], k - 1);
    }
  }

  /** Pair `k` of the columns has a word that is not a `u64`. */
  predicate BadAt(ts: seq<string>, ds: seq<string>, k: nat)
    requires k < |ts| && k < |ds|
  {
    ParseUnsigned(ts[k], U64_MAX).None? || ParseUnsigned(ds[k], U64_MAX).None?
  }

  /** The zip reaches a word that is not a `u64`: in one of the pairs, or the time just past the last distance. */
  ghost predicate ZipFails(ts: seq<string>, ds: seq<string>)
  {
    (exists k :: 0 <= k < |ts| && k < |ds| && BadAt(ts, ds, k))
    || (|ts| > |ds| && ParseUnsigned(ts[|ds|], U64_MAX).None?)
  }

  lemma ZipFailsStep(ts: seq<string>, ds: seq<string>)
    requires ts != [] && ds != []
    ensures ZipFails(ts, ds) <==> BadAt(ts, ds, 0) || ZipFails(ts[1..], ds[1..])
  {
    if exists k :: 0 <= k < |ts| - 1 && k < |ds| - 1 && BadAt(ts[1..], ds[1..], k) {
      var k :| 0 <= k < |ts| - 1 && k < |ds| - 1 && BadAt(ts[1..], ds[1..], k);
      assert BadAt(ts, ds, k + 1);
    }
    if exists k :: 1 <= k < |ts| && k < |ds| && BadAt(ts, ds, k) {
      var k :| 1 <= k < |ts| && k < |ds| && BadAt(ts, ds, k);
      assert BadAt(ts[1..], ds[1..], k - 1);
    }
    if |ts| > |ds| {
      assert ts[1..][|ds| - 1] == ts[|ds|];
    }
  }

  /** The zip panics exactly when it reaches a word that is not a `u64`. */
  lemma {:induction false} ZipRacesNone(ts: seq<string>, ds: seq<string>)
    ensures ZipRaces(ts, ds).None? <==> ZipFails(ts, ds)
  {
    if ts != [] && ds != [] {
      ZipRacesNone(ts[1..], ds[1..]);
      ZipFailsStep(ts, ds);
    }
  }

  /** `Race::from_str` for part one: the words after the label of the first two lines, zipped into races. */
  function ParseRaces(s: string): (r: Option<seq<Race>>)
  {
    var lines := Lines(s);
    if |lines| < 2 then None
    else ZipRaces(Skip1(SplitWhitespace(lines[0])), Skip1(SplitWhitespace(lines[1])))
  }

  /** `split_whitespace().skip(1).join("").parse::<u64>()`: the words after the label, run together into one number. */
  function ParseJoined(line: string): (r: Option<nat>)
    ensures r.Some? ==> r.value <= U64_MAX
  {
    ParseUnsigned(Concat(Skip1(SplitWhitespace(line))), U64_MAX)
  }

  /** The words after a label, run together, are the characters after the label that are not whitespace. */
  lemma JoinedAfterLabel(tag: string, rest: string)
    requires IsWord(tag) && (rest == [] || IsWhitespace(rest[0]))
    ensures Concat(Skip1(SplitWhitespace(tag + rest))) == NonWhitespace(rest)
  {
    SplitWhitespaceWord(tag, rest);
    SplitWhitespaceKeepsText(rest);
  }

  /** `<Race as FromStr>::from_str` for part two: one race from the digits of the first two lines. */
  function RaceFromStr(s: string): (r: Option<Race>)
    ensures r.Some? ==> r.value.time <= U64_MAX && r.value.distance <= U64_MAX
  {
    var lines := Lines(s);
    if |lines| < 2 then None
    else
      match ParseJoined(lines[0])
      case None => None
      case Some(t) =>
        match ParseJoined(lines[1])
        case None => None
        case Some(d) => Some(Race(t, d))
  }

  /** Part two in `main`: the number of ways to win the single race. */
  function PartTwo(s: string): (r: Option<nat>)
  {
    match RaceFromStr(s)
    case None => None
    case Some(race) =>
      match GetWinningTimes(race)
      case None => None
      case Some(ws) => Some(|ws|)
  }

  function Times(races: seq<Race>): (ts: seq<nat>)
    ensures |ts| == |races| && forall k :: 0 <= k < |races| ==> ts[k] == races[k].time
  {
    seq(|races|, k requires 0 <= k < |races| => races[k].time)
  }

  function Distances(races: seq<Race>): (ds: seq<nat>)
    ensures |ds| == |races| && forall k :: 0 <= k < |races| ==> ds[k] == races[k].distance
  {
    seq(|races|, k requires 0 <= k < |races| => races[k].distance)
  }

  /** The races as the puzzle writes them: a `Time:` line and a `Distance:` line of numbers. */
  function RacesText(races: seq<Race>): string
  {
    Join(["Time:"] + Decimals(Times(races)), " ") + "\n" + Join(["Distance:"] + Decimals(Distances(races)), " ")
  }

  /** Every number of the races fits in `u64`. */
  predicate RacesFitU64(races: seq<Race>)
  {
    forall k :: 0 <= k < |races| ==> races[k].time <= U64_MAX && races[k].distance <= U64_MAX
  }

  /** The two lines of the races' text. */
  lemma RacesTextLines(races: seq<Race>)
    ensures Lines(RacesText(races)) == [Join(["Time:"] + Decimals(Times(races)), " "), Join(["Distance:"] + Decimals(Distances(races)), " ")]
  {
    var l0 := Join(["Time:"] + Decimals(Times(races)), " ");
    var l1 := Join(["Distance:"] + Decimals(Distances(races)), " ");
    LabelledLineShape("Time:", Times(races));
    LabelledLineShape("Distance:", Distances(races));
    assert Join([l0, l1], "\n") == RacesText(races);
    LinesJoin([l0, l1]);
  }

  /** A labelled line of numbers is not empty, holds no line feed and does not end in a carriage return. */
  lemma LabelledLineShape(tag: string, ns: seq<nat>)
    requires |tag| > 0 && '\n' !in tag && tag[|tag| - 1] != '\r'
    ensures var line := Join([tag] + Decimals(ns), " ");
      |line| > 0 && '\n' !in line && line[|line| - 1] != '\r'
  {
    if ns == [] {
      assert [tag] + Decimals(ns) == [tag];
    } else {
      NumbersLineShape([tag], ns);
    }
  }

  /** Zipping the decimals of two columns of `u64` numbers gives the races back. */
  lemma {:induction false} ZipDecimals(races: seq<Race>)
    requires RacesFitU64(races)
    ensures ZipRaces(Decimals(Times(races)), Decimals(Distances(races))) == Some(races)
  {
    if races != [] {
      var ts, ds := Decimals(Times(races)), Decimals(Distances(races));
      assert ts[0] == Decimal(races[0].time) && ds[0] == Decimal(races[0].distance);
      assert ts[1..] == Decimals(Times(races[1..])) by {
        assert Times(races)[1..] == Times(races[1..]);
      }
      assert ds[1..] == Decimals(Distances(races[1..])) by {
        assert Distances(races)[1..] == Distances(races[1..]);
      }
      ParseDecimal(races[0].time, U64_MAX);
      ParseDecimal(races[0].distance, U64_MAX);
      ZipDecimals(races[1..]);
      assert races == [races[0]] + races[1..];
    }
  }

  /** Races written in the puzzle's format parse back to themselves. */
  lemma ParseRacesText(races: seq<Race>)
    requires RacesFitU64(races)
    ensures ParseRaces(RacesText(races)) == Some(races)
  {
    RacesTextLines(races);
    LabelsAreWords();
    LabelledWords("Time:", Times(races));
    LabelledWords("Distance:", Distances(races));
    ZipDecimals(races);
  }

  /** The number whose digits are those of `ns`, written one after another. */
  function JoinedValue(ns: seq<nat>): nat
  {
    ConcatDecimals(ns);
    DigitsValue(Concat(Decimals(ns)))
  }

  lemma LabelsAreWords()
    ensures IsWord("Time:") && IsWord("Distance:")
  {
  }

  /** A labelled line of numbers read as one number: the numbers' digits run together. */
  lemma JoinedLine(tag: string, ns: seq<nat>)
    requires IsWord(tag) && ns != []
    ensures ParseJoined(Join([tag] + Decimals(ns), " ")) ==
      if JoinedValue(ns) <= U64_MAX then Some(JoinedValue(ns)) else None
  {
    LabelledWords(tag, ns);
    ConcatDecimals(ns);
  }

  /** Part two reads the digits of each line of the races' text, run together, as one race. */
  lemma RaceFromRacesText(races: seq<Race>)
    requires races != []
    ensures RaceFromStr(RacesText(races)) ==
      var t := JoinedValue(Times(races));
      var d := JoinedValue(Distances(races));
      if t <= U64_MAX && d <= U64_MAX then Some(Race(t, d)) else None
  {
    RacesTextLines(races);
    LabelsAreWords();
    JoinedLine("Time:", Times(races));
    JoinedLine("Distance:", Distances(races));
  }

  /** Decimals run together form a string of digits that does not start with `+`, and it is not empty when there are numbers. */
  lemma {:induction false} ConcatDecimals(ns: seq<nat>)
    ensures AllDigits(Concat(Decimals(ns)))
    ensures ns != [] ==> |Concat(Decimals(ns))| > 0
    ensures UnsignedDigits(Concat(Decimals(ns))) == Concat(Decimals(ns))
  {
    if ns != [] {
      ConcatDecimals(ns[1..]);
      var c := Concat(Decimals(ns));
      assert c == Decimal(ns[0]) + Concat(Decimals(ns[1..]));
      assert c[0] == Decimal(ns[0])[0];
      assert IsDigit(c[0]);
    }
  }
}

/** The unit tests of `2023/day-06/src/main.rs` (lines 90-180), stated as lemmas. */
module BoatRaceExamples {
  import opened Common
  import opened Text
  import opened BoatRace

  /** The races of the puzzle's example. */
  function Example(): seq<Race>
  {
    [Race(7, 9), Race(15, 40), Race(30, 200)]
  }

  /** Test `distance`: holding 0 to 7 ms in the 7 ms race goes 0, 6, 10, 12, 12, 10, 6 and 0 mm. */
  lemma Distance()
    ensures GetDistance(Race(7, 9), 0) == Some(0) && GetDistance(Race(7, 9), 1) == Some(6)
    ensures GetDistance(Race(7, 9), 2) == Some(10) && GetDistance(Race(7, 9), 3) == Some(12)
    ensures GetDistance(Race(7, 9), 4) == Some(12) && GetDistance(Race(7, 9), 5) == Some(10)
    ensures GetDistance(Race(7, 9), 6) == Some(6) && GetDistance(Race(7, 9), 7) == Some(0)
  {
  }

  /** Test `all_disances`. */
  lemma AllDistances()
    ensures GetAllDistances(Race(7, 9)) == Some([0, 6, 10, 12, 12, 10, 6, 0])
  {
    assert 7 * 7 <= U64_MAX;
    var ds := GetAllDistances(Race(7, 9)).value;
    var expected: seq<nat> := [0, 6, 10, 12, 12, 10, 6, 0];
    assert |ds| == 8;
    assert forall h :: 0 <= h < 8 ==> ds[h] == h * (7 - h) == expected[h];
    assert ds == expected;
  }

  /** Test `winning_times`: holding 2 to 5 ms beats the record of 9 mm. */
  lemma WinningTimes()
    ensures GetWinningTimes(Race(7, 9)) == Some([2, 3, 4, 5])
  {
    WinningTimesInterval(Race(7, 9), 2);
    assert Span(2, 6) == [2, 3, 4, 5];
  }

  /** Test `parse`: the example's columns, as the puzzle writes them, parse to its three races. */
  lemma Parse()
    ensures ParseRaces(RacesText(Example())) == Some(Example())
  {
    ParseRacesText(Example());
  }

  /** The counts of three races are the numbers of their winning times. */
  lemma Counts3(r0: Race, r1: Race, r2: Race, n0: nat, n1: nat, n2: nat)
    requires GetWinningTimes(r0).Some? && |GetWinningTimes(r0).value| == n0
    requires GetWinningTimes(r1).Some? && |GetWinningTimes(r1).value| == n1
    requires GetWinningTimes(r2).Some? && |GetWinningTimes(r2).value| == n2
    ensures Counts([r0, r1, r2]) == Some([n0, n1, n2])
  {
    CountsMeans([r0, r1, r2]);
    var cs := Counts([r0, r1, r2]).value;
    assert cs == [n0, n1, n2];
  }

  lemma ExampleCounts()
    ensures Counts(Example()) == Some([4, 8, 9])
  {
    WinningTimesInterval(Race(7, 9), 2);
    WinningTimesInterval(Race(15, 40), 4);
    WinningTimesInterval(Race(30, 200), 11);
    Counts3(Race(7, 9), Race(15, 40), Race(30, 200), 4, 8, 9);
  }

  /** Three counts whose partial products fit multiply to their product. */
  lemma Reduce3(a: nat, b: nat, c: nat)
    requires a <= U64_MAX && a * b <= U64_MAX && a * b * c <= U64_MAX
    ensures ReduceProduct([a, b, c]) == Some(a * b * c)
  {
    assert [a, b, c][..2] == [a, b] && [a, b][..1] == [a];
    assert ReduceProduct([a]) == Some(a);
    assert ReduceProduct([a, b]) == Some(a * b);
  }

  /** Test `part_one`: the example's margin is 4 * 8 * 9 = 288. */
  lemma PartOne()
    ensures GetPartOne(Example()) == Some(288)
  {
    ExampleCounts();
    Reduce3(4, 8, 9);
  }

  lemma DecimalsCons(n: nat, ns: seq<nat>)
    ensures Decimals([n] + ns) == [Decimal(n)] + Decimals(ns)
  {
    assert ([n] + ns)[1..] == ns;
  }

  lemma ConcatCons(w: string, ws: seq<string>)
    ensures Concat([w] + ws) == w + Concat(ws)
  {
    assert ([w] + ws)[1..] == ws;
  }

  lemma Concat3(a: nat, b: nat, c: nat)
    ensures Concat(Decimals([a, b, c])) == Decimal(a) + Decimal(b) + Decimal(c)
  {
    var da, db, dc := Decimal(a), Decimal(b), Decimal(c);
    assert Decimals([a, b, c]) == [da, db, dc] by {
      assert Decimals([c]) == [dc] by {
        DecimalsCons(c, []);
      }
      assert Decimals([b, c]) == [db, dc] by {
        DecimalsCons(b, [c]);
        assert [b] + [c] == [b, c];
      }
      DecimalsCons(a, [b, c]);
      assert [a] + [b, c] == [a, b, c];
    }
    assert Concat([da, db, dc]) == da + db + dc by {
      assert Concat([dc]) == dc by {
        ConcatCons(dc, []);
      }
      assert Concat([db, dc]) == db + dc by {
        ConcatCons(db, [dc]);
        assert [db] + [dc] == [db, dc];
      }
      ConcatCons(da, [db, dc]);
      assert [da] + [db, dc] == [da, db, dc];
    }
  }

  /** The value of three digit strings written one after another. */
  lemma DigitsValue3(p: string, q: string, r: string)
    requires AllDigits(p) && AllDigits(q) && AllDigits(r)
    ensures AllDigits(p + q + r)
    ensures DigitsValue(p + q + r) == (DigitsValue(p) * Pow10(|q|) + DigitsValue(q)) * Pow10(|r|) + DigitsValue(r)
  {
    DigitsValueAppend(p, q);
    DigitsValueAppend(p + q, r);
  }

  /** Three numbers' digits run together. */
  lemma Joined3(a: nat, b: nat, c: nat)
    ensures JoinedValue([a, b, c]) == (a * Pow10(|Decimal(b)|) + b) * Pow10(|Decimal(c)|) + c
  {
    Concat3(a, b, c);
    DigitsValue3(Decimal(a), Decimal(b), Decimal(c));
    DecimalValue(a);
    DecimalValue(b);
    DecimalValue(c);
  }

  /** Two- and three-digit numbers have two- and three-character renderings. */
  lemma DecimalWidth(n: nat)
    ensures 10 <= n < 100 ==> |Decimal(n)| == 2
    ensures 100 <= n < 1000 ==> |Decimal(n)| == 3
  {
    if n >= 10 {
      assert |Decimal(n)| == |Decimal(n / 10)| + 1;
    }
  }

  lemma ExampleColumns()
    ensures Times(Example()) == [7, 15, 30] && Distances(Example()) == [9, 40, 200]
  {
  }

  lemma Pow10Small()
    ensures Pow10(2) == 100 && Pow10(3) == 1000
  {
  }

  lemma JoinedTimes()
    ensures JoinedValue([7, 15, 30]) == 71530
  {
    Joined3(7, 15, 30);
    DecimalWidth(15);
    DecimalWidth(30);
    Pow10Small();
  }

  lemma JoinedDistances()
    ensures JoinedValue([9, 40, 200]) == 940200
  {
    Joined3(9, 40, 200);
    DecimalWidth(40);
    DecimalWidth(200);
    Pow10Small();
  }

  lemma JoinedExample()
    ensures JoinedValue(Times(Example())) == 71530 && JoinedValue(Distances(Example())) == 940200
  {
    ExampleColumns();
    JoinedTimes();
    JoinedDistances();
  }

  /** Test `parse_single_race`: the example's digits, run together, are one race of 71530 ms with record 940200 mm. */
  lemma ParseSingleRace()
    ensures RaceFromStr(RacesText(Example())) == Some(Race(71530, 940200))
  {
    RaceFromRacesText(Example());
    JoinedExample();
  }

  /** Part two counts the winning times of the race that the text parses to. */
  lemma PartTwoOf(s: string, r: Race, n: nat)
    requires RaceFromStr(s) == Some(r) && GetWinningTimes(r).Some? && |GetWinningTimes(r).value| == n
    ensures PartTwo(s) == Some(n)
  {
  }

  /** The joined race is won by holding 14 to 71516 ms: holding 14 beats the record, holding 13 does not. */
  lemma JoinedRaceWinners()
    ensures GetWinningTimes(Race(71530, 940200)).Some?
    ensures |GetWinningTimes(Race(71530, 940200)).value| == 71503
  {
    var r := Race(71530, 940200);
    assert r.time * r.time <= U64_MAX by {
      assert 71530 * 71530 == 5116540900;
    }
    assert 14 * (r.time - 14) > r.distance by {
      assert 14 * 71516 == 1001224;
    }
    assert 13 * (r.time - 13) <= r.distance by {
      assert 13 * 71517 == 929721;
    }
    WinningTimesInterval(r, 14);
  }

  /** Test `part_two`: that race is won 71503 ways. */
  lemma PartTwoExample()
    ensures PartTwo(RacesText(Example())) == Some(71503)
  {
    ParseSingleRace();
    JoinedRaceWinners();
    PartTwoOf(RacesText(Example()), Race(71530, 940200), 71503);
  }
}
