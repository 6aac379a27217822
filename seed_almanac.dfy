/**
 * 2023 day 5, `main.rs`: an almanac of seeds and of maps that send the numbers of one
 * category to the next. A map is a list of ranges `(destination, source, length)`.
 * Converting a number emits its image under every range whose source interval holds it,
 * in the order of the ranges, or the number itself when no range holds it. The locations
 * are the seeds converted by every map in turn. Part two reads the seeds as
 * `(start, length)` pairs and takes the lowest location of any seed in those intervals.
 */
module SeedAlmanac {
  import opened Common
  import opened Text

  /** `(destination_range_start, source_range_start, range_len)`. */
  datatype Range = Range(destination: nat, source: nat, length: nat)

  /** `Almanac { seeds, maps }`. */
  datatype Almanac = Almanac(seeds: seq<nat>, maps: seq<seq<Range>>)

  // ---------------------------------------------------------------------------
  // Converting numbers through one map

  /** The source interval `[source, source + length)` of the range holds `n`. */
  predicate Holds(r: Range, n: nat)
  {
    r.source <= n < r.source + r.length
  }

  /** `number - s_range_start + d_range_start`: where the range sends a number it holds. */
  function Image(r: Range, n: nat): (m: nat)
    requires Holds(r, n)
    ensures r.destination <= m < r.destination + r.length
  {
    n - r.source + r.destination
  }

  /** The images of `n` under the ranges that hold it, in the order of the ranges. */
  function Matches(rs: seq<Range>, n: nat): (m: seq<nat>)
    ensures |m| <= |rs|
  {
    if rs == [] then []
    else Matches(rs[..|rs| - 1], n) + (if Holds(rs[|rs| - 1], n) then [Image(rs[|rs| - 1], n)] else [])
  }

  /** What `convert_categories` emits for one number: its images, or itself if it has none. */
  function ConvertOne(rs: seq<Range>, n: nat): (out: seq<nat>)
    ensures |out| >= 1
  {
    var m := Matches(rs, n);
    if m == [] then [n] else m
  }

  /** What `convert_categories` emits for a list of numbers: each number's values, in order. */
  function Convert(rs: seq<Range>, ns: seq<nat>): (out: seq<nat>)
    ensures |out| >= |ns|
    ensures ns == [] ==> out == []
  {
    if ns == [] then [] else Convert(rs, ns[..|ns| - 1]) + ConvertOne(rs, ns[|ns| - 1])
  }

  /** The images under a concatenation of ranges are those under the first part, then those under the second. */
  lemma {:induction false} MatchesAppend(rs: seq<Range>, ts: seq<Range>, n: nat)
    ensures Matches(rs + ts, n) == Matches(rs, n) + Matches(ts, n)
    decreases |ts|
  {
    if ts == [] {
      assert rs + ts == rs;
    } else {
      var front := ts[..|ts| - 1];
      assert (rs + ts)[..|rs + ts| - 1] == rs + front;
      MatchesAppend(rs, front, n);
    }
  }

  /** A value is emitted for `n` exactly when it is the image of `n` under a range that holds `n`. */
  lemma {:induction false} MatchesMembers(rs: seq<Range>, n: nat, x: nat)
    ensures x in Matches(rs, n) <==> exists k :: 0 <= k < |rs| && Holds(rs[k], n) && x == Image(rs[k], n)
  {
    if rs != [] {
      var front := rs[..|rs| - 1];
      MatchesMembers(front, n, x);
      if x in Matches(front, n) {
        var k :| 0 <= k < |front| && Holds(front[k], n) && x == Image(front[k], n);
        assert rs[k] == front[k];
      }
      if exists k :: 0 <= k < |rs| - 1 && Holds(rs[k], n) && x == Image(rs[k], n) {
        var k :| 0 <= k < |rs| - 1 && Holds(rs[k], n) && x == Image(rs[k], n);
        assert front[k] == rs[k];
      }
    }
  }

  /** No value is emitted for `n` under the ranges exactly when none of them holds `n`. */
  lemma {:induction false} MatchesNone(rs: seq<Range>, n: nat)
    ensures Matches(rs, n) == [] <==> forall k :: 0 <= k < |rs| ==> !Holds(rs[k], n)
  {
    if rs != [] {
      var front := rs[..|rs| - 1];
      MatchesNone(front, n);
      assert forall k :: 0 <= k < |front| ==> front[k] == rs[k];
    }
  }

  /**
   * `convert_categories` for one number: when some range holds `n`, the images of `n`
   * under those ranges; otherwise `n` itself, unchanged.
   */
  lemma ConvertOneMeans(rs: seq<Range>, n: nat, x: nat)
    ensures (forall k :: 0 <= k < |rs| ==> !Holds(rs[k], n)) ==> ConvertOne(rs, n) == [n]
    ensures (exists k :: 0 <= k < |rs| && Holds(rs[k], n)) ==>
      (x in ConvertOne(rs, n) <==> exists k :: 0 <= k < |rs| && Holds(rs[k], n) && x == Image(rs[k], n))
  {
    MatchesNone(rs, n);
    MatchesMembers(rs, n, x);
  }

  /** Converting a list with one more number appends that number's values. */
  lemma ConvertSnoc(rs: seq<Range>, ns: seq<nat>, x: nat)
    ensures Convert(rs, ns + [x]) == Convert(rs, ns) + ConvertOne(rs, x)
  {
    assert (ns + [x])[..|ns|] == ns;
  }

  /** A nonempty list is its front followed by its last element, also after a prefix. */
  lemma SplitLast(ns: seq<nat>, ms: seq<nat>)
    requires ms != []
    ensures ms == ms[..|ms| - 1] + [ms[|ms| - 1]]
    ensures ns + ms == (ns + ms[..|ms| - 1]) + [ms[|ms| - 1]]
  {
  }

  /** Converting a concatenation of lists of numbers converts each list in turn. */
  lemma {:induction false} ConvertAppend(rs: seq<Range>, ns: seq<nat>, ms: seq<nat>)
    ensures Convert(rs, ns + ms) == Convert(rs, ns) + Convert(rs, ms)
    decreases |ms|
  {
    if ms == [] {
      assert ns + ms == ns;
    } else {
      var front, last := ms[..|ms| - 1], ms[|ms| - 1];
      SplitLast(ns, ms);
      var a, b, c := Convert(rs, ns), Convert(rs, front), ConvertOne(rs, last);
      assert Convert(rs, ns + ms) == (a + b) + c by {
        ConvertSnoc(rs, ns + front, last);
        ConvertAppend(rs, ns, front);
      }
      assert Convert(rs, ms) == b + c by {
        ConvertSnoc(rs, front, last);
      }
      Associative(a, b, c);
    }
  }

  lemma Associative(a: seq<nat>, b: seq<nat>, c: seq<nat>)
    ensures (a + b) + c == a + (b + c)
  {
  }

  /** Two ranges whose source intervals do not share a number (an empty interval shares none). */
  predicate Disjoint(r: Range, t: Range)
  {
    r.length == 0 || t.length == 0 || r.source + r.length <= t.source || t.source + t.length <= r.source
  }

  /** The interval test agrees with its meaning: no number is held by both ranges. */
  lemma DisjointMeans(r: Range, t: Range)
    ensures Disjoint(r, t) <==> forall n: nat :: !(Holds(r, n) && Holds(t, n))
  {
    if !Disjoint(r, t) {
      var n := Max(r.source, t.source);
      assert Holds(r, n) && Holds(t, n);
    }
  }

  /** No two ranges of the map overlap. */
  predicate NonOverlapping(rs: seq<Range>)
  {
    forall i, j :: 0 <= i < j < |rs| ==> Disjoint(rs[i], rs[j])
  }

  /** When exactly one range holds `n`, `n` is converted to its image under that range. */
  lemma ConvertOneHit(rs: seq<Range>, n: nat, k: nat)
    requires k < |rs| && Holds(rs[k], n)
    requires forall j :: 0 <= j < |rs| && j != k ==> !Holds(rs[j], n)
    ensures ConvertOne(rs, n) == [Image(rs[k], n)]
  {
    var pre := rs[..k];
    var post := rs[k + 1..];
    assert rs == pre + [rs[k]] + post;
    MatchesAppend(pre + [rs[k]], post, n);
    MatchesAppend(pre, [rs[k]], n);
    assert forall j :: 0 <= j < |pre| ==> pre[j] == rs[j];
    MatchesNone(pre, n);
    assert forall j :: 0 <= j < |post| ==> post[j] == rs[k + 1 + j];
    MatchesNone(post, n);
    assert [rs[k]][..0] == [];
  }

  /** When the ranges do not overlap, a number has at most one image. */
  lemma {:induction false} MatchesAtMostOne(rs: seq<Range>, n: nat)
    requires NonOverlapping(rs)
    ensures |Matches(rs, n)| <= 1
  {
    if rs != [] {
      var front := rs[..|rs| - 1];
      var last := rs[|rs| - 1];
      assert NonOverlapping(front) by {
        assert forall k :: 0 <= k < |front| ==> front[k] == rs[k];
      }
      MatchesAtMostOne(front, n);
      if Holds(last, n) && Matches(front, n) != [] {
        MatchesNone(front, n);
        var k :| 0 <= k < |front| && Holds(front[k], n);
        assert Disjoint(rs[k], last);
        DisjointMeans(rs[k], last);
        assert false;
      }
    }
  }

  /** `convert_categories` never emits fewer numbers than it is given. */
  lemma ConvertNeverShorter(rs: seq<Range>, ns: seq<nat>)
    ensures |Convert(rs, ns)| >= |ns|
  {
  }

  /** With ranges that do not overlap, `convert_categories` emits exactly one number per number. */
  lemma {:induction false} ConvertSameLength(rs: seq<Range>, ns: seq<nat>)
    requires NonOverlapping(rs)
    ensures |Convert(rs, ns)| == |ns|
  {
    if ns != [] {
      ConvertSameLength(rs, ns[..|ns| - 1]);
      MatchesAtMostOne(rs, ns[|ns| - 1]);
    }
  }

  /** Every range's source and destination intervals end within `u64`. */
  predicate RangesFit(rs: seq<Range>)
  {
    forall k :: 0 <= k < |rs| ==> rs[k].source + rs[k].length <= U64_MAX && rs[k].destination + rs[k].length <= U64_MAX
  }

  predicate AllU64(ns: seq<nat>)
  {
    forall k :: 0 <= k < |ns| ==> ns[k] <= U64_MAX
  }

  /** With ranges that fit in `u64`, `s_range_start + len` never overflows and every emitted number fits in `u64`. */
  lemma {:induction false} ConvertFits(rs: seq<Range>, ns: seq<nat>)
    requires RangesFit(rs) && AllU64(ns)
    ensures AllU64(Convert(rs, ns))
  {
    if ns != [] {
      var n := ns[|ns| - 1];
      var front := Convert(rs, ns[..|ns| - 1]);
      var one := ConvertOne(rs, n);
      ConvertFits(rs, ns[..|ns| - 1]);
      forall j | 0 <= j < |one|
        ensures one[j] <= U64_MAX
      {
        ConvertOneMeans(rs, n, one[j]);
        assert one[j] in one;
      }
      assert Convert(rs, ns) == front + one;
      forall j | 0 <= j < |front + one|
        ensures (front + one)[j] <= U64_MAX
      {
        if j >= |front| {
          assert (front + one)[j] == one[j - |front|];
        }
      }
    }
  }

  lemma MatchesStep(rs: seq<Range>, j: nat, n: nat)
    requires j < |rs|
    ensures Matches(rs[..j + 1], n) == Matches(rs[..j], n) + if Holds(rs[j], n) then [Image(rs[j], n)] else []
  {
    assert rs[..j + 1][..j] == rs[..j];
  }

  lemma ConvertStep(rs: seq<Range>, ns: seq<nat>, i: nat)
    requires i < |ns|
    ensures Convert(rs, ns[..i + 1]) == Convert(rs, ns[..i]) + ConvertOne(rs, ns[i])
  {
    assert ns[..i + 1][..i] == ns[..i];
  }

  /** `convert_categories(idx, numbers)`: `maps.get(idx).unwrap()` panics when there is no map `idx`. */
  method ConvertCategories(a: Almanac, idx: nat, numbers: seq<nat>) returns (r: Option<seq<nat>>)
    ensures idx < |a.maps| ==> r.Some? && r.value == Convert(a.maps[idx], numbers)
    ensures idx >= |a.maps| ==> r.None?
  {
    r := None;
    if idx < |a.maps| {
      var destination := a.maps[idx];
      var found := [];
      var i := 0;
      while i < |numbers|
        invariant i <= |numbers|
        invariant found == Convert(destination, numbers[..i])
      {
        var number := numbers[i];
        var initialLen := |found|;
        var j := 0;
        while j < |destination|
          invariant j <= |destination|
          invariant found == Convert(destination, numbers[..i]) + Matches(destination[..j], number)
        {
          var range := destination[j];
          MatchesStep(destination, j, number);
          if number >= range.source && number < range.source + range.length {
            found := found + [number - range.source + range.destination];
          }
          j := j + 1;
        }
        assert destination[..j] == destination;
        if initialLen == |found| {
          found := found + [number];
        }
        ConvertStep(destination, numbers, i);
        i := i + 1;
      }
      assert numbers[..i] == numbers;
      r := Some(found);
    }
  }

  // ---------------------------------------------------------------------------
  // Converting through all the maps

  /** The numbers converted by each map of `ms` in turn, the first map first. */
  function ApplyMaps(ms: seq<seq<Range>>, ns: seq<nat>): (out: seq<nat>)
    ensures |out| >= |ns|
    ensures ns == [] ==> out == []
  {
    if ms == [] then ns else Convert(ms[|ms| - 1], ApplyMaps(ms[..|ms| - 1], ns))
  }

  /** Converting through the maps `ms + ts` is converting through `ms`, then through `ts`. */
  lemma {:induction false} ApplyMapsCompose(ms: seq<seq<Range>>, ts: seq<seq<Range>>, ns: seq<nat>)
    ensures ApplyMaps(ms + ts, ns) == ApplyMaps(ts, ApplyMaps(ms, ns))
    decreases |ts|
  {
    if ts == [] {
      assert ms + ts == ms;
    } else {
      var front := ts[..|ts| - 1];
      assert (ms + ts)[..|ms + ts| - 1] == ms + front;
      ApplyMapsCompose(ms, front, ns);
    }
  }

  /** Converting a concatenation of lists through the maps converts each list in turn. */
  lemma {:induction false} ApplyMapsAppend(ms: seq<seq<Range>>, ns: seq<nat>, ls: seq<nat>)
    ensures ApplyMaps(ms, ns + ls) == ApplyMaps(ms, ns) + ApplyMaps(ms, ls)
  {
    if ms != [] {
      var front := ms[..|ms| - 1];
      ApplyMapsAppend(front, ns, ls);
      ConvertAppend(ms[|ms| - 1], ApplyMaps(front, ns), ApplyMaps(front, ls));
    }
  }

  /** When no map has overlapping ranges, there is one location per seed. */
  lemma {:induction false} ApplyMapsSameLength(ms: seq<seq<Range>>, ns: seq<nat>)
    requires forall k :: 0 <= k < |ms| ==> NonOverlapping(ms[k])
    ensures |ApplyMaps(ms, ns)| == |ns|
  {
    if ms != [] {
      var front := ms[..|ms| - 1];
      assert forall k :: 0 <= k < |front| ==> front[k] == ms[k];
      ApplyMapsSameLength(front, ns);
      ConvertSameLength(ms[|ms| - 1], ApplyMaps(front, ns));
    }
  }

  /** `find_locations`: the seeds, converted by map 0, then map 1, and so on. */
  method FindLocations(a: Almanac) returns (locations: seq<nat>)
    ensures locations == ApplyMaps(a.maps, a.seeds)
  {
    locations := a.seeds;
    var i := 0;
    while i < |a.maps|
      invariant i <= |a.maps|
      invariant locations == ApplyMaps(a.maps[..i], a.seeds)
    {
      var r := ConvertCategories(a, i, locations);
      locations := r.value;
      assert a.maps[..i + 1][..i] == a.maps[..i];
      i := i + 1;
    }
    assert a.maps[..i] == a.maps;
  }

  // ---------------------------------------------------------------------------
  // Lowest locations

  /** `Iterator::min`: nothing for an empty list, otherwise its least element. */
  function Minimum(s: seq<nat>): (r: Option<nat>)
    ensures r.None? <==> s == []
    ensures r.Some? ==> r.value in s && forall k :: 0 <= k < |s| ==> r.value <= s[k]
  {
    if s == [] then None
    else
      var m := Minimum(s[..|s| - 1]);
      if m.Some? && m.value <= s[|s| - 1] then m else Some(s[|s| - 1])
  }

  lemma MinimumSnoc(s: seq<nat>, v: nat)
    ensures Minimum(s + [v]) == if Minimum(s).Some? && Minimum(s).value <= v then Minimum(s) else Some(v)
  {
    assert (s + [v])[..|s|] == s;
  }

  /** Part one in `main`: the lowest location of the seeds, `min().unwrap()` panicking without seeds. */
  function LowestLocation(a: Almanac): (r: Option<nat>)
    ensures r.None? <==> a.seeds == []
    ensures r.Some? ==> r.value in ApplyMaps(a.maps, a.seeds)
    ensures r.Some? ==> forall k :: 0 <= k < |ApplyMaps(a.maps, a.seeds)| ==> r.value <= ApplyMaps(a.maps, a.seeds)[k]
  {
    Minimum(ApplyMaps(a.maps, a.seeds))
  }

  /** `seeds.iter().tuples::<(_, _)>()`: consecutive pairs; a last unpaired seed is dropped. */
  function SeedPairs(seeds: seq<nat>): (ps: seq<(nat, nat)>)
    ensures |ps| == |seeds| / 2
    ensures forall k :: 0 <= k < |ps| ==> ps[k] == (seeds[2 * k], seeds[2 * k + 1])
    decreases |seeds|
  {
    if |seeds| < 2 then [] else [(seeds[0], seeds[1])] + SeedPairs(seeds[2..])
  }

  /** `first..first + len`. */
  function Interval(first: nat, len: nat): (s: seq<nat>)
    ensures |s| == len
    ensures forall k :: 0 <= k < len ==> s[k] == first + k
  {
    if len == 0 then [] else Interval(first, len - 1) + [first + len - 1]
  }

  /** `flat_map(|(first, len)| first..first + len)`: the seeds of every interval, interval by interval. */
  function RangeSeeds(ps: seq<(nat, nat)>): seq<nat>
  {
    if ps == [] then [] else RangeSeeds(ps[..|ps| - 1]) + Interval(ps[|ps| - 1].0, ps[|ps| - 1].1)
  }

  /** The locations of one seed: the closure that converts `vec![seed]` through every map. */
  function SeedLocations(ms: seq<seq<Range>>, seed: nat): seq<nat>
  {
    ApplyMaps(ms, [seed])
  }

  /** The second `flat_map`: the locations of each seed, seed by seed. */
  function AllSeedLocations(ms: seq<seq<Range>>, ss: seq<nat>): seq<nat>
  {
    if ss == [] then [] else AllSeedLocations(ms, ss[..|ss| - 1]) + SeedLocations(ms, ss[|ss| - 1])
  }

  /** The locations seed by seed are the locations of the whole list. */
  lemma {:induction false} AllSeedLocationsConvert(ms: seq<seq<Range>>, ss: seq<nat>)
    ensures AllSeedLocations(ms, ss) == ApplyMaps(ms, ss)
  {
    if ss != [] {
      var front := ss[..|ss| - 1];
      AllSeedLocationsConvert(ms, front);
      ApplyMapsAppend(ms, front, [ss[|ss| - 1]]);
      assert front + [ss[|ss| - 1]] == ss;
    }
  }

  /** `find_lowest_location_using_range` as a value: `min().unwrap()` panics when every interval is empty. */
  function LowestLocationUsingRange(a: Almanac): Option<nat>
  {
    Minimum(AllSeedLocations(a.maps, RangeSeeds(SeedPairs(a.seeds))))
  }

  /** `s` lies in one of the intervals `[first, first + len)` of the pairs. */
  ghost predicate InSomeInterval(ps: seq<(nat, nat)>, s: nat)
  {
    exists k :: 0 <= k < |ps| && ps[k].0 <= s < ps[k].0 + ps[k].1
  }

  lemma IntervalMembers(first: nat, len: nat, s: nat)
    ensures s in Interval(first, len) <==> first <= s < first + len
  {
    if first <= s < first + len {
      assert Interval(first, len)[s - first] == s;
    }
  }

  lemma RangeSeedsSnoc(ps: seq<(nat, nat)>, p: (nat, nat))
    ensures RangeSeeds(ps + [p]) == RangeSeeds(ps) + Interval(p.0, p.1)
  {
    assert (ps + [p])[..|ps|] == ps;
  }

  lemma InSomeIntervalSnoc(ps: seq<(nat, nat)>, p: (nat, nat), s: nat)
    ensures InSomeInterval(ps + [p], s) <==> InSomeInterval(ps, s) || p.0 <= s < p.0 + p.1
  {
    var qs := ps + [p];
    if InSomeInterval(qs, s) {
      var k :| 0 <= k < |qs| && qs[k].0 <= s < qs[k].0 + qs[k].1;
      if k < |ps| {
        assert ps[k] == qs[k];
      }
    }
    if InSomeInterval(ps, s) {
      var k :| 0 <= k < |ps| && ps[k].0 <= s < ps[k].0 + ps[k].1;
      assert qs[k] == ps[k];
    }
    assert qs[|ps|] == p;
  }

  /** The seeds of the intervals are exactly the numbers in some interval. */
  lemma {:induction false} RangeSeedsMembers(ps: seq<(nat, nat)>, s: nat)
    ensures s in RangeSeeds(ps) <==> InSomeInterval(ps, s)
  {
    if ps != [] {
      var front, last := ps[..|ps| - 1], ps[|ps| - 1];
      assert ps == front + [last];
      RangeSeedsSnoc(front, last);
      IntervalMembers(last.0, last.1, s);
      InSomeIntervalSnoc(front, last, s);
      RangeSeedsMembers(front, s);
    }
  }

  lemma AllSeedLocationsSnoc(ms: seq<seq<Range>>, ss: seq<nat>, s: nat)
    ensures AllSeedLocations(ms, ss + [s]) == AllSeedLocations(ms, ss) + SeedLocations(ms, s)
  {
    assert (ss + [s])[..|ss|] == ss;
  }

  /** A value is a location of the list exactly when it is a location of one of its seeds. */
  lemma {:induction false} AllSeedLocationsMembers(ms: seq<seq<Range>>, ss: seq<nat>, v: nat)
    ensures v in AllSeedLocations(ms, ss) <==> exists s :: s in ss && v in SeedLocations(ms, s)
  {
    if ss != [] {
      var front, last := ss[..|ss| - 1], ss[|ss| - 1];
      assert ss == front + [last];
      AllSeedLocationsSnoc(ms, front, last);
      AllSeedLocationsMembers(ms, front, v);
      if exists s :: s in ss && v in SeedLocations(ms, s) {
        var s :| s in ss && v in SeedLocations(ms, s);
        assert s in front || s == last;
      }
    }
  }

  /** Only an empty list of seeds has no locations. */
  lemma AllSeedLocationsEmpty(ms: seq<seq<Range>>, ss: seq<nat>)
    ensures AllSeedLocations(ms, ss) == [] <==> ss == []
  {
    AllSeedLocationsConvert(ms, ss);
  }

  /** `find_lowest_location_using_range` panics exactly when every seed interval is empty. */
  lemma LowestLocationUsingRangeNone(a: Almanac)
    ensures LowestLocationUsingRange(a).None? <==> forall s: nat :: !InSomeInterval(SeedPairs(a.seeds), s)
  {
    var ps := SeedPairs(a.seeds);
    var ss := RangeSeeds(ps);
    AllSeedLocationsEmpty(a.maps, ss);
    if ss != [] {
      RangeSeedsMembers(ps, ss[0]);
    } else {
      forall s: nat
        ensures !InSomeInterval(ps, s)
      {
        RangeSeedsMembers(ps, s);
      }
    }
  }

  /**
   * Otherwise it is a location of a seed in some interval, and no seed in any interval has
   * a lower location.
   */
  lemma LowestLocationUsingRangeLeast(a: Almanac)
    requires LowestLocationUsingRange(a).Some?
    ensures exists s: nat :: InSomeInterval(SeedPairs(a.seeds), s) && LowestLocationUsingRange(a).value in SeedLocations(a.maps, s)
    ensures forall s: nat, v :: InSomeInterval(SeedPairs(a.seeds), s) && v in SeedLocations(a.maps, s) ==> LowestLocationUsingRange(a).value <= v
  {
    var ps := SeedPairs(a.seeds);
    var ss := RangeSeeds(ps);
    var all := AllSeedLocations(a.maps, ss);
    var m := LowestLocationUsingRange(a).value;
    AllSeedLocationsMembers(a.maps, ss, m);
    var s0 :| s0 in ss && m in SeedLocations(a.maps, s0);
    RangeSeedsMembers(ps, s0);
    forall s: nat, v | InSomeInterval(ps, s) && v in SeedLocations(a.maps, s)
      ensures m <= v
    {
      RangeSeedsMembers(ps, s);
      AllSeedLocationsMembers(a.maps, ss, v);
      var k :| 0 <= k < |all| && all[k] == v;
    }
  }

  /** One more seed of the current interval appends that seed's locations. */
  lemma SeedStep(ms: seq<seq<Range>>, done: seq<nat>, first: nat, seed: nat)
    requires first <= seed
    ensures AllSeedLocations(ms, done + Interval(first, seed + 1 - first))
         == AllSeedLocations(ms, done + Interval(first, seed - first)) + SeedLocations(ms, seed)
  {
    var m := seed - first;
    IntervalStep(done, first, m);
    AllSeedLocationsSnoc(ms, done + Interval(first, m), seed);
  }

  lemma IntervalStep(done: seq<nat>, first: nat, m: nat)
    ensures done + Interval(first, m + 1) == (done + Interval(first, m)) + [first + m]
  {
  }

  lemma PrefixStep(xs: seq<nat>, ys: seq<nat>, k: nat)
    requires k < |ys|
    ensures xs + ys[..k + 1] == (xs + ys[..k]) + [ys[k]]
  {
    assert ys[..k + 1] == ys[..k] + [ys[k]];
  }

  lemma RangeSeedsStep(ps: seq<(nat, nat)>, p: nat)
    requires p < |ps|
    ensures RangeSeeds(ps[..p + 1]) == RangeSeeds(ps[..p]) + Interval(ps[p].0, ps[p].1)
  {
    assert ps[..p + 1][..p] == ps[..p];
  }

  /** The closure of the second `flat_map`: `vec![seed]` converted by map 0, map 1, and so on. */
  method ConvertSeed(a: Almanac, seed: nat) returns (locations: seq<nat>)
    ensures locations == SeedLocations(a.maps, seed)
  {
    locations := [seed];
    var i := 0;
    while i < |a.maps|
      invariant i <= |a.maps|
      invariant locations == ApplyMaps(a.maps[..i], [seed])
    {
      var r := ConvertCategories(a, i, locations);
      locations := r.value;
      assert a.maps[..i + 1][..i] == a.maps[..i];
      i := i + 1;
    }
    assert a.maps[..i] == a.maps;
  }

  /** `min()` going on through `values`, with `best` the least of the values `seen` so far. */
  method TakeMinimum(best: Option<nat>, ghost seen: seq<nat>, values: seq<nat>) returns (r: Option<nat>)
    requires best == Minimum(seen)
    ensures r == Minimum(seen + values)
  {
    r := best;
    var k := 0;
    assert seen + values[..0] == seen;
    while k < |values|
      invariant k <= |values|
      invariant r == Minimum(seen + values[..k])
    {
      MinimumSnoc(seen + values[..k], values[k]);
      PrefixStep(seen, values, k);
      if r.None? || values[k] < r.value {
        r := Some(values[k]);
      }
      k := k + 1;
    }
    assert values[..k] == values;
  }

  /** The seeds of one interval `first..first + len`, folded into the least location after those of `done`. */
  method LowestOverInterval(a: Almanac, best: Option<nat>, ghost done: seq<nat>, first: nat, len: nat) returns (r: Option<nat>)
    requires best == Minimum(AllSeedLocations(a.maps, done))
    ensures r == Minimum(AllSeedLocations(a.maps, done + Interval(first, len)))
  {
    r := best;
    var m := 0;
    assert done + Interval(first, 0) == done;
    while m < len
      invariant m <= len
      invariant r == Minimum(AllSeedLocations(a.maps, done + Interval(first, m)))
    {
      r := TakeSeed(a, r, done, first, m);
      m := m + 1;
    }
  }

  /** Seed `first + m` folded into the least location so far. */
  method TakeSeed(a: Almanac, best: Option<nat>, ghost done: seq<nat>, first: nat, m: nat) returns (r: Option<nat>)
    requires best == Minimum(AllSeedLocations(a.maps, done + Interval(first, m)))
    ensures r == Minimum(AllSeedLocations(a.maps, done + Interval(first, m + 1)))
  {
    var seed: nat := first + m;
    ghost var before := AllSeedLocations(a.maps, done + Interval(first, m));
    var locations := ConvertSeed(a, seed);
    r := TakeMinimum(best, before, locations);
    assert AllSeedLocations(a.maps, done + Interval(first, m + 1)) == before + locations by {
      FoldSeed(a.maps, done, first, m, locations);
    }
  }

  /** Seed `first + m` extends the interval and appends its locations. */
  lemma FoldSeed(ms: seq<seq<Range>>, done: seq<nat>, first: nat, m: nat, locations: seq<nat>)
    requires locations == SeedLocations(ms, first + m)
    ensures AllSeedLocations(ms, done + Interval(first, m + 1)) == AllSeedLocations(ms, done + Interval(first, m)) + locations
  {
    IntervalStep(done, first, m);
    AllSeedLocationsSnoc(ms, done + Interval(first, m), first + m);
  }

  /** `find_lowest_location_using_range`: the least location over every seed of every interval. */
  method FindLowestLocationUsingRange(a: Almanac) returns (r: Option<nat>)
    ensures r == LowestLocationUsingRange(a)
  {
    var pairs := SeedPairs(a.seeds);
    r := None;
    var p := 0;
    assert pairs[..0] == [];
    while p < |pairs|
      invariant p <= |pairs|
      invariant r == Minimum(AllSeedLocations(a.maps, RangeSeeds(pairs[..p])))
    {
      var (first, len) := pairs[p];
      r := LowestOverInterval(a, r, RangeSeeds(pairs[..p]), first, len);
      RangeSeedsStep(pairs, p);
      p := p + 1;
    }
    assert pairs[..p] == pairs;
  }

  // ---------------------------------------------------------------------------
  // Parsing

  /** Every word parsed as a `u64`; a word that does not parse is a panic. */
  function ParseU64s(words: seq<string>): (r: Option<seq<nat>>)
    ensures r.Some? ==> |r.value| == |words| && AllU64(r.value)
  {
    if words == [] then Some([])
    else
      var n := ParseUnsigned(words[0], U64_MAX);
      var rest := ParseU64s(words[1..]);
      if n.None? || rest.None? then None else Some([n.value] + rest.value)
  }

  predicate RangeFitsU64(r: Range)
  {
    r.destination <= U64_MAX && r.source <= U64_MAX && r.length <= U64_MAX
  }

  predicate MapFitsU64(rs: seq<Range>)
  {
    forall k :: 0 <= k < |rs| ==> RangeFitsU64(rs[k])
  }

  /** Every number of the almanac fits in `u64`. */
  predicate AlmanacFitsU64(a: Almanac)
  {
    AllU64(a.seeds) && forall i :: 0 <= i < |a.maps| ==> MapFitsU64(a.maps[i])
  }

  /**
   * A range line: its words parsed as `u64` and collected into a triple. Any other number
   * of words, or a word that does not parse, is a panic.
   */
  function ParseRange(line: string): (r: Option<Range>)
    ensures r.Some? ==> |SplitWhitespace(line)| == 3 && RangeFitsU64(r.value)
  {
    var ws := SplitWhitespace(line);
    if |ws| != 3 then None
    else
      match ParseU64s(ws)
      case None => None
      case Some(ns) => Some(Range(ns[0], ns[1], ns[2]))
  }

  /** The range lines of a block, one range per line, in order. */
  function ParseRanges(lines: seq<string>): (r: Option<seq<Range>>)
    ensures r.Some? ==> |r.value| == |lines| && MapFitsU64(r.value)
  {
    if lines == [] then Some([])
    else
      var front := ParseRanges(lines[..|lines| - 1]);
      var last := ParseRange(lines[|lines| - 1]);
      if front.None? || last.None? then None else Some(front.value + [last.value])
  }

  /** A block of the almanac: its header line skipped, then one range per line. */
  function ParseBlock(block: string): (r: Option<seq<Range>>)
    ensures r.Some? ==> MapFitsU64(r.value)
  {
    ParseRanges(Skip1(Lines(block)))
  }

  /** One map per block, in order. */
  function ParseMaps(blocks: seq<string>): (r: Option<seq<seq<Range>>>)
    ensures r.Some? ==> |r.value| == |blocks| && forall i :: 0 <= i < |r.value| ==> MapFitsU64(r.value[i])
  {
    if blocks == [] then Some([])
    else
      var front := ParseMaps(blocks[..|blocks| - 1]);
      var last := ParseBlock(blocks[|blocks| - 1]);
      if front.None? || last.None? then None else Some(front.value + [last.value])
  }

  /**
   * `Almanac::from_str`: the seeds are the words of the first line after its label, and each
   * piece of the text between blank lines, after the first, is a map. A text without a line,
   * a word that does not parse and a range line without exactly three numbers are panics.
   */
  function ParseAlmanac(s: string): (r: Option<Almanac>)
    ensures r.Some? ==> AlmanacFitsU64(r.value)
    ensures r.Some? ==> |r.value.maps| == |Skip1(SplitTerminator(s, "\n\n"))|
  {
    var lines := Lines(s);
    if lines == [] then None
    else
      var seeds := ParseU64s(Skip1(SplitWhitespace(lines[0])));
      var maps := ParseMaps(Skip1(SplitTerminator(s, "\n\n")));
      if seeds.None? || maps.None? then None else Some(Almanac(seeds.value, maps.value))
  }

  lemma RangesStep(lines: seq<string>, l: nat)
    requires l < |lines|
    ensures ParseRanges(lines[..l + 1]) ==
      var front := ParseRanges(lines[..l]);
      var last := ParseRange(lines[l]);
      if front.None? || last.None? then None else Some(front.value + [last.value])
  {
    assert lines[..l + 1][..l] == lines[..l];
  }

  /** A range line that fails makes every longer block fail. */
  lemma {:induction false} RangesNonePrefix(lines: seq<string>, k: nat)
    requires k <= |lines| && ParseRanges(lines[..k]).None?
    ensures ParseRanges(lines).None?
    decreases |lines| - k
  {
    if k == |lines| {
      assert lines[..k] == lines;
    } else {
      RangesStep(lines, k);
      RangesNonePrefix(lines, k + 1);
    }
  }

  lemma MapsStep(blocks: seq<string>, b: nat)
    requires b < |blocks|
    ensures ParseMaps(blocks[..b + 1]) ==
      var front := ParseMaps(blocks[..b]);
      var last := ParseBlock(blocks[b]);
      if front.None? || last.None? then None else Some(front.value + [last.value])
  {
    assert blocks[..b + 1][..b] == blocks[..b];
  }

  /** A block that fails makes the whole almanac fail. */
  lemma {:induction false} MapsNonePrefix(blocks: seq<string>, k: nat)
    requires k <= |blocks| && ParseMaps(blocks[..k]).None?
    ensures ParseMaps(blocks).None?
    decreases |blocks| - k
  {
    if k == |blocks| {
      assert blocks[..k] == blocks;
    } else {
      MapsStep(blocks, k);
      MapsNonePrefix(blocks, k + 1);
    }
  }

  /** `Almanac::from_str`, pushing each range into its map and each map into the almanac. */
  method AlmanacFromStr(s: string) returns (r: Option<Almanac>)
    ensures r == ParseAlmanac(s)
  {
    var lines := Lines(s);
    if lines == [] {
      return None;
    }
    var seeds := ParseU64s(Skip1(SplitWhitespace(lines[0])));
    if seeds.None? {
      return None;
    }
    var blocks := Skip1(SplitTerminator(s, "\n\n"));
    var maps: seq<seq<Range>> := [];
    var b := 0;
    assert blocks[..0] == [];
    while b < |blocks|
      invariant b <= |blocks|
      invariant ParseMaps(blocks[..b]) == Some(maps)
    {
      var rows := Skip1(Lines(blocks[b]));
      var ranges: seq<Range> := [];
      var l := 0;
      assert rows[..0] == [];
      while l < |rows|
        invariant l <= |rows|
        invariant ParseRanges(rows[..l]) == Some(ranges)
      {
        var range := ParseRange(rows[l]);
        RangesStep(rows, l);
        if range.None? {
          RangesNonePrefix(rows, l + 1);
          MapsStep(blocks, b);
          MapsNonePrefix(blocks, b + 1);
          return None;
        }
        ranges := ranges + [range.value];
        l := l + 1;
      }
      assert rows[..l] == rows;
      MapsStep(blocks, b);
      maps := maps + [ranges];
      b := b + 1;
    }
    assert blocks[..b] == blocks;
    return Some(Almanac(seeds.value, maps));
  }

  // ---------------------------------------------------------------------------
  // Writing an almanac back as text

  /** The seed line: `seeds:` and the seeds, separated by single spaces. */
  function SeedsLine(seeds: seq<nat>): string
  {
    Join(["seeds:"] + Decimals(seeds), " ")
  }

  /** A range line: the three numbers separated by single spaces. */
  function RangeLine(r: Range): string
  {
    Join(Decimals([r.destination, r.source, r.length]), " ")
  }

  function RangeLines(rs: seq<Range>): (ls: seq<string>)
    ensures |ls| == |rs|
  {
    seq(|rs|, i requires 0 <= i < |rs| => RangeLine(rs[i]))
  }

  /** A block: its header, then one line per range. */
  function BlockText(header: string, rs: seq<Range>): string
  {
    Join([header] + RangeLines(rs), "\n")
  }

  function BlockTexts(maps: seq<seq<Range>>, headers: seq<string>): (bs: seq<string>)
    requires |headers| == |maps|
    ensures |bs| == |maps|
  {
    seq(|maps|, i requires 0 <= i < |maps| => BlockText(headers[i], maps[i]))
  }

  /** The almanac as the puzzle writes it: the seed line, then each map under its header, with a blank line before each. */
  function AlmanacText(a: Almanac, headers: seq<string>): string
    requires |headers| == |a.maps|
  {
    Join([SeedsLine(a.seeds)] + BlockTexts(a.maps, headers), "\n\n") + "\n"
  }

  /** A header line: not empty, and without a line break. */
  predicate IsHeader(h: string)
  {
    |h| > 0 && '\n' !in h && h[|h| - 1] != '\r'
  }

  lemma SeedsLineShape(seeds: seq<nat>)
    ensures var line := SeedsLine(seeds);
      |line| > 0 && '\n' !in line && line[|line| - 1] != '\r' && line[|line| - 1] != '\n'
  {
    if seeds == [] {
      assert SeedsLine(seeds) == "seeds:";
    } else {
      NumbersLineShape(["seeds:"], seeds);
    }
  }

  lemma RangeLineShape(r: Range)
    ensures var line := RangeLine(r);
      |line| > 0 && '\n' !in line && line[|line| - 1] != '\r' && line[|line| - 1] != '\n'
  {
    NumbersLineShape([], [r.destination, r.source, r.length]);
    assert [] + Decimals([r.destination, r.source, r.length]) == Decimals([r.destination, r.source, r.length]);
  }

  lemma ParseU64sDecimals(ns: seq<nat>)
    requires AllU64(ns)
    ensures ParseU64s(Decimals(ns)) == Some(ns)
  {
    var ws := Decimals(ns);
    forall i | 0 <= i < |ws|
      ensures ParseUnsigned(ws[i], U64_MAX) == Some(ns[i])
    {
      DecimalsAt(ns, i);
      ParseDecimal(ns[i], U64_MAX);
    }
    ParseU64sEach(ws, ns);
  }

  /** Words that parse one by one to the numbers `ns` parse together to `ns`. */
  lemma {:induction false} ParseU64sEach(words: seq<string>, ns: seq<nat>)
    requires |words| == |ns|
    requires forall i {:trigger ParseUnsigned(words[i], U64_MAX)} :: 0 <= i < |words| ==> ParseUnsigned(words[i], U64_MAX) == Some(ns[i])
    ensures ParseU64s(words) == Some(ns)
  {
    if words != [] {
      var rest, tail := words[1..], ns[1..];
      forall i | 0 <= i < |rest|
        ensures ParseUnsigned(rest[i], U64_MAX) == Some(tail[i])
      {
        assert rest[i] == words[i + 1] && tail[i] == ns[i + 1];
        assert ParseUnsigned(words[i + 1], U64_MAX) == Some(ns[i + 1]);
      }
      ParseU64sEach(rest, tail);
      assert ParseUnsigned(words[0], U64_MAX) == Some(ns[0]);
      assert ns == [ns[0]] + tail;
    }
  }

  /** The words of the seed line are the label and the seeds. */
  lemma SeedsLineWords(seeds: seq<nat>)
    requires AllU64(seeds)
    ensures ParseU64s(Skip1(SplitWhitespace(SeedsLine(seeds)))) == Some(seeds)
  {
    LabelledWords("seeds:", seeds);
    ParseU64sDecimals(seeds);
  }

  /** A range line parses back to its range. */
  lemma ParseRangeLine(r: Range)
    requires RangeFitsU64(r)
    ensures ParseRange(RangeLine(r)) == Some(r)
  {
    var ns := [r.destination, r.source, r.length];
    DecimalsAreWords(ns);
    SplitWhitespaceJoin(Decimals(ns));
    ParseU64sDecimals(ns);
  }

  lemma RangesSnoc(lines: seq<string>, line: string)
    ensures ParseRanges(lines + [line]) ==
      var front := ParseRanges(lines);
      var last := ParseRange(line);
      if front.None? || last.None? then None else Some(front.value + [last.value])
  {
    assert (lines + [line])[..|lines|] == lines;
  }

  /** The lines of a block's ranges parse back to its ranges. */
  lemma ParseRangeLines(rs: seq<Range>)
    requires MapFitsU64(rs)
    ensures ParseRanges(RangeLines(rs)) == Some(rs)
  {
    var lines := RangeLines(rs);
    forall i | 0 <= i < |lines|
      ensures ParseRange(lines[i]) == Some(rs[i])
    {
      ParseRangeLine(rs[i]);
    }
    ParseRangesEach(lines, rs);
  }

  /** Lines that parse one by one to the ranges `rs` parse together to `rs`. */
  lemma {:induction false} ParseRangesEach(lines: seq<string>, rs: seq<Range>)
    requires |lines| == |rs| && forall i {:trigger ParseRange(lines[i])} :: 0 <= i < |lines| ==> ParseRange(lines[i]) == Some(rs[i])
    ensures ParseRanges(lines) == Some(rs)
  {
    if lines != [] {
      var n := |lines| - 1;
      var front, fs := lines[..n], rs[..n];
      forall i | 0 <= i < n
        ensures ParseRange(front[i]) == Some(fs[i])
      {
        assert front[i] == lines[i] && fs[i] == rs[i];
        assert ParseRange(lines[i]) == Some(rs[i]);
      }
      ParseRangesEach(front, fs);
      assert ParseRanges(lines) == Some(fs + [rs[n]]) by {
        assert lines == front + [lines[n]];
        assert ParseRange(lines[n]) == Some(rs[n]);
        RangesSnoc(front, lines[n]);
      }
      assert rs == fs + [rs[n]];
    }
  }


  /** The rows of a block: each nonempty, without line feed and without a final carriage return. */
  lemma BlockRows(header: string, rs: seq<Range>)
    requires IsHeader(header)
    ensures var rows := [header] + RangeLines(rs);
      forall i :: 0 <= i < |rows| ==> |rows[i]| > 0 && '\n' !in rows[i] && rows[i][|rows[i]| - 1] != '\r' && rows[i][|rows[i]| - 1] != '\n'
  {
    var rows := [header] + RangeLines(rs);
    forall i | 0 <= i < |rows|
      ensures |rows[i]| > 0 && '\n' !in rows[i] && rows[i][|rows[i]| - 1] != '\r' && rows[i][|rows[i]| - 1] != '\n'
    {
      if i == 0 {
        assert header[|header| - 1] in header;
      } else {
        RangeLineShape(rs[i - 1]);
      }
    }
  }

  /** A block parses back to its ranges, whether or not it is followed by a line feed. */
  lemma ParseBlockText(header: string, rs: seq<Range>)
    requires IsHeader(header) && MapFitsU64(rs)
    ensures ParseBlock(BlockText(header, rs)) == Some(rs)
    ensures ParseBlock(BlockText(header, rs) + "\n") == Some(rs)
  {
    var rows := [header] + RangeLines(rs);
    BlockRows(header, rs);
    LinesJoin(rows);
    JoinUnlines(rows);
    LinesUnlines(rows);
    assert Skip1(rows) == RangeLines(rs);
    ParseRangeLines(rs);
  }

  /** A block holds no blank line and does not end with a line feed. */
  lemma BlockBlankFree(header: string, rs: seq<Range>)
    requires IsHeader(header)
    ensures var b := BlockText(header, rs);
      NoBlankLine(b) && BlankFree(b) && NoBlankLine(b + "\n")
  {
    var rows := [header] + RangeLines(rs);
    var b := BlockText(header, rs);
    BlockRows(header, rs);
    JoinLinesNoBlank(rows);
    NoBlankLineFree(b);
    JoinEnds(rows, "\n");
    BlankFreeNewline(b);
  }

  /** The first line of a text that starts with a line of its own. */
  lemma FirstLine(p: string, t: string)
    requires '\n' !in p && (p == [] || p[|p| - 1] != '\r')
    ensures |Lines(p + "\n" + t)| >= 1 && Lines(p + "\n" + t)[0] == p
  {
    var s := p + "\n" + t;
    assert s == p + ("\n" + t);
    FindFromChar(p, '\n', "\n" + t, 0);
    assert s[..|p|] == p;
    var sp := Split(s, "\n");
    assert sp == [p] + Split(s[|p| + 1..], "\n");
    assert |sp| >= 2;
    assert SplitTerminator(s, "\n")[0] == p;
  }

  lemma FrontLast<T>(xs: seq<T>)
    requires xs != []
    ensures xs == xs[..|xs| - 1] + [xs[|xs| - 1]]
  {
  }

  lemma MapsSnoc(blocks: seq<string>, block: string)
    ensures ParseMaps(blocks + [block]) ==
      var front := ParseMaps(blocks);
      var last := ParseBlock(block);
      if front.None? || last.None? then None else Some(front.value + [last.value])
  {
    assert (blocks + [block])[..|blocks|] == blocks;
  }

  /** Every block between blank lines parses back to its map. */
  lemma {:induction false} ParseMapsBlocks(bs: seq<string>, ms: seq<seq<Range>>)
    requires |bs| == |ms| && forall i :: 0 <= i < |bs| ==> ParseBlock(bs[i]) == Some(ms[i])
    ensures ParseMaps(bs) == Some(ms)
  {
    if bs != [] {
      var n := |bs| - 1;
      var fb, fm := bs[..n], ms[..n];
      assert ParseMaps(fb) == Some(fm) by {
        assert forall i :: 0 <= i < n ==> fb[i] == bs[i] && fm[i] == ms[i];
        ParseMapsBlocks(fb, fm);
      }
      FrontLast(bs);
      FrontLast(ms);
      MapsSnoc(fb, bs[n]);
    }
  }

  /** The pieces of the text between blank lines: the seed line, then the blocks, the last one with its final line feed. */
  lemma AlmanacTextPieces(a: Almanac, headers: seq<string>)
    requires |headers| == |a.maps| && forall i :: 0 <= i < |headers| ==> IsHeader(headers[i])
    ensures var parts := [SeedsLine(a.seeds)] + BlockTexts(a.maps, headers);
      var n := |parts| - 1;
      SplitTerminator(AlmanacText(a, headers), "\n\n") == parts[..n] + [parts[n] + "\n"]
  {
    var parts := [SeedsLine(a.seeds)] + BlockTexts(a.maps, headers);
    var n := |parts| - 1;
    var pieces := parts[..n] + [parts[n] + "\n"];
    JoinAppendLast(parts, "\n\n", "\n");
    SeedsLineShape(a.seeds);
    NoNewlineBlankFree(SeedsLine(a.seeds));
    forall k | 0 <= k < n
      ensures BlankFree(pieces[k])
    {
      if k > 0 {
        BlockBlankFree(headers[k - 1], a.maps[k - 1]);
      }
    }
    forall k | 0 <= k <= n
      ensures !Contains(pieces[k], "\n\n")
    {
      if k == n {
        if n == 0 {
          BlankFreeNewline(SeedsLine(a.seeds));
        } else {
          BlockBlankFree(headers[n - 1], a.maps[n - 1]);
        }
        NoBlankLineFree(pieces[k]);
      } else if k > 0 {
        BlockBlankFree(headers[k - 1], a.maps[k - 1]);
      }
    }
    SplitJoinBlank(pieces);
    assert pieces[n] != [];
  }

  /** The first line of the text is the seed line. */
  lemma AlmanacTextFirstLine(a: Almanac, headers: seq<string>)
    requires |headers| == |a.maps|
    ensures |Lines(AlmanacText(a, headers))| >= 1 && Lines(AlmanacText(a, headers))[0] == SeedsLine(a.seeds)
  {
    var parts := [SeedsLine(a.seeds)] + BlockTexts(a.maps, headers);
    SeedsLineShape(a.seeds);
    var t := if |a.maps| == 0 then "" else "\n" + Join(BlockTexts(a.maps, headers), "\n\n") + "\n";
    assert AlmanacText(a, headers) == SeedsLine(a.seeds) + "\n" + t by {
      if |a.maps| > 0 {
        assert parts[1..] == BlockTexts(a.maps, headers);
      } else {
        assert parts == [SeedsLine(a.seeds)];
      }
    }
    FirstLine(SeedsLine(a.seeds), t);
  }

  /** The pieces after the seed line are the blocks, and they parse back to the maps. */
  lemma AlmanacTextMaps(a: Almanac, headers: seq<string>)
    requires |headers| == |a.maps| && forall i :: 0 <= i < |headers| ==> IsHeader(headers[i])
    requires forall i :: 0 <= i < |a.maps| ==> MapFitsU64(a.maps[i])
    ensures ParseMaps(Skip1(SplitTerminator(AlmanacText(a, headers), "\n\n"))) == Some(a.maps)
  {
    var parts := [SeedsLine(a.seeds)] + BlockTexts(a.maps, headers);
    var n := |parts| - 1;
    var pieces := parts[..n] + [parts[n] + "\n"];
    AlmanacTextPieces(a, headers);
    var blocks := Skip1(pieces);
    assert |blocks| == |a.maps|;
    forall i | 0 <= i < |blocks|
      ensures ParseBlock(blocks[i]) == Some(a.maps[i])
    {
      var b := BlockText(headers[i], a.maps[i]);
      assert BlockTexts(a.maps, headers)[i] == b;
      assert blocks[i] == pieces[i + 1];
      if i + 1 < n {
        assert pieces[i + 1] == parts[i + 1] == b;
      } else {
        assert pieces[i + 1] == parts[n] + "\n" && parts[n] == b;
      }
      ParseBlockText(headers[i], a.maps[i]);
    }
    ParseMapsBlocks(blocks, a.maps);
  }

  /**
   * `from_str` reads back the almanac that the puzzle text writes, whatever the headers of
   * the maps, as long as every number fits in `u64`.
   */
  lemma ParseAlmanacText(a: Almanac, headers: seq<string>)
    requires |headers| == |a.maps| && forall i :: 0 <= i < |headers| ==> IsHeader(headers[i])
    requires AlmanacFitsU64(a)
    ensures ParseAlmanac(AlmanacText(a, headers)) == Some(a)
  {
    AlmanacTextFirstLine(a, headers);
    SeedsLineWords(a.seeds);
    AlmanacTextMaps(a, headers);
  }
}

/** The unit tests of `2023/day-05/src/main.rs` (lines 109-158), stated as lemmas. */
module SeedAlmanacExamples {
  import opened Common
  import opened SeedAlmanac

  /** The almanac of the puzzle's example, as test `parse` expects it. */
  function Example(): Almanac
  {
    Almanac(
      [79, 14, 55, 13],
      [ [Range(50, 98, 2), Range(52, 50, 48)],
        [Range(0, 15, 37), Range(37, 52, 2), Range(39, 0, 15)],
        [Range(49, 53, 8), Range(0, 11, 42), Range(42, 0, 7), Range(57, 7, 4)],
        [Range(88, 18, 7), Range(18, 25, 70)],
        [Range(45, 77, 23), Range(81, 45, 19), Range(68, 64, 13)],
        [Range(0, 69, 1), Range(1, 0, 69)],
        [Range(60, 56, 37), Range(56, 93, 4)] ])
  }

  /** A number no range holds is passed on unchanged. */
  lemma ConvertOneMiss(rs: seq<Range>, n: nat)
    requires forall k :: 0 <= k < |rs| ==> !Holds(rs[k], n)
    ensures ConvertOne(rs, n) == [n]
  {
    ConvertOneMeans(rs, n, n);
  }

  /** Converting four numbers, one at a time. */
  lemma Convert4(rs: seq<Range>, a: nat, b: nat, c: nat, d: nat, a1: nat, b1: nat, c1: nat, d1: nat)
    requires ConvertOne(rs, a) == [a1] && ConvertOne(rs, b) == [b1]
    requires ConvertOne(rs, c) == [c1] && ConvertOne(rs, d) == [d1]
    ensures Convert(rs, [a, b, c, d]) == [a1, b1, c1, d1]
  {
    ConvertSnoc(rs, [], a);
    assert [] + [a] == [a];
    ConvertSnoc(rs, [a], b);
    assert [a] + [b] == [a, b];
    ConvertSnoc(rs, [a, b], c);
    assert [a, b] + [c] == [a, b, c];
    ConvertSnoc(rs, [a, b, c], d);
    assert [a, b, c] + [d] == [a, b, c, d];
  }

  /** Converting through one more map. */
  lemma ApplyMapsPrefix(ms: seq<seq<Range>>, ns: seq<nat>, k: nat, mid: seq<nat>, out: seq<nat>)
    requires k < |ms| && ApplyMaps(ms[..k], ns) == mid && Convert(ms[k], mid) == out
    ensures ApplyMaps(ms[..k + 1], ns) == out
  {
    assert ms[..k + 1][..k] == ms[..k];
  }

  /** Test `t1`: the first map sends the seeds 79, 14, 55 and 13 to soils 81, 14, 57 and 13. */
  lemma T1()
    ensures Convert(Example().maps[0], [79, 14, 55, 13]) == [81, 14, 57, 13]
  {
    var rs := Example().maps[0];
    assert ConvertOne(rs, 79) == [81] by {
      ConvertOneHit(rs, 79, 1);
    }
    assert ConvertOne(rs, 14) == [14] by {
      ConvertOneMiss(rs, 14);
    }
    assert ConvertOne(rs, 55) == [57] by {
      ConvertOneHit(rs, 55, 1);
    }
    assert ConvertOne(rs, 13) == [13] by {
      ConvertOneMiss(rs, 13);
    }
    Convert4(rs, 79, 14, 55, 13, 81, 14, 57, 13);
  }

  /** Map 1 of the example, applied to the numbers map 0 gave. */
  lemma Step1()
    ensures Convert(Example().maps[1], [81, 14, 57, 13]) == [81, 53, 57, 52]
  {
    var rs := Example().maps[1];
    assert ConvertOne(rs, 81) == [81] by {
      ConvertOneMiss(rs, 81);
    }
    assert ConvertOne(rs, 14) == [53] by {
      ConvertOneHit(rs, 14, 2);
    }
    assert ConvertOne(rs, 57) == [57] by {
      ConvertOneMiss(rs, 57);
    }
    assert ConvertOne(rs, 13) == [52] by {
      ConvertOneHit(rs, 13, 2);
    }
    Convert4(rs, 81, 14, 57, 13, 81, 53, 57, 52);
  }

  /** Map 2 of the example, applied to the numbers map 1 gave. */
  lemma Step2()
    ensures Convert(Example().maps[2], [81, 53, 57, 52]) == [81, 49, 53, 41]
  {
    var rs := Example().maps[2];
    assert ConvertOne(rs, 81) == [81] by {
      ConvertOneMiss(rs, 81);
    }
    assert ConvertOne(rs, 53) == [49] by {
      ConvertOneHit(rs, 53, 0);
    }
    assert ConvertOne(rs, 57) == [53] by {
      ConvertOneHit(rs, 57, 0);
    }
    assert ConvertOne(rs, 52) == [41] by {
      ConvertOneHit(rs, 52, 1);
    }
    Convert4(rs, 81, 53, 57, 52, 81, 49, 53, 41);
  }

  /** Map 3 of the example, applied to the numbers map 2 gave. */
  lemma Step3()
    ensures Convert(Example().maps[3], [81, 49, 53, 41]) == [74, 42, 46, 34]
  {
    var rs := Example().maps[3];
    assert ConvertOne(rs, 81) == [74] by {
      ConvertOneHit(rs, 81, 1);
    }
    assert ConvertOne(rs, 49) == [42] by {
      ConvertOneHit(rs, 49, 1);
    }
    assert ConvertOne(rs, 53) == [46] by {
      ConvertOneHit(rs, 53, 1);
    }
    assert ConvertOne(rs, 41) == [34] by {
      ConvertOneHit(rs, 41, 1);
    }
    Convert4(rs, 81, 49, 53, 41, 74, 42, 46, 34);
  }

  /** Map 4 of the example, applied to the numbers map 3 gave. */
  lemma Step4()
    ensures Convert(Example().maps[4], [74, 42, 46, 34]) == [78, 42, 82, 34]
  {
    var rs := Example().maps[4];
    assert ConvertOne(rs, 74) == [78] by {
      ConvertOneHit(rs, 74, 2);
    }
    assert ConvertOne(rs, 42) == [42] by {
      ConvertOneMiss(rs, 42);
    }
    assert ConvertOne(rs, 46) == [82] by {
      ConvertOneHit(rs, 46, 1);
    }
    assert ConvertOne(rs, 34) == [34] by {
      ConvertOneMiss(rs, 34);
    }
    Convert4(rs, 74, 42, 46, 34, 78, 42, 82, 34);
  }

  /** Map 5 of the example, applied to the numbers map 4 gave. */
  lemma Step5()
    ensures Convert(Example().maps[5], [78, 42, 82, 34]) == [78, 43, 82, 35]
  {
    var rs := Example().maps[5];
    assert ConvertOne(rs, 78) == [78] by {
      ConvertOneMiss(rs, 78);
    }
    assert ConvertOne(rs, 42) == [43] by {
      ConvertOneHit(rs, 42, 1);
    }
    assert ConvertOne(rs, 82) == [82] by {
      ConvertOneMiss(rs, 82);
    }
    assert ConvertOne(rs, 34) == [35] by {
      ConvertOneHit(rs, 34, 1);
    }
    Convert4(rs, 78, 42, 82, 34, 78, 43, 82, 35);
  }

  /** Map 6 of the example, applied to the numbers map 5 gave. */
  lemma Step6()
    ensures Convert(Example().maps[6], [78, 43, 82, 35]) == [82, 43, 86, 35]
  {
    var rs := Example().maps[6];
    assert ConvertOne(rs, 78) == [82] by {
      ConvertOneHit(rs, 78, 0);
    }
    assert ConvertOne(rs, 43) == [43] by {
      ConvertOneMiss(rs, 43);
    }
    assert ConvertOne(rs, 82) == [86] by {
      ConvertOneHit(rs, 82, 0);
    }
    assert ConvertOne(rs, 35) == [35] by {
      ConvertOneMiss(rs, 35);
    }
    Convert4(rs, 78, 43, 82, 35, 82, 43, 86, 35);
  }

  /** Seven maps, each sending the list before it to the list after it, send the first list to the last. */
  lemma Chain7(ms: seq<seq<Range>>, l0: seq<nat>, l1: seq<nat>, l2: seq<nat>, l3: seq<nat>, l4: seq<nat>, l5: seq<nat>, l6: seq<nat>, l7: seq<nat>)
    requires |ms| == 7
    requires Convert(ms[0], l0) == l1 && Convert(ms[1], l1) == l2 && Convert(ms[2], l2) == l3
    requires Convert(ms[3], l3) == l4 && Convert(ms[4], l4) == l5 && Convert(ms[5], l5) == l6
    requires Convert(ms[6], l6) == l7
    ensures ApplyMaps(ms, l0) == l7
  {
    assert ms[..0] == [];
    ApplyMapsPrefix(ms, l0, 0, l0, l1);
    ApplyMapsPrefix(ms, l0, 1, l1, l2);
    ApplyMapsPrefix(ms, l0, 2, l2, l3);
    ApplyMapsPrefix(ms, l0, 3, l3, l4);
    ApplyMapsPrefix(ms, l0, 4, l4, l5);
    ApplyMapsPrefix(ms, l0, 5, l5, l6);
    ApplyMapsPrefix(ms, l0, 6, l6, l7);
    assert ms[..7] == ms;
  }

  /** Test `t2`: the seeds end at locations 82, 43, 86 and 35. */
  lemma T2()
    ensures ApplyMaps(Example().maps, Example().seeds) == [82, 43, 86, 35]
  {
    var ms := Example().maps;
    assert Convert(ms[0], [79, 14, 55, 13]) == [81, 14, 57, 13] by { T1(); }
    assert Convert(ms[1], [81, 14, 57, 13]) == [81, 53, 57, 52] by { Step1(); }
    assert Convert(ms[2], [81, 53, 57, 52]) == [81, 49, 53, 41] by { Step2(); }
    assert Convert(ms[3], [81, 49, 53, 41]) == [74, 42, 46, 34] by { Step3(); }
    assert Convert(ms[4], [74, 42, 46, 34]) == [78, 42, 82, 34] by { Step4(); }
    assert Convert(ms[5], [78, 42, 82, 34]) == [78, 43, 82, 35] by { Step5(); }
    assert Convert(ms[6], [78, 43, 82, 35]) == [82, 43, 86, 35] by { Step6(); }
    Chain7(ms, [79, 14, 55, 13], [81, 14, 57, 13], [81, 53, 57, 52], [81, 49, 53, 41], [74, 42, 46, 34], [78, 42, 82, 34], [78, 43, 82, 35], [82, 43, 86, 35]);
  }

  /** Test `t2`, read as part one's answer: the lowest location is 35. */
  lemma LowestExample()
    ensures LowestLocation(Example()) == Some(35)
  {
    T2();
    var locations: seq<nat> := [82, 43, 86, 35];
    assert Minimum(locations).value == 35 by {
      assert locations[3] == 35;
    }
  }

  /** The section headers of the puzzle's input. */
  function Headers(): seq<string>
  {
    ["seed-to-soil map:", "soil-to-fertilizer map:", "fertilizer-to-water map:", "water-to-light map:",
     "light-to-temperature map:", "temperature-to-humidity map:", "humidity-to-location map:"]
  }

  lemma ExampleFits()
    ensures AlmanacFitsU64(Example())
  {
    var a := Example();
    assert forall k :: 0 <= k < |a.maps| ==> MapFitsU64(a.maps[k]);
  }

  lemma HeadersAreHeaders()
    ensures |Headers()| == 7 && forall i :: 0 <= i < |Headers()| ==> IsHeader(Headers()[i])
  {
  }

  /** Test `parse`: the example's text, written out with the puzzle's headers, parses to the example almanac. */
  lemma Parse()
    ensures ParseAlmanac(AlmanacText(Example(), Headers())) == Some(Example())
  {
    ExampleFits();
    HeadersAreHeaders();
    ParseAlmanacText(Example(), Headers());
  }
}
