/**
 * 2022 day 13, "Distress Signal": pairs of packets, each a JSON value made of integers
 * and lists. `process_packets` walks a list of pairs and decides whether the packets
 * are out of order: equal integers are skipped, the first unequal pair of integers
 * decides, lists are compared element by element up to the shorter one, and an
 * integer facing a list is wrapped as a one-element list.
 */
module DistressSignal {
  import opened Common
  import opened Text

  /**
   * A parsed packet. `Other` stands for every JSON value that is neither a number nor
   * an array (null, a boolean, a string, an object), on which the source panics.
   */
  datatype Value = Number(n: int) | Array(items: seq<Value>) | Other

  /** `as_i64` succeeds on the numbers a signed 64-bit integer holds. */
  predicate IsI64(n: int)
  {
    I64_MIN <= n <= I64_MAX
  }

  /** A packet made only of `i64` numbers and arrays: one the source never panics on. */
  predicate WellFormed(v: Value)
  {
    match v
    case Number(n) => IsI64(n)
    case Array(items) => forall i :: 0 <= i < |items| ==> WellFormed(items[i])
    case Other => false
  }

  predicate PairsWellFormed(packets: seq<(Value, Value)>)
  {
    forall k :: 0 <= k < |packets| ==> WellFormed(packets[k].0) && WellFormed(packets[k].1)
  }

  function Size(v: Value): (s: nat)
    ensures s >= 1
  {
    match v
    case Number(_) => 1
    case Other => 1
    case Array(items) => 1 + ItemsSize(items)
  }

  function ItemsSize(items: seq<Value>): nat
  {
    if items == [] then 0 else Size(items[0]) + ItemsSize(items[1..])
  }

  function PairsSize(packets: seq<(Value, Value)>): nat
  {
    if packets == [] then 0 else Size(packets[0].0) + Size(packets[0].1) + PairsSize(packets[1..])
  }

  /** `left.iter().zip(right.iter())`: the pairs of elements up to the end of the shorter list. */
  function Zip(left: seq<Value>, right: seq<Value>): (z: seq<(Value, Value)>)
    ensures |z| == if |left| <= |right| then |left| else |right|
    ensures forall k :: 0 <= k < |z| ==> z[k] == (left[k], right[k])
  {
    if left == [] || right == [] then [] else [(left[0], right[0])] + Zip(left[1..], right[1..])
  }

  lemma {:induction false} ZipSize(left: seq<Value>, right: seq<Value>)
    ensures PairsSize(Zip(left, right)) <= ItemsSize(left) + ItemsSize(right)
  {
    if left != [] && right != [] {
      ZipSize(left[1..], right[1..]);
      assert Zip(left, right)[1..] == Zip(left[1..], right[1..]);
    }
  }

  /**
   * `process_packets`. `Some(true)` means a pair of numbers with the left one larger
   * was met before any nested comparison came out false; `None` is a panic.
   */
  function Process(packets: seq<(Value, Value)>): (r: Option<bool>)
    ensures r == Some(true) ==>
      exists k :: 0 <= k < |packets| && packets[k].0.Number? && packets[k].1.Number? && packets[k].0.n > packets[k].1.n
    decreases PairsSize(packets), 1
  {
    if packets == [] then Some(false)
    else
      var rest := packets[1..];
      match packets[0]
      case (Number(l), Number(r)) =>
        if !IsI64(l) || !IsI64(r) then None
        else if l == r then
          var o := Process(rest);
          assert o == Some(true) ==> exists k :: 0 <= k < |rest| && rest[k].0.Number? && rest[k].1.Number? && rest[k].0.n > rest[k].1.n;
          assert forall k :: 0 <= k < |rest| ==> rest[k] == packets[k + 1];
          o
        else Some(l > r)
      case (Array(l), Array(r)) => Nested(l, r, packets)
      case (Array(l), Number(r)) => Nested(l, [Number(r)], packets)
      case (Number(l), Array(r)) => Nested([Number(l)], r, packets)
      case _ => None
  }

  /**
   * The nested call on the zipped lists of the first pair, then the rest of the pairs
   * when that call did not come out false.
   */
  function Nested(left: seq<Value>, right: seq<Value>, packets: seq<(Value, Value)>): (r: Option<bool>)
    requires |packets| >= 1 && ItemsSize(left) + ItemsSize(right) < Size(packets[0].0) + Size(packets[0].1)
    ensures r == Some(true) ==>
      exists k :: 0 <= k < |packets| && packets[k].0.Number? && packets[k].1.Number? && packets[k].0.n > packets[k].1.n
    decreases PairsSize(packets), 0
  {
    ZipSize(left, right);
    var ordered := Process(Zip(left, right));
    if ordered.None? then None
    else if !ordered.value then Some(false)
    else
      var rest := packets[1..];
      var o := Process(rest);
      assert forall k :: 0 <= k < |rest| ==> rest[k] == packets[k + 1];
      o
  }

  /** A one-element list holds one node more than its element. */
  lemma WrapSize(v: Value)
    ensures ItemsSize([v]) == Size(v)
  {
    assert [v][1..] == [];
  }

  /** The pairs that open a list: equal `i64` numbers, which the walk steps over. */
  predicate EqualNumbers(packets: seq<(Value, Value)>, k: nat)
    requires k <= |packets|
  {
    forall i :: 0 <= i < k ==> packets[i].0.Number? && packets[i].0 == packets[i].1 && IsI64(packets[i].0.n)
  }

  /**
   * Equal numbers are skipped: after a run of equal `i64` numbers, the first pair of
   * unequal `i64` numbers decides, and the result is whether the left one is larger.
   */
  lemma {:induction false} FirstUnequal(packets: seq<(Value, Value)>, k: nat)
    requires k < |packets| && EqualNumbers(packets, k)
    requires packets[k].0.Number? && packets[k].1.Number? && IsI64(packets[k].0.n) && IsI64(packets[k].1.n)
    requires packets[k].0.n != packets[k].1.n
    ensures Process(packets) == Some(packets[k].0.n > packets[k].1.n)
  {
    if k > 0 {
      var rest := packets[1..];
      assert EqualNumbers(rest, k - 1) by {
        forall i | 0 <= i < k - 1
          ensures rest[i].0.Number? && rest[i].0 == rest[i].1 && IsI64(rest[i].0.n)
        {
          assert rest[i] == packets[i + 1];
        }
      }
      FirstUnequal(rest, k - 1);
      assert packets[0].0 == packets[0].1;
    }
  }

  /** A list of pairs of equal `i64` numbers only comes out false. */
  lemma {:induction false} AllEqualNumbers(packets: seq<(Value, Value)>)
    requires EqualNumbers(packets, |packets|)
    ensures Process(packets) == Some(false)
  {
    if packets != [] {
      var rest := packets[1..];
      assert EqualNumbers(rest, |rest|) by {
        forall i | 0 <= i < |rest|
          ensures rest[i].0.Number? && rest[i].0 == rest[i].1 && IsI64(rest[i].0.n)
        {
          assert rest[i] == packets[i + 1];
        }
      }
      AllEqualNumbers(rest);
      assert packets[0].0 == packets[0].1;
    }
  }

  /**
   * Two lists are compared only up to the end of the shorter one: the extra elements of
   * the longer list play no part, as the comment on `process_packets` admits.
   */
  lemma ZipTruncates(left: seq<Value>, right: seq<Value>, rest: seq<(Value, Value)>)
    requires |left| <= |right|
    ensures Process([(Array(left), Array(right))] + rest) == Process([(Array(left), Array(right[..|left|]))] + rest)
  {
    var z := Zip(left, right);
    var t := Zip(left, right[..|left|]);
    assert z == t;
    var p := [(Array(left), Array(right))] + rest;
    var q := [(Array(left), Array(right[..|left|]))] + rest;
    assert p[1..] == rest && q[1..] == rest;
  }

  /**
   * A nested comparison that comes out false ends the walk at once with false, whatever
   * pairs follow it.
   */
  lemma NestedFalse(left: seq<Value>, right: seq<Value>, rest: seq<(Value, Value)>)
    requires Process(Zip(left, right)) == Some(false)
    ensures Process([(Array(left), Array(right))] + rest) == Some(false)
  {
    var p := [(Array(left), Array(right))] + rest;
    assert p[0] == (Array(left), Array(right));
  }

  /**
   * A nested comparison that comes out true does not decide: the walk goes on with the
   * rest of the pairs.
   */
  lemma NestedTrue(left: seq<Value>, right: seq<Value>, rest: seq<(Value, Value)>)
    requires Process(Zip(left, right)) == Some(true)
    ensures Process([(Array(left), Array(right))] + rest) == Process(rest)
  {
    var p := [(Array(left), Array(right))] + rest;
    assert p[0] == (Array(left), Array(right)) && p[1..] == rest;
  }

  /** A number facing a list is compared as the one-element list holding it, on either side. */
  lemma NumberWrapped(n: int, items: seq<Value>, rest: seq<(Value, Value)>)
    ensures Process([(Number(n), Array(items))] + rest) == Process([(Array([Number(n)]), Array(items))] + rest)
    ensures Process([(Array(items), Number(n))] + rest) == Process([(Array(items), Array([Number(n)]))] + rest)
  {
    var p1 := [(Number(n), Array(items))] + rest;
    var q1 := [(Array([Number(n)]), Array(items))] + rest;
    var p2 := [(Array(items), Number(n))] + rest;
    var q2 := [(Array(items), Array([Number(n)]))] + rest;
    assert p1[0] == (Number(n), Array(items)) && q1[0] == (Array([Number(n)]), Array(items));
    assert p2[0] == (Array(items), Number(n)) && q2[0] == (Array(items), Array([Number(n)]));
    assert p1[1..] == q1[1..] == p2[1..] == q2[1..] == rest;
  }

  /** A value that is neither a number nor an array panics as soon as the walk reaches it. */
  lemma OtherPanics(v: Value, rest: seq<(Value, Value)>)
    ensures Process([(Other, v)] + rest) == None && Process([(v, Other)] + rest) == None
  {
    var p := [(Other, v)] + rest;
    var q := [(v, Other)] + rest;
    assert p[0] == (Other, v) && q[0] == (v, Other);
  }

  /** The walk does not panic on pairs of packets made of `i64` numbers and arrays. */
  lemma {:induction false} NoPanic(packets: seq<(Value, Value)>)
    requires PairsWellFormed(packets)
    ensures Process(packets).Some?
    decreases PairsSize(packets)
  {
    if packets != [] {
      var rest := packets[1..];
      assert PairsWellFormed(rest) by {
        forall k | 0 <= k < |rest|
          ensures WellFormed(rest[k].0) && WellFormed(rest[k].1)
        {
          assert rest[k] == packets[k + 1];
        }
      }
      assert WellFormed(packets[0].0) && WellFormed(packets[0].1);
      match packets[0]
      case (Number(l), Number(r)) =>
        NoPanic(rest);
      case (Array(l), Array(r)) =>
        NestedNoPanic(l, r, packets);
      case (Array(l), Number(r)) =>
        WrapSize(Number(r));
        NestedNoPanic(l, [Number(r)], packets);
      case (Number(l), Array(r)) =>
        WrapSize(Number(l));
        NestedNoPanic([Number(l)], r, packets);
    }
  }

  lemma NestedNoPanic(left: seq<Value>, right: seq<Value>, packets: seq<(Value, Value)>)
    requires |packets| >= 1 && ItemsSize(left) + ItemsSize(right) < Size(packets[0].0) + Size(packets[0].1)
    requires PairsWellFormed(packets[1..])
    requires forall i :: 0 <= i < |left| ==> WellFormed(left[i])
    requires forall i :: 0 <= i < |right| ==> WellFormed(right[i])
    ensures Nested(left, right, packets).Some?
    decreases PairsSize(packets), 0
  {
    ZipSize(left, right);
    var z := Zip(left, right);
    assert PairsWellFormed(z);
    NoPanic(z);
    if Process(z) == Some(true) {
      NoPanic(packets[1..]);
    }
  }

  /** A packet paired with itself never compares out of order. */
  lemma {:induction false} SelfNotOrdered(v: Value)
    requires WellFormed(v)
    ensures Process([(v, v)]) == Some(false)
    decreases Size(v), 1
  {
    var p := [(v, v)];
    assert p[0] == (v, v) && p[1..] == [];
    if v.Array? {
      SelfItems(v.items);
      ZipSize(v.items, v.items);
      ItemsBelow(v.items);
    }
  }

  /** The items of a list are each smaller than the list. */
  lemma {:induction false} ItemsBelow(items: seq<Value>)
    ensures forall i :: 0 <= i < |items| ==> Size(items[i]) <= ItemsSize(items)
  {
    if items != [] {
      ItemsBelow(items[1..]);
      forall i | 0 <= i < |items|
        ensures Size(items[i]) <= ItemsSize(items)
      {
        if i > 0 {
          assert items[i] == items[1..][i - 1];
        }
      }
    }
  }

  /** A list zipped with itself compares out of order nowhere. */
  lemma {:induction false} SelfItems(items: seq<Value>)
    requires forall i :: 0 <= i < |items| ==> WellFormed(items[i])
    ensures Process(Zip(items, items)) == Some(false)
    decreases ItemsSize(items), 2
  {
    if items != [] {
      var z := Zip(items, items);
      var rest := items[1..];
      assert z[1..] == Zip(rest, rest);
      assert z[0] == (items[0], items[0]);
      SelfItems(rest);
      var v := items[0];
      SelfNotOrdered(v);
      SelfPair(v, z);
    }
  }

  /** A first pair that compares false on its own ends the walk with false. */
  lemma SelfPair(v: Value, z: seq<(Value, Value)>)
    requires |z| >= 1 && z[0] == (v, v) && WellFormed(v)
    requires Process([(v, v)]) == Some(false) && Process(z[1..]) == Some(false)
    ensures Process(z) == Some(false)
  {
    var p := [(v, v)];
    assert p[0] == (v, v) && p[1..] == [];
    match v
    case Number(n) =>
    case Array(items) =>
      assert Process(Zip(items, items)) == Some(false) by {
        assert Process(p) == Nested(items, items, p);
      }
  }

  /** The input as `main` reads it: groups separated by a blank line, each with its non-empty lines. */
  function PacketLines(text: string): (groups: seq<seq<string>>)
    ensures |groups| == |SplitTerminator(text, "\n\n")|
  {
    var parts := SplitTerminator(text, "\n\n");
    seq(|parts|, i requires 0 <= i < |parts| => NonEmpty(Lines(parts[i])))
  }

  /** `filter(|line| !line.is_empty())`. */
  function NonEmpty(lines: seq<string>): (r: seq<string>)
    ensures |r| <= |lines|
    ensures forall i :: 0 <= i < |r| ==> r[i] != []
    ensures forall i :: 0 <= i < |lines| && lines[i] != [] ==> lines[i] in r
  {
    if lines == [] then []
    else if lines[0] == [] then NonEmpty(lines[1..])
    else [lines[0]] + NonEmpty(lines[1..])
  }

  /**
   * The pairs `main` builds: the first two packets of every group; a group with fewer
   * than two makes the indexing panic.
   */
  function Pairs(groups: seq<seq<Value>>): (r: Option<seq<(Value, Value)>>)
    ensures r.Some? <==> forall g :: 0 <= g < |groups| ==> |groups[g]| >= 2
    ensures r.Some? ==> |r.value| == |groups| && forall g :: 0 <= g < |groups| ==> r.value[g] == (groups[g][0], groups[g][1])
  {
    if exists g :: 0 <= g < |groups| && |groups[g]| < 2 then None
    else Some(seq(|groups|, g requires 0 <= g < |groups| => (groups[g][0], groups[g][1])))
  }

  /** Every line of a group parsed by `parse`, which stands for `serde_json::from_str`; a failure panics. */
  function ParseGroup(lines: seq<string>, parse: string -> Option<Value>): (r: Option<seq<Value>>)
    ensures r.Some? <==> forall i :: 0 <= i < |lines| ==> parse(lines[i]).Some?
    ensures r.Some? ==> |r.value| == |lines| && forall i :: 0 <= i < |lines| ==> r.value[i] == parse(lines[i]).value
  {
    if exists i :: 0 <= i < |lines| && parse(lines[i]).None? then None
    else Some(seq(|lines|, i requires 0 <= i < |lines| => parse(lines[i]).value))
  }

  function ParseGroups(groups: seq<seq<string>>, parse: string -> Option<Value>): (r: Option<seq<seq<Value>>>)
    ensures r.Some? <==> forall g :: 0 <= g < |groups| ==> ParseGroup(groups[g], parse).Some?
    ensures r.Some? ==> |r.value| == |groups| && forall g :: 0 <= g < |groups| ==> Some(r.value[g]) == ParseGroup(groups[g], parse)
  {
    if exists g :: 0 <= g < |groups| && ParseGroup(groups[g], parse).None? then None
    else Some(seq(|groups|, g requires 0 <= g < |groups| => ParseGroup(groups[g], parse).value))
  }

  /** `main`: the result of `process_packets` on the pairs of the input, or a panic. */
  function Orderd(text: string, parse: string -> Option<Value>): Option<bool>
  {
    var groups := ParseGroups(PacketLines(text), parse);
    if groups.None? then None
    else
      var pairs := Pairs(groups.value);
      if pairs.None? then None else Process(pairs.value)
  }

  /** `main` panics when a group holds fewer than two packets, and reads the first two of each otherwise. */
  lemma OrderdPairs(text: string, parse: string -> Option<Value>)
    ensures var groups := ParseGroups(PacketLines(text), parse);
      groups.Some? && (forall g :: 0 <= g < |groups.value| ==> |groups.value[g]| >= 2) ==>
        Orderd(text, parse) == Process(seq(|groups.value|, g requires 0 <= g < |groups.value| =>
          (groups.value[g][0], groups.value[g][1])))
    ensures var groups := ParseGroups(PacketLines(text), parse);
      groups.Some? && (exists g :: 0 <= g < |groups.value| && |groups.value[g]| < 2) ==> Orderd(text, parse) == None
  {
  }
}
