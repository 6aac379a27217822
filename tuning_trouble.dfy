/**
 * 2022 day 6, "Tuning Trouble": the device reads the datastream one character at a time
 * and reports how many it has read when the last four are all different, the
 * start-of-packet marker.
 */
module TuningTrouble {

  /** The last `capacity` elements of `s`, or all of them when there are fewer. */
  function Recent(s: seq<char>, capacity: nat): (r: seq<char>)
    ensures |r| == if |s| <= capacity then |s| else capacity
    ensures forall k :: 0 <= k < |r| ==> r[k] == s[|s| - |r| + k]
  {
    if |s| <= capacity then s else s[|s| - capacity..]
  }

  /** The `CircularQueue` of the `circular_queue` crate: a push drops the oldest element once it is full. */
  class CircularQueue {
    const capacity: nat
    var items: seq<char>

    /** `CircularQueue::with_capacity`: an empty queue. */
    constructor(capacity: nat)
      ensures this.capacity == capacity && items == []
    {
      this.capacity := capacity;
      items := [];
    }

    /** `push`: the element joins at the back, and only the last `capacity` elements are kept. */
    method Push(c: char)
      modifies this
      ensures items == Recent(old(items) + [c], capacity)
    {
      items := Recent(items + [c], capacity);
    }
  }

  /** The distinct elements of a window: the `HashSet` that `for_each` fills. */
  function Elements(w: seq<char>): (e: set<char>)
    ensures forall c :: c in e <==> c in w
  {
    set j | 0 <= j < |w| :: w[j]
  }

  /** A window never has more distinct elements than it has elements. */
  lemma {:induction false} ElementsBound(w: seq<char>)
    ensures |Elements(w)| <= |w|
  {
    if w != [] {
      var front := w[..|w| - 1];
      ElementsBound(front);
      assert Elements(w) == Elements(front) + {w[|w| - 1]};
    }
  }

  /** `uniq.len() == 4`: the window holds four different characters. */
  predicate Distinct(w: seq<char>)
  {
    |Elements(w)| == 4
  }

  /** The last four characters (fewer at the start) read after `n` characters of `line`. */
  function Window(line: string, n: nat): (w: string)
    requires n <= |line|
    ensures |w| == if n <= 4 then n else 4
  {
    if n <= 4 then line[..n] else line[n - 4..n]
  }

  /** `take_while(|char| *char != '\n')`: the characters before the first line feed. */
  function FirstLine(input: string): (line: string)
    ensures |line| <= |input| && line == input[..|line|]
    ensures '\n' !in line
    ensures |line| < |input| ==> input[|line|] == '\n'
  {
    if input == [] || input[0] == '\n' then [] else [input[0]] + FirstLine(input[1..])
  }

  /** After `n` characters of `line`, the last four read are all different. */
  predicate MarkerAt(line: string, n: nat)
    requires n <= |line|
  {
    Distinct(Window(line, n))
  }

  /** Whether the window is a marker after each number of characters read: entry `k` is after `k + 1`. */
  function Flags(line: string): (flags: seq<bool>)
    ensures |flags| == |line|
    ensures forall k :: 0 <= k < |line| ==> flags[k] == MarkerAt(line, k + 1)
  {
    seq(|line|, k requires 0 <= k < |line| => MarkerAt(line, k + 1))
  }

  /** The number of characters read when the scan, having read `n` already, stops. */
  function Scan(flags: seq<bool>, n: nat): (total: nat)
    requires n <= |flags|
    ensures n <= total <= |flags|
    ensures n < |flags| ==> n < total
    decreases |flags| - n
  {
    if n == |flags| then n
    else if flags[n] then n + 1
    else Scan(flags, n + 1)
  }

  /** The result of the scan over `line`: the marker's end, or the line's length without one. */
  function Marker(line: string): (total: nat)
    ensures total <= |line|
  {
    Scan(Flags(line), 0)
  }

  /**
   * The scan stops right after the first marker flagged at or after `n`, or reads every
   * character when there is none.
   */
  lemma {:induction false} ScanFirst(flags: seq<bool>, n: nat)
    requires n <= |flags|
    ensures forall k :: n <= k < Scan(flags, n) - 1 ==> !flags[k]
    ensures Scan(flags, n) == |flags| || flags[Scan(flags, n) - 1]
    decreases |flags| - n
  {
    if n < |flags| && !flags[n] {
      ScanFirst(flags, n + 1);
    }
  }

  /** A marker in the line is found, and the one found is the first. */
  lemma MarkerFound(line: string, k: nat)
    requires 1 <= k <= |line| && MarkerAt(line, k)
    ensures Marker(line) <= k && MarkerAt(line, Marker(line))
    ensures forall j :: 1 <= j < Marker(line) ==> !MarkerAt(line, j)
  {
    var flags := Flags(line);
    var m := Scan(flags, 0);
    assert m == Marker(line);
    ScanFirst(flags, 0);
    assert flags[k - 1];
    assert 1 <= m <= k;
    assert flags[m - 1] by {
      if m < |flags| {
        assert flags[m - 1];
      } else {
        assert m == k;
      }
    }
    assert MarkerAt(line, m) == flags[m - 1];
    forall j | 1 <= j < m
      ensures !MarkerAt(line, j)
    {
      assert !flags[j - 1];
    }
  }

  /** Without a marker in the line, the whole line is read. */
  lemma MarkerMissing(line: string)
    requires forall k :: 1 <= k <= |line| ==> !MarkerAt(line, k)
    ensures Marker(line) == |line|
  {
    var flags := Flags(line);
    ScanFirst(flags, 0);
  }

  /** A marker needs four characters, so one found is at least four characters in. */
  lemma MarkerAtLeastFour(line: string)
    requires MarkerAt(line, Marker(line))
    ensures Marker(line) >= 4
  {
    ElementsBound(Window(line, Marker(line)));
  }

  /** The window after one more character is the last four of the window before and that character. */
  lemma WindowStep(line: string, n: nat)
    requires n < |line|
    ensures Window(line, n + 1) == Recent(Window(line, n) + [line[n]], 4)
  {
    var w := Window(line, n);
    assert w + [line[n]] == line[n - |w|..n + 1];
  }

  /** The `for_each` of `main`: every element of the queue is inserted into an empty `HashSet`. */
  method CollectUnique(window: seq<char>) returns (uniq: set<char>)
    ensures uniq == Elements(window)
  {
    uniq := {};
    for k := 0 to |window|
      invariant uniq == set j | 0 <= j < k :: window[j]
    {
      uniq := uniq + {window[k]};
    }
  }

  /**
   * `main`: the characters of the first line are pushed into a queue of four, counted in
   * `total_amount`, and the scan breaks as soon as the queue holds four different ones.
   */
  method FindMarker(input: string) returns (totalAmount: nat)
    ensures totalAmount == Marker(FirstLine(input))
  {
    ghost var line := FirstLine(input);
    ghost var flags := Flags(line);
    var queue := new CircularQueue(4);
    totalAmount := 0;
    var i := 0;
    while i < |input| && input[i] != '\n'
      invariant i <= |line| && totalAmount == i
      invariant queue.capacity == 4 && queue.items == Window(line, i)
      invariant Scan(flags, i) == Marker(line)
      decreases |input| - i
    {
      assert i < |line| && line[i] == input[i];
      WindowStep(line, i);
      queue.Push(input[i]);
      totalAmount := totalAmount + 1;
      var uniq := CollectUnique(queue.items);
      assert flags[i] == (|uniq| == 4);
      if |uniq| == 4 {
        return;
      }
      i := i + 1;
    }
  }

  /** The windows of a line do not depend on what follows them. */
  lemma WindowPrefix(p: string, t: string, n: nat)
    requires n <= |p|
    ensures Window(p + t, n) == Window(p, n)
  {
    assert (p + t)[..n] == p[..n];
  }

  /** The scan never reads past a marker: what follows the marker does not change the result. */
  lemma MarkerPrefix(p: string, t: string)
    requires MarkerAt(p, Marker(p))
    ensures Marker(p + t) == Marker(p)
  {
    var k := Marker(p);
    MarkerFound(p, k);
    WindowPrefix(p, t, k);
    MarkerFound(p + t, k);
    var m := Marker(p + t);
    if m < k {
      WindowPrefix(p, t, m);
      MarkerFound(p, m);
      assert false;
    }
  }

  /** Four characters that differ pairwise are a marker. */
  lemma FourDifferent(w: seq<char>)
    requires |w| == 4 && w[0] != w[1] && w[0] != w[2] && w[0] != w[3] && w[1] != w[2] && w[1] != w[3] && w[2] != w[3]
    ensures Distinct(w)
  {
    assert Elements(w) == {w[0], w[1], w[2], w[3]};
  }

  /** A window in which one character repeats is not a marker. */
  lemma RepeatNotDistinct(w: seq<char>, i: nat, j: nat)
    requires |w| <= 4 && i < j < |w| && w[i] == w[j]
    ensures !Distinct(w)
  {
    var rest := w[..j] + w[j + 1..];
    assert Elements(w) == Elements(rest) by {
      forall c | c in w
        ensures c in rest
      {
        var k :| 0 <= k < |w| && w[k] == c;
        if k == j {
          assert rest[i] == c;
        } else if k < j {
          assert rest[k] == c;
        } else {
          assert rest[k - 1] == c;
        }
      }
    }
    ElementsBound(rest);
  }

  /** A marker after `k` characters with none before it is the one found. */
  lemma MarkerExactly(line: string, k: nat)
    requires 1 <= k <= |line| && MarkerAt(line, k)
    requires forall j :: 1 <= j < k ==> !MarkerAt(line, j)
    ensures Marker(line) == k
  {
    MarkerFound(line, k);
    assert !MarkerAt(line, 0) by {
      ElementsBound(Window(line, 0));
    }
  }

  /** `jpqm`, the window after seven characters of `mjqjpqm`, is a marker. */
  lemma ExampleMarkerAt()
    ensures MarkerAt("mjqjpqm", 7)
  {
    FourDifferent(Window("mjqjpqm", 7));
  }

  /** No window of `mjqjpqm` before the seventh character is a marker. */
  lemma ExampleNoEarlierMarker()
    ensures forall n :: 1 <= n < 7 ==> !MarkerAt("mjqjpqm", n)
  {
    var line := "mjqjpqm";
    forall n | 1 <= n < 7
      ensures !MarkerAt(line, n)
    {
      var w := Window(line, n);
      if n < 4 {
        ElementsBound(w);
      } else if n == 4 {
        assert w[1] == line[1] == line[3] == w[3];
        RepeatNotDistinct(w, 1, 3);
      } else if n == 5 {
        assert w[0] == line[1] == line[3] == w[2];
        RepeatNotDistinct(w, 0, 2);
      } else {
        assert w[0] == line[2] == line[5] == w[3];
        RepeatNotDistinct(w, 0, 3);
      }
    }
  }

  /** In `mjqjpqm`, the first four different characters in a row are `jpqm`, read after seven. */
  lemma ExamplePrefix()
    ensures Marker("mjqjpqm") == 7 && MarkerAt("mjqjpqm", 7)
  {
    ExampleMarkerAt();
    ExampleNoEarlierMarker();
    MarkerExactly("mjqjpqm", 7);
  }

  /**
   * Every datastream that starts with `mjqjpqm`, such as `mjqjpqmgbljsphdztnvjfqwrcgsmlb`,
   * has its marker after seven characters.
   */
  lemma ExampleMarker(rest: string)
    ensures Marker("mjqjpqm" + rest) == 7
  {
    ExamplePrefix();
    MarkerPrefix("mjqjpqm", rest);
  }
}
