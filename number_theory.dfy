/**
 * Greatest common divisors and least common multiples of natural numbers, in place of the
 * `lcmx` crate that 2023 day 8 calls to combine its step counts (`main.rs`, line 106).
 * Each operation is paired with the property that characterises it: the gcd divides both
 * numbers and is divided by every common divisor; the lcm is a common multiple and divides
 * every common multiple; the lcm of a list does not depend on the order of the list.
 */
module NumberTheory {
  import opened Common

  /** `d` divides `n`: `n` is an integer multiple of `d`. */
  ghost predicate Divides(d: nat, n: nat)
  {
    exists k: int :: d * k == n
  }

  /** A combination `p * x + q * y` of two multiples of `d` is a multiple of `d`. */
  lemma DividesCombination(d: nat, x: nat, y: nat, p: int, q: int, z: nat)
    requires Divides(d, x) && Divides(d, y) && z == p * x + q * y
    ensures Divides(d, z)
  {
    var i: int :| d * i == x;
    var j: int :| d * j == y;
    assert p * x == d * (p * i) by {
      assert p * (d * i) == d * (p * i);
    }
    assert q * y == d * (q * j) by {
      assert q * (d * j) == d * (q * j);
    }
    assert z == d * (p * i + q * j);
  }

  /** Divisibility is transitive. */
  lemma DividesTransitive(a: nat, b: nat, c: nat)
    requires Divides(a, b) && Divides(b, c)
    ensures Divides(a, c)
  {
    var i: int :| a * i == b;
    var j: int :| b * j == c;
    assert a * (i * j) == c by {
      assert (a * i) * j == a * (i * j);
    }
  }

  /** Two natural numbers that divide each other are equal. */
  lemma DividesAntisymmetric(a: nat, b: nat)
    requires Divides(a, b) && Divides(b, a)
    ensures a == b
  {
    var i: int :| a * i == b;
    var j: int :| b * j == a;
    if a != 0 {
      assert a * (i * j) == a * 1 by {
        assert (a * i) * j == a * (i * j);
      }
      MulCancel(a, i * j, 1);
      UnitFactors(i, j);
    }
  }

  /** A positive factor keeps the sign and does not shrink a nonzero integer. */
  lemma MulMagnitude(d: nat, k: int)
    requires d > 0
    ensures k >= 1 ==> d * k >= d
    ensures k <= -1 ==> d * k + d <= 0
  {
  }

  /** A positive factor can be cancelled. */
  lemma MulCancel(d: nat, x: int, y: int)
    requires d > 0 && d * x == d * y
    ensures x == y
  {
    assert d * (x - y) == 0 by {
      assert d * (x - y) == d * x - d * y;
    }
    MulMagnitude(d, x - y);
  }

  /** The only integers whose product is one are one and minus one. */
  lemma UnitFactors(i: int, j: int)
    requires i * j == 1
    ensures i == 1 || i == -1
  {
  }

  /** The only multiple of `d` in `[0, d)` is zero. */
  lemma SmallMultiple(d: nat, k: int)
    requires d > 0 && 0 <= d * k < d
    ensures k == 0
  {
    MulMagnitude(d, k);
  }

  /** Division of an exact multiple gives the other factor. */
  lemma DivExact(n: nat, d: nat, q: int)
    requires d > 0 && d * q == n
    ensures n / d == q
  {
    var q0 := n / d;
    assert d * (q - q0) == n % d by {
      assert n == d * q0 + n % d;
      assert d * (q - q0) == d * q - d * q0;
    }
    SmallMultiple(d, q - q0);
  }

  /** Euclid's algorithm. */
  function Gcd(a: nat, b: nat): (g: nat)
    ensures g == 0 <==> a == 0 && b == 0
    decreases b
  {
    if b == 0 then a else Gcd(b, a % b)
  }

  /** The gcd divides both numbers. */
  lemma {:induction false} GcdDivides(a: nat, b: nat)
    ensures Divides(Gcd(a, b), a) && Divides(Gcd(a, b), b)
    decreases b
  {
    var g := Gcd(a, b);
    if b == 0 {
      assert g * 1 == a && g * 0 == b;
    } else {
      GcdDivides(b, a % b);
      assert a == (a / b) * b + 1 * (a % b);
      DividesCombination(g, b, a % b, a / b, 1, a);
    }
  }

  /** Every common divisor divides the gcd. */
  lemma {:induction false} GcdGreatest(a: nat, b: nat, d: nat)
    requires Divides(d, a) && Divides(d, b)
    ensures Divides(d, Gcd(a, b))
    decreases b
  {
    if b != 0 {
      assert a % b == 1 * a + (-(a / b)) * b;
      DividesCombination(d, a, b, 1, -(a / b), a % b);
      GcdGreatest(b, a % b, d);
    }
  }

  /** Bezout's identity: the gcd is an integer combination of the two numbers. */
  lemma {:induction false} Bezout(a: nat, b: nat) returns (x: int, y: int)
    ensures a * x + b * y == Gcd(a, b)
    decreases b
  {
    if b == 0 {
      x, y := 1, 0;
    } else {
      var q := a / b;
      var r := a % b;
      assert a == q * b + r;
      var x0, y0 := Bezout(b, r);
      x, y := y0, x0 - q * y0;
      BezoutStep(a, b, q, r, x0, y0, Gcd(a, b));
    }
  }

  /** One step of the extended Euclidean algorithm: a combination of `b` and `a - q * b` is a combination of `a` and `b`. */
  lemma BezoutStep(a: int, b: int, q: int, r: int, x0: int, y0: int, g: int)
    requires a == q * b + r && b * x0 + r * y0 == g
    ensures a * y0 + b * (x0 - q * y0) == g
  {
    assert r * y0 == a * y0 - (q * b) * y0;
    assert b * (x0 - q * y0) == b * x0 - b * (q * y0);
    assert (q * b) * y0 == b * (q * y0);
  }

  /** The least common multiple, `a / gcd(a, b) * b`, and zero when either number is zero. */
  function Lcm(a: nat, b: nat): nat
  {
    if a == 0 || b == 0 then 0 else a / Gcd(a, b) * b
  }

  /** The lcm is a multiple of both numbers. */
  lemma LcmMultiple(a: nat, b: nat)
    ensures Divides(a, Lcm(a, b)) && Divides(b, Lcm(a, b))
  {
    if a == 0 || b == 0 {
      assert a * 0 == 0 && b * 0 == 0;
    } else {
      var g := Gcd(a, b);
      GcdDivides(a, b);
      var i: int :| g * i == a;
      var j: int :| g * j == b;
      DivExact(a, g, i);
      assert Lcm(a, b) == i * b;
      assert b * i == Lcm(a, b);
      assert a * j == Lcm(a, b) by {
        assert (g * i) * j == i * (g * j);
      }
    }
  }

  /** The lcm divides every common multiple of the two numbers. */
  lemma LcmLeast(a: nat, b: nat, c: nat)
    requires Divides(a, c) && Divides(b, c)
    ensures Divides(Lcm(a, b), c)
  {
    if a == 0 || b == 0 {
      var k: int :| (if a == 0 then a else b) * k == c;
      assert c == 0;
      assert Lcm(a, b) * 0 == c;
    } else {
      var g := Gcd(a, b);
      GcdDivides(a, b);
      var i: int :| g * i == a;
      DivExact(a, g, i);
      var l := Lcm(a, b);
      assert l == i * b;
      var x, y := Bezout(a, b);
      var s: int :| a * s == c;
      var t: int :| b * t == c;
      var w := t * x + s * y;
      assert c * g == (a * b) * w by {
        CommonMultipleScaled(a, b, c, g, x, y, s, t);
      }
      assert c == l * w by {
        Unscale(a, b, c, g, i, l, w);
      }
    }
  }

  /** From `a == g * i`, `l == i * b` and `c * g == (a * b) * w` with `g > 0`: `c == l * w`. */
  lemma Unscale(a: int, b: int, c: int, g: nat, i: int, l: int, w: int)
    requires g > 0 && a == g * i && l == i * b && c * g == (a * b) * w
    ensures c == l * w
  {
    assert (a * b) * w == g * (l * w) by {
      assert (g * i) * b == g * (i * b);
      assert (g * l) * w == g * (l * w);
    }
    MulCancel(g, c, l * w);
  }

  /** With `a * x + b * y == g`, a common multiple `c` of `a` and `b` times `g` is a multiple of `a * b`. */
  lemma CommonMultipleScaled(a: int, b: int, c: int, g: int, x: int, y: int, s: int, t: int)
    requires a * x + b * y == g && a * s == c && b * t == c
    ensures c * g == (a * b) * (t * x + s * y)
  {
    assert c * g == c * (a * x) + c * (b * y);
    assert c * (a * x) == (a * b) * (t * x) by {
      assert c * (a * x) == (b * t) * (a * x);
    }
    assert c * (b * y) == (a * b) * (s * y) by {
      assert c * (b * y) == (a * s) * (b * y);
    }
  }

  /** The lcm of a nonempty list, combining from the left. */
  function LcmSeq(ns: seq<nat>): nat
    requires |ns| > 0
  {
    if |ns| == 1 then ns[0] else Lcm(LcmSeq(ns[..|ns| - 1]), ns[|ns| - 1])
  }

  /** `lcmx`: no result for an empty list, otherwise the lcm of its elements. */
  function LcmOf(ns: seq<nat>): (r: Option<nat>)
    ensures r.Some? <==> |ns| > 0
  {
    if ns == [] then None else Some(LcmSeq(ns))
  }

  /** Every element divides the lcm of the list. */
  lemma {:induction false} LcmSeqMultiple(ns: seq<nat>, k: nat)
    requires k < |ns|
    ensures Divides(ns[k], LcmSeq(ns))
  {
    if |ns| == 1 {
      assert ns[k] * 1 == LcmSeq(ns);
    } else {
      var front := ns[..|ns| - 1];
      var last := ns[|ns| - 1];
      LcmMultiple(LcmSeq(front), last);
      if k < |ns| - 1 {
        assert front[k] == ns[k];
        LcmSeqMultiple(front, k);
        DividesTransitive(ns[k], LcmSeq(front), LcmSeq(ns));
      }
    }
  }

  /** The lcm of a list divides every common multiple of its elements. */
  lemma {:induction false} LcmSeqLeast(ns: seq<nat>, c: nat)
    requires |ns| > 0
    requires forall k :: 0 <= k < |ns| ==> Divides(ns[k], c)
    ensures Divides(LcmSeq(ns), c)
  {
    if |ns| > 1 {
      var front := ns[..|ns| - 1];
      assert forall k :: 0 <= k < |front| ==> front[k] == ns[k];
      LcmSeqLeast(front, c);
      LcmLeast(LcmSeq(front), ns[|ns| - 1], c);
    }
  }

  /** The lcm of a list depends only on which numbers it holds, not on their order. */
  lemma LcmSeqOrder(ns: seq<nat>, ms: seq<nat>)
    requires |ns| > 0 && multiset(ns) == multiset(ms)
    ensures |ms| > 0 && LcmSeq(ns) == LcmSeq(ms)
  {
    assert |ms| == |multiset(ms)| == |multiset(ns)| == |ns|;
    forall k | 0 <= k < |ms|
      ensures Divides(ms[k], LcmSeq(ns))
    {
      assert ms[k] in multiset(ns);
      var j :| 0 <= j < |ns| && ns[j] == ms[k];
      LcmSeqMultiple(ns, j);
    }
    forall k | 0 <= k < |ns|
      ensures Divides(ns[k], LcmSeq(ms))
    {
      assert ns[k] in multiset(ms);
      var j :| 0 <= j < |ms| && ms[j] == ns[k];
      LcmSeqMultiple(ms, j);
    }
    LcmSeqLeast(ms, LcmSeq(ns));
    LcmSeqLeast(ns, LcmSeq(ms));
    DividesAntisymmetric(LcmSeq(ns), LcmSeq(ms));
  }
}
