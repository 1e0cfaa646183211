/** The random number generator: a linear congruential step on 31 bits that visits every state
    once before it repeats. */
module RandomSequence {

  // ----- The low bits of a number -----

  function Power2(k: nat): (p: nat)
    ensures p > 0
  {
    if k == 0 then 1 else 2 * Power2(k - 1)
  }

  /** The lowest `k` bits. */
  function Low(k: nat, x: nat): nat {
    if k == 0 then 0 else x % 2 + 2 * Low(k - 1, x / 2)
  }

  /** Divisible by 2^k. */
  predicate Even(k: nat, x: nat) {
    k == 0 || (x % 2 == 0 && Even(k - 1, x / 2))
  }

  // ----- Products, one step at a time -----

  lemma Distribute(a: nat, b: nat, c: nat)
    ensures a * (b + c) == a * b + a * c
  {
  }

  lemma Regroup(a: nat, b: nat, c: nat)
    ensures a * (b * c) == (a * b) * c
  {
  }

  lemma Swap(a: nat, b: nat, c: nat)
    ensures a * (b * c) == b * (a * c)
  {
  }

  lemma OneMoreTimes(a: nat, x: nat)
    ensures (a + 1) * x == a * x + x
  {
  }

  lemma TwiceOf(a: nat, b: nat)
    ensures (2 * a) * b == 2 * (a * b) && a * (2 * b) == 2 * (a * b)
  {
  }

  /** Four times something and one more, times `s`. */
  lemma QuarterTimes(b: nat, s: nat)
    ensures (4 * b + 1) * s == 4 * (b * s) + s && (4 * b) * s == 4 * (b * s)
  {
    TwiceOf(2 * b, s);
    TwiceOf(b, s);
    OneMoreTimes(4 * b, s);
  }

  /** A multiple of `m` between `-m` and `m` is zero. */
  lemma NoMultiple(m: nat, d: int, small: int)
    requires small == m * d && small < m && 0 < m + small
    ensures d == 0
  {
    if d > 0 { AtLeastOne(m, d); }
    if d < 0 {
      Difference(m, 0, d);
      AtLeastOne(m, -d);
    }
  }

  lemma AtLeastOne(m: nat, d: nat)
    requires d > 0
    ensures m * d >= m
  {
    OneMoreTimes(d - 1, m);
  }

  lemma Difference(m: nat, a: int, b: int)
    ensures m * (a - b) == m * a - m * b
  {
  }

  lemma Divided(x: nat, m: nat)
    requires m > 0
    ensures x == m * (x / m) + x % m && 0 <= x % m < m
  {
  }

  lemma RemainderIs(x: nat, m: nat, q: nat, r: nat)
    requires m > 0 && x == m * q + r && r < m
    ensures x % m == r && x / m == q
  {
    var d, e := x / m, x % m;
    Divided(x, m);
    Difference(m, d, q);
    NoMultiple(m, d - q, r - e);
  }

  // ----- Low bits -----

  lemma LowStep(k: nat, x: nat)
    ensures Low(k, x) == if k == 0 then 0 else x % 2 + 2 * Low(k - 1, x / 2)
  {
  }

  /** The low bits are the remainder by a power of two. */
  lemma {:induction false} LowIsRemainder(k: nat, x: nat)
    ensures Low(k, x) == x % Power2(k)
    decreases k
  {
    LowStep(k, x);
    if k == 0 {
      RemainderIs(x, 1, x, 0);
    } else {
      hide Low;
      var p, h := Power2(k - 1), x / 2;
      LowIsRemainder(k - 1, h);
      Doubled(x, p, h % p);
    }
  }

  lemma Doubled(x: nat, p: nat, r: nat)
    requires p > 0 && r == (x / 2) % p
    ensures x % (2 * p) == x % 2 + 2 * r
  {
    var h := x / 2;
    var q := h / p;
    Divided(h, p);
    TwiceOf(p, q);
    RemainderIs(x, 2 * p, q, x % 2 + 2 * r);
  }

  lemma {:induction false} LowOfLow(k: nat, x: nat)
    ensures Low(k, Low(k, x)) == Low(k, x)
  {
    if k > 0 {
      var low := Low(k - 1, x / 2);
      LowOfLow(k - 1, x / 2);
      LowStep(k, x);
      LowStep(k, Low(k, x));
      hide Low;
      assert (x % 2 + 2 * low) / 2 == low;
    }
  }

  lemma {:induction false} LowOfSmall(k: nat, x: nat)
    requires x < Power2(k)
    ensures Low(k, x) == x
  {
    LowStep(k, x);
    if k > 0 {
      hide Low;
      LowOfSmall(k - 1, x / 2);
    }
  }

  lemma Carried(x: nat, y: nat, carry: nat)
    ensures (x + y + carry) / 2 == x / 2 + y / 2 + (x % 2 + y % 2 + carry) / 2
    ensures (x + y + carry) % 2 == (x % 2 + y % 2 + carry) % 2
  {
  }

  lemma SameStart(a: nat, b: nat, c: nat, d: nat)
    requires a % 2 + 2 * b == c % 2 + 2 * d
    ensures a % 2 == c % 2 && b == d
  {
  }

  /** Sums have the same low bits when the summands do; `carry` is 0 or 1. */
  lemma {:induction false} LowAdd(k: nat, x: nat, x': nat, y: nat, carry: nat)
    requires Low(k, x) == Low(k, x') && carry <= 1
    ensures Low(k, x + y + carry) == Low(k, x' + y + carry)
    decreases k
  {
    hide Low;
    LowStep(k, x);
    LowStep(k, x');
    LowStep(k, x + y + carry);
    LowStep(k, x' + y + carry);
    if k > 0 {
      SameStart(x, Low(k - 1, x / 2), x', Low(k - 1, x' / 2));
      Carried(x, y, carry);
      Carried(x', y, carry);
      LowAdd(k - 1, x / 2, x' / 2, y / 2, (x % 2 + y % 2 + carry) / 2);
    }
  }

  lemma {:induction false} LowMul(k: nat, a: nat, x: nat, x': nat)
    requires Low(k, x) == Low(k, x')
    ensures Low(k, a * x) == Low(k, a * x')
    decreases a
  {
    hide Low;
    if a > 0 {
      var p, p' := (a - 1) * x, (a - 1) * x';
      LowMul(k, a - 1, x, x');
      OneMoreTimes(a - 1, x);
      OneMoreTimes(a - 1, x');
      LowAdd(k, p, p', x, 0);
      LowAdd(k, x, x', p', 0);
    }
  }

  lemma HalfSum(s: nat, x: nat)
    requires x % 2 == 0
    ensures (s + x) / 2 == s / 2 + x / 2 && (s + x) % 2 == s % 2
  {
  }

  /** Adding `x` keeps the low bits of `s` exactly when 2^k divides `x`. */
  lemma {:induction false} LowKept(k: nat, s: nat, x: nat)
    ensures Low(k, s + x) == Low(k, s) <==> Even(k, x)
    decreases k
  {
    hide Low;
    LowStep(k, s);
    LowStep(k, s + x);
    if k > 0 {
      if x % 2 == 0 {
        HalfSum(s, x);
        LowKept(k - 1, s / 2, x / 2);
      } else {
        OddSum(s, x);
      }
    }
  }

  lemma OddSum(s: nat, x: nat)
    requires x % 2 == 1
    ensures (s + x) % 2 != s % 2
  {
  }

  lemma EvenIsDivisible(k: nat, x: nat)
    ensures Even(k, x) <==> x % Power2(k) == 0
  {
    LowIsRemainder(k, x);
    EvenIsLow(k, x);
    hide Low, Even, Power2;
  }

  lemma {:induction false} EvenIsLow(k: nat, x: nat)
    ensures Even(k, x) <==> Low(k, x) == 0
  {
    LowStep(k, x);
    hide Low;
    if k > 0 { EvenIsLow(k - 1, x / 2); }
  }

  // ----- Odd multiples -----

  /** `x` times the odd number `2 * e + 1`. */
  function OddTimes(e: nat, x: nat): nat {
    2 * (e * x) + x
  }

  lemma OddTimesHalf(e: nat, x: nat)
    ensures OddTimes(e, x) % 2 == x % 2
    ensures x % 2 == 0 ==> OddTimes(e, x) / 2 == OddTimes(e, x / 2)
  {
    if x % 2 == 0 { TwiceOf(e, x / 2); }
  }

  /** An odd factor adds no power of two. */
  lemma {:induction false} OddCancels(k: nat, e: nat, x: nat)
    ensures Even(k, OddTimes(e, x)) <==> Even(k, x)
    decreases k
  {
    hide OddTimes;
    if k > 0 {
      OddTimesHalf(e, x);
      if x % 2 == 0 { OddCancels(k - 1, e, x / 2); }
    }
  }

  lemma OddTimesSum(e: nat, x: nat, y: nat)
    ensures OddTimes(e, x + y) == OddTimes(e, x) + OddTimes(e, y)
  {
    Distribute(e, x, y);
  }

  lemma OddTimesProduct(e: nat, a: nat, x: nat)
    ensures OddTimes(e, a * x) == a * OddTimes(e, x)
  {
    var p := e * x;
    Swap(e, a, x);
    TwiceOf(a, p);
    Distribute(a, 2 * p, x);
  }

  // ----- The geometric sum -----

  /** 1 + a + ... + a^(n - 1). */
  function Sum(a: nat, n: nat): nat {
    if n == 0 then 0 else 1 + a * Sum(a, n - 1)
  }

  lemma SumStep(a: nat, n: nat)
    ensures Sum(a, 0) == 0 && Sum(a, n + 1) == 1 + a * Sum(a, n)
  {
  }

  /** `s` terms and then `t`, the latter each `1 + b * s` times as large. */
  function Joined(b: nat, s: nat, t: nat): nat {
    s + (1 + b * s) * t
  }

  lemma {:induction false} SumAdd(b: nat, m: nat, n: nat)
    ensures Sum(b + 1, m + n) == Joined(b, Sum(b + 1, m), Sum(b + 1, n))
    decreases m
  {
    var t := Sum(b + 1, n);
    if m == 0 {
      JoinedNone(b, t);
    } else {
      var s := Sum(b + 1, m - 1);
      SumAdd(b, m - 1, n);
      SumStep(b + 1, m - 1);
      SumStep(b + 1, m - 1 + n);
      hide Sum, Joined;
      JoinedStep(b, s, t);
    }
  }

  lemma JoinedNone(b: nat, t: nat)
    ensures Joined(b, 0, t) == t
  {
  }

  lemma JoinedStep(b: nat, s: nat, t: nat)
    ensures Joined(b, 1 + (b + 1) * s, t) == 1 + (b + 1) * Joined(b, s, t)
  {
    var u, next := 1 + b * s, (b + 1) * s;
    FactorStep(b, s);
    Distribute(b + 1, s, u * t);
    Regroup(b + 1, u, t);
  }

  lemma FactorStep(b: nat, s: nat)
    ensures 1 + b * (1 + (b + 1) * s) == (b + 1) * (1 + b * s)
  {
    var p := b * s;
    OneMoreTimes(b, s);
    Distribute(b, 1, p + s);
    Distribute(b, p, s);
    OneMoreTimes(b, 1 + p);
    Distribute(b, 1, p);
  }

  lemma {:induction false} SumParity(b: nat, n: nat)
    ensures Sum(4 * b + 1, n) % 2 == n % 2
  {
    if n > 0 {
      var s := Sum(4 * b + 1, n - 1);
      SumParity(b, n - 1);
      SumStep(4 * b + 1, n - 1);
      QuarterTimes(b, s);
      hide Sum;
      OddParity(b * s, s, n - 1);
    } else {
      SumStep(4 * b + 1, 0);
    }
  }

  lemma OddParity(p: nat, s: nat, n: nat)
    requires s % 2 == n % 2
    ensures (1 + (4 * p + s)) % 2 == (n + 1) % 2
  {
    var r := 1 - s % 2;
    Halved(1 + (4 * p + s), 2 * p + s / 2 + s % 2, r);
    Halved(n + 1, n / 2 + n % 2, r);
  }

  lemma Halved(x: nat, half: nat, r: nat)
    requires x == 2 * half + r && r < 2
    ensures x / 2 == half && x % 2 == r
  {
  }

  lemma SumDouble(b: nat, m: nat)
    ensures var s := Sum(4 * b + 1, m); Sum(4 * b + 1, 2 * m) == 2 * OddTimes(b * s, s)
  {
    var s := Sum(4 * b + 1, m);
    SumAdd(4 * b, m, m);
    hide Sum, Joined, OddTimes;
    JoinedTwice(b, s);
  }

  lemma JoinedTwice(b: nat, s: nat)
    ensures Joined(4 * b, s, s) == 2 * OddTimes(b * s, s)
  {
    var p := b * s;
    QuarterTimes(b, s);
    OneMoreTimes(4 * p, s);
    QuarterTimes(p, s);
  }

  /** The sum is divisible by a power of two exactly when the number of terms is. */
  lemma {:induction false} SumDivides(b: nat, k: nat, n: nat)
    ensures Even(k, Sum(4 * b + 1, n)) <==> Even(k, n)
    decreases k
  {
    hide Sum, OddTimes;
    if k > 0 {
      SumParity(b, n);
      if n % 2 == 0 {
        var m := n / 2;
        var s := Sum(4 * b + 1, m);
        SumDouble(b, m);
        SumDivides(b, k - 1, m);
        OddCancels(k - 1, b * s, s);
        EvenTwice(k, OddTimes(b * s, s));
        EvenTwice(k, m);
      }
    }
  }

  lemma EvenTwice(k: nat, x: nat)
    requires k > 0
    ensures Even(k, 2 * x) <==> Even(k - 1, x)
  {
    assert (2 * x) % 2 == 0 && (2 * x) / 2 == x;
  }

  // ----- The generator -----

  /** A multiplier one more than a multiple of four, an odd increment, and a power of two. */
  datatype Generator = Generator(quarter: nat, half: nat, bits: nat) {
    function Multiplier(): nat { 4 * quarter + 1 }
    function Increment(): nat { 2 * half + 1 }
    function Modulus(): nat { Power2(bits) }

    function Step(s: nat): nat {
      (Multiplier() * s + Increment()) % Modulus()
    }

    function Iterate(s: nat, n: nat): nat {
      if n == 0 then s else Step(Iterate(s, n - 1))
    }

    /** From the start `s` every step moves by a multiple of the odd number `2 * Drift(s) + 1`. */
    function Drift(s: nat): nat { 2 * (quarter * s) + half }
  }

  /** How far the state moves, in closed form. */
  lemma {:induction false} Closed(g: Generator, s: nat, n: nat)
    requires s < g.Modulus()
    ensures g.Iterate(s, n) == Low(g.bits, s + OddTimes(g.Drift(s), Sum(g.Multiplier(), n)))
    decreases n
  {
    if n == 0 {
      NotMoved(g, s);
    } else {
      var t := Sum(g.Multiplier(), n - 1);
      Closed(g, s, n - 1);
      IterateStep(g, s, n - 1);
      SumStep(g.Multiplier(), n - 1);
      hide Low, Sum, OddTimes, Generator.Iterate, Generator.Step, Generator.Drift, Generator.Multiplier;
      hide Generator.Increment;
      ClosedStep(g, s + OddTimes(g.Drift(s), t));
      Moved(g, s, t);
    }
  }

  lemma NotMoved(g: Generator, s: nat)
    requires s < g.Modulus()
    ensures g.Iterate(s, 0) == Low(g.bits, s + OddTimes(g.Drift(s), Sum(g.Multiplier(), 0)))
  {
    LowOfSmall(g.bits, s);
    SumStep(g.Multiplier(), 0);
    hide Low, Sum, Generator.Drift, Generator.Multiplier;
  }

  lemma IterateStep(g: Generator, s: nat, n: nat)
    ensures g.Iterate(s, n + 1) == g.Step(g.Iterate(s, n))
  {
    hide Generator.Step;
  }

  lemma ClosedStep(g: Generator, x: nat)
    ensures g.Step(Low(g.bits, x)) == Low(g.bits, g.Multiplier() * x + g.Increment())
  {
    var a, c, l := g.Multiplier(), g.Increment(), Low(g.bits, x);
    hide Low, Generator.Multiplier, Generator.Increment;
    LowIsRemainder(g.bits, a * l + c);
    LowOfLow(g.bits, x);
    LowMul(g.bits, a, l, x);
    LowAdd(g.bits, a * l, a * x, c, 0);
  }

  /** One step from `t` odd multiples away is one more than `t` times the multiplier away. */
  lemma Moved(g: Generator, s: nat, t: nat)
    ensures
      var a, e := g.Multiplier(), g.Drift(s);
      a * (s + OddTimes(e, t)) + g.Increment() == s + OddTimes(e, 1 + a * t)
  {
    var a, e := g.Multiplier(), g.Drift(s);
    FirstMove(g, s);
    hide Generator.Drift, Generator.Multiplier, Generator.Increment;
    OddTimesSum(e, 1, a * t);
    OddTimesProduct(e, a, t);
    hide OddTimes;
    Distribute(a, s, OddTimes(e, t));
  }

  lemma FirstMove(g: Generator, s: nat)
    ensures g.Multiplier() * s + g.Increment() == s + OddTimes(g.Drift(s), 1)
  {
    QuarterTimes(g.quarter, s);
  }

  /** The state comes back after `n` steps exactly when the modulus divides `n`. */
  lemma ComesBack(g: Generator, s: nat, n: nat)
    requires s < g.Modulus()
    ensures g.Iterate(s, n) == s <==> n % g.Modulus() == 0
  {
    var t, e := Sum(g.Multiplier(), n), g.Drift(s);
    Closed(g, s, n);
    LowOfSmall(g.bits, s);
    SumDivides(g.quarter, g.bits, n);
    EvenIsDivisible(g.bits, n);
    hide Low, Even, Sum, OddTimes, Power2, Generator.Iterate, Generator.Drift;
    LowKept(g.bits, s, OddTimes(e, t));
    OddCancels(g.bits, e, t);
  }

  lemma {:induction false} StaysBelow(g: Generator, s: nat, n: nat)
    requires s < g.Modulus()
    ensures g.Iterate(s, n) < g.Modulus()
  {
  }

  lemma SmallRemainder(n: nat, m: nat)
    requires 0 < n < m
    ensures n % m == n
  {
    RemainderIs(n, m, 0, n);
  }

  /** Two states fewer steps apart than the modulus are different. */
  lemma Apart(g: Generator, s: nat, i: nat, j: nat)
    requires s < g.Modulus() && i < j < g.Modulus()
    ensures g.Iterate(s, i) != g.Iterate(s, j)
  {
    hide Generator.Step, Power2;
    SmallRemainder(j - i, g.Modulus());
    StaysBelow(g, s, i);
    ComesBack(g, g.Iterate(s, i), j - i);
    IterateFrom(g, s, i, j - i);
  }

  lemma {:induction false} IterateFrom(g: Generator, s: nat, i: nat, n: nat)
    ensures g.Iterate(g.Iterate(s, i), n) == g.Iterate(s, i + n)
    decreases n
  {
    if n > 0 { IterateFrom(g, s, i, n - 1); }
  }

  function Visited(g: Generator, s: nat, n: nat): set<nat> {
    if n == 0 then {} else Visited(g, s, n - 1) + {g.Iterate(s, n - 1)}
  }

  /** The first states are all different. */
  lemma {:induction false} AllDifferent(g: Generator, s: nat, n: nat)
    requires s < g.Modulus() && n <= g.Modulus()
    ensures |Visited(g, s, n)| == n
    ensures forall t :: t in Visited(g, s, n) ==> Reached(g, s, n, t)
    decreases n
  {
    hide Generator.Step, Generator.Modulus, Generator.Iterate;
    if n > 0 {
      var last := g.Iterate(s, n - 1);
      AllDifferent(g, s, n - 1);
      if last in Visited(g, s, n - 1) {
        var i: nat :| i < n - 1 && g.Iterate(s, i) == last;
        Apart(g, s, i, n - 1);
        assert false;
      }
      forall t | t in Visited(g, s, n)
        ensures Reached(g, s, n, t)
      {
        if t != last {
          var i: nat :| i < n - 1 && g.Iterate(s, i) == t;
          assert i < n && g.Iterate(s, i) == t;
        }
      }
    }
  }

  ghost predicate Reached(g: Generator, s: nat, n: nat, t: nat) {
    exists i: nat :: i < n && g.Iterate(s, i) == t
  }

  lemma {:induction false} SmallerSet(a: set<nat>, n: nat)
    requires forall x :: x in a ==> x < n
    ensures |a| <= n && (|a| == n ==> forall x :: 0 <= x < n ==> x in a)
    decreases n
  {
    if n > 0 {
      var b := a - {n - 1};
      SmallerSet(b, n - 1);
      assert n - 1 in a ==> a == b + {n - 1};
      assert n - 1 !in a ==> a == b;
    } else {
      assert a == {};
    }
  }

  /** Full period: from any state, every state is visited exactly once before the first returns. */
  lemma FullPeriod(g: Generator, s: nat)
    requires s < g.Modulus()
    ensures g.Iterate(s, g.Modulus()) == s
    ensures forall t: nat :: t < g.Modulus() ==> Reached(g, s, g.Modulus(), t)
    ensures forall i: nat, j: nat :: i < j < g.Modulus() ==> g.Iterate(s, i) != g.Iterate(s, j)
  {
    hide Generator.Step, Generator.Modulus;
    var m := g.Modulus();
    ComesBack(g, s, m);
    AllDifferent(g, s, m);
    forall t | t in Visited(g, s, m)
      ensures t < m
    {
      var i: nat :| i < m && g.Iterate(s, i) == t;
      StaysBelow(g, s, i);
    }
    SmallerSet(Visited(g, s, m), m);
    assert forall t: nat :: t < m ==> t in Visited(g, s, m);
    forall i: nat, j: nat | i < j < m
      ensures g.Iterate(s, i) != g.Iterate(s, j)
    {
      Apart(g, s, i, j);
    }
  }

  // ----- The runtime's generator -----

  const WORD := 0x1_0000_0000
  const MASK := 0x7fff_ffff
  const MULTIPLIER := 1103515245
  const INCREMENT := 12345

  function BitAnd(x: nat, y: nat): nat {
    if x == 0 || y == 0 then 0 else (if x % 2 == 1 && y % 2 == 1 then 1 else 0) + 2 * BitAnd(x / 2, y / 2)
  }

  /** A mask of `k` ones keeps the low bits. */
  lemma {:induction false} MaskIsLow(x: nat, k: nat)
    ensures BitAnd(x, Power2(k) - 1) == Low(k, x)
    decreases k
  {
    if k > 0 {
      var p := Power2(k - 1);
      assert (2 * p - 1) % 2 == 1 && (2 * p - 1) / 2 == p - 1;
      MaskIsLow(x / 2, k - 1);
      if x == 0 { LowOfSmall(k, 0); }
    }
  }

  /** One step in 32-bit words, then masked. */
  function NextState(state: nat): nat {
    BitAnd((MULTIPLIER * state + INCREMENT) % WORD, MASK)
  }

  function Truncated(value: int): nat {
    BitAnd(value % WORD, MASK)
  }

  const QUAWK := Generator(MULTIPLIER / 4, INCREMENT / 2, 31)

  lemma Bits31()
    ensures Power2(31) == 0x8000_0000
  {
    assert Power2(8) == 256;
    assert Power2(16) == 65536;
    assert Power2(24) == 0x100_0000;
  }

  lemma HalfWord(x: int)
    ensures (x % WORD) % 0x8000_0000 == x % 0x8000_0000
  {
  }

  /** Wrapping to 32 bits before the mask changes nothing. */
  lemma WrapThenMask(x: int)
    ensures BitAnd(x % WORD, MASK) == x % Power2(31)
  {
    hide Power2, Low, BitAnd;
    Bits31();
    MaskIsLow(x % WORD, 31);
    LowIsRemainder(31, x % WORD);
    HalfWord(x);
  }

  lemma NextStateIsStep(state: nat)
    ensures NextState(state) == QUAWK.Step(state)
  {
    hide Power2, BitAnd;
    assert QUAWK.Multiplier() == MULTIPLIER && QUAWK.Increment() == INCREMENT;
    WrapThenMask(MULTIPLIER * state + INCREMENT);
  }

  /** The random part of the runtime. */
  /** The step with its numbers written out, and the first numbers from the seed that is set at the start. */
  lemma FirstNumbers(s: nat)
    ensures QUAWK.Modulus() == 2147483648 && QUAWK.Step(s) == (1103515245 * s + 12345) % 2147483648
    ensures QUAWK.Iterate(1, 1) == 1103527590 && QUAWK.Iterate(1, 2) == 377401575 && QUAWK.Iterate(1, 3) == 662824084
  {
    Bits31();
    hide Power2;
    assert forall t: nat :: QUAWK.Step(t) == (1103515245 * t + 12345) % 2147483648;
    hide Generator.Step;
    assert QUAWK.Iterate(1, 1) == QUAWK.Step(1);
    assert QUAWK.Iterate(1, 2) == QUAWK.Step(QUAWK.Iterate(1, 1));
    assert QUAWK.Iterate(1, 3) == QUAWK.Step(QUAWK.Iterate(1, 2));
  }

  class Random {
    var seed: int
    var state: nat

    ghost predicate Valid()
      reads this
    {
      state < QUAWK.Modulus()
    }

    constructor ()
      ensures Valid() && seed == 1 && state == 1
    {
      seed, state := 1, 1;
      Bits31();
    }

    /** The next state; the number returned is this over 2^31, in [0, 1). */
    method Next() returns (numerator: nat)
      requires Valid()
      modifies this`state
      ensures Valid() && numerator == state == QUAWK.Step(old(state)) < Power2(31)
    {
      NextStateIsStep(state);
      state := NextState(state);
      numerator := state;
    }

    /** `srand(value)` for a value whose integer part is `value`. */
    method Reseed(value: int) returns (previous: int)
      modifies this
      ensures Valid() && previous == old(seed) && seed == value && state == value % Power2(31)
    {
      WrapThenMask(value);
      previous := seed;
      seed := value;
      state := Truncated(value);
    }

    /** `n` numbers drawn one after another. */
    method Draw(n: nat) returns (numbers: seq<nat>)
      requires Valid()
      modifies this`state
      ensures Valid() && state == QUAWK.Iterate(old(state), n) && |numbers| == n
      ensures forall i :: 0 <= i < n ==> numbers[i] == QUAWK.Iterate(old(state), i + 1)
    {
      numbers := [];
      for i := 0 to n
        invariant Valid() && state == QUAWK.Iterate(old(state), i) && |numbers| == i
        invariant forall j :: 0 <= j < i ==> numbers[j] == QUAWK.Iterate(old(state), j + 1)
      {
        var r := Next();
        numbers := numbers + [r];
      }
    }
  }
}
