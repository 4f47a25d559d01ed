/**
 The number theory behind the deterministic prelude of pkg/bridge/deterministic.go: a linear
 congruential generator modulo 2^32, x -> 1664525 x + 1013904223.
 */
module Congruential {
  const MULTIPLIER: nat := 1664525
  const INCREMENT: nat := 1013904223
  const TWO32: nat := 0x1_0000_0000

  function Pow2(k: nat): (p: nat)
    ensures p > 0
  {
    if k == 0 then 1 else 2 * Pow2(k - 1)
  }

  function Step(x: nat): nat { (x * MULTIPLIER + INCREMENT) % TWO32 }

  function Steps(x: nat, n: nat): nat {
    if n == 0 then x else Step(Steps(x, n - 1))
  }

  predicate IsTimes(n: int, d: int, q: int) { n == d * q }

  ghost predicate Divides(d: int, n: int) { exists q: int :: IsTimes(n, d, q) }

  ghost predicate Odd(n: int) { exists h: int :: n == 2 * h + 1 }

  // ---------------------------------------------------------------- small facts of arithmetic

  lemma Assoc(a: int, b: int, c: int)
    ensures (a * b) * c == a * (b * c)
  {}

  lemma Distribute(d: int, x: int, y: int)
    ensures d * (x + y) == d * x + d * y && d * (x - y) == d * x - d * y
  {}

  lemma AtLeast(d: int, k: int)
    requires d > 0 && k >= 1
    ensures d * k >= d
  {}

  lemma RemainderUnique(d: int, q1: int, r1: int, q2: int, r2: int)
    requires 0 <= r1 < d && 0 <= r2 < d && d * q1 + r1 == d * q2 + r2
    ensures r1 == r2
  {
    Distribute(d, q1, q2);
    Distribute(d, q2, q1);
    if q1 > q2 { AtLeast(d, q1 - q2); }
    if q2 > q1 { AtLeast(d, q2 - q1); }
  }

  lemma DivMod(d: int, a: int)
    requires d > 0
    ensures a == d * (a / d) + a % d && 0 <= a % d < d
  {}

  /** Numbers leave the same remainder exactly when they differ by a multiple. */
  lemma SameModIff(d: int, a: int, b: int)
    requires d > 0
    ensures a % d == b % d <==> Divides(d, a - b)
  {
    DivMod(d, a);
    DivMod(d, b);
    var qa, ra, qb, rb := a / d, a % d, b / d, b % d;
    Distribute(d, qa, qb);
    if ra == rb { assert IsTimes(a - b, d, qa - qb); }
    if Divides(d, a - b) {
      var q :| IsTimes(a - b, d, q);
      Distribute(d, q, qb);
      RemainderUnique(d, qa, ra, q + qb, rb);
    }
  }

  lemma ZeroModIff(d: int, n: int)
    requires d > 0
    ensures n % d == 0 <==> Divides(d, n)
  {
    assert 0 == d * 0 + 0;
    DivMod(d, 0);
    RemainderUnique(d, 0, 0, 0 / d, 0 % d);
    SameModIff(d, n, 0);
  }

  lemma DividesTimes(d: int, n: int, m: int)
    requires Divides(d, n)
    ensures Divides(d, n * m)
  {
    var q :| IsTimes(n, d, q);
    Assoc(d, q, m);
    assert IsTimes(n * m, d, q * m);
  }

  lemma DividesSum(d: int, m: int, n: int)
    requires Divides(d, m) && Divides(d, n)
    ensures Divides(d, m + n) && Divides(d, m - n)
  {
    var q :| IsTimes(m, d, q);
    var r :| IsTimes(n, d, r);
    Distribute(d, q, r);
    assert IsTimes(m + n, d, q + r) && IsTimes(m - n, d, q - r);
  }

  lemma HalfDivides(d: int, h: int)
    ensures Divides(2 * d, 2 * h) <==> Divides(d, h)
  {
    if Divides(d, h) {
      var q :| IsTimes(h, d, q);
      Assoc(2, d, q);
      assert IsTimes(2 * h, 2 * d, q);
    }
    if Divides(2 * d, 2 * h) {
      var q :| IsTimes(2 * h, 2 * d, q);
      Assoc(2, d, q);
      assert IsTimes(h, d, q);
    }
  }

  lemma EvenDividesEven(d: int, n: int) returns (h: int)
    requires Divides(2 * d, n)
    ensures n == 2 * h
  {
    var q :| IsTimes(n, 2 * d, q);
    Assoc(2, d, q);
    h := d * q;
  }

  lemma OddProduct(a: int, odd: int, h: int)
    requires Odd(odd) && a * odd == 2 * h
    ensures exists g :: a == 2 * g
  {
    var m :| odd == 2 * m + 1;
    assert a * odd == 2 * (a * m) + a by { Distribute(a, 2 * m, 1); Assoc(a, 2, m); assert a * (2 * m) == 2 * (a * m); }
    assert a == 2 * (h - a * m);
  }

  /** An odd factor does not help a power of two divide. */
  lemma {:induction false} OddFactor(k: nat, a: int, odd: int)
    requires Odd(odd)
    ensures Divides(Pow2(k), a * odd) <==> Divides(Pow2(k), a)
    decreases k
  {
    if Divides(Pow2(k), a) { DividesTimes(Pow2(k), a, odd); }
    if k == 0 {
      assert IsTimes(a, 1, a);
    } else if Divides(Pow2(k), a * odd) {
      var h := EvenDividesEven(Pow2(k - 1), a * odd);
      OddProduct(a, odd, h);
      var g :| a == 2 * g;
      Assoc(2, g, odd);
      HalfDivides(Pow2(k - 1), g * odd);
      OddFactor(k - 1, g, odd);
      HalfDivides(Pow2(k - 1), g);
    }
  }

  // ---------------------------------------------------------------- the unreduced sequence

  function Power(n: nat): nat { if n == 0 then 1 else MULTIPLIER * Power(n - 1) }

  /** 1 + a + ... + a^(n-1). */
  function Sum(n: nat): nat { if n == 0 then 0 else MULTIPLIER * Sum(n - 1) + 1 }

  /** a^n is one more than a multiple of four, because a is. */
  lemma {:induction false} PowerMod4(n: nat) returns (q: int)
    ensures Power(n) == 4 * q + 1
  {
    if n == 0 { return 0; }
    var p := PowerMod4(n - 1);
    q := MULTIPLIER * p + 416131;
  }

  lemma {:induction false} SumParity(n: nat) returns (h: int)
    ensures Sum(n) == 2 * h + n % 2
  {
    if n == 0 { return 0; }
    var g := SumParity(n - 1);
    h := if n % 2 == 1 then MULTIPLIER * g else MULTIPLIER * g + 832263;
  }

  lemma {:induction false} PowerSum(m: nat, n: nat)
    ensures Power(m + n) == Power(m) * Power(n) && Sum(m + n) == Power(m) * Sum(n) + Sum(m)
    decreases m
  {
    if m == 0 {
      assert 0 + n == n;
    } else {
      PowerSum(m - 1, n);
      assert m + n - 1 == (m - 1) + n;
      Assoc(MULTIPLIER, Power(m - 1), Power(n));
      Assoc(MULTIPLIER, Power(m - 1), Sum(n));
    }
  }

  lemma SumOfDouble(m: nat) returns (odd: int)
    ensures Odd(odd) && Sum(m + m) == 2 * (Sum(m) * odd)
  {
    PowerSum(m, m);
    var q := PowerMod4(m);
    odd := 2 * q + 1;
    assert Power(m) + 1 == 2 * odd;
    DoubleSum(Power(m), Sum(m), odd);
  }

  lemma DoubleSum(p: int, s: int, odd: int)
    requires p + 1 == 2 * odd
    ensures p * s + s == 2 * (s * odd)
  {
    assert p * s + s == (p + 1) * s == (2 * odd) * s;
    Assoc(2, odd, s);
  }

  /** The sum of n powers has exactly as many factors two as n. */
  lemma {:induction false} SumDivides(k: nat, n: nat)
    ensures Divides(Pow2(k), Sum(n)) <==> Divides(Pow2(k), n)
    decreases k
  {
    if k == 0 {
      assert IsTimes(n, 1, n) && IsTimes(Sum(n), 1, Sum(n));
    } else if n % 2 == 1 {
      var g := SumParity(n);
      if Divides(Pow2(k), Sum(n)) { var h := EvenDividesEven(Pow2(k - 1), Sum(n)); }
      if Divides(Pow2(k), n) { var h := EvenDividesEven(Pow2(k - 1), n); }
    } else {
      var m := n / 2;
      assert n == m + m;
      var odd := SumOfDouble(m);
      HalfDivides(Pow2(k - 1), Sum(m) * odd);
      OddFactor(k - 1, Sum(m), odd);
      SumDivides(k - 1, m);
      HalfDivides(Pow2(k - 1), m);
    }
  }

  // ---------------------------------------------------------------- the period

  lemma {:induction false} Pow2Splits(k: nat, m: nat)
    ensures Pow2(k + m) == Pow2(k) * Pow2(m)
    decreases k
  {
    if k == 0 {
      assert 0 + m == m;
    } else {
      Pow2Splits(k - 1, m);
      assert k + m - 1 == (k - 1) + m;
      Assoc(2, Pow2(k - 1), Pow2(m));
    }
  }

  lemma Pow2Of32()
    ensures Pow2(32) == TWO32 && Pow2(8) == 256 && Pow2(16) == 65536
  {
    assert Pow2(4) == 16;
    Pow2Splits(4, 4);
    Pow2Splits(8, 8);
    Pow2Splits(16, 16);
  }

  /** Reducing modulo 2^32 does not change the low k bits. */
  lemma LowBits(k: nat, x: nat)
    requires k <= 32
    ensures Divides(Pow2(k), x % TWO32 - x)
  {
    Pow2Of32();
    Pow2Splits(k, 32 - k);
    var q := x / TWO32;
    assert x % TWO32 - x == TWO32 * -q;
    Assoc(Pow2(k), Pow2(32 - k), -q);
    assert IsTimes(x % TWO32 - x, Pow2(k), Pow2(32 - k) * -q);
  }

  function Formula(x: nat, n: nat): nat { Power(n) * x + INCREMENT * Sum(n) }

  /** After n steps the low k bits are those of a^n x + c (1 + a + ... + a^(n-1)). */
  lemma {:induction false} StepsFormula(x: nat, n: nat, k: nat)
    requires k <= 32
    ensures Divides(Pow2(k), Steps(x, n) - Formula(x, n))
  {
    var p := Pow2(k);
    if n == 0 {
      assert IsTimes(0, p, 0);
    } else {
      StepsFormula(x, n - 1, k);
      var y := Steps(x, n - 1);
      var raw := y * MULTIPLIER + INCREMENT;
      LowBits(k, raw);
      DividesTimes(p, y - Formula(x, n - 1), MULTIPLIER);
      Assoc(MULTIPLIER, Power(n - 1), x);
      assert raw - Formula(x, n) == (y - Formula(x, n - 1)) * MULTIPLIER;
      DividesSum(p, Steps(x, n) - raw, raw - Formula(x, n));
    }
  }

  /** a^n - 1 == (a - 1) (1 + a + ... + a^(n-1)). */
  lemma {:induction false} Geometric(n: nat)
    ensures Power(n) == (MULTIPLIER - 1) * Sum(n) + 1
  {
    if n > 0 { Geometric(n - 1); }
  }

  lemma Displacement(x: nat, n: nat) returns (odd: int)
    ensures Odd(odd) && Formula(x, n) - x == Sum(n) * odd
  {
    Geometric(n);
    odd := (MULTIPLIER - 1) * x + INCREMENT;
    assert odd == 2 * (832262 * x + 506952111) + 1;
    var s := Sum(n);
    assert Power(n) * x == ((MULTIPLIER - 1) * s) * x + x by { Distribute(x, (MULTIPLIER - 1) * s, 1); }
    assert s * odd == s * ((MULTIPLIER - 1) * x) + s * INCREMENT by { Distribute(s, (MULTIPLIER - 1) * x, INCREMENT); }
    Assoc(s, MULTIPLIER - 1, x);
  }

  /** The low k bits return to where they were after n steps exactly when 2^k divides n, whatever the seed. */
  lemma {:induction false} LowBitsPeriod(x: nat, n: nat, k: nat)
    requires k <= 32
    ensures Steps(x, n) % Pow2(k) == x % Pow2(k) <==> n % Pow2(k) == 0
  {
    var p := Pow2(k);
    StepsFormula(x, n, k);
    var odd := Displacement(x, n);
    SameModIff(p, Steps(x, n), x);
    var toFormula := Steps(x, n) - Formula(x, n);
    if Divides(p, Sum(n) * odd) { DividesSum(p, toFormula, Sum(n) * odd); }
    if Divides(p, Steps(x, n) - x) { DividesSum(p, Steps(x, n) - x, toFormula); }
    OddFactor(k, Sum(n), odd);
    SumDivides(k, n);
    ZeroModIff(p, n);
  }

  lemma {:induction false} StepsBelow(x: nat, n: nat)
    requires x < TWO32
    ensures Steps(x, n) < TWO32
  {}

  /** The generator has full period: it returns to a seed after n steps exactly when 2^32 divides n. */
  lemma {:induction false} FullPeriod(seed: nat, n: nat)
    requires seed < TWO32
    ensures Steps(seed, n) == seed <==> n % TWO32 == 0
  {
    hide Pow2, Steps;
    Pow2Of32();
    StepsBelow(seed, n);
    LowBitsPeriod(seed, n, 32);
  }

  lemma {:induction false} StepsAdd(x: nat, m: nat, n: nat)
    ensures Steps(x, m + n) == Steps(Steps(x, m), n)
    decreases n
  {
    if n > 0 {
      StepsAdd(x, m, n - 1);
      assert m + n - 1 == m + (n - 1);
    } else {
      assert m + 0 == m;
    }
  }

  /** Two outputs agree in their low k bits exactly when the distance between them is a multiple of 2^k. */
  lemma {:induction false} SameLowBitsIff(x: nat, i: nat, j: nat, k: nat)
    requires k <= 32 && i <= j
    ensures Steps(x, i) % Pow2(k) == Steps(x, j) % Pow2(k) <==> (j - i) % Pow2(k) == 0
  {
    StepsAdd(x, i, j - i);
    LowBitsPeriod(Steps(x, i), j - i, k);
  }
}

/**
 The prelude itself: its two counters, its arithmetic on IEEE doubles and on BigInts, and the
 loop that fills a typed array.
 */
module DeterministicPrelude {
  import opened Common
  import opened Congruential

  // ---------------------------------------------------------------- numbers as the script computes them

  const TWO53: nat := 0x20_0000_0000_0000

  /** The number of low bits of `n` that a double has no room for. */
  function Excess(n: nat): nat {
    if n < TWO53 then 0 else 1 + Excess(n / 2)
  }

  /** The double nearest to a non-negative integer, ties to even. */
  function RoundToDouble(n: nat): nat {
    var unit := Pow2(Excess(n));
    var q, r := n / unit, n % unit;
    if 2 * r < unit || (2 * r == unit && q % 2 == 0) then q * unit else (q + 1) * unit
  }

  /** x >>> 0: the ToUint32 of a non-negative integer (ECMA-262 2023, section 7.1.7). */
  function ToUint32(x: nat): nat { x % TWO32 }

  function NextInDoubles(seed: nat): nat {
    ToUint32(RoundToDouble(RoundToDouble(seed * MULTIPLIER) + INCREMENT))
  }

  /** For every 32-bit seed the product and the sum fit in 53 bits, so the doubles compute the integer recurrence. */
  lemma DoublesAreExact(seed: nat)
    requires seed < TWO32
    ensures seed * MULTIPLIER + INCREMENT < TWO53 && NextInDoubles(seed) == Step(seed)
  {
    BelowTwo53(seed * MULTIPLIER);
    BelowTwo53(seed * MULTIPLIER + INCREMENT);
  }

  lemma BelowTwo53(n: nat)
    requires n < TWO53
    ensures RoundToDouble(n) == n
  {
    assert Pow2(0) == 1;
  }

  /** The rounding is not idle: the first integer past 2^53 is not a double. */
  lemma PastTwo53()
    ensures RoundToDouble(TWO53 + 1) == TWO53
  {
    OneExcessBit();
    PowersOfTwo();
    hide Excess, Pow2;
    var half := (TWO53 + 1) / 2;
    assert half == 0x10_0000_0000_0000 && (TWO53 + 1) % 2 == 1 && half % 2 == 0;
  }

  lemma OneExcessBit()
    ensures Excess(TWO53 + 1) == 1
  {
    var half := (TWO53 + 1) / 2;
    assert half == 0x10_0000_0000_0000;
    assert Excess(half) == 0;
    assert Excess(TWO53 + 1) == 1 + Excess(half);
  }

  lemma PowersOfTwo()
    ensures Pow2(0) == 1 && Pow2(1) == 2
  {
    assert Pow2(1) == 2 * Pow2(0);
  }

  function BitAnd(a: nat, b: nat): nat {
    if a == 0 || b == 0 then 0 else (if a % 2 == 1 && b % 2 == 1 then 1 else 0) + 2 * BitAnd(a / 2, b / 2)
  }

  function BitOr(a: nat, b: nat): nat {
    if a == 0 then b else if b == 0 then a
    else (if a % 2 == 1 || b % 2 == 1 then 1 else 0) + 2 * BitOr(a / 2, b / 2)
  }

  lemma OddAndHalf(p: nat)
    requires p > 0
    ensures (2 * p - 1) % 2 == 1 && (2 * p - 1) / 2 == p - 1
  {}

  /** One bit of a number under an odd mask. */
  lemma MaskBit(a: nat, b: nat)
    requires a > 0 && b % 2 == 1
    ensures BitAnd(a, b) == a % 2 + 2 * BitAnd(a / 2, b / 2)
  {}

  lemma {:induction false} MaskIsRemainder(a: nat, k: nat)
    ensures BitAnd(a, Pow2(k) - 1) == a % Pow2(k)
    decreases k
  {
    if k > 0 && a > 0 {
      var p := Pow2(k - 1);
      OddAndHalf(p);
      MaskBit(a, 2 * p - 1);
      MaskIsRemainder(a / 2, k - 1);
      RemainderByHalves(a, p);
      hide BitAnd;
    } else if k > 0 {
      assert IsTimes(0, Pow2(k), 0);
      ZeroModIff(Pow2(k), 0);
    }
  }

  lemma RemainderByHalves(a: nat, p: nat)
    requires p > 0
    ensures a % (2 * p) == a % 2 + 2 * ((a / 2) % p)
  {
    var h := a / 2;
    DivMod(p, h);
    DivMod(2 * p, a);
    Assoc(2, p, h / p);
    RemainderUnique(2 * p, h / p, a % 2 + 2 * (h % p), a / (2 * p), a % (2 * p));
  }

  lemma {:induction false} OrOfDisjoint(u: nat, low: nat, k: nat)
    requires low < Pow2(k)
    ensures BitOr(u * Pow2(k), low) == u * Pow2(k) + low
    decreases k
  {
    if k > 0 && u > 0 && low > 0 {
      var p := Pow2(k - 1);
      Assoc(u, 2, p);
      Assoc(2, u, p);
      assert u * Pow2(k) == 2 * (u * p);
      AtLeast(p, u);
      OrOfDisjoint(u, low / 2, k - 1);
    }
  }

  // ---------------------------------------------------------------- typed arrays

  datatype Kind = Int8 | Uint8 | Uint8Clamped | Int16 | Uint16 | Int32 | Uint32 | BigInt64 | BigUint64 {
    predicate Big() { BigInt64? || BigUint64? }
    predicate Signed() { Int8? || Int16? || Int32? || BigInt64? }
    function Bytes(): nat {
      match this
      case Int8 | Uint8 | Uint8Clamped => 1
      case Int16 | Uint16 => 2
      case Int32 | Uint32 => 4
      case BigInt64 | BigUint64 => 8
    }
  }

  /** What an element of a typed array holds after `v` is assigned to it. */
  function Stored(kind: Kind, v: nat): int {
    if kind.Uint8Clamped? then (if v > 255 then 255 else v) else
    var size := Pow2(kind.Bytes() * 8);
    var low := v % size;
    if kind.Signed() && 2 * low >= size then low - size else low
  }

  /**
   The number the script assigns to an element, from the next two outputs of the generator; only a
   BigInt uses the second.
   */
  function Masked(kind: Kind, next: nat, lower: nat): nat {
    if kind.Big() then BitAnd(BitOr(next * Pow2(32), lower), Pow2(kind.Bytes() * 8) - 1)
    else if kind.Bytes() == 1 then BitAnd(next, 0xff)
    else if kind.Bytes() == 2 then BitAnd(next, 0xffff)
    else next
  }

  /** The number assigned to the next element, and the seed it leaves. */
  function Drawn(seed: nat, kind: Kind): (nat, nat) {
    var next := Step(seed);
    (Masked(kind, next, Step(next)), if kind.Big() then Step(next) else next)
  }

  function Fill(seed: nat, kind: Kind, n: nat): (r: (seq<int>, nat))
    ensures |r.0| == n
  {
    if n == 0 then ([], seed) else
    var (vs, s) := Fill(seed, kind, n - 1);
    var (v, s') := Drawn(s, kind);
    (vs + [Stored(kind, v)], s')
  }

  /** Filling m + n elements is filling m of them and then n more. */
  lemma {:induction false} FillAppend(seed: nat, kind: Kind, m: nat, n: nat)
    ensures var first := Fill(seed, kind, m); var second := Fill(first.1, kind, n);
      Fill(seed, kind, m + n) == (first.0 + second.0, second.1)
    decreases n
  {
    hide Drawn, Stored;
    var first := Fill(seed, kind, m);
    if n == 0 {
      assert first.0 + [] == first.0;
      assert m + 0 == m;
    } else {
      FillAppend(seed, kind, m, n - 1);
      assert m + n - 1 == m + (n - 1);
      var rest := Fill(first.1, kind, n - 1);
      var v := Stored(kind, Drawn(rest.1, kind).0);
      assert (first.0 + rest.0) + [v] == first.0 + (rest.0 + [v]);
    }
  }

  /** How many outputs of the generator the first n elements use: two for each BigInt, one for any other. */
  function Drawings(kind: Kind, n: nat): nat { if kind.Big() then 2 * n else n }

  /** What the masks come to: the low bits of one output, or upper * 2^32 + lower. */
  function Plain(kind: Kind, next: nat, lower: nat): nat {
    if kind.Big() then next * TWO32 + lower else next % Pow2(kind.Bytes() * 8)
  }

  /** Element i, told from the generator alone. */
  function ElementAt(seed: nat, kind: Kind, i: nat): int {
    var d := Drawings(kind, i);
    Stored(kind, Plain(kind, Steps(seed, d + 1), Steps(seed, d + 2)))
  }

  lemma StepsUnfold(seed: nat, d: nat)
    ensures Steps(seed, d + 1) == Step(Steps(seed, d)) && Steps(seed, d + 2) == Step(Steps(seed, d + 1))
  {
    hide Step;
  }

  lemma NextElement(seed: nat, kind: Kind, i: nat)
    requires seed < TWO32
    ensures var d := Drawings(kind, i);
      Drawn(Steps(seed, d), kind)
          == (Plain(kind, Steps(seed, d + 1), Steps(seed, d + 2)), Steps(seed, Drawings(kind, i + 1)))
  {
    hide Masked, Plain, Step;
    var d := Drawings(kind, i);
    StepsUnfold(seed, d);
    StepsBelow(seed, d + 1);
    StepsBelow(seed, d + 2);
    MaskedIsPlain(kind, Steps(seed, d + 1), Steps(seed, d + 2));
  }

  /** Element i comes from output i + 1 of the generator, or, for a BigInt array, from outputs 2i + 1 and 2i + 2. */
  lemma {:induction false} FillElements(seed: nat, kind: Kind, n: nat)
    requires seed < TWO32
    ensures Fill(seed, kind, n).1 == Steps(seed, Drawings(kind, n)) < TWO32
    ensures forall i | 0 <= i < n :: Fill(seed, kind, n).0[i] == ElementAt(seed, kind, i)
  {
    hide Masked, Plain, Stored;
    StepsBelow(seed, Drawings(kind, n));
    if n > 0 {
      FillElements(seed, kind, n - 1);
      NextElement(seed, kind, n - 1);
      FillUnfold(seed, kind, n - 1);
    }
  }

  lemma FillUnfold(seed: nat, kind: Kind, n: nat)
    ensures var (vs, s) := Fill(seed, kind, n); var (v, s') := Drawn(s, kind);
      Fill(seed, kind, n + 1) == (vs + [Stored(kind, v)], s')
  {}

  lemma BigIsPlain(next: nat, lower: nat)
    requires next < TWO32 && lower < TWO32
    ensures BitAnd(BitOr(next * Pow2(32), lower), Pow2(64) - 1) == next * TWO32 + lower
  {
    hide BitAnd, BitOr, Pow2;
    Pow2Of32();
    OrOfDisjoint(next, lower, 32);
    Pow2Splits(32, 32);
    MaskIsRemainder(next * TWO32 + lower, 64);
    assert next * TWO32 + lower < TWO32 * TWO32;
  }

  lemma MaskedIsPlain(kind: Kind, next: nat, lower: nat)
    requires next < TWO32 && lower < TWO32
    ensures Masked(kind, next, lower) == Plain(kind, next, lower)
  {
    hide BitAnd, BitOr, Pow2;
    if kind.Big() {
      BigIsPlain(next, lower);
    } else {
      SmallIsPlain(kind, next, lower);
    }
  }

  lemma SmallIsPlain(kind: Kind, next: nat, lower: nat)
    requires next < TWO32 && !kind.Big()
    ensures Masked(kind, next, lower) == Plain(kind, next, lower)
  {
    hide BitAnd, BitOr, Pow2;
    Pow2Of32();
    if kind.Bytes() < 4 {
      MaskIsRemainder(next, kind.Bytes() * 8);
    } else {
      assert next % TWO32 == next;
    }
  }

  // ---------------------------------------------------------------- what an element reads

  lemma WidthOf(kind: Kind)
    ensures Pow2(kind.Bytes() * 8) ==
      match kind
      case Int8 | Uint8 | Uint8Clamped => 0x100
      case Int16 | Uint16 => 0x1_0000
      case Int32 | Uint32 => 0x1_0000_0000
      case BigInt64 | BigUint64 => 0x1_0000_0000_0000_0000
  {
    Pow2Of32();
    Pow2Splits(32, 32);
  }

  /** The only number in the window of `size` numbers from `low` that leaves the remainder of `v`. */
  predicate Wraps(low: int, size: nat, v: nat, x: int)
    requires size > 0
  {
    low <= x < low + size && x % size == v % size
  }

  lemma StoredWraps(kind: Kind, v: nat)
    requires kind.Uint8Clamped? ==> v < 256
    ensures var size := Pow2(kind.Bytes() * 8);
      Wraps(if kind.Signed() then -(size / 2) else 0, size, v, Stored(kind, v))
  {
    WidthOf(kind);
    var size := Pow2(kind.Bytes() * 8);
    hide Pow2;
    DivMod(size, v);
    SameModIff(size, v % size, v);
    assert IsTimes(v % size - v, size, -(v / size));
    SameModIff(size, v % size - size, v);
    assert IsTimes(v % size - size - v, size, -(v / size) - 1) by { Distribute(size, -(v / size), 1); }
  }

  /**
   What each element of a filled array reads: the low bits of its output of the generator, as a
   number of the array's own range, negative ones included; for a BigInt array, upper * 2^32 + lower of
   its own two outputs. The seed moves on by the outputs used.
   */
  lemma ElementMeaning(seed: nat, kind: Kind, n: nat, i: nat)
    requires seed < TWO32 && i < n
    ensures var (vs, s) := Fill(seed, kind, n);
      match kind
      case Int8 => Wraps(-128, 256, Steps(seed, i + 1), vs[i]) && s == Steps(seed, n)
      case Uint8 | Uint8Clamped => vs[i] == Steps(seed, i + 1) % 256 && s == Steps(seed, n)
      case Int16 => Wraps(-32768, 65536, Steps(seed, i + 1), vs[i]) && s == Steps(seed, n)
      case Uint16 => vs[i] == Steps(seed, i + 1) % 65536 && s == Steps(seed, n)
      case Int32 => Wraps(-0x8000_0000, 0x1_0000_0000, Steps(seed, i + 1), vs[i]) && s == Steps(seed, n)
      case Uint32 => vs[i] == Steps(seed, i + 1) && s == Steps(seed, n)
      case BigInt64 =>
        && Wraps(-0x8000_0000_0000_0000, 0x1_0000_0000_0000_0000,
                 Steps(seed, 2 * i + 1) * 0x1_0000_0000 + Steps(seed, 2 * i + 2), vs[i])
        && s == Steps(seed, 2 * n)
      case BigUint64 =>
        && vs[i] == Steps(seed, 2 * i + 1) * 0x1_0000_0000 + Steps(seed, 2 * i + 2)
        && s == Steps(seed, 2 * n)
  {
    ElementInWindow(seed, kind, n, i);
    WidthOf(kind);
    StepsBelow(seed, i + 1);
    StepsBelow(seed, 2 * i + 1);
    StepsBelow(seed, 2 * i + 2);
    var size, x := Pow2(kind.Bytes() * 8), Fill(seed, kind, n).0[i];
    if !kind.Signed() { WindowFromZero(size, Source(seed, kind, i), x); }
    hide Fill, Pow2, Steps, Wraps;
  }

  lemma WindowFromZero(size: nat, v: nat, x: int)
    requires size > 0 && Wraps(0, size, v, x)
    ensures x == v % size && (v < size ==> x == v)
  {
    DivMod(size, x);
    RemainderUnique(size, 0, x, x / size, x % size);
    DivMod(size, v);
    if v < size { RemainderUnique(size, 0, v, v / size, v % size); }
  }

  lemma ElementInWindow(seed: nat, kind: Kind, n: nat, i: nat)
    requires seed < TWO32 && i < n
    ensures var (vs, s) := Fill(seed, kind, n);
      && Wraps(Lowest(kind), Pow2(kind.Bytes() * 8), Source(seed, kind, i), vs[i])
      && s == Steps(seed, if kind.Big() then 2 * n else n)
  {
    FillElements(seed, kind, n);
    ElementAtWraps(seed, kind, i);
    hide Fill, Pow2, Steps, ElementAt, Wraps, Source;
  }

  /** What an element is made of: one output of the generator, or two. */
  function Source(seed: nat, kind: Kind, i: nat): nat {
    if kind.Big() then Steps(seed, 2 * i + 1) * TWO32 + Steps(seed, 2 * i + 2) else Steps(seed, i + 1)
  }

  function Lowest(kind: Kind): int { if kind.Signed() then -(Pow2(kind.Bytes() * 8) / 2) else 0 }

  lemma ElementAtWraps(seed: nat, kind: Kind, i: nat)
    requires seed < TWO32
    ensures Wraps(Lowest(kind), Pow2(kind.Bytes() * 8), Source(seed, kind, i), ElementAt(seed, kind, i))
  {
    hide Pow2, Steps, Stored, Plain;
    var d := Drawings(kind, i);
    var next, lower := Steps(seed, d + 1), Steps(seed, d + 2);
    StepsBelow(seed, d + 1);
    StepsBelow(seed, d + 2);
    assert Source(seed, kind, i) == if kind.Big() then next * TWO32 + lower else next;
    WidthOf(kind);
    PlainRemainder(kind, next, lower);
    StoredWraps(kind, Plain(kind, next, lower));
  }

  lemma PlainRemainder(kind: Kind, next: nat, lower: nat)
    requires next < TWO32 && lower < TWO32
    ensures var size := Pow2(kind.Bytes() * 8); var v := Plain(kind, next, lower);
      v < size && v % size == (if kind.Big() then next * TWO32 + lower else next) % size
  {
    WidthOf(kind);
    var size := Pow2(kind.Bytes() * 8);
    hide Pow2;
    DivMod(size, next);
    var v := Plain(kind, next, lower);
    DivMod(size, v);
    if !kind.Big() { RemainderUnique(size, 0, v, v / size, v % size); }
  }

  /** The generator's sequence in plain numbers, and its first outputs from the seed 1. */
  lemma Recurrence(seed: nat, n: nat)
    ensures Steps(seed, 0) == seed && Steps(seed, n + 1) == (1664525 * Steps(seed, n) + 1013904223) % 4294967296
    ensures Steps(1, 1) == 1015568748 && Steps(1, 2) == 1586005467
  {
    assert Steps(1, 0) == 1;
    StepsUnfold(1, 0);
    assert Step(1) == 1015568748 && Step(1015568748) == 1586005467;
    StepsUnfold(seed, n);
    hide Steps;
  }

  // ---------------------------------------------------------------- full windows of bytes

  /** Each of low .. low+n-1 occurs exactly once in `s`. */
  ghost predicate IsPermutation(s: seq<int>, low: int, n: nat) {
    && |s| == n && Distinct(s)
    && (forall v | low <= v < low + n :: v in s) && (forall i | 0 <= i < n :: low <= s[i] < low + n)
  }

  function Range(low: int, n: nat): (r: set<int>)
    ensures |r| == n && forall v :: v in r <==> low <= v < low + n
  {
    if n == 0 then {} else Range(low, n - 1) + {low + n - 1}
  }

  function Values(s: seq<int>): set<int> { set v | v in s }

  lemma {:induction false} DistinctCard(s: seq<int>)
    requires Distinct(s)
    ensures |Values(s)| == |s|
  {
    if |s| > 0 {
      var t, last := s[..|s| - 1], s[|s| - 1];
      DistinctCard(t);
      assert s == t + [last];
      assert Values(s) == Values(t) + {last};
    }
  }

  /** n different numbers of a window of n are all the numbers of the window. */
  lemma Pigeonhole(s: seq<int>, low: int)
    requires Distinct(s) && forall i | 0 <= i < |s| :: low <= s[i] < low + |s|
    ensures IsPermutation(s, low, |s|)
  {
    DistinctCard(s);
    assert Values(s) <= Range(low, |s|);
    SubsetOfSameSize(Values(s), Range(low, |s|));
    forall v | low <= v < low + |s| ensures v in s { assert v in Values(s); }
  }

  lemma SubsetOfSameSize(a: set<int>, b: set<int>)
    requires a <= b && |a| == |b|
    ensures a == b
  {
    assert |b - a| + |a| == |b| by { assert (b - a) + a == b && (b - a) !! a; }
    assert b - a == {};
  }

  /**
   Any 256 consecutive values of a filled byte array are a permutation of the values a byte can
   have, 0..255 or -128..127, and any 65536 consecutive values of a two-byte array of 0..65535 or
   -32768..32767.
   */
  lemma {:induction false} WindowIsPermutation(seed: nat, kind: Kind, n: nat, start: nat)
    requires seed < TWO32 && kind.Bytes() <= 2 && start + (if kind.Bytes() == 1 then 256 else 65536) <= n
    ensures var vs := Fill(seed, kind, n).0;
      if kind.Bytes() == 1 then IsPermutation(vs[start..start + 256], if kind.Int8? then -128 else 0, 256)
      else IsPermutation(vs[start..start + 65536], if kind.Int16? then -32768 else 0, 65536)
  {
    WidthOf(kind);
    var p := Pow2(kind.Bytes() * 8);
    hide Pow2, ElementAt, IsPermutation;
    var w := Fill(seed, kind, n).0[start..start + p];
    FillElements(seed, kind, n);
    forall i | 0 <= i < |w| ensures w[i] == ElementAt(seed, kind, start + i) {}
    WindowOfElements(seed, kind, start, w);
  }

  lemma WindowOfElements(seed: nat, kind: Kind, start: nat, w: seq<int>)
    requires seed < TWO32 && kind.Bytes() <= 2 && |w| == Pow2(kind.Bytes() * 8)
    requires forall i | 0 <= i < |w| :: w[i] == ElementAt(seed, kind, start + i)
    ensures IsPermutation(w, Lowest(kind), |w|)
  {
    hide ElementAt, Pow2;
    forall i | 0 <= i < |w| ensures Lowest(kind) <= w[i] < Lowest(kind) + |w| {
      ElementAtWraps(seed, kind, start + i);
    }
    forall i, j | 0 <= i < j < |w| ensures w[i] != w[j] { WindowElements(seed, kind, start + i, start + j); }
    Pigeonhole(w, Lowest(kind));
  }

  lemma WindowElements(seed: nat, kind: Kind, i: nat, j: nat)
    requires seed < TWO32 && kind.Bytes() <= 2 && i < j < i + Pow2(kind.Bytes() * 8)
    ensures ElementAt(seed, kind, i) != ElementAt(seed, kind, j)
  {
    var p := Pow2(kind.Bytes() * 8);
    ElementAtWraps(seed, kind, i);
    ElementAtWraps(seed, kind, j);
    SameLowBitsIff(seed, i + 1, j + 1, kind.Bytes() * 8);
    DivMod(p, j - i);
    RemainderUnique(p, 0, j - i, (j - i) / p, (j - i) % p);
    hide ElementAt, Pow2, Steps;
  }

  // ---------------------------------------------------------------- the script

  /** A zero field stands for its default; when both are zero there is no script. */
  datatype Config = Config(timeMS: int, seed: nat)

  class Prelude {
    var seed: nat
    var tick: nat
    const baseTime: int

    constructor (cfg: Config)
      requires (cfg.timeMS != 0 || cfg.seed != 0) && cfg.seed < TWO32
      ensures seed < TWO32 && seed != 0 && (cfg.seed != 0 ==> seed == cfg.seed) && (cfg.seed == 0 ==> seed == 1)
      ensures tick == 0 && baseTime == if cfg.timeMS == 0 then 1700000000000 else cfg.timeMS
    {
      tick := 0;
      seed := ToUint32(if cfg.seed == 0 then 1 else cfg.seed);
      baseTime := if cfg.timeMS == 0 then 1700000000000 else cfg.timeMS;
    }

    method NextUint32() returns (v: nat)
      requires seed < TWO32
      modifies this`seed
      ensures v == seed == Step(old(seed)) < TWO32
    {
      DoublesAreExact(seed);
      seed := NextInDoubles(seed);
      v := seed;
    }

    method NextTick() returns (v: nat)
      modifies this`tick
      ensures v == old(tick) && tick == v + 1
    {
      v := tick;
      tick := tick + 1;
    }

    /** performance.now. */
    method PerformanceNow() returns (t: nat)
      modifies this`tick
      ensures t == old(tick) && tick == old(tick) + 1
    {
      t := NextTick();
    }

    /** Date.now and performance.now draw on one counter. */
    method DateNow() returns (t: int)
      modifies this`tick
      ensures t == baseTime + old(tick) && tick == old(tick) + 1
    {
      var v := NextTick();
      t := baseTime + v;
    }

    method MathRandom() returns (x: real)
      requires seed < TWO32
      modifies this`seed
      ensures seed == Step(old(seed)) && 0.0 <= x < 1.0 && x * TWO32 as real == seed as real
    {
      var v := NextUint32();
      x := v as real / TWO32 as real;
    }

    method DrawElement(kind: Kind) returns (v: nat)
      requires seed < TWO32
      modifies this`seed
      ensures seed < TWO32 && (v, seed) == Drawn(old(seed), kind)
    {
      hide BitAnd, BitOr, Pow2, Step;
      var next := NextUint32();
      if kind.Big() {
        var upper := next;
        var lower := NextUint32();
        var bits := kind.Bytes() * 8;
        v := BitAnd(BitOr(upper * Pow2(32), lower), Pow2(bits) - 1);
        return;
      }
      match kind.Bytes()
      case 1 => v := BitAnd(next, 0xff);
      case 2 => v := BitAnd(next, 0xffff);
      case _ => v := ToUint32(next);
    }

    method GetRandomValues(typedArray: array<int>, kind: Kind)
      requires seed < TWO32
      modifies this`seed, typedArray
      ensures seed < TWO32 && (typedArray[..], seed) == Fill(old(seed), kind, typedArray.Length)
    {
      hide Masked, Stored;
      var i := 0;
      while i < typedArray.Length
        invariant 0 <= i <= typedArray.Length && seed < TWO32
        invariant (typedArray[..i], seed) == Fill(old(seed), kind, i)
      {
        var v := DrawElement(kind);
        typedArray[i] := Stored(kind, v);
        assert typedArray[..i + 1] == typedArray[..i] + [Stored(kind, v)];
        i := i + 1;
      }
      assert typedArray[..] == typedArray[..i];
    }
  }
}
