/** The linear congruential generator of the fern benchmark has full period. */
module Lcg {

  const A: int := 1103515245
  const C: int := 12345
  const M: int := 2147483648

  function Next(seed: int): int {
    (A * seed + C) % M
  }

  ghost function Iterate(seed: int, n: nat): int {
    if n == 0 then seed else Next(Iterate(seed, n - 1))
  }

  /** The product plus increment computed from `seed` fits a signed 64-bit integer. */
  predicate FitsInt64(seed: int) { 0 <= A * seed + C < 0x8000_0000_0000_0000 }

  /** Every seed the generator can hold fits. */
  lemma SeedsFit(seed: int)
    requires 0 <= seed < M
    ensures FitsInt64(seed)
  {
  }

  /** The benchmark's loop over `seed`; no step leaves the signed 64-bit integers. */
  method Generate(start: int, n: nat) returns (seed: int)
    requires 0 <= start < M
    ensures seed == Iterate(start, n) && 0 <= seed < M
    ensures forall i: nat :: i < n ==> FitsInt64(Iterate(start, i))
  {
    seed := start;
    var i := 0;
    while i < n
      invariant 0 <= i <= n && seed == Iterate(start, i) && 0 <= seed < M
      invariant forall j: nat :: j < i ==> FitsInt64(Iterate(start, j))
    {
      SeedsFit(seed);
      seed := (A * seed + C) % M;
      i := i + 1;
    }
  }

  // ----- Divisibility by powers of two -----

  /** 2^k divides a. */
  ghost predicate Div(k: nat, a: int) {
    k == 0 || (a % 2 == 0 && Div(k - 1, a / 2))
  }

  ghost function Pow2(k: nat): (p: int)
    ensures p >= 1
  {
    if k == 0 then 1 else 2 * Pow2(k - 1)
  }

  lemma DivDouble(p: int, a: int)
    requires p > 0
    ensures a % (2 * p) == 0 <==> a % 2 == 0 && (a / 2) % p == 0
  {
    var q, r := a / (2 * p), a % (2 * p);
    assert a == 2 * p * q + r && 0 <= r < 2 * p;
    if a % 2 == 0 {
      assert a / 2 == p * q + r / 2 by { assert a == 2 * (p * q) + r; }
      var h := r / 2;
      assert 0 <= h < p;
      Remainder(p, q, h);
    } else {
      assert r == a - 2 * (p * q);
    }
  }

  lemma Remainder(p: int, q: int, h: int)
    requires 0 <= h < p
    ensures (p * q + h) % p == h
  {
    var b := p * q + h;
    var d := b / p - q;
    assert b == p * (b / p) + b % p;
    assert p * d == h - b % p by { assert p * d == p * (b / p) - p * q; }
    SmallMultiple(p, d);
  }

  lemma SmallMultiple(p: int, d: int)
    requires p > 0
    ensures d >= 1 ==> p * d >= p
    ensures d <= -1 ==> p * d <= -p
  {
    assert p * d == p + p * (d - 1) == p * (d + 1) - p;
  }

  lemma {:induction false} DivIsMod(k: nat, a: int)
    ensures Div(k, a) <==> a % Pow2(k) == 0
  {
    if k > 0 {
      DivDouble(Pow2(k - 1), a);
      DivIsMod(k - 1, a / 2);
    }
  }

  /** An odd factor does not matter. */
  lemma {:induction false} OddFactor(k: nat, a: int, d: int)
    requires d % 2 == 1
    ensures Div(k, a * d) <==> Div(k, a)
  {
    if k > 0 {
      var h, e := a / 2, d / 2;
      assert a * d == a * (2 * e + 1) == 2 * (a * e) + a;
      if a % 2 == 0 {
        assert a * d == 2 * (h * d) by { assert a == 2 * h; }
        OddFactor(k - 1, h, d);
      }
    }
  }

  // ----- Geometric sums -----

  ghost function Pow(a: int, n: nat): int {
    if n == 0 then 1 else a * Pow(a, n - 1)
  }

  /** 1 + a + ... + a^(n-1). */
  ghost function Sum(a: int, n: nat): int {
    if n == 0 then 0 else a * Sum(a, n - 1) + 1
  }

  lemma {:induction false} PowMod4(a: int, n: nat)
    requires a % 4 == 1
    ensures Pow(a, n) % 4 == 1
  {
    if n > 0 {
      PowMod4(a, n - 1);
      ProductMod4(a, Pow(a, n - 1), a / 4);
    }
  }

  lemma ProductMod4(a: int, x: int, p: int)
    requires a == 4 * p + 1 && x % 4 == 1
    ensures (a * x) % 4 == 1
  {
    var px := p * x;
    assert a * x == 4 * px + x;
  }

  lemma {:induction false} SumParity(a: int, n: nat)
    requires a % 2 == 1
    ensures Sum(a, n) % 2 == n % 2
  {
    if n > 0 {
      SumParity(a, n - 1);
      var p, x := a / 2, Sum(a, n - 1);
      assert a * x == (2 * p + 1) * x == 2 * (p * x) + x;
    }
  }

  lemma {:induction false} SumSplit(a: int, m: nat, n: nat)
    ensures Sum(a, m + n) == Sum(a, n) + Pow(a, n) * Sum(a, m)
  {
    if m > 0 {
      SumSplit(a, m - 1, n);
      SumStep(a, n);
      SplitAlgebra(a, Sum(a, n), Pow(a, n), Sum(a, m - 1));
      assert Sum(a, m + n) == a * Sum(a, m - 1 + n) + 1;
    }
  }

  lemma SplitAlgebra(a: int, sn: int, p: int, s: int)
    requires a * sn + 1 == sn + p
    ensures a * (sn + p * s) + 1 == sn + p * (a * s + 1)
  {
    var ps := p * s;
    assert a * (sn + ps) == a * sn + a * ps;
    assert a * ps == p * (a * s);
    assert p * (a * s + 1) == p * (a * s) + p;
  }

  /** a * Sum + 1 == Sum + a^n. */
  lemma {:induction false} SumStep(a: int, n: nat)
    ensures a * Sum(a, n) + 1 == Sum(a, n) + Pow(a, n)
  {
    if n > 0 {
      SumStep(a, n - 1);
      StepAlgebra(a, Sum(a, n - 1), Pow(a, n - 1));
    }
  }

  lemma StepAlgebra(a: int, s: int, p: int)
    requires a * s + 1 == s + p
    ensures a * (a * s + 1) + 1 == (a * s + 1) + a * p
  {
    assert a * (s + p) == a * s + a * p;
  }

  /** The sum over an even number of powers is twice the half sum times an odd number. */
  lemma SumHalf(a: int, m: nat) returns (odd: int)
    requires a % 4 == 1
    ensures odd % 2 == 1 && Sum(a, m + m) == 2 * (Sum(a, m) * odd)
  {
    hide Sum, Pow;
    SumSplit(a, m, m);
    PowMod4(a, m);
    odd := OddHalf(Pow(a, m));
    HalfAlgebra(Sum(a, m), Pow(a, m), odd);
  }

  lemma OddHalf(p: int) returns (odd: int)
    requires p % 4 == 1
    ensures odd % 2 == 1 && 1 + p == 2 * odd
  {
    odd := (1 + p) / 2;
  }

  lemma HalfAlgebra(s: int, p: int, odd: int)
    requires 1 + p == 2 * odd
    ensures s + p * s == 2 * (s * odd)
  {
    assert s + p * s == s * (1 + p);
  }

  /** The sum of n powers has exactly as many factors of two as n. */
  lemma {:induction false} SumDiv(a: int, k: nat, n: nat)
    requires a % 4 == 1
    ensures Div(k, Sum(a, n)) <==> Div(k, n)
    decreases k
  {
    if k > 0 {
      SumParity(a, n);
      if n % 2 == 0 {
        var m := n / 2;
        var odd := SumHalf(a, m);
        assert n == m + m;
        OddFactor(k - 1, Sum(a, m), odd);
        SumDiv(a, k - 1, m);
      }
    }
  }

  // ----- The generator without the modulus -----

  ghost function Unbounded(a: int, c: int, x: int, n: nat): int {
    if n == 0 then x else a * Unbounded(a, c, x, n - 1) + c
  }

  lemma {:induction false} UnboundedDistance(a: int, c: int, x: int, n: nat)
    ensures Unbounded(a, c, x, n) == x + Sum(a, n) * ((a - 1) * x + c)
  {
    if n > 0 {
      UnboundedDistance(a, c, x, n - 1);
      DistanceAlgebra(a, c, x, Sum(a, n - 1), (a - 1) * x + c);
    }
  }

  lemma DistanceAlgebra(a: int, c: int, x: int, s: int, d: int)
    requires d == (a - 1) * x + c
    ensures a * (x + s * d) + c == x + (a * s + 1) * d
  {
    var sd := s * d;
    assert a * (x + sd) == a * x + a * sd;
    assert (a * s + 1) * d == a * s * d + d;
    assert a * s * d == a * sd;
    assert (a - 1) * x == a * x - x;
  }

  lemma ModStep(a: int, c: int, m: int, u: int)
    requires m > 0
    ensures (a * (u % m) + c) % m == (a * u + c) % m
  {
    var q, r := u / m, u % m;
    assert u == m * q + r;
    assert a * u + c == (a * r + c) + m * (a * q) by { assert a * (m * q + r) == m * (a * q) + a * r; }
    var v := a * r + c;
    assert v == m * (v / m) + v % m;
    Remainder(m, v / m + a * q, v % m);
    assert m * (v / m + a * q) == m * (v / m) + m * (a * q);
  }

  lemma {:induction false} IterateIsUnbounded(x: int, n: nat)
    requires 0 <= x < M
    ensures Iterate(x, n) == Unbounded(A, C, x, n) % M
  {
    if n > 0 {
      IterateIsUnbounded(x, n - 1);
      ModStep(A, C, M, Unbounded(A, C, x, n - 1));
    }
  }

  lemma SameRemainder(u: int, x: int, m: int)
    requires 0 <= x < m
    ensures u % m == x <==> (u - x) % m == 0
  {
    var d := u - x;
    if d % m == 0 {
      Remainder(m, d / m, x);
      assert u == m * (d / m) + x;
    }
    if u % m == x {
      assert d == m * (u / m) + 0;
      Remainder(m, u / m, 0);
    }
  }

  // ----- Full period -----

  lemma OddDistance(x: int)
    ensures ((A - 1) * x + C) % 2 == 1
  {
    var h := 551757622 * x + 6172;
    assert (A - 1) * x + C == 2 * h + 1;
    OddForm(h);
  }

  lemma OddForm(h: int)
    ensures (2 * h + 1) % 2 == 1
  {
  }

  lemma DivIsModM(a: int)
    ensures Div(31, a) <==> a % M == 0
  {
    DivIsMod(31, a);
    PowersOfTwo();
  }

  /** From any seed the sequence is back after n steps exactly when 2^31 divides n. */
  lemma FullPeriod(x: int, n: nat)
    requires 0 <= x < M
    ensures Iterate(x, n) == x <==> n % M == 0
  {
    hide Iterate, Unbounded, Sum, Div;
    IterateIsUnbounded(x, n);
    UnboundedDistance(A, C, x, n);
    var s, d := Sum(A, n), (A - 1) * x + C;
    SameRemainder(Unbounded(A, C, x, n), x, M);
    OddDistance(x);
    OddFactor(31, s, d);
    SumDiv(A, 31, n);
    DivIsModM(s * d);
    DivIsModM(n);
  }

  lemma PowersOfTwo()
    ensures Pow2(31) == M
  {
    assert Pow2(4) == 16;
    assert Pow2(8) == 256 by { assert Pow2(6) == 64; }
    assert Pow2(12) == 4096 by { assert Pow2(10) == 1024; }
    assert Pow2(16) == 65536 by { assert Pow2(14) == 16384; }
    assert Pow2(20) == 1048576 by { assert Pow2(18) == 262144; }
    assert Pow2(24) == 16777216 by { assert Pow2(22) == 4194304; }
    assert Pow2(28) == 268435456 by { assert Pow2(26) == 67108864; }
    assert Pow2(30) == 1073741824;
  }

  lemma {:induction false} IterateSplit(x: int, i: nat, j: nat)
    ensures Iterate(x, i + j) == Iterate(Iterate(x, i), j)
  {
    if j > 0 { IterateSplit(x, i, j - 1); }
  }

  lemma {:induction false} IterateInRange(x: int, n: nat)
    requires 0 <= x < M
    ensures 0 <= Iterate(x, n) < M
  {
  }

  /** Within one period no seed occurs twice. */
  lemma NoEarlyRepeat(x: int, i: nat, j: nat)
    requires 0 <= x < M && i < j < i + M
    ensures Iterate(x, i) != Iterate(x, j)
  {
    IterateInRange(x, i);
    IterateSplit(x, i, j - i);
    FullPeriod(Iterate(x, i), j - i);
  }

  ghost function Seen(x: int, n: nat): set<int> {
    if n == 0 then {} else Seen(x, n - 1) + {Iterate(x, n - 1)}
  }

  lemma {:induction false} SeenHas(x: int, n: nat, i: nat)
    requires i < n
    ensures Iterate(x, i) in Seen(x, n)
  {
    if i < n - 1 { SeenHas(x, n - 1, i); }
  }

  lemma {:induction false} SeenFrom(x: int, n: nat, v: int) returns (i: nat)
    requires v in Seen(x, n)
    ensures i < n && Iterate(x, i) == v
  {
    if v == Iterate(x, n - 1) {
      i := n - 1;
    } else {
      i := SeenFrom(x, n - 1, v);
    }
  }

  lemma {:induction false} SeenSize(x: int, n: nat)
    requires 0 <= x < M && n <= M
    ensures |Seen(x, n)| == n
  {
    hide Iterate;
    if n > 0 {
      SeenSize(x, n - 1);
      if Iterate(x, n - 1) in Seen(x, n - 1) {
        var i := SeenFrom(x, n - 1, Iterate(x, n - 1));
        NoEarlyRepeat(x, i, n - 1);
      }
    }
  }

  ghost function Below(n: nat): (s: set<int>)
    ensures |s| == n && forall v :: v in s <==> 0 <= v < n
  {
    if n == 0 then {} else Below(n - 1) + {n - 1}
  }

  lemma SubsetSize(s: set<int>, t: set<int>)
    requires s <= t
    ensures |s| <= |t|
  {
    assert s + (t - s) == t;
    assert |s + (t - s)| == |s| + |t - s|;
  }

  lemma SubsetOfSameSize(s: set<int>, t: set<int>, v: int)
    requires s <= t && |s| == |t| && v in t
    ensures v in s
  {
    if v !in s {
      SubsetSize(s, t - {v});
    }
  }

  /** Every value in [0, 2^31) is produced, from any start. */
  lemma EverySeedOccurs(x: int, v: int) returns (i: nat)
    requires 0 <= x < M && 0 <= v < M
    ensures i < M && Iterate(x, i) == v
  {
    hide Iterate, Seen, Below;
    SeenSize(x, M);
    forall u | u in Seen(x, M) ensures u in Below(M) {
      var k := SeenFrom(x, M, u);
      IterateInRange(x, k);
    }
    SubsetOfSameSize(Seen(x, M), Below(M), v);
    i := SeenFrom(x, M, v);
  }
}
