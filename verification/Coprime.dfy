/** Euclid's loop and the count of coprime pairs in the pi benchmark. */
module Coprime {

  ghost predicate Divides(d: nat, a: nat) {
    exists q: nat :: IsMultiple(a, d, q)
  }

  predicate IsMultiple(a: nat, d: nat, q: nat) {
    a == d * q
  }

  ghost predicate CommonDivisor(d: nat, a: nat, b: nat) {
    Divides(d, a) && Divides(d, b)
  }

  /** `g` is the greatest common divisor: the common divisors of `a` and `b` are its divisors. */
  ghost predicate IsGcd(g: nat, a: nat, b: nat) {
    forall d: nat :: CommonDivisor(d, a, b) <==> Divides(d, g)
  }

  lemma DividesSum(d: nat, a: nat, b: nat)
    requires Divides(d, a) && Divides(d, b)
    ensures Divides(d, a + b)
  {
    var p: nat :| IsMultiple(a, d, p);
    var q: nat :| IsMultiple(b, d, q);
    assert IsMultiple(a + b, d, p + q);
  }

  lemma DividesTimes(d: nat, a: nat, k: nat)
    requires Divides(d, a)
    ensures Divides(d, a * k)
  {
    var p: nat :| IsMultiple(a, d, p);
    assert a * k == d * (p * k);
    assert IsMultiple(a * k, d, p * k);
  }

  lemma DividesDifference(d: nat, a: nat, b: nat)
    requires Divides(d, a) && Divides(d, b) && b <= a
    ensures Divides(d, a - b)
  {
    var p: nat :| IsMultiple(a, d, p);
    var q: nat :| IsMultiple(b, d, q);
    if p >= q {
      assert IsMultiple(a - b, d, p - q);
    } else {
      assert d * p <= d * q;
      assert IsMultiple(a - b, d, 0);
    }
  }

  /** One step of Euclid's loop keeps the common divisors. */
  lemma EuclidStep(d: nat, a: nat, b: nat)
    requires b > 0
    ensures CommonDivisor(d, a, b) <==> CommonDivisor(d, b, a % b)
  {
    var q, r := a / b, a % b;
    assert a == b * q + r;
    if CommonDivisor(d, a, b) {
      DividesTimes(d, b, q);
      DividesDifference(d, a, b * q);
    }
    if CommonDivisor(d, b, r) {
      DividesTimes(d, b, q);
      DividesSum(d, b * q, r);
    }
  }

  method MyGcd(a0: nat, b0: nat) returns (g: nat)
    ensures IsGcd(g, a0, b0)
  {
    var a, b := a0, b0;
    while b != 0
      invariant forall d: nat :: CommonDivisor(d, a0, b0) <==> CommonDivisor(d, a, b)
      decreases b
    {
      var tmp := b;
      forall d: nat ensures CommonDivisor(d, a, b) <==> CommonDivisor(d, b, a % b) {
        EuclidStep(d, a, b);
      }
      b := a % b;
      a := tmp;
    }
    g := a;
    forall d: nat ensures CommonDivisor(d, a, 0) <==> Divides(d, a) {
      assert IsMultiple(0, d, 0);
    }
  }

  // ----- Coprime pairs -----

  ghost predicate AreCoprime(a: nat, b: nat) {
    forall d: nat :: CommonDivisor(d, a, b) ==> d == 1
  }

  lemma DividesOne(d: nat)
    ensures Divides(d, 1) <==> d == 1
  {
    if d == 1 { assert IsMultiple(1, 1, 1); }
    if Divides(d, 1) {
      var q: nat :| IsMultiple(1, d, q);
      assert q >= 1 ==> d * q >= d;
    }
  }

  /** The test the loops make. */
  lemma GcdOneIsCoprime(g: nat, a: nat, b: nat)
    requires IsGcd(g, a, b)
    ensures g == 1 <==> AreCoprime(a, b)
  {
    assert IsMultiple(g, g, 1);
    assert CommonDivisor(g, a, b);
    forall d: nat ensures Divides(d, 1) <==> d == 1 { DividesOne(d); }
  }

  lemma CoprimeSymmetric(a: nat, b: nat)
    ensures AreCoprime(a, b) <==> AreCoprime(b, a)
  {
    forall d: nat ensures CommonDivisor(d, a, b) <==> CommonDivisor(d, b, a) {
    }
  }

  lemma NotCoprimeWithSelf(a: nat)
    requires a >= 2
    ensures !AreCoprime(a, a)
  {
    assert IsMultiple(a, a, 1);
    assert CommonDivisor(a, a, a);
  }

  /** 1 .. n. */
  ghost function UpTo(n: nat): (s: set<nat>)
    ensures forall k: nat :: k in s <==> 1 <= k <= n
  {
    if n == 0 then {} else UpTo(n - 1) + {n}
  }

  /** The numbers up to `m` coprime to `a`. */
  ghost function CoprimeTo(a: nat, m: nat): set<nat> {
    set b | b in UpTo(m) && AreCoprime(a, b)
  }

  /** Euler's totient. */
  ghost function Phi(k: nat): nat {
    |CoprimeTo(k, k)|
  }

  ghost function PhiSum(n: nat): nat {
    if n == 0 then 0 else PhiSum(n - 1) + Phi(n)
  }

  /** The coprime pairs (a, b) with a up to n and b up to m. */
  ghost function Pairs(n: nat, m: nat): set<(nat, nat)> {
    set a, b | a in UpTo(n) && b in UpTo(m) && AreCoprime(a, b) :: (a, b)
  }

  ghost function RowPairs(a: nat, m: nat): set<(nat, nat)> {
    set b | b in UpTo(m) && AreCoprime(a, b) :: (a, b)
  }

  ghost function ColumnPairs(n: nat, b: nat): set<(nat, nat)> {
    set a | a in UpTo(n) && AreCoprime(a, b) :: (a, b)
  }

  lemma {:induction false} RowSize(a: nat, m: nat)
    ensures |RowPairs(a, m)| == |CoprimeTo(a, m)|
  {
    if m == 0 {
      assert RowPairs(a, 0) == {} && CoprimeTo(a, 0) == {};
    } else {
      RowSize(a, m - 1);
      RowGrows(a, m - 1);
      CoprimeToGrows(a, m - 1);
    }
  }

  lemma RowGrows(a: nat, m: nat)
    ensures RowPairs(a, m + 1) == RowPairs(a, m) + (if AreCoprime(a, m + 1) then {(a, m + 1)} else {})
    ensures (a, m + 1) !in RowPairs(a, m)
  {
  }

  lemma CoprimeToGrows(a: nat, m: nat)
    ensures CoprimeTo(a, m + 1) == CoprimeTo(a, m) + (if AreCoprime(a, m + 1) then {m + 1} else {})
    ensures m + 1 !in CoprimeTo(a, m)
  {
  }

  lemma {:induction false} ColumnSize(n: nat, b: nat)
    ensures |ColumnPairs(n, b)| == |CoprimeTo(b, n)|
  {
    if n == 0 {
      assert ColumnPairs(0, b) == {} && CoprimeTo(b, 0) == {};
    } else {
      ColumnSize(n - 1, b);
      CoprimeSymmetric(n, b);
      CoprimeToGrows(b, n - 1);
      ColumnGrows(n - 1, b);
    }
  }

  lemma ColumnGrows(n: nat, b: nat)
    ensures ColumnPairs(n + 1, b) == ColumnPairs(n, b) + (if AreCoprime(n + 1, b) then {(n + 1, b)} else {})
    ensures (n + 1, b) !in ColumnPairs(n, b)
  {
  }

  /** One more row, one more column. */
  lemma PairsGrow(n: nat, m: nat)
    ensures Pairs(n + 1, m) == Pairs(n, m) + RowPairs(n + 1, m) && Pairs(n, m) !! RowPairs(n + 1, m)
    ensures Pairs(n, m + 1) == Pairs(n, m) + ColumnPairs(n, m + 1) && Pairs(n, m) !! ColumnPairs(n, m + 1)
  {
  }

  /** The number of coprime pairs in the square, in closed form. */
  lemma {:induction false} PairsClosedForm(n: nat)
    requires n >= 1
    ensures |Pairs(n, n)| == 2 * PhiSum(n) - 1
  {
    hide Pairs, RowPairs, ColumnPairs, AreCoprime, CoprimeTo;
    if n == 1 {
      OnePair();
    } else {
      PairsClosedForm(n - 1);
      Border(n);
    }
  }

  /** The last row and the last column add two totients. */
  lemma Border(n: nat)
    requires n >= 2
    ensures |Pairs(n, n)| == |Pairs(n - 1, n - 1)| + 2 * Phi(n)
  {
    hide Pairs, RowPairs, ColumnPairs, AreCoprime, CoprimeTo;
    PairsGrow(n - 1, n - 1);
    assert |Pairs(n - 1, n)| == |Pairs(n - 1, n - 1)| + |ColumnPairs(n - 1, n)|;
    PairsGrow(n - 1, n);
    assert |Pairs(n, n)| == |Pairs(n - 1, n)| + |RowPairs(n, n)|;
    RowSize(n, n);
    ColumnSize(n - 1, n);
    NotCoprimeWithSelf(n);
    CoprimeToGrows(n, n - 1);
  }

  lemma OnePair()
    ensures |Pairs(1, 1)| == 1 && PhiSum(1) == 1
  {
    forall d: nat ensures Divides(d, 1) <==> d == 1 { DividesOne(d); }
    assert UpTo(1) == {1};
    assert CoprimeTo(1, 1) == {1};
    assert Pairs(1, 1) == {(1, 1)};
    assert PhiSum(1) == PhiSum(0) + Phi(1);
  }

  /** The benchmark's double loop. */
  method CountCoprimePairs(n: nat) returns (cnt: nat)
    ensures cnt == |Pairs(n, n)|
    ensures n >= 1 ==> cnt == 2 * PhiSum(n) - 1
  {
    hide Pairs, RowPairs, ColumnPairs, AreCoprime, PhiSum, IsGcd;
    cnt := 0;
    NoPairs(n);
    for a := 1 to n + 1
      invariant cnt == |Pairs(a - 1, n)|
    {
      NoRow(a);
      for b := 1 to n + 1
        invariant cnt == |Pairs(a - 1, n)| + |RowPairs(a, b - 1)|
      {
        var g := MyGcd(a, b);
        GcdOneIsCoprime(g, a, b);
        RowGrows(a, b - 1);
        if g == 1 {
          cnt := cnt + 1;
        }
      }
      PairsGrow(a - 1, n);
    }
    if n >= 1 { PairsClosedForm(n); }
  }

  lemma NoPairs(m: nat)
    ensures Pairs(0, m) == {}
  {
  }

  lemma NoRow(a: nat)
    ensures RowPairs(a, 0) == {}
  {
  }
}
