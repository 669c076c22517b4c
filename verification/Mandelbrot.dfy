/** Two escape-time programs, over exact complex numbers: a loop for each point, and
    whole-array steps under a mask with an early exit. */
module Mandelbrot {

  datatype Complex = Complex(re: real, im: real)

  function Plus(a: Complex, b: Complex): Complex { Complex(a.re + b.re, a.im + b.im) }

  function Times(a: Complex, b: Complex): Complex {
    Complex(a.re * b.re - a.im * b.im, a.re * b.im + a.im * b.re)
  }

  /** The square of the distance from zero. */
  function Norm(a: Complex): real { a.re * a.re + a.im * a.im }

  /** The escape map. */
  function Next(z: Complex, c: Complex): Complex { Plus(Times(z, z), c) }

  predicate Bounded(z: Complex) { Norm(z) <= 4.0 }

  /** The escape map's orbit from zero. */
  function Orbit(c: Complex, k: nat): Complex {
    if k == 0 then Complex(0.0, 0.0) else Next(Orbit(c, k - 1), c)
  }

  // ----- The product, and why leaving the disc is final -----

  /** The product is bilinear over the reals with one as its unit, and the square of the
      imaginary unit is minus one. */
  lemma ProductLaws(a: Complex, b: Complex, c: Complex, r: real)
    ensures Times(a, Plus(b, c)) == Plus(Times(a, b), Times(a, c)) && Times(a, b) == Times(b, a)
    ensures Times(Complex(r, 0.0), a) == Complex(r * a.re, r * a.im)
    ensures Times(Complex(0.0, 1.0), Complex(0.0, 1.0)) == Complex(-1.0, 0.0)
    ensures a == Plus(Complex(a.re, 0.0), Times(Complex(a.im, 0.0), Complex(0.0, 1.0)))
  {
  }

  lemma NormOfProduct(a: Complex, b: Complex)
    ensures Norm(Times(a, b)) == Norm(a) * Norm(b)
  {
    var p, q, u, v := a.re, a.im, b.re, b.im;
    assert (p * u - q * v) * (p * u - q * v) == p * p * (u * u) - 2.0 * (p * u * (q * v)) + q * q * (v * v);
    assert (p * v + q * u) * (p * v + q * u) == p * p * (v * v) + 2.0 * (p * u * (q * v)) + q * q * (u * u);
  }

  /** Cauchy's inequality for the two coordinates. */
  lemma Cauchy(a: Complex, b: Complex)
    ensures var t := a.re * b.re + a.im * b.im; t * t <= Norm(a) * Norm(b)
  {
    var p, q, u, v := a.re, a.im, b.re, b.im;
    var t, x := p * u + q * v, p * v - q * u;
    assert t * t == p * p * (u * u) + 2.0 * (p * u * (q * v)) + q * q * (v * v);
    assert x * x == p * p * (v * v) - 2.0 * (p * u * (q * v)) + q * q * (u * u);
    assert x * x >= 0.0;
    assert Norm(a) * Norm(b) == p * p * (u * u) + p * p * (v * v) + q * q * (u * u) + q * q * (v * v);
  }

  lemma SquareGrows(x: real, y: real)
    requires x >= y >= 0.0
    ensures x * x >= y * y
  {
    assert x * x >= x * y && x * y >= y * y;
  }

  lemma ProductPositive(x: real, y: real)
    requires x > 0.0 && y > 0.0
    ensures x * y > 0.0
  {
  }

  lemma Difference(a: real, m: real, n: real)
    ensures (a + m - n) * (a + m - n) - 4.0 * (a * m) == a * (a - 2.0 * m - 2.0 * n) + (m - n) * (m - n)
  {
  }

  lemma Exceeds(y: real, t: real, p: real, rest: real)
    requires y > 0.0 && rest > 0.0 && t * t <= p && y * y - 4.0 * p == rest
    ensures y + 2.0 * t > 0.0
  {
    assert (-2.0 * t) * (-2.0 * t) == 4.0 * (t * t);
    if y < -2.0 * t { SquareGrows(-2.0 * t, y); }
  }

  lemma FarArithmetic(a: real, n: real, m: real, t: real)
    requires a > 4.0 * n > 16.0 && 0.0 <= m <= n && t * t <= a * m
    ensures a + 2.0 * t + m >= n
  {
    var y, d := a + m - n, a - 2.0 * m - 2.0 * n;
    ProductPositive(a, d);
    Difference(a, m, n);
    SquareNotNegative(m - n);
    Exceeds(y, t, a * m, a * d + (m - n) * (m - n));
  }

  lemma SquareNotNegative(x: real)
    ensures x * x >= 0.0
  {
  }

  lemma NormNotNegative(a: Complex)
    ensures Norm(a) >= 0.0
  {
    SquareNotNegative(a.re);
    SquareNotNegative(a.im);
  }

  lemma NormOfSum(a: Complex, b: Complex)
    ensures Norm(Plus(a, b)) == Norm(a) + 2.0 * (a.re * b.re + a.im * b.im) + Norm(b)
  {
  }

  /** Far out, and no nearer than `c`, the map leads no nearer. */
  lemma Farther(z: Complex, c: Complex)
    requires Norm(z) > 4.0 && Norm(z) >= Norm(c)
    ensures Norm(Next(z, c)) >= Norm(z)
  {
    hide Norm, Times, Plus;
    var w, n, m := Times(z, z), Norm(z), Norm(c);
    var t := w.re * c.re + w.im * c.im;
    NormOfProduct(z, z);
    Cauchy(w, c);
    NormNotNegative(c);
    NormOfSum(w, c);
    ProductPositive(n, n - 4.0);
    assert n * n - 4.0 * n == n * (n - 4.0);
    FarArithmetic(n * n, n, m, t);
  }

  lemma OrbitNext(c: Complex, k: nat)
    requires k > 0
    ensures Orbit(c, k) == Next(Orbit(c, k - 1), c)
  {
    hide Next;
  }

  lemma NextOfZero(z: Complex, c: Complex)
    requires z.re == 0.0 && z.im == 0.0
    ensures Next(z, c) == c
  {
    hide Times;
    ProductLaws(z, z, z, 0.0);
    assert Times(z, z) == z;
  }

  lemma FirstStep(c: Complex)
    ensures Orbit(c, 1) == c && Orbit(c, 0) == Complex(0.0, 0.0)
  {
    hide Next;
    OrbitNext(c, 1);
    NextOfZero(Orbit(c, 0), c);
  }

  /** Outside the disc the orbit is also no nearer than `c`. */
  lemma {:induction false} OutsideIsFar(c: Complex, k: nat)
    requires k > 0 && (Norm(c) > 4.0 || !Bounded(Orbit(c, k)))
    ensures Norm(Orbit(c, k)) >= Norm(c) && Norm(Orbit(c, k)) > 4.0
  {
    if Norm(c) > 4.0 {
      FirstStep(c);
      hide Orbit, Next, Norm;
      if k > 1 {
        OutsideIsFar(c, k - 1);
        Farther(Orbit(c, k - 1), c);
        assert Orbit(c, k) == Next(Orbit(c, k - 1), c) by { OrbitNext(c, k); }
      }
    }
  }

  /** An orbit that has left the disc never comes back, wherever `c` is. */
  lemma {:induction false} OnceOutStaysOut(c: Complex, j: nat, k: nat)
    requires j <= k && !Bounded(Orbit(c, j))
    ensures !Bounded(Orbit(c, k))
    decreases k
  {
    if j < k {
      FirstStep(c);
      OnceOutStaysOut(c, j, k - 1);
      OutsideIsFar(c, k - 1);
      OrbitNext(c, k);
      Farther(Orbit(c, k - 1), c);
    }
  }

  /** How many updates happen before the orbit first leaves the disc, at most `cap`. */
  function EscapeCount(c: Complex, cap: nat): (n: nat)
    ensures n <= cap
    ensures forall k: nat :: k < n ==> Bounded(Orbit(c, k))
    ensures n < cap ==> !Bounded(Orbit(c, n))
  {
    if cap == 0 then 0 else
    var n := EscapeCount(c, cap - 1);
    if n == cap - 1 && Bounded(Orbit(c, n)) then cap else n
  }

  /** No other number fits that description. */
  lemma EscapeCountUnique(c: Complex, cap: nat, n: nat)
    requires n <= cap && (forall k: nat :: k < n ==> Bounded(Orbit(c, k)))
    requires n < cap ==> !Bounded(Orbit(c, n))
    ensures n == EscapeCount(c, cap)
  {
    hide Bounded, Orbit;
    var m := EscapeCount(c, cap);
    assert n <= m || Bounded(Orbit(c, m));
  }

  /** The count is how many points of the orbit, of the first `cap`, are in the disc, and
      with a larger cap it is the same unless it is the cap. */
  lemma CountsTheInside(c: Complex, cap: nat, k: nat)
    requires k < cap
    ensures Bounded(Orbit(c, k)) <==> k < EscapeCount(c, cap)
  {
    hide Bounded, Orbit;
    var n := EscapeCount(c, cap);
    if n <= k { OnceOutStaysOut(c, n, k); }
  }

  method MandelPoint(c: Complex, maxiter: nat) returns (n: nat)
    ensures n == EscapeCount(c, maxiter)
  {
    hide Bounded, Next;
    var z := Complex(0.0, 0.0);
    for k := 1 to maxiter + 1
      invariant z == Orbit(c, k - 1)
      invariant forall i: nat :: i < k - 1 ==> Bounded(Orbit(c, i))
    {
      if !Bounded(z) {
        EscapeCountUnique(c, maxiter, k - 1);
        return k - 1;
      }
      z := Next(z, c);
      assert Orbit(c, k) == Next(Orbit(c, k - 1), c);
    }
    EscapeCountUnique(c, maxiter, maxiter);
    n := maxiter;
  }

  // ----- The two grids -----

  /** Rows count up from the bottom in the loops, down from the top in the arrays. */
  datatype Rows = Up | Down

  function Point(rows: Rows, w: nat, h: nat, y: nat, x: nat): Complex
    requires w != 1 && h != 1
  {
    var re := -2.0 + 3.0 * (x as real) / ((w - 1) as real);
    match rows
    case Up => Complex(re, -1.2 + 2.4 * (y as real) / ((h - 1) as real))
    case Down => Complex(re, 1.2 - 2.4 * (y as real) / ((h - 1) as real))
  }

  lemma Quotient(x: real, d: real, q: real)
    requires d != 0.0
    ensures q * d == x <==> q == x / d
  {
  }

  lemma SamePoint(w: nat, h: nat, y: nat, x: nat)
    requires w != 1 && h != 1 && y < h
    ensures Point(Down, w, h, y, x) == Point(Up, w, h, h - 1 - y, x)
  {
    var d, v := (h - 1) as real, y as real;
    assert (h - 1 - y) as real == d - v;
    var q := 2.4 * v / d;
    Quotient(2.4 * v, d, q);
    Quotient(2.4 * (d - v), d, 2.4 - q);
  }

  /** The first `n` counts of row `y`. */
  function RowTotal(rows: Rows, w: nat, h: nat, cap: nat, y: nat, n: nat): nat
    requires w != 1 && h != 1
  {
    if n == 0 then 0
    else RowTotal(rows, w, h, cap, y, n - 1) + EscapeCount(Point(rows, w, h, y, n - 1), cap)
  }

  /** The counts of the first `n` rows. */
  function Total(rows: Rows, w: nat, h: nat, cap: nat, n: nat): nat
    requires w != 1 && h != 1
  {
    if n == 0 then 0 else Total(rows, w, h, cap, n - 1) + RowTotal(rows, w, h, cap, n - 1, w)
  }

  lemma {:induction false} SameRow(w: nat, h: nat, cap: nat, y: nat, n: nat)
    requires w != 1 && h != 1 && y < h
    ensures RowTotal(Down, w, h, cap, y, n) == RowTotal(Up, w, h, cap, h - 1 - y, n)
    decreases n
  {
    hide Point, EscapeCount;
    if n > 0 {
      SameRow(w, h, cap, y, n - 1);
      SamePoint(w, h, y, n - 1);
    }
  }

  lemma {:induction false} MirroredTotal(w: nat, h: nat, cap: nat, n: nat)
    requires w != 1 && h != 1 && n <= h
    ensures Total(Down, w, h, cap, n) + Total(Up, w, h, cap, h - n) == Total(Up, w, h, cap, h)
    decreases n
  {
    hide RowTotal;
    if n > 0 {
      MirroredTotal(w, h, cap, n - 1);
      SameRow(w, h, cap, n - 1, w);
    }
  }

  /** The two programs add up the same counts. */
  lemma TotalsAgree(w: nat, h: nat, cap: nat)
    requires w != 1 && h != 1
    ensures Total(Down, w, h, cap, h) == Total(Up, w, h, cap, h)
  {
    MirroredTotal(w, h, cap, h);
  }

  method MandelCount(w: nat, h: nat, maxiter: nat) returns (total: nat)
    requires w != 1 && h != 1
    ensures total == Total(Up, w, h, maxiter, h)
  {
    hide EscapeCount, Point;
    total := 0;
    for y := 0 to h
      invariant total == Total(Up, w, h, maxiter, y)
    {
      for x := 0 to w
        invariant total == Total(Up, w, h, maxiter, y) + RowTotal(Up, w, h, maxiter, y, x)
      {
        var n := MandelPoint(Point(Up, w, h, y, x), maxiter);
        total := total + n;
      }
    }
  }

  // ----- The arrays under a mask -----

  /** Cell `c` after `k` whole-array steps. */
  ghost predicate CellAt(c: Complex, k: nat, z: Complex, count: nat, active: bool) {
    count == EscapeCount(c, k) && z == Orbit(c, count) && (active <==> count == k)
  }

  /** Cell `c` once the mask of the next step has been taken. */
  ghost predicate CellMasked(c: Complex, k: nat, z: Complex, count: nat, active: bool) {
    count == EscapeCount(c, k) && z == Orbit(c, count) && (active <==> EscapeCount(c, k + 1) == k + 1)
  }

  lemma CellStart(c: Complex)
    ensures CellAt(c, 0, Complex(0.0, 0.0), 0, true)
  {
  }

  lemma CellMask(c: Complex, k: nat, z: Complex, count: nat, active: bool)
    requires CellAt(c, k, z, count, active)
    ensures CellMasked(c, k, z, count, active && Bounded(z))
  {
    hide Bounded, Next;
  }

  lemma CellNext(c: Complex, k: nat, z: Complex, count: nat, active: bool)
    requires CellMasked(c, k, z, count, active)
    ensures CellAt(c, k + 1, if active then Next(z, c) else z, if active then count + 1 else count, active)
  {
    hide Bounded, Next;
  }

  lemma {:induction false} CountSettled(c: Complex, k: nat, cap: nat)
    requires k <= cap && EscapeCount(c, k) < k
    ensures EscapeCount(c, cap) == EscapeCount(c, k)
    decreases cap
  {
    if k < cap { CountSettled(c, k, cap - 1); }
  }

  /** A cell the mask has just excluded, or had before, keeps its count for good. */
  lemma CellDone(c: Complex, k: nat, cap: nat, z: Complex, count: nat)
    requires k < cap && CellMasked(c, k, z, count, false)
    ensures count == EscapeCount(c, cap)
  {
    hide Bounded;
    CountSettled(c, k + 1, cap);
  }

  /** The whole arrays after `k` steps. */
  ghost predicate GridAt(c: array2<Complex>, k: nat, z: array2<Complex>, counts: array2<nat>, active: array2<bool>)
    reads c, z, counts, active
  {
    && SameShape(c, z, counts, active)
    && forall y, x :: 0 <= y < c.Length0 && 0 <= x < c.Length1 ==> CellAt(c[y, x], k, z[y, x], counts[y, x], active[y, x])
  }

  ghost predicate GridMasked(c: array2<Complex>, k: nat, z: array2<Complex>, counts: array2<nat>, active: array2<bool>)
    reads c, z, counts, active
  {
    && SameShape(c, z, counts, active)
    && forall y, x :: 0 <= y < c.Length0 && 0 <= x < c.Length1 ==> CellMasked(c[y, x], k, z[y, x], counts[y, x], active[y, x])
  }

  ghost predicate SameShape(c: array2<Complex>, z: array2<Complex>, counts: array2<nat>, active: array2<bool>) {
    && c.Length0 == z.Length0 == counts.Length0 == active.Length0
    && c.Length1 == z.Length1 == counts.Length1 == active.Length1
  }

  ghost predicate GridDone(c: array2<Complex>, cap: nat, counts: array2<nat>)
    reads c, counts
  {
    && c.Length0 == counts.Length0 && c.Length1 == counts.Length1
    && forall y, x :: 0 <= y < c.Length0 && 0 <= x < c.Length1 ==> counts[y, x] == EscapeCount(c[y, x], cap)
  }

  /** One whole-array step: the mask, and unless nothing is active, the updates. */
  method ArrayStep(c: array2<Complex>, ghost k: nat, z: array2<Complex>, counts: array2<nat>, active: array2<bool>) returns (any: bool)
    requires GridAt(c, k, z, counts, active) && c != z
    modifies z, counts, active
    ensures any ==> GridAt(c, k + 1, z, counts, active)
    ensures !any ==> forall cap: nat :: k < cap ==> GridDone(c, cap, counts)
  {
    hide EscapeCount, Bounded, Next;
    MaskStep(c, k, z, counts, active);
    any := Any(active);
    if any {
      UpdateStep(c, k, z, counts, active);
    } else {
      forall cap: nat, y, x | k < cap && 0 <= y < c.Length0 && 0 <= x < c.Length1
        ensures counts[y, x] == EscapeCount(c[y, x], cap)
      {
        assert !active[y, x];
        CellDone(c[y, x], k, cap, z[y, x], counts[y, x]);
      }
    }
  }

  method MaskStep(c: array2<Complex>, ghost k: nat, z: array2<Complex>, counts: array2<nat>, active: array2<bool>)
    requires GridAt(c, k, z, counts, active)
    modifies active
    ensures GridMasked(c, k, z, counts, active)
  {
    hide Bounded, CellAt, CellMasked;
    forall y, x | 0 <= y < c.Length0 && 0 <= x < c.Length1
      ensures CellMasked(c[y, x], k, z[y, x], counts[y, x], active[y, x] && Bounded(z[y, x]))
    {
      CellMask(c[y, x], k, z[y, x], counts[y, x], active[y, x]);
    }
    forall y, x | 0 <= y < c.Length0 && 0 <= x < c.Length1 { active[y, x] := active[y, x] && Bounded(z[y, x]); }
  }

  method UpdateStep(c: array2<Complex>, ghost k: nat, z: array2<Complex>, counts: array2<nat>, active: array2<bool>)
    requires GridMasked(c, k, z, counts, active) && c != z
    modifies z, counts
    ensures GridAt(c, k + 1, z, counts, active)
  {
    hide Next, CellAt, CellMasked;
    forall y, x | 0 <= y < c.Length0 && 0 <= x < c.Length1 ensures
      CellAt(c[y, x], k + 1, if active[y, x] then Next(z[y, x], c[y, x]) else z[y, x],
             if active[y, x] then counts[y, x] + 1 else counts[y, x], active[y, x])
    {
      CellNext(c[y, x], k, z[y, x], counts[y, x], active[y, x]);
    }
    forall y, x | 0 <= y < c.Length0 && 0 <= x < c.Length1 {
      z[y, x] := if active[y, x] then Next(z[y, x], c[y, x]) else z[y, x];
    }
    forall y, x | 0 <= y < c.Length0 && 0 <= x < c.Length1 {
      counts[y, x] := if active[y, x] then counts[y, x] + 1 else counts[y, x];
    }
  }

  method Any(active: array2<bool>) returns (any: bool)
    ensures any <==> exists y, x :: 0 <= y < active.Length0 && 0 <= x < active.Length1 && active[y, x]
  {
    for i := 0 to active.Length0
      invariant forall y, x :: 0 <= y < i && 0 <= x < active.Length1 ==> !active[y, x]
    {
      for j := 0 to active.Length1
        invariant forall x :: 0 <= x < j ==> !active[i, x]
      {
        if active[i, j] { return true; }
      }
    }
    any := false;
  }

  method SumCounts(counts: array2<nat>, ghost w: nat, ghost h: nat, ghost cap: nat) returns (total: nat)
    requires w != 1 && h != 1 && counts.Length0 == h && counts.Length1 == w
    requires forall y: nat, x: nat :: y < h && x < w ==> counts[y, x] == EscapeCount(Point(Down, w, h, y, x), cap)
    ensures total == Total(Down, w, h, cap, h)
  {
    hide EscapeCount, Point;
    total := 0;
    for y := 0 to counts.Length0
      invariant total == Total(Down, w, h, cap, y)
    {
      for x := 0 to counts.Length1
        invariant total == Total(Down, w, h, cap, y) + RowTotal(Down, w, h, cap, y, x)
      {
        total := total + counts[y, x];
      }
    }
  }

  /** The masked array steps count for every cell what the loop counts for its point. */
  method MandelbrotGrid(w: nat, h: nat, maxiter: nat) returns (total: nat)
    requires w != 1 && h != 1
    ensures total == Total(Up, w, h, maxiter, h)
  {
    hide Point, EscapeCount, CellAt;
    var c := new Complex[h, w]((y, x) requires 0 <= y && 0 <= x => Point(Down, w, h, y, x));
    var z := new Complex[h, w]((_, _) => Complex(0.0, 0.0));
    var counts := new nat[h, w]((_, _) => 0);
    var active := new bool[h, w]((_, _) => true);
    forall y, x | 0 <= y < h && 0 <= x < w ensures CellAt(c[y, x], 0, z[y, x], counts[y, x], active[y, x]) {
      CellStart(c[y, x]);
    }
    var k, any := 0, true;
    while k < maxiter && any
      invariant k <= maxiter
      invariant forall y: nat, x: nat :: y < h && x < w ==> c[y, x] == Point(Down, w, h, y, x)
      invariant if any then GridAt(c, k, z, counts, active) else GridDone(c, maxiter, counts)
      decreases maxiter - k, any
    {
      hide GridAt;
      any := ArrayStep(c, k, z, counts, active);
      if any { k := k + 1; }
    }
    if any {
      forall y, x | 0 <= y < h && 0 <= x < w ensures counts[y, x] == EscapeCount(c[y, x], maxiter) {
        CellEnd(c[y, x], k, z[y, x], counts[y, x], active[y, x]);
      }
    }
    total := SumCounts(counts, w, h, maxiter);
    TotalsAgree(w, h, maxiter);
  }

  lemma CellEnd(c: Complex, k: nat, z: Complex, count: nat, active: bool)
    requires CellAt(c, k, z, count, active)
    ensures count == EscapeCount(c, k)
  {
  }
}
