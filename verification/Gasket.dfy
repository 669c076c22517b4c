/** The Apollonian gasket sample over exact reals: a recursive linear swap on
    circles stored as (bend, bend * center). */
module Gasket {

  /** A circle by its bend and the two coordinates of bend * center. */
  datatype Circ = Circ(bend: real, x: real, y: real)

  function Partner(c1: Circ, c2: Circ, c3: Circ, c4: Circ): Circ {
    Circ(2.0 * (c1.bend + c2.bend + c3.bend) - c4.bend,
         2.0 * (c1.x + c2.x + c3.x) - c4.x,
         2.0 * (c1.y + c2.y + c3.y) - c4.y)
  }

  /** The distance of the centers is the sum of the signed radii, cleared of denominators. */
  ghost predicate Tangent(c: Circ, d: Circ) {
    var ex, ey := c.x * d.bend - d.x * c.bend, c.y * d.bend - d.y * c.bend;
    ex * ex + ey * ey == (c.bend + d.bend) * (c.bend + d.bend)
  }

  // ----- Circles as vectors: the co-bend makes tangency bilinear -----

  datatype Vec = Vec(b: real, co: real, x: real, y: real)

  ghost function Inner(u: Vec, v: Vec): real {
    u.x * v.x + u.y * v.y - (u.b * v.co + v.b * u.co) / 2.0
  }

  ghost function Plus(u: Vec, v: Vec): Vec {
    Vec(u.b + v.b, u.co + v.co, u.x + v.x, u.y + v.y)
  }

  ghost function Times(k: real, u: Vec): Vec {
    Vec(k * u.b, k * u.co, k * u.x, k * u.y)
  }

  lemma InnerPlus(u: Vec, v: Vec, w: Vec)
    ensures Inner(Plus(u, v), w) == Inner(u, w) + Inner(v, w)
    ensures Inner(w, Plus(u, v)) == Inner(w, u) + Inner(w, v)
  {
  }

  lemma InnerTimes(k: real, u: Vec, w: Vec)
    ensures Inner(Times(k, u), w) == k * Inner(u, w)
    ensures Inner(w, Times(k, u)) == k * Inner(w, u)
  {
    assert k * u.x * w.x == k * (u.x * w.x) && k * u.y * w.y == k * (u.y * w.y);
    assert k * u.b * w.co == k * (u.b * w.co) && w.b * (k * u.co) == k * (w.b * u.co);
    assert w.x * (k * u.x) == k * (w.x * u.x) && w.y * (k * u.y) == k * (w.y * u.y);
    assert w.b * (k * u.co) == k * (w.b * u.co) && k * u.b * w.co == k * (u.b * w.co);
  }

  ghost function Swap(v1: Vec, v2: Vec, v3: Vec, v4: Vec): Vec {
    Plus(Times(2.0, Plus(Plus(v1, v2), v3)), Times(-1.0, v4))
  }

  lemma InnerSwap(v1: Vec, v2: Vec, v3: Vec, v4: Vec, w: Vec)
    ensures Inner(Swap(v1, v2, v3, v4), w) == 2.0 * (Inner(v1, w) + Inner(v2, w) + Inner(v3, w)) - Inner(v4, w)
    ensures Inner(w, Swap(v1, v2, v3, v4)) == 2.0 * (Inner(w, v1) + Inner(w, v2) + Inner(w, v3)) - Inner(w, v4)
  {
    var s := Plus(Plus(v1, v2), v3);
    InnerPlus(Times(2.0, s), Times(-1.0, v4), w);
    InnerTimes(2.0, s, w);
    InnerTimes(-1.0, v4, w);
    InnerPlus(Plus(v1, v2), v3, w);
    InnerPlus(v1, v2, w);
  }

  /** Four unit vectors with pairwise product -1: four mutually tangent circles. */
  ghost predicate Mutual(v1: Vec, v2: Vec, v3: Vec, v4: Vec) {
    && Inner(v1, v1) == Inner(v2, v2) == Inner(v3, v3) == Inner(v4, v4) == 1.0
    && Inner(v1, v2) == Inner(v1, v3) == Inner(v1, v4) == -1.0
    && Inner(v2, v3) == Inner(v2, v4) == Inner(v3, v4) == -1.0
  }

  lemma InnerSym(u: Vec, v: Vec)
    ensures Inner(u, v) == Inner(v, u)
  {
  }

  /** The swap keeps mutual tangency. */
  lemma SwapMutual(v1: Vec, v2: Vec, v3: Vec, v4: Vec)
    requires Mutual(v1, v2, v3, v4)
    ensures Mutual(v1, v2, v3, Swap(v1, v2, v3, v4))
  {
    hide Inner, Swap;
    var v5 := Swap(v1, v2, v3, v4);
    InnerSwap(v1, v2, v3, v4, v1);
    InnerSwap(v1, v2, v3, v4, v2);
    InnerSwap(v1, v2, v3, v4, v3);
    InnerSwap(v1, v2, v3, v4, v4);
    InnerSwap(v1, v2, v3, v4, v5);
    InnerSym(v1, v2); InnerSym(v1, v3); InnerSym(v2, v3);
    InnerSym(v4, v1); InnerSym(v4, v2); InnerSym(v4, v3);
    InnerSym(v5, v1); InnerSym(v5, v2); InnerSym(v5, v3); InnerSym(v5, v4);
  }

  lemma SquareOfDifference(a: real, b: real, p: real, q: real)
    ensures (a * q - b * p) * (a * q - b * p) == q * q * (a * a) - 2.0 * (p * q) * (a * b) + p * p * (b * b)
  {
    var s, t := a * q, b * p;
    assert (s - t) * (s - t) == s * s - 2.0 * (s * t) + t * t;
    assert s * s == q * q * (a * a);
    assert t * t == p * p * (b * b);
    assert s * t == (p * q) * (a * b);
  }

  lemma Distribute(k: real, a: real, b: real)
    ensures k * (a + b) == k * a + k * b
  {
  }

  lemma DistanceExpansion(u: Vec, v: Vec, uu: real, vv: real, uv: real)
    requires uu == u.x * u.x + u.y * u.y && vv == v.x * v.x + v.y * v.y && uv == u.x * v.x + u.y * v.y
    ensures var ex, ey := u.x * v.b - v.x * u.b, u.y * v.b - v.y * u.b;
            ex * ex + ey * ey == v.b * v.b * uu - 2.0 * (u.b * v.b) * uv + u.b * u.b * vv
  {
    SquareOfDifference(u.x, v.x, u.b, v.b);
    SquareOfDifference(u.y, v.y, u.b, v.b);
    Distribute(v.b * v.b, u.x * u.x, u.y * u.y);
    Distribute(u.b * u.b, v.x * v.x, v.y * v.y);
    Distribute(2.0 * (u.b * v.b), u.x * v.x, u.y * v.y);
  }

  /** Unit vectors with product -1 are tangent circles. */
  lemma ProductMeansTangent(u: Vec, v: Vec)
    requires Inner(u, u) == 1.0 && Inner(v, v) == 1.0 && Inner(u, v) == -1.0
    ensures Tangent(Circ(u.b, u.x, u.y), Circ(v.b, v.x, v.y))
  {
    var uu, vv, uv := u.x * u.x + u.y * u.y, v.x * v.x + v.y * v.y, u.x * v.x + u.y * v.y;
    DistanceExpansion(u, v, uu, vv, uv);
    FinishTangent(u.b, v.b, u.co, v.co, uu, vv, uv);
  }

  lemma FinishTangent(p: real, q: real, c: real, d: real, uu: real, vv: real, uv: real)
    requires uu - (p * c + p * c) / 2.0 == 1.0 && vv - (q * d + q * d) / 2.0 == 1.0 && uv - (p * d + q * c) / 2.0 == -1.0
    ensures q * q * uu - 2.0 * (p * q) * uv + p * p * vv == (p + q) * (p + q)
  {
    assert uu == 1.0 + p * c && vv == 1.0 + q * d && uv == (p * d + q * c) / 2.0 - 1.0;
    CancelCoBends(p, q, c, d);
    var m := p * d + q * c;
    assert 2.0 * (p * q) * (m / 2.0 - 1.0) == (p * q) * (m - 2.0);
  }

  lemma CancelCoBends(p: real, q: real, c: real, d: real)
    ensures q * q * (1.0 + p * c) - (p * q) * ((p * d + q * c) - 2.0) + p * p * (1.0 + q * d) == (p + q) * (p + q)
  {
    assert q * q * (1.0 + p * c) == q * q + (p * q) * (q * c);
    assert p * p * (1.0 + q * d) == p * p + (p * q) * (p * d);
    assert (p * q) * ((p * d + q * c) - 2.0) == (p * q) * (p * d) + (p * q) * (q * c) - 2.0 * (p * q);
    assert (p + q) * (p + q) == p * p + 2.0 * (p * q) + q * q;
  }

  // ----- Quadruples -----

  /** Three mutually tangent circles and the fourth on the far side. */
  datatype Quad = Quad(c1: Circ, c2: Circ, c3: Circ, c4: Circ)

  function New(q: Quad): Circ {
    Partner(q.c1, q.c2, q.c3, q.c4)
  }

  /** The three curvilinear triangles around the new circle. */
  function Child(q: Quad, k: nat): Quad
    requires k < 3
  {
    if k == 0 then Quad(q.c1, q.c2, New(q), q.c3)
    else if k == 1 then Quad(q.c1, q.c3, New(q), q.c2)
    else Quad(q.c2, q.c3, New(q), q.c1)
  }

  ghost function Lift(c: Circ, co: real): Vec {
    Vec(c.bend, co, c.x, c.y)
  }

  /** The four circles are mutually tangent, witnessed by their co-bends. */
  ghost predicate Kissing(q: Quad) {
    exists k1, k2, k3, k4 :: KissingWith(q, k1, k2, k3, k4)
  }

  ghost predicate KissingWith(q: Quad, k1: real, k2: real, k3: real, k4: real) {
    Mutual(Lift(q.c1, k1), Lift(q.c2, k2), Lift(q.c3, k3), Lift(q.c4, k4))
  }

  lemma SwapIsPartner(q: Quad, k1: real, k2: real, k3: real, k4: real)
    requires KissingWith(q, k1, k2, k3, k4)
    ensures KissingWith(q.(c4 := New(q)), k1, k2, k3, 2.0 * (k1 + k2 + k3) - k4)
  {
    var v1, v2, v3, v4 := Lift(q.c1, k1), Lift(q.c2, k2), Lift(q.c3, k3), Lift(q.c4, k4);
    SwapMutual(v1, v2, v3, v4);
    assert Swap(v1, v2, v3, v4) == Lift(New(q), 2.0 * (k1 + k2 + k3) - k4);
  }

  /** Every circle the recursion makes is tangent to the three it was computed from. */
  lemma NewIsTangent(q: Quad)
    requires Kissing(q)
    ensures Tangent(New(q), q.c1) && Tangent(New(q), q.c2) && Tangent(New(q), q.c3)
  {
    hide Inner, Tangent, New;
    var k1, k2, k3, k4 :| KissingWith(q, k1, k2, k3, k4);
    SwapIsPartner(q, k1, k2, k3, k4);
    var v5 := Lift(New(q), 2.0 * (k1 + k2 + k3) - k4);
    InnerSym(v5, Lift(q.c1, k1));
    InnerSym(v5, Lift(q.c2, k2));
    InnerSym(v5, Lift(q.c3, k3));
    ProductMeansTangent(v5, Lift(q.c1, k1));
    ProductMeansTangent(v5, Lift(q.c2, k2));
    ProductMeansTangent(v5, Lift(q.c3, k3));
  }

  lemma ChildKissing(q: Quad, k: nat)
    requires Kissing(q) && k < 3
    ensures Kissing(Child(q, k))
  {
    hide Inner, New;
    var k1, k2, k3, k4 :| KissingWith(q, k1, k2, k3, k4);
    SwapIsPartner(q, k1, k2, k3, k4);
    var k5 := 2.0 * (k1 + k2 + k3) - k4;
    var v1, v2, v3, v5 := Lift(q.c1, k1), Lift(q.c2, k2), Lift(q.c3, k3), Lift(New(q), k5);
    InnerSym(v1, v2); InnerSym(v1, v3); InnerSym(v2, v3);
    InnerSym(v5, v1); InnerSym(v5, v2); InnerSym(v5, v3);
    if k == 0 {
      assert KissingWith(Child(q, k), k1, k2, k5, k3);
    } else if k == 1 {
      assert KissingWith(Child(q, k), k1, k3, k5, k2);
    } else {
      assert KissingWith(Child(q, k), k2, k3, k5, k1);
    }
  }

  // ----- Descartes' theorem -----

  /** (a + b + c + d)^2 == 2 (a^2 + b^2 + c^2 + d^2). */
  ghost predicate Descartes(a: real, b: real, c: real, d: real) {
    (a + b + c + d) * (a + b + c + d) == 2.0 * (a * a + b * b + c * c + d * d)
  }

  /** The same for complex numbers: real part and (halved) imaginary part. */
  ghost predicate ComplexDescartes(a: Circ, b: Circ, c: Circ, d: Circ) {
    var (sx, sy) := (a.x + b.x + c.x + d.x, a.y + b.y + c.y + d.y);
    && sx * sx - sy * sy == 2.0 * (a.x * a.x - a.y * a.y + b.x * b.x - b.y * b.y + c.x * c.x - c.y * c.y + d.x * d.x - d.y * d.y)
    && sx * sy == 2.0 * (a.x * a.y + b.x * b.y + c.x * c.y + d.x * d.y)
  }

  ghost predicate DescartesQuad(q: Quad) {
    && Descartes(q.c1.bend, q.c2.bend, q.c3.bend, q.c4.bend)
    && ComplexDescartes(q.c1, q.c2, q.c3, q.c4)
  }

  /** With s the sum of three and d, d' the two roots, the defect is the same. */
  lemma RootsSameDefect(s: real, r: real, d: real)
    ensures var d' := 2.0 * s - d;
            (s + d') * (s + d') - 2.0 * (r + d' * d') == (s + d) * (s + d) - 2.0 * (r + d * d)
  {
    var d' := 2.0 * s - d;
    assert (s + d') * (s + d') == s * s + 2.0 * (s * d') + d' * d';
    assert (s + d) * (s + d) == s * s + 2.0 * (s * d) + d * d;
    assert s * d' == 2.0 * (s * s) - s * d;
    assert d' * d' == 4.0 * (s * s) - 4.0 * (s * d) + d * d;
  }

  lemma RootsSameProductDefect(s: real, t: real, r: real, d: real, e: real)
    ensures var d', e' := 2.0 * s - d, 2.0 * t - e;
            (s + d') * (t + e') - 2.0 * (r + d' * e') == (s + d) * (t + e) - 2.0 * (r + d * e)
  {
    var d', e' := 2.0 * s - d, 2.0 * t - e;
    assert (s + d') * (t + e') == s * t + s * e' + d' * t + d' * e';
    assert (s + d) * (t + e) == s * t + s * e + d * t + d * e;
    assert s * e' == 2.0 * (s * t) - s * e;
    assert d' * t == 2.0 * (s * t) - d * t;
    assert d' * e' == 4.0 * (s * t) - 2.0 * (s * e) - 2.0 * (d * t) + d * e;
  }

  lemma SwapDescartes(q: Quad)
    requires DescartesQuad(q)
    ensures DescartesQuad(q.(c4 := New(q)))
  {
    var a, b, c, d := q.c1, q.c2, q.c3, q.c4;
    RootsSameDefect(a.bend + b.bend + c.bend, a.bend * a.bend + b.bend * b.bend + c.bend * c.bend, d.bend);
    RootsSameDefect(a.x + b.x + c.x, a.x * a.x + b.x * b.x + c.x * c.x, d.x);
    RootsSameDefect(a.y + b.y + c.y, a.y * a.y + b.y * b.y + c.y * c.y, d.y);
    RootsSameProductDefect(a.x + b.x + c.x, a.y + b.y + c.y, a.x * a.y + b.x * b.y + c.x * c.y, d.x, d.y);
  }

  lemma Reorder(a: Circ, b: Circ, c: Circ, d: Circ, e: Circ, f: Circ, g: Circ, h: Circ)
    requires ComplexDescartes(a, b, c, d) && Descartes(a.bend, b.bend, c.bend, d.bend)
    requires [e, f, g, h] == [a, b, d, c] || [e, f, g, h] == [a, c, d, b] || [e, f, g, h] == [b, c, d, a]
    ensures ComplexDescartes(e, f, g, h) && Descartes(e.bend, f.bend, g.bend, h.bend)
  {
    var l, r := [e, f, g, h], [a, b, d, c];
    assert l[0] == e && l[1] == f && l[2] == g && l[3] == h;
    assert a.x + b.x + c.x + d.x == e.x + f.x + g.x + h.x;
    assert a.y + b.y + c.y + d.y == e.y + f.y + g.y + h.y;
    assert a.bend + b.bend + c.bend + d.bend == e.bend + f.bend + g.bend + h.bend;
  }

  lemma ChildDescartes(q: Quad, k: nat)
    requires DescartesQuad(q) && k < 3
    ensures DescartesQuad(Child(q, k))
  {
    hide New, Descartes, ComplexDescartes;
    SwapDescartes(q);
    var r := Child(q, k);
    Reorder(q.c1, q.c2, q.c3, New(q), r.c1, r.c2, r.c3, r.c4);
  }

  // ----- Bends grow -----

  /** Bends are multiples of one third. */
  ghost predicate Thirds(c: Circ) {
    3.0 * c.bend == (3.0 * c.bend).Floor as real
  }

  ghost function N(c: Circ): int {
    (3.0 * c.bend).Floor
  }

  /** Pair sums are positive, and the new bend is at least each of the three. */
  ghost predicate Growing(q: Quad) {
    && Thirds(q.c1) && Thirds(q.c2) && Thirds(q.c3) && Thirds(q.c4)
    && q.c1.bend + q.c2.bend > 0.0 && q.c1.bend + q.c3.bend > 0.0 && q.c2.bend + q.c3.bend > 0.0
    && New(q).bend >= q.c1.bend && New(q).bend >= q.c2.bend && New(q).bend >= q.c3.bend
  }

  lemma NewThirds(q: Quad)
    requires Thirds(q.c1) && Thirds(q.c2) && Thirds(q.c3) && Thirds(q.c4)
    ensures Thirds(New(q))
  {
    var n := 2 * (N(q.c1) + N(q.c2) + N(q.c3)) - N(q.c4);
    assert 3.0 * New(q).bend == n as real;
  }

  lemma ChildGrowing(q: Quad, k: nat)
    requires Growing(q) && k < 3
    ensures Growing(Child(q, k)) && New(Child(q, k)).bend > New(q).bend && N(New(Child(q, k))) > N(New(q))
  {
    NewThirds(q);
    NewThirds(Child(q, k));
  }

  /** What holds of every quadruple of the recursion. */
  ghost predicate Good(q: Quad) {
    Kissing(q) && DescartesQuad(q) && Growing(q)
  }

  lemma ChildGood(q: Quad, k: nat)
    requires Good(q) && k < 3
    ensures Good(Child(q, k)) && N(New(Child(q, k))) > N(New(q)) && New(Child(q, k)).bend > New(q).bend
  {
    hide Kissing, DescartesQuad, Growing;
    ChildKissing(q, k);
    ChildDescartes(q, k);
    ChildGrowing(q, k);
  }

  // ----- The unbounded swap tree -----

  /** A node of the tree: the turns taken from the root. */
  type Word = seq<nat>

  ghost predicate IsWord(w: Word) {
    forall i :: 0 <= i < |w| ==> w[i] < 3
  }

  ghost function Node(q: Quad, w: Word): Quad
    requires IsWord(w)
    decreases |w|
  {
    if w == [] then q else Node(Child(q, w[0]), w[1..])
  }

  ghost function CircleAt(q: Quad, w: Word): Circ
    requires IsWord(w)
  {
    New(Node(q, w))
  }

  lemma {:induction false} NodeGood(q: Quad, w: Word)
    requires Good(q) && IsWord(w)
    ensures Good(Node(q, w)) && CircleAt(q, w).bend >= New(q).bend && (w != [] ==> CircleAt(q, w).bend > New(q).bend)
    decreases |w|
  {
    hide Good;
    if w != [] {
      ChildGood(q, w[0]);
      NodeGood(Child(q, w[0]), w[1..]);
    }
  }

  ghost function Fuel(q: Quad, maxbend: real): int {
    (3.0 * maxbend).Floor - N(New(q))
  }

  ghost function Prefixed(k: nat, ws: seq<Word>): (r: seq<Word>)
    ensures |r| == |ws| && forall i :: 0 <= i < |ws| ==> r[i] == [k] + ws[i]
  {
    seq(|ws|, i requires 0 <= i < |ws| => [k] + ws[i])
  }

  /** The nodes within `maxbend`, in the order the recursion visits them. */
  ghost function Within(q: Quad, maxbend: real): seq<Word>
    requires Good(q)
    decreases Fuel(q, maxbend)
  {
    if New(q).bend > maxbend then [] else
      assert FuelLeft(q, maxbend) by { EnoughFuel(q, maxbend); }
      ChildGood(q, 0); ChildGood(q, 1); ChildGood(q, 2);
      [[]] + Prefixed(0, Within(Child(q, 0), maxbend))
           + Prefixed(1, Within(Child(q, 1), maxbend))
           + Prefixed(2, Within(Child(q, 2), maxbend))
  }

  ghost predicate FuelLeft(q: Quad, maxbend: real) {
    Fuel(q, maxbend) >= 0
  }

  lemma EnoughFuel(q: Quad, maxbend: real)
    requires New(q).bend <= maxbend
    ensures Fuel(q, maxbend) >= 0
  {
  }

  /** The cut-off loses nothing: the nodes visited are exactly those within the bound ... */
  lemma {:induction false} WithinExact(q: Quad, maxbend: real, w: Word)
    requires Good(q) && IsWord(w)
    ensures w in Within(q, maxbend) <==> CircleAt(q, w).bend <= maxbend
    decreases |w|
  {
    hide Good;
    if New(q).bend > maxbend {
      NodeGood(q, w);
    } else if w != [] {
      ChildGood(q, 0); ChildGood(q, 1); ChildGood(q, 2);
      var k := w[0];
      var a, b, c := Within(Child(q, 0), maxbend), Within(Child(q, 1), maxbend), Within(Child(q, 2), maxbend);
      WithinExact(Child(q, k), maxbend, w[1..]);
      PrefixedMember(0, a, w); PrefixedMember(1, b, w); PrefixedMember(2, c, w);
    }
  }

  lemma PrefixedMember(k: nat, ws: seq<Word>, w: Word)
    ensures w in Prefixed(k, ws) <==> w != [] && w[0] == k && w[1..] in ws
  {
    if w != [] && w[0] == k && w[1..] in ws {
      var i :| 0 <= i < |ws| && ws[i] == w[1..];
      assert Prefixed(k, ws)[i] == w;
    }
  }

  ghost predicate NoRepeats(ws: seq<Word>) {
    forall i, j :: 0 <= i < j < |ws| ==> ws[i] != ws[j]
  }

  lemma PrefixedNoRepeats(k: nat, ws: seq<Word>)
    requires NoRepeats(ws)
    ensures NoRepeats(Prefixed(k, ws))
  {
    forall i, j | 0 <= i < j < |ws| ensures Prefixed(k, ws)[i] != Prefixed(k, ws)[j] {
      assert ([k] + ws[i])[1..] == ws[i] && ([k] + ws[j])[1..] == ws[j];
    }
  }

  /** ... and each is visited once. */
  lemma {:induction false} WithinNoRepeats(q: Quad, maxbend: real)
    requires Good(q)
    ensures NoRepeats(Within(q, maxbend))
    decreases Fuel(q, maxbend)
  {
    hide Good;
    if New(q).bend <= maxbend {
      EnoughFuel(q, maxbend);
      ChildGood(q, 0); ChildGood(q, 1); ChildGood(q, 2);
      var a, b, c := Within(Child(q, 0), maxbend), Within(Child(q, 1), maxbend), Within(Child(q, 2), maxbend);
      WithinNoRepeats(Child(q, 0), maxbend); WithinNoRepeats(Child(q, 1), maxbend); WithinNoRepeats(Child(q, 2), maxbend);
      PrefixedNoRepeats(0, a); PrefixedNoRepeats(1, b); PrefixedNoRepeats(2, c);
      JoinNoRepeats(Prefixed(0, a), Prefixed(1, b), Prefixed(2, c));
    }
  }

  lemma JoinNoRepeats(a: seq<Word>, b: seq<Word>, c: seq<Word>)
    requires NoRepeats(a) && NoRepeats(b) && NoRepeats(c)
    requires forall i :: 0 <= i < |a| ==> a[i] != [] && a[i][0] == 0
    requires forall i :: 0 <= i < |b| ==> b[i] != [] && b[i][0] == 1
    requires forall i :: 0 <= i < |c| ==> c[i] != [] && c[i][0] == 2
    ensures NoRepeats([[]] + a + b + c)
  {
  }

  // ----- The sample's recursion -----

  ghost function CirclesAt(q: Quad, ws: seq<Word>): (r: seq<Circ>)
    requires forall i :: 0 <= i < |ws| ==> IsWord(ws[i])
    ensures |r| == |ws| && forall i :: 0 <= i < |ws| ==> r[i] == CircleAt(q, ws[i])
  {
    seq(|ws|, i requires 0 <= i < |ws| => CircleAt(q, ws[i]))
  }

  lemma {:induction false} WithinWords(q: Quad, maxbend: real)
    requires Good(q)
    ensures forall i :: 0 <= i < |Within(q, maxbend)| ==> IsWord(Within(q, maxbend)[i])
    decreases Fuel(q, maxbend)
  {
    hide Good;
    if New(q).bend <= maxbend {
      EnoughFuel(q, maxbend);
      ChildGood(q, 0); ChildGood(q, 1); ChildGood(q, 2);
      WithinWords(Child(q, 0), maxbend); WithinWords(Child(q, 1), maxbend); WithinWords(Child(q, 2), maxbend);
    }
  }

  /** The circles of the bounded part of the tree, in visiting order. */
  ghost function Bounded(q: Quad, maxbend: real): seq<Circ>
    requires Good(q)
  {
    WithinWords(q, maxbend);
    CirclesAt(q, Within(q, maxbend))
  }

  lemma CirclesPrefixed(q: Quad, k: nat, ws: seq<Word>)
    requires k < 3 && forall i :: 0 <= i < |ws| ==> IsWord(ws[i])
    ensures forall i :: 0 <= i < |ws| ==> IsWord(Prefixed(k, ws)[i])
    ensures CirclesAt(q, Prefixed(k, ws)) == CirclesAt(Child(q, k), ws)
  {
    hide New, Child;
    forall i | 0 <= i < |ws| ensures CircleAt(q, [k] + ws[i]) == CircleAt(Child(q, k), ws[i]) {
      assert ([k] + ws[i])[1..] == ws[i];
    }
  }

  lemma CirclesJoin(q: Quad, v: seq<Word>, w: seq<Word>)
    requires forall i :: 0 <= i < |v| ==> IsWord(v[i])
    requires forall i :: 0 <= i < |w| ==> IsWord(w[i])
    ensures CirclesAt(q, v + w) == CirclesAt(q, v) + CirclesAt(q, w)
  {
    hide CircleAt;
  }

  lemma BoundedUnfold(q: Quad, maxbend: real)
    requires Good(q) && New(q).bend <= maxbend
    ensures Good(Child(q, 0)) && Good(Child(q, 1)) && Good(Child(q, 2))
    ensures Bounded(q, maxbend) == [New(q)] + Bounded(Child(q, 0), maxbend) + Bounded(Child(q, 1), maxbend) + Bounded(Child(q, 2), maxbend)
  {
    hide Good, New, Child, CirclesAt, Prefixed, IsWord;
    ChildGood(q, 0); ChildGood(q, 1); ChildGood(q, 2);
    WithinWords(q, maxbend);
    WithinWords(Child(q, 0), maxbend); WithinWords(Child(q, 1), maxbend); WithinWords(Child(q, 2), maxbend);
    var a, b, c := Within(Child(q, 0), maxbend), Within(Child(q, 1), maxbend), Within(Child(q, 2), maxbend);
    CirclesPrefixed(q, 0, a); CirclesPrefixed(q, 1, b); CirclesPrefixed(q, 2, c);
    assert IsWord([]) by { EmptyWord(q); }
    CirclesJoin(q, [[]], Prefixed(0, a));
    CirclesJoin(q, [[]] + Prefixed(0, a), Prefixed(1, b));
    CirclesJoin(q, [[]] + Prefixed(0, a) + Prefixed(1, b), Prefixed(2, c));
    EmptyWord(q);
  }

  lemma EmptyWord(q: Quad)
    ensures IsWord([]) && CirclesAt(q, [[]]) == [New(q)]
  {
    hide New;
  }

  class CircleList {
    var items: seq<Circ>

    constructor (cs: seq<Circ>)
      ensures items == cs
    {
      items := cs;
    }

    method Push(c: Circ)
      modifies this
      ensures items == old(items) + [c]
    {
      items := items + [c];
    }
  }

  method Recurse(circles: CircleList, c1: Circ, c2: Circ, c3: Circ, c4: Circ, maxbend: real)
    requires Good(Quad(c1, c2, c3, c4))
    modifies circles
    ensures circles.items == old(circles.items) + Bounded(Quad(c1, c2, c3, c4), maxbend)
    decreases Fuel(Quad(c1, c2, c3, c4), maxbend)
  {
    hide Good, Bounded, New;
    ghost var q := Quad(c1, c2, c3, c4);
    var c5 := Partner(c1, c2, c3, c4);
    assert c5 == New(q) by { NewIsPartner(q); }
    if c5.bend > maxbend {
      BoundedEmpty(q, maxbend);
      return;
    }
    EnoughFuel(q, maxbend);
    BoundedUnfold(q, maxbend);
    ChildGood(q, 0); ChildGood(q, 1); ChildGood(q, 2);
    circles.Push(c5);
    Recurse(circles, c1, c2, c5, c3, maxbend);
    Recurse(circles, c1, c3, c5, c2, maxbend);
    Recurse(circles, c2, c3, c5, c1, maxbend);
  }

  lemma NewIsPartner(q: Quad)
    ensures New(q) == Partner(q.c1, q.c2, q.c3, q.c4)
  {
  }

  lemma BoundedEmpty(q: Quad, maxbend: real)
    requires Good(q) && New(q).bend > maxbend
    ensures Bounded(q, maxbend) == []
  {
    hide Good;
  }

  // ----- The root quadruple -----

  const C0 := Circ(-1.0 / 3.0, 0.0, 0.0)
  const C1 := Circ(2.0 / 3.0, -1.0, 0.0)
  const C2 := Circ(2.0 / 3.0, 1.0, 0.0)
  const C3 := Circ(1.0, 0.0, 2.0)

  /** The four curvilinear triangles the sample starts from. */
  function Root(k: nat): Quad
    requires k < 4
  {
    if k == 0 then Quad(C0, C1, C2, C3)
    else if k == 1 then Quad(C0, C1, C3, C2)
    else if k == 2 then Quad(C0, C2, C3, C1)
    else Quad(C1, C2, C3, C0)
  }

  lemma RootsKissing(k: nat)
    requires k < 4
    ensures Kissing(Root(k))
  {
    hide Inner;
    var v0, v1, v2, v3 := Lift(C0, 3.0), Lift(C1, 0.0), Lift(C2, 0.0), Lift(C3, 3.0);
    assert Mutual(v0, v1, v2, v3) by { RootVectors(); }
    InnerSym(v0, v1); InnerSym(v0, v2); InnerSym(v0, v3); InnerSym(v1, v2); InnerSym(v1, v3); InnerSym(v2, v3);
    if k == 0 {
      assert KissingWith(Root(k), 3.0, 0.0, 0.0, 3.0);
    } else if k == 1 {
      assert KissingWith(Root(k), 3.0, 0.0, 3.0, 0.0);
    } else if k == 2 {
      assert KissingWith(Root(k), 3.0, 0.0, 3.0, 0.0);
    } else {
      assert KissingWith(Root(k), 0.0, 0.0, 3.0, 3.0);
    }
  }

  lemma RootVectors()
    ensures Mutual(Lift(C0, 3.0), Lift(C1, 0.0), Lift(C2, 0.0), Lift(C3, 3.0))
  {
  }

  lemma RootsDescartes(k: nat)
    requires k < 4
    ensures DescartesQuad(Root(k))
  {
  }

  lemma RootsGrowing(k: nat)
    requires k < 4
    ensures Growing(Root(k))
  {
    assert 3.0 * C0.bend == (-1) as real && 3.0 * C1.bend == 2 as real && 3.0 * C2.bend == 2 as real && 3.0 * C3.bend == 3 as real;
  }

  lemma RootsGood(k: nat)
    requires k < 4
    ensures Good(Root(k))
  {
    hide Kissing, DescartesQuad, Growing, Root;
    RootsKissing(k);
    RootsDescartes(k);
    RootsGrowing(k);
  }

  /** The recursion from one starting triangle. */
  method RecurseFrom(circles: CircleList, q: Quad, maxbend: real)
    requires Good(q)
    modifies circles
    ensures circles.items == old(circles.items) + Bounded(q, maxbend)
  {
    hide Good, Bounded;
    Recurse(circles, q.c1, q.c2, q.c3, q.c4, maxbend);
  }

  /** The bounded part of the tree of one starting triangle. */
  ghost function FromRoot(k: nat, maxbend: real): seq<Circ>
    requires k < 4
  {
    RootsGood(k);
    Bounded(Root(k), maxbend)
  }

  method RecurseRoot(circles: CircleList, k: nat, maxbend: real)
    requires k < 4
    modifies circles
    ensures circles.items == old(circles.items) + FromRoot(k, maxbend)
  {
    hide Good, Bounded, Root;
    RootsGood(k);
    RecurseFrom(circles, Root(k), maxbend);
  }

  method MakeGasket(maxbend: real) returns (circles: CircleList)
    ensures fresh(circles)
    ensures circles.items == [C0, C1, C2, C3] + FromRoot(0, maxbend) + FromRoot(1, maxbend) + FromRoot(2, maxbend) + FromRoot(3, maxbend)
  {
    hide FromRoot;
    circles := new CircleList([C0, C1, C2, C3]);
    RecurseRoot(circles, 0, maxbend);
    RecurseRoot(circles, 1, maxbend);
    RecurseRoot(circles, 2, maxbend);
    RecurseRoot(circles, 3, maxbend);
  }

  /** Every generated circle, at any depth, is tangent to its three generators, and
      its quadruple satisfies Descartes' equation for bends and for bend * center. */
  lemma GeneratedTangent(k: nat, w: Word)
    requires k < 4 && IsWord(w)
    ensures var q := Node(Root(k), w);
            && Tangent(CircleAt(Root(k), w), q.c1) && Tangent(CircleAt(Root(k), w), q.c2) && Tangent(CircleAt(Root(k), w), q.c3)
            && DescartesQuad(q.(c4 := CircleAt(Root(k), w)))
  {
    hide Kissing, DescartesQuad, Growing, Tangent;
    RootsGood(k);
    NodeGood(Root(k), w);
    NewIsTangent(Node(Root(k), w));
    SwapDescartes(Node(Root(k), w));
  }

  /** The output contains a circle of the tree exactly when it is within the bound. */
  lemma CutOffLosesNothing(k: nat, w: Word, maxbend: real)
    requires k < 4 && IsWord(w)
    ensures Good(Root(k))
    ensures w in Within(Root(k), maxbend) <==> CircleAt(Root(k), w).bend <= maxbend
    ensures NoRepeats(Within(Root(k), maxbend))
  {
    hide Good;
    RootsGood(k);
    WithinExact(Root(k), maxbend, w);
    WithinNoRepeats(Root(k), maxbend);
  }
}
