/** No circle of the gasket is generated twice: the products of a circle with the four
    circles of a starting quadruple spell out the turns that lead to it. */
module GasketDistinct {
  import opened Gasket

  /** A quadruple with its co-bends. */
  datatype VQuad = VQuad(v1: Vec, v2: Vec, v3: Vec, v4: Vec)

  ghost function Forget(v: Vec): Circ { Circ(v.b, v.x, v.y) }

  ghost function ForgetAll(q: VQuad): Quad {
    Quad(Forget(q.v1), Forget(q.v2), Forget(q.v3), Forget(q.v4))
  }

  ghost function NewV(q: VQuad): Vec { Swap(q.v1, q.v2, q.v3, q.v4) }

  ghost function ChildV(q: VQuad, k: nat): VQuad
    requires k < 3
  {
    if k == 0 then VQuad(q.v1, q.v2, NewV(q), q.v3)
    else if k == 1 then VQuad(q.v1, q.v3, NewV(q), q.v2)
    else VQuad(q.v2, q.v3, NewV(q), q.v1)
  }

  ghost function NodeV(q: VQuad, w: Word): VQuad
    requires IsWord(w)
    decreases |w|
  {
    if w == [] then q else NodeV(ChildV(q, w[0]), w[1..])
  }

  ghost predicate MutualAll(q: VQuad) { Mutual(q.v1, q.v2, q.v3, q.v4) }

  lemma NewForgets(q: VQuad)
    ensures Forget(NewV(q)) == New(ForgetAll(q))
  {
  }

  lemma {:induction false} NodeForgets(q: VQuad, w: Word)
    requires IsWord(w)
    ensures ForgetAll(NodeV(q, w)) == Node(ForgetAll(q), w)
    decreases |w|
  {
    hide NewV, New;
    if w != [] {
      NewForgets(q);
      NodeForgets(ChildV(q, w[0]), w[1..]);
    }
  }

  lemma ChildMutual(q: VQuad, k: nat)
    requires MutualAll(q) && k < 3
    ensures MutualAll(ChildV(q, k))
  {
    hide Inner, Swap;
    SwapMutual(q.v1, q.v2, q.v3, q.v4);
    var n := NewV(q);
    InnerSym(q.v1, q.v2); InnerSym(q.v1, q.v3); InnerSym(q.v2, q.v3);
    InnerSym(n, q.v1); InnerSym(n, q.v2); InnerSym(n, q.v3);
  }

  lemma {:induction false} NodeMutual(q: VQuad, w: Word)
    requires MutualAll(q) && IsWord(w)
    ensures MutualAll(NodeV(q, w))
    decreases |w|
  {
    hide MutualAll, NewV;
    if w != [] {
      ChildMutual(q, w[0]);
      NodeMutual(ChildV(q, w[0]), w[1..]);
    }
  }

  // ----- Products tell where a circle lies -----

  /** `x` is apart from the first three, and farthest from the fourth. */
  ghost predicate Beyond(x: Vec, a: Vec, b: Vec, c: Vec, far: Vec) {
    && Inner(x, a) <= -1.0 && Inner(x, b) <= -1.0 && Inner(x, c) <= -1.0
    && Inner(x, far) < Inner(x, a) && Inner(x, far) < Inner(x, b) && Inner(x, far) < Inner(x, c)
  }

  /** The circle of the quadruple that turn `k` leaves behind. */
  ghost function Left(q: VQuad, k: nat): Vec
    requires k < 3
  {
    if k == 0 then q.v3 else if k == 1 then q.v2 else q.v1
  }

  /** `x` is farther from the circle left behind than from the other two of the triangle. */
  ghost predicate Turned(x: Vec, q: VQuad, k: nat)
    requires k < 3
  {
    forall j: nat :: j < 3 && j != k ==> Inner(x, Left(q, k)) < Inner(x, Left(q, j))
  }

  /** Every circle below a quadruple lies beyond its fourth circle. */
  lemma {:induction false} NodeBeyond(q: VQuad, w: Word)
    requires MutualAll(q) && IsWord(w)
    ensures var x := NewV(NodeV(q, w));
            && Beyond(x, q.v1, q.v2, q.v3, q.v4)
            && (w == [] ==> Inner(x, q.v1) == Inner(x, q.v2) == Inner(x, q.v3))
            && (w != [] ==> Turned(x, q, w[0]))
    decreases |w|
  {
    hide Inner, Swap;
    var x, n := NewV(NodeV(q, w)), NewV(q);
    InnerSwap(q.v1, q.v2, q.v3, q.v4, x);
    if w == [] {
      SwapMutual(q.v1, q.v2, q.v3, q.v4);
      InnerSym(x, q.v1); InnerSym(x, q.v2); InnerSym(x, q.v3);
    } else {
      ChildMutual(q, w[0]);
      NodeBeyond(ChildV(q, w[0]), w[1..]);
      assert Beyond(x, ChildV(q, w[0]).v1, ChildV(q, w[0]).v2, n, Left(q, w[0]));
    }
  }

  /** Different turns lead to different circles. */
  lemma {:induction false} NodesDiffer(q: VQuad, v: Word, w: Word)
    requires MutualAll(q) && IsWord(v) && IsWord(w) && NewV(NodeV(q, v)) == NewV(NodeV(q, w))
    ensures v == w
    decreases |v|
  {
    hide Inner, Swap, MutualAll, Beyond;
    NodeBeyond(q, v);
    NodeBeyond(q, w);
    var x := NewV(NodeV(q, v));
    if v != [] && w != [] {
      assert v[0] == w[0] by { SameTurn(x, q, v[0], w[0]); }
      ChildMutual(q, v[0]);
      NodesDiffer(ChildV(q, v[0]), v[1..], w[1..]);
      assert v == [v[0]] + v[1..] && w == [w[0]] + w[1..];
    } else if v != [] {
      NoTurn(x, q, v[0]);
    } else if w != [] {
      NoTurn(x, q, w[0]);
    }
  }

  lemma TurnedLess(x: Vec, q: VQuad, k: nat, j: nat)
    requires k < 3 && j < 3 && j != k && Turned(x, q, k)
    ensures Inner(x, Left(q, k)) < Inner(x, Left(q, j))
  {
    hide Inner, Left;
  }

  lemma SameTurn(x: Vec, q: VQuad, k: nat, j: nat)
    requires k < 3 && j < 3 && Turned(x, q, k) && Turned(x, q, j)
    ensures k == j
  {
    hide Inner, Left, Turned;
    if k != j {
      TurnedLess(x, q, k, j);
      TurnedLess(x, q, j, k);
    }
  }

  lemma NoTurn(x: Vec, q: VQuad, k: nat)
    requires k < 3 && Turned(x, q, k)
    ensures !(Inner(x, q.v1) == Inner(x, q.v2) == Inner(x, q.v3))
  {
    hide Inner;
    assert Inner(x, Left(q, k)) < Inner(x, Left(q, if k == 0 then 1 else 0));
  }

  // ----- The four starting triangles -----

  ghost function Start(i: nat): Vec
    requires i < 4
  {
    if i == 0 then Lift(C0, 3.0) else if i == 1 then Lift(C1, 0.0) else if i == 2 then Lift(C2, 0.0) else Lift(C3, 3.0)
  }

  ghost function RootV(k: nat): VQuad
    requires k < 4
  {
    if k == 0 then VQuad(Start(0), Start(1), Start(2), Start(3))
    else if k == 1 then VQuad(Start(0), Start(1), Start(3), Start(2))
    else if k == 2 then VQuad(Start(0), Start(2), Start(3), Start(1))
    else VQuad(Start(1), Start(2), Start(3), Start(0))
  }

  lemma RootMutual(k: nat)
    requires k < 4
    ensures MutualAll(RootV(k)) && ForgetAll(RootV(k)) == Root(k)
  {
    RootVectors();
    hide Inner;
    InnerSym(Start(0), Start(1)); InnerSym(Start(0), Start(2)); InnerSym(Start(0), Start(3));
    InnerSym(Start(1), Start(2)); InnerSym(Start(1), Start(3)); InnerSym(Start(2), Start(3));
  }

  ghost function VecAt(k: nat, w: Word): Vec
    requires k < 4 && IsWord(w)
  {
    NewV(NodeV(RootV(k), w))
  }

  lemma RootParts(k: nat, i: nat)
    requires k < 4 && i < 4
    ensures var q := RootV(k);
            if i == 3 - k then Start(i) == q.v4 else Start(i) == q.v1 || Start(i) == q.v2 || Start(i) == q.v3
  {
  }

  /** A generated circle is apart from the starting circles and farthest from the one
      its starting triangle leaves out. */
  ghost predicate FarthestIs(x: Vec, a: nat)
    requires a < 4
  {
    forall i: nat :: i < 4 ==> Inner(x, Start(i)) <= -1.0 && (i != a ==> Inner(x, Start(a)) < Inner(x, Start(i)))
  }

  lemma RootBeyond(k: nat, w: Word)
    requires k < 4 && IsWord(w)
    ensures FarthestIs(VecAt(k, w), 3 - k)
  {
    RootMutual(k);
    NodeBeyond(RootV(k), w);
    RootParts(k, 3 - k);
    hide Inner, Start, NewV, NodeV, RootV;
    var x := VecAt(k, w);
    forall i: nat | i < 4 ensures Inner(x, Start(i)) <= -1.0 && (i != 3 - k ==> Inner(x, Start(3 - k)) < Inner(x, Start(i))) {
      RootParts(k, i);
    }
  }

  lemma FarthestLess(x: Vec, a: nat, b: nat)
    requires a < 4 && b < 4 && a != b && FarthestIs(x, a)
    ensures Inner(x, Start(a)) < Inner(x, Start(b))
  {
    hide Inner, Start;
  }

  lemma SameFarthest(x: Vec, a: nat, b: nat)
    requires a < 4 && b < 4 && FarthestIs(x, a) && FarthestIs(x, b)
    ensures a == b
  {
    hide Inner, Start, FarthestIs;
    if a != b {
      FarthestLess(x, a, b);
      FarthestLess(x, b, a);
    }
  }

  /** A unit vector with a bend is determined by its circle. */
  lemma CircleDetermines(u: Vec, v: Vec)
    requires Forget(u) == Forget(v) && u.b != 0.0 && Inner(u, u) == 1.0 && Inner(v, v) == 1.0
    ensures u == v
  {
    var s := u.x * u.x + u.y * u.y;
    assert u.b * u.co == s - 1.0 && u.b * v.co == s - 1.0;
    Cancel(u.b, u.co, v.co);
  }

  lemma Cancel(b: real, c: real, d: real)
    requires b != 0.0 && b * c == b * d
    ensures c == d
  {
    assert b * (c - d) == 0.0;
  }

  lemma VecOfCircle(k: nat, w: Word)
    requires k < 4 && IsWord(w)
    ensures Forget(VecAt(k, w)) == CircleAt(Root(k), w) && Inner(VecAt(k, w), VecAt(k, w)) == 1.0
    ensures CircleAt(Root(k), w).bend > 0.0
  {
    RootMutual(k);
    NodeForgets(RootV(k), w);
    NodeMutual(RootV(k), w);
    var q := NodeV(RootV(k), w);
    NewForgets(q);
    SwapMutual(q.v1, q.v2, q.v3, q.v4);
    RootsGood(k);
    NodeGood(Root(k), w);
    hide Inner, Swap, Kissing, DescartesQuad, NodeV, RootV, Root;
  }

  /** Every node of every tree has a circle of its own. */
  lemma CirclesDiffer(j: nat, v: Word, k: nat, w: Word)
    requires j < 4 && k < 4 && IsWord(v) && IsWord(w) && CircleAt(Root(j), v) == CircleAt(Root(k), w)
    ensures j == k && v == w
  {
    hide CircleAt, Root, Inner, NewV, RootV, NodeV, Start;
    VecOfCircle(j, v);
    VecOfCircle(k, w);
    CircleDetermines(VecAt(j, v), VecAt(k, w));
    RootBeyond(j, v);
    RootBeyond(k, w);
    SameFarthest(VecAt(j, v), 3 - j, 3 - k);
    RootMutual(j);
    NodesDiffer(RootV(j), v, w);
  }

  /** No generated circle is a starting circle. */
  lemma NotAStart(k: nat, w: Word, i: nat)
    requires k < 4 && IsWord(w) && i < 4
    ensures CircleAt(Root(k), w) != Forget(Start(i))
  {
    hide CircleAt, Root, NewV, RootV, NodeV;
    VecOfCircle(k, w);
    RootBeyond(k, w);
    StartUnit(i);
    if CircleAt(Root(k), w) == Forget(Start(i)) {
      CircleDetermines(VecAt(k, w), Start(i));
    }
  }

  lemma StartUnit(i: nat)
    requires i < 4
    ensures Inner(Start(i), Start(i)) == 1.0
  {
  }

  // ----- The output -----

  ghost predicate NoneTwice(cs: seq<Circ>) {
    forall i, j :: 0 <= i < j < |cs| ==> cs[i] != cs[j]
  }

  ghost predicate Apart(cs: seq<Circ>, ds: seq<Circ>) {
    forall i, j :: 0 <= i < |cs| && 0 <= j < |ds| ==> cs[i] != ds[j]
  }

  lemma JoinNoneTwice(cs: seq<Circ>, ds: seq<Circ>)
    requires NoneTwice(cs) && NoneTwice(ds) && Apart(cs, ds)
    ensures NoneTwice(cs + ds)
  {
  }

  lemma JoinApart(cs: seq<Circ>, ds: seq<Circ>, es: seq<Circ>)
    requires Apart(cs, es) && Apart(ds, es)
    ensures Apart(cs + ds, es)
  {
  }

  /** What the part of the output below starting triangle `k` consists of. */
  lemma FromRootIs(k: nat, maxbend: real)
    requires k < 4
    ensures Good(Root(k)) && |FromRoot(k, maxbend)| == |Within(Root(k), maxbend)|
    ensures forall i :: 0 <= i < |FromRoot(k, maxbend)| ==>
      IsWord(Within(Root(k), maxbend)[i]) && FromRoot(k, maxbend)[i] == CircleAt(Root(k), Within(Root(k), maxbend)[i])
  {
    hide Good, Root, CircleAt;
    RootsGood(k);
    WithinWords(Root(k), maxbend);
  }

  lemma OneRoot(k: nat, maxbend: real)
    requires k < 4
    ensures NoneTwice(FromRoot(k, maxbend))
  {
    FromRootIs(k, maxbend);
    WithinNoRepeats(Root(k), maxbend);
    var cs, ws := FromRoot(k, maxbend), Within(Root(k), maxbend);
    hide FromRoot, Within, CircleAt, Root, Good;
    forall i, j | 0 <= i < j < |cs| ensures cs[i] != cs[j] {
      if cs[i] == cs[j] { CirclesDiffer(k, ws[i], k, ws[j]); }
    }
  }

  lemma StartsApart(k: nat, maxbend: real)
    requires k < 4
    ensures Apart([C0, C1, C2, C3], FromRoot(k, maxbend))
  {
    FromRootIs(k, maxbend);
    var starts, ds, ws := [C0, C1, C2, C3], FromRoot(k, maxbend), Within(Root(k), maxbend);
    StartsForget();
    hide FromRoot, Within, CircleAt, Root, Good, Start, Forget;
    forall i, j | 0 <= i < |starts| && 0 <= j < |ds| ensures starts[i] != ds[j] {
      NotAStart(k, ws[j], i);
    }
  }

  lemma StartsForget()
    ensures forall i: nat :: i < 4 ==> [C0, C1, C2, C3][i] == Forget(Start(i))
  {
  }

  lemma TwoRoots(j: nat, k: nat, maxbend: real)
    requires j < k < 4
    ensures Apart(FromRoot(j, maxbend), FromRoot(k, maxbend))
  {
    FromRootIs(j, maxbend);
    FromRootIs(k, maxbend);
    var cs, v, ds, w := FromRoot(j, maxbend), Within(Root(j), maxbend), FromRoot(k, maxbend), Within(Root(k), maxbend);
    hide FromRoot, Within, CircleAt, Root, Good;
    forall x, y | 0 <= x < |cs| && 0 <= y < |ds| ensures cs[x] != ds[y] {
      if cs[x] == ds[y] { CirclesDiffer(j, v[x], k, w[y]); }
    }
  }

  lemma StartsDiffer()
    ensures NoneTwice([C0, C1, C2, C3])
  {
  }

  /** The gasket lists no circle twice. */
  lemma NoCircleTwice(maxbend: real)
    ensures NoneTwice([C0, C1, C2, C3] + FromRoot(0, maxbend) + FromRoot(1, maxbend) + FromRoot(2, maxbend) + FromRoot(3, maxbend))
  {
    hide FromRoot, NoneTwice, Apart;
    var s, a, b, c, d := [C0, C1, C2, C3], FromRoot(0, maxbend), FromRoot(1, maxbend), FromRoot(2, maxbend), FromRoot(3, maxbend);
    OneRoot(0, maxbend); OneRoot(1, maxbend); OneRoot(2, maxbend); OneRoot(3, maxbend);
    StartsApart(0, maxbend); StartsApart(1, maxbend); StartsApart(2, maxbend); StartsApart(3, maxbend);
    TwoRoots(0, 1, maxbend); TwoRoots(0, 2, maxbend); TwoRoots(0, 3, maxbend);
    TwoRoots(1, 2, maxbend); TwoRoots(1, 3, maxbend); TwoRoots(2, 3, maxbend);
    StartsDiffer();
    JoinNoneTwice(s, a);
    JoinApart(s, a, b); JoinApart(s, a, c); JoinApart(s, a, d);
    JoinNoneTwice(s + a, b);
    JoinApart(s + a, b, c); JoinApart(s + a, b, d);
    JoinNoneTwice(s + a + b, c);
    JoinApart(s + a + b, c, d);
    JoinNoneTwice(s + a + b + c, d);
  }
}
