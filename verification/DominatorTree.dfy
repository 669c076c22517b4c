/** Trees given by upward links that strictly decrease a numbering, and the
    walk that finds the nearest common ancestor of two nodes. */
module DominatorTree {
  import opened SsaModel

  /** `up` maps a node to its parent and the root to itself. */
  datatype Tree = Tree(root: BlockId, num: map<BlockId, nat>, up: map<BlockId, BlockId>)

  ghost predicate LinkOk(t: Tree, b: BlockId)
    requires b in t.up
  {
    b in t.num && t.up[b] in t.up && t.up[b] in t.num && (b != t.root ==> t.num[t.up[b]] < t.num[b])
  }

  ghost predicate TreeOk(t: Tree) {
    && t.root in t.up && t.up[t.root] == t.root
    && (forall b {:trigger LinkOk(t, b)} :: b in t.up ==> LinkOk(t, b))
    && (forall a, b :: Apart(t, a, b))
  }

  /** Different nodes have different numbers. */
  ghost predicate Apart(t: Tree, a: BlockId, b: BlockId) {
    a in t.num && b in t.num && t.num[a] == t.num[b] ==> a == b
  }

  /** The node and its ancestors. */
  ghost function Chain(t: Tree, b: BlockId): set<BlockId>
    requires TreeOk(t) && b in t.up
    decreases if b in t.num then t.num[b] else 0
  {
    if b == t.root then {b} else assert LinkOk(t, b); {b} + Chain(t, t.up[b])
  }

  ghost function Rank(t: Tree, b: BlockId): nat {
    if b in t.num then t.num[b] else 0
  }

  lemma {:induction false} ChainRank(t: Tree, b: BlockId, z: BlockId)
    requires TreeOk(t) && b in t.up && z in Chain(t, b)
    ensures z in t.up && z in t.num && Rank(t, z) <= Rank(t, b) && (z != b ==> Rank(t, z) < Rank(t, b))
    decreases Rank(t, b)
  {
    assert LinkOk(t, b);
    if z != b { ChainRank(t, t.up[b], z); }
  }

  lemma {:induction false} ChainNested(t: Tree, b: BlockId, z: BlockId)
    requires TreeOk(t) && b in t.up && z in Chain(t, b)
    ensures z in t.up && Chain(t, z) <= Chain(t, b)
    decreases Rank(t, b)
  {
    assert LinkOk(t, b);
    if z != b { ChainNested(t, t.up[b], z); }
  }

  /** A chain is linearly ordered by rank. */
  lemma {:induction false} ChainLinear(t: Tree, b: BlockId, z: BlockId, w: BlockId)
    requires TreeOk(t) && b in t.up && z in Chain(t, b) && w in Chain(t, b) && Rank(t, w) <= Rank(t, z)
    ensures z in t.up && w in Chain(t, z)
    decreases Rank(t, b)
  {
    assert LinkOk(t, b);
    ChainRank(t, b, z);
    if z != b {
      if w == b {
        assert false;
      }
      ChainLinear(t, t.up[b], z, w);
    }
  }

  // ----- Changing one link -----

  ghost function Relink(t: Tree, c: BlockId, n: BlockId): Tree {
    t.(up := t.up[c := n])
  }

  lemma RelinkOk(t: Tree, c: BlockId, n: BlockId)
    requires TreeOk(t) && n in t.up && c in t.num && c != t.root && Rank(t, n) < Rank(t, c)
    ensures TreeOk(Relink(t, c, n))
  {
    assert LinkOk(t, n);
    var t' := Relink(t, c, n);
    forall b | b in t'.up ensures LinkOk(t', b) {
      if b != c { assert LinkOk(t, b); }
    }
    forall a, b ensures Apart(t', a, b) {
      assert Apart(t, a, b);
    }
  }

  /** Chains that do not pass the changed node are unchanged. */
  lemma {:induction false} RelinkAway(t: Tree, c: BlockId, n: BlockId, x: BlockId)
    requires TreeOk(t) && n in t.up && c in t.num && c != t.root && Rank(t, n) < Rank(t, c)
    requires x in t.up && c !in Chain(t, x)
    ensures TreeOk(Relink(t, c, n)) && Chain(Relink(t, c, n), x) == Chain(t, x)
    decreases Rank(t, x)
  {
    RelinkOk(t, c, n);
    assert LinkOk(t, x);
    if x != t.root { RelinkAway(t, c, n, t.up[x]); }
  }

  lemma RelinkBelow(t: Tree, c: BlockId, n: BlockId, x: BlockId)
    requires TreeOk(t) && n in t.up && c in t.num && c != t.root && Rank(t, n) < Rank(t, c)
    requires x in t.up && Rank(t, x) < Rank(t, c)
    ensures TreeOk(Relink(t, c, n)) && Chain(Relink(t, c, n), x) == Chain(t, x)
  {
    if c in Chain(t, x) { ChainRank(t, x, c); }
    RelinkAway(t, c, n, x);
  }

  /** The changed node's own chain. */
  lemma RelinkSelf(t: Tree, c: BlockId, n: BlockId)
    requires TreeOk(t) && n in t.up && c in t.num && c != t.root && Rank(t, n) < Rank(t, c)
    ensures TreeOk(Relink(t, c, n)) && Chain(Relink(t, c, n), c) == {c} + Chain(t, n)
  {
    RelinkBelow(t, c, n, n);
  }

  /** Moving a link up along its own chain shrinks every chain, and only above the changed node. */
  lemma {:induction false} RelinkShrinks(t: Tree, c: BlockId, n: BlockId, x: BlockId)
    requires TreeOk(t) && c in t.up && c != t.root && LinkOk(t, c) && n in Chain(t, t.up[c])
    requires x in t.up
    ensures n in t.up && Rank(t, n) < Rank(t, c) && TreeOk(Relink(t, c, n))
    ensures Chain(Relink(t, c, n), x) <= Chain(t, x)
    ensures forall z :: z in Chain(t, x) && Rank(t, z) >= Rank(t, c) ==> z in Chain(Relink(t, c, n), x)
    decreases Rank(t, x)
  {
    assert LinkOk(t, c);
    assert LinkOk(t, x);
    ChainRank(t, t.up[c], n);
    RelinkOk(t, c, n);
    if x == c {
      RelinkSelf(t, c, n);
      ChainNested(t, t.up[c], n);
      forall z | z in Chain(t, x) && Rank(t, z) >= Rank(t, c) ensures z == c {
        if z != c { ChainRank(t, c, z); }
      }
    } else if x != t.root {
      RelinkShrinks(t, c, n, t.up[x]);
    }
  }

  // ----- Nearest common ancestor -----

  method Intersect(a0: BlockId, b0: BlockId, idoms: map<BlockId, BlockId>, number: map<BlockId, nat>, ghost root: BlockId)
      returns (r: BlockId)
    requires TreeOk(Tree(root, number, idoms)) && a0 in idoms && b0 in idoms
    ensures r in idoms
    ensures Chain(Tree(root, number, idoms), r) ==
            Chain(Tree(root, number, idoms), a0) * Chain(Tree(root, number, idoms), b0)
  {
    ghost var t := Tree(root, number, idoms);
    var a, b := a0, b0;
    assert LinkOk(t, a) && LinkOk(t, b);
    while a != b
      invariant a in idoms && b in idoms && a in number && b in number
      invariant Chain(t, a) * Chain(t, b) == Chain(t, a0) * Chain(t, b0)
      decreases Rank(t, a) + Rank(t, b)
    {
      assert Apart(t, a, b);
      ghost var a1, b1 := a, b;
      while number[a] > number[b]
        invariant a in idoms && a in number && b == b1
        invariant Chain(t, a) * Chain(t, b) == Chain(t, a0) * Chain(t, b0)
        invariant Rank(t, a) <= Rank(t, a1) && (a == a1 || Rank(t, a) < Rank(t, a1))
        decreases number[a]
      {
        assert LinkOk(t, a);
        assert a !in Chain(t, b) by {
          if a in Chain(t, b) { ChainRank(t, b, a); }
        }
        assert a != root by { RootLowest(t, b); }
        a := idoms[a];
        assert LinkOk(t, a);
      }
      while number[b] > number[a]
        invariant b in idoms && b in number
        invariant Chain(t, a) * Chain(t, b) == Chain(t, a0) * Chain(t, b0)
        invariant Rank(t, b) <= Rank(t, b1) && (b == b1 || Rank(t, b) < Rank(t, b1))
        decreases number[b]
      {
        assert LinkOk(t, b);
        assert b !in Chain(t, a) by {
          if b in Chain(t, a) { ChainRank(t, a, b); }
        }
        assert b != root by { RootLowest(t, a); }
        b := idoms[b];
        assert LinkOk(t, b);
      }
    }
    r := a;
  }

  lemma {:induction false} RootLowest(t: Tree, b: BlockId)
    requires TreeOk(t) && b in t.up
    ensures t.root in Chain(t, b) && Rank(t, t.root) <= Rank(t, b)
    decreases Rank(t, b)
  {
    assert LinkOk(t, b);
    if b != t.root { RootLowest(t, t.up[b]); }
  }
}
