/** Immediate dominators by the Cooper-Harvey-Kennedy iteration: it ends, and the
    links it leaves describe exactly the dominators of every reachable block. */
module SsaIdoms {
  import opened Options
  import opened SsaModel
  import opened SsaDominators
  import opened DominatorTree

  /** The fixed surroundings of the iteration: the graph, its order and the numbering. */
  ghost predicate Setting(f: SsaFunction, rpo: seq<BlockId>, num: map<BlockId, nat>) {
    && GraphOk(f)
    && IsOrder(f, rpo)
    && num.Keys == (set b | b in rpo)
    && (forall i :: 0 <= i < |rpo| ==> rpo[i] in num && num[rpo[i]] == i)
  }

  ghost predicate AssignedPred(f: SsaFunction, t: Tree, p: BlockId, b: BlockId) {
    Edge(f, p, b) && p in t.up
  }

  /** `z` is an ancestor of every predecessor of `b` that has a link. */
  ghost predicate Common(f: SsaFunction, t: Tree, b: BlockId, z: BlockId)
    requires TreeOk(t)
  {
    forall p :: AssignedPred(f, t, p, b) ==> z in Chain(t, p)
  }

  /** Soundness of one link: strict dominators of `b` dominate its parent. */
  ghost predicate LinkSound(f: SsaFunction, t: Tree, b: BlockId)
    requires b in t.up
  {
    forall d :: Dominates(f, d, b) && d != b ==> Dominates(f, d, t.up[b])
  }

  /** A link is at least as deep as every common ancestor of the predecessors. */
  ghost predicate LinkDeep(f: SsaFunction, t: Tree, b: BlockId)
    requires TreeOk(t) && b in t.up
  {
    forall z :: Common(f, t, b, z) ==> Rank(t, z) <= Rank(t, t.up[b])
  }

  /** A predecessor that comes before `b` in the order. */
  ghost function Forward(f: SsaFunction, rpo: seq<BlockId>, num: map<BlockId, nat>, b: BlockId): (p: BlockId)
    requires Setting(f, rpo, num) && b in num && b != f.entry
    ensures Edge(f, p, b) && p in num && num[p] < num[b]
  {
    var k :| 0 <= k < |rpo| && rpo[k] == b;
    assert PredBefore(f, rpo, k);
    var i :| 0 <= i < k && Edge(f, rpo[i], rpo[k]);
    rpo[i]
  }

  /** How the parent of `b` relates to the chain of its forward predecessor while
      the sweep is about to process position `at`: it lies on that chain, except
      between the moment its own position is passed and the moment `b` is processed,
      and even then the chain above it stays within the parent's chain. */
  ghost predicate LinkTracked(f: SsaFunction, rpo: seq<BlockId>, t: Tree, at: nat, b: BlockId)
    requires Setting(f, rpo, t.num) && TreeOk(t) && b in t.up && b in t.num && b != f.entry && LinkOk(t, b)
  {
    var p := Forward(f, rpo, t.num, b);
    && p in t.up
    && (at <= Rank(t, t.up[b]) || at > Rank(t, b) ==> t.up[b] in Chain(t, p))
    && (forall z :: z in Chain(t, p) && Rank(t, z) <= Rank(t, t.up[b]) ==> z in Chain(t, t.up[b]))
  }

  ghost predicate LinkInv(f: SsaFunction, rpo: seq<BlockId>, t: Tree, at: nat, b: BlockId)
    requires Setting(f, rpo, t.num) && TreeOk(t) && b in t.up
  {
    b != f.entry ==> b in t.num && LinkOk(t, b) && LinkSound(f, t, b) && LinkDeep(f, t, b) && LinkTracked(f, rpo, t, at, b)
  }

  /** The invariant of the whole iteration; the linked blocks are a prefix of the order. */
  ghost predicate Inv(f: SsaFunction, rpo: seq<BlockId>, t: Tree, at: nat, linked: nat) {
    && Setting(f, rpo, t.num) && TreeOk(t) && t.root == f.entry
    && 0 < linked <= |rpo|
    && (forall i :: 0 <= i < |rpo| ==> (rpo[i] in t.up <==> i < linked))
    && (forall b :: b in t.up ==> b in t.num)
    && (forall b {:trigger LinkInv(f, rpo, t, at, b)} :: b in t.up ==> LinkInv(f, rpo, t, at, b))
  }

  /** Dominators are ancestors. */
  lemma {:induction false} DominatorOnChain(f: SsaFunction, rpo: seq<BlockId>, t: Tree, at: nat, linked: nat, d: BlockId, b: BlockId)
    requires Inv(f, rpo, t, at, linked) && b in t.up && Dominates(f, d, b)
    ensures d in Chain(t, b)
    decreases Rank(t, b)
  {
    assert LinkOk(t, b);
    if b == f.entry {
      assert PathTo(f, [b], b);
      assert d in [b];
    } else if d != b {
      assert LinkInv(f, rpo, t, at, b);
      DominatorOnChain(f, rpo, t, at, linked, d, t.up[b]);
    }
  }

  /** A dominator of `b` dominates every ancestor of `b` that lies below it. */
  lemma {:induction false} DominatorAlongChain(f: SsaFunction, rpo: seq<BlockId>, t: Tree, at: nat, linked: nat, d: BlockId, b: BlockId, r: BlockId)
    requires Inv(f, rpo, t, at, linked) && b in t.up && Dominates(f, d, b)
    requires r in Chain(t, b) && Rank(t, d) <= Rank(t, r)
    ensures Dominates(f, d, r)
    decreases Rank(t, b)
  {
    if r != b {
      ChainRank(t, b, r);
      assert LinkInv(f, rpo, t, at, b);
      assert LinkOk(t, b);
      DominatorAlongChain(f, rpo, t, at, linked, d, t.up[b], r);
    }
  }

  // ----- One block's turn -----

  /** What the fold over the predecessors of `b` computes: their nearest common ancestor. */
  ghost predicate Nearest(f: SsaFunction, t: Tree, b: BlockId, n: BlockId)
    requires TreeOk(t)
  {
    n in t.up && forall z :: Common(f, t, b, z) <==> z in Chain(t, n)
  }

  /** The sweep is about to process block `b` at position `at`. */
  ghost predicate Turn(f: SsaFunction, rpo: seq<BlockId>, t: Tree, at: nat, linked: nat, b: BlockId, n: BlockId) {
    && Inv(f, rpo, t, at, linked)
    && 0 < at < |rpo| && at <= linked && rpo[at] == b
    && Nearest(f, t, b, n)
  }

  lemma TurnFacts(f: SsaFunction, rpo: seq<BlockId>, t: Tree, at: nat, linked: nat, b: BlockId, n: BlockId)
    requires Turn(f, rpo, t, at, linked, b, n)
    ensures b in t.num && t.num[b] == at && b != f.entry
    ensures var p := Forward(f, rpo, t.num, b);
            p in t.up && n in Chain(t, p) && Rank(t, p) < at
    ensures Rank(t, n) < at && Common(f, t, b, n)
  {
    assert rpo[0] == f.entry;
    assert rpo[0] != rpo[at];
    var p := Forward(f, rpo, t.num, b);
    assert rpo[t.num[p]] == p by {
      assert p in rpo;
      var i :| 0 <= i < |rpo| && rpo[i] == p;
    }
    assert n in Chain(t, n);
    assert AssignedPred(f, t, p, b);
    ChainRank(t, p, n);
  }

  lemma NearestSound(f: SsaFunction, rpo: seq<BlockId>, t: Tree, at: nat, linked: nat, b: BlockId, n: BlockId, d: BlockId)
    requires Turn(f, rpo, t, at, linked, b, n)
    requires Dominates(f, d, b) && d != b
    ensures Dominates(f, d, n)
  {
    TurnFacts(f, rpo, t, at, linked, b, n);
    forall q | AssignedPred(f, t, q, b) ensures d in Chain(t, q) {
      DominatesPred(f, d, q, b);
      DominatorOnChain(f, rpo, t, at, linked, d, q);
    }
    assert Common(f, t, b, d);
    ChainRank(t, n, d);
    var p := Forward(f, rpo, t.num, b);
    DominatesPred(f, d, p, b);
    DominatorAlongChain(f, rpo, t, at, linked, d, p, n);
  }

  /** Nothing to do for `b`: only the position advances. */
  lemma KeepLink(f: SsaFunction, rpo: seq<BlockId>, t: Tree, at: nat, linked: nat, b: BlockId, n: BlockId)
    requires Turn(f, rpo, t, at, linked, b, n) && b in t.up && t.up[b] == n
    ensures Inv(f, rpo, t, at + 1, linked)
  {
    hide TreeOk, LinkDeep, LinkSound;
    TurnFacts(f, rpo, t, at, linked, b, n);
    forall x | x in t.up ensures LinkInv(f, rpo, t, at + 1, x) {
      assert LinkInv(f, rpo, t, at, x);
      assert Apart(t, x, b);
    }
  }

  /** The first link of `b`. */
  lemma FirstLinkSelf(f: SsaFunction, rpo: seq<BlockId>, t: Tree, at: nat, linked: nat, b: BlockId, n: BlockId)
    requires Turn(f, rpo, t, at, linked, b, n) && b !in t.up
    ensures TreeOk(Relink(t, b, n)) && LinkInv(f, rpo, Relink(t, b, n), at + 1, b)
  {
    TurnFacts(f, rpo, t, at, linked, b, n);
    RelinkOk(t, b, n);
    var t' := Relink(t, b, n);
    var p := Forward(f, rpo, t.num, b);
    RelinkBelow(t, b, n, p);
    RelinkBelow(t, b, n, n);
    assert LinkOk(t', b);
    forall d | Dominates(f, d, b) && d != b ensures Dominates(f, d, n) {
      NearestSound(f, rpo, t, at, linked, b, n, d);
    }
    forall z | Common(f, t', b, z) ensures Rank(t', z) <= Rank(t', n) {
      FirstLinkCommon(f, rpo, t, at, linked, b, n, b, z);
      ChainRank(t, n, z);
    }
    forall z | z in Chain(t', p) && Rank(t', z) <= Rank(t', n) ensures z in Chain(t', n) {
      ChainLinear(t, p, n, z);
    }
  }

  lemma FirstLinkChain(f: SsaFunction, rpo: seq<BlockId>, t: Tree, at: nat, linked: nat, b: BlockId, n: BlockId, x: BlockId)
    requires Turn(f, rpo, t, at, linked, b, n) && b !in t.up && x in t.up
    ensures TreeOk(Relink(t, b, n)) && Chain(Relink(t, b, n), x) == Chain(t, x)
  {
    TurnFacts(f, rpo, t, at, linked, b, n);
    if b in Chain(t, x) { ChainRank(t, x, b); }
    RelinkAway(t, b, n, x);
  }

  lemma FirstLinkCommon(f: SsaFunction, rpo: seq<BlockId>, t: Tree, at: nat, linked: nat, b: BlockId, n: BlockId, x: BlockId, z: BlockId)
    requires Turn(f, rpo, t, at, linked, b, n) && b !in t.up
    requires TreeOk(Relink(t, b, n)) && Common(f, Relink(t, b, n), x, z)
    ensures Common(f, t, x, z)
  {
    forall q | AssignedPred(f, t, q, x) ensures z in Chain(t, q) {
      assert AssignedPred(f, Relink(t, b, n), q, x);
      FirstLinkChain(f, rpo, t, at, linked, b, n, q);
    }
  }

  lemma FirstLinkOther(f: SsaFunction, rpo: seq<BlockId>, t: Tree, at: nat, linked: nat, b: BlockId, n: BlockId, x: BlockId)
    requires Turn(f, rpo, t, at, linked, b, n) && b !in t.up && x in t.up
    ensures TreeOk(Relink(t, b, n)) && LinkInv(f, rpo, Relink(t, b, n), at + 1, x)
  {
    TurnFacts(f, rpo, t, at, linked, b, n);
    RelinkOk(t, b, n);
    var t' := Relink(t, b, n);
    assert LinkInv(f, rpo, t, at, x);
    if x != f.entry {
      var p, y := Forward(f, rpo, t.num, x), t.up[x];
      assert LinkOk(t', x);
      FirstLinkChain(f, rpo, t, at, linked, b, n, p);
      FirstLinkChain(f, rpo, t, at, linked, b, n, y);
      forall z | Common(f, t', x, z) ensures Rank(t', z) <= Rank(t', y) {
        FirstLinkCommon(f, rpo, t, at, linked, b, n, x, z);
      }
      assert Apart(t, x, b);
    }
  }

  lemma FirstLink(f: SsaFunction, rpo: seq<BlockId>, t: Tree, at: nat, linked: nat, b: BlockId, n: BlockId)
    requires Turn(f, rpo, t, at, linked, b, n) && b !in t.up
    ensures linked == at && Inv(f, rpo, Relink(t, b, n), at + 1, linked + 1)
  {
    hide TreeOk, LinkInv, LinkTracked, LinkDeep, LinkSound;
    TurnFacts(f, rpo, t, at, linked, b, n);
    RelinkOk(t, b, n);
    var t' := Relink(t, b, n);
    forall x | x in t'.up ensures LinkInv(f, rpo, t', at + 1, x) {
      if x == b {
        FirstLinkSelf(f, rpo, t, at, linked, b, n);
      } else {
        FirstLinkOther(f, rpo, t, at, linked, b, n, x);
      }
    }
    forall i | 0 <= i < |rpo| ensures rpo[i] in t'.up <==> i < linked + 1 {
      assert t.num[rpo[i]] == i;
    }
  }

  /** A changed link moves strictly up its own chain. */
  lemma MoveUp(f: SsaFunction, rpo: seq<BlockId>, t: Tree, at: nat, linked: nat, b: BlockId, n: BlockId)
    requires Turn(f, rpo, t, at, linked, b, n) && b in t.up && t.up[b] != n
    ensures LinkOk(t, b) && n in Chain(t, t.up[b]) && Rank(t, n) < Rank(t, t.up[b])
    ensures TreeOk(Relink(t, b, n))
  {
    TurnFacts(f, rpo, t, at, linked, b, n);
    assert LinkInv(f, rpo, t, at, b);
    assert Rank(t, n) <= Rank(t, t.up[b]);
    ChainRank(t, t.up[b], n);
    RelinkOk(t, b, n);
  }

  lemma MoveCommon(f: SsaFunction, rpo: seq<BlockId>, t: Tree, at: nat, linked: nat, b: BlockId, n: BlockId, x: BlockId, z: BlockId)
    requires Turn(f, rpo, t, at, linked, b, n) && b in t.up && t.up[b] != n
    requires TreeOk(Relink(t, b, n)) && Common(f, Relink(t, b, n), x, z)
    ensures Common(f, t, x, z)
  {
    TurnFacts(f, rpo, t, at, linked, b, n);
    MoveUp(f, rpo, t, at, linked, b, n);
    forall q | AssignedPred(f, t, q, x) ensures z in Chain(t, q) {
      assert AssignedPred(f, Relink(t, b, n), q, x);
      RelinkShrinks(t, b, n, q);
    }
  }

  lemma MoveSelf(f: SsaFunction, rpo: seq<BlockId>, t: Tree, at: nat, linked: nat, b: BlockId, n: BlockId)
    requires Turn(f, rpo, t, at, linked, b, n) && b in t.up && t.up[b] != n
    ensures TreeOk(Relink(t, b, n)) && LinkInv(f, rpo, Relink(t, b, n), at + 1, b)
  {
    TurnFacts(f, rpo, t, at, linked, b, n);
    MoveUp(f, rpo, t, at, linked, b, n);
    var t' := Relink(t, b, n);
    var p := Forward(f, rpo, t.num, b);
    RelinkBelow(t, b, n, p);
    RelinkBelow(t, b, n, n);
    assert LinkOk(t', b);
    forall d | Dominates(f, d, b) && d != b ensures Dominates(f, d, n) {
      NearestSound(f, rpo, t, at, linked, b, n, d);
    }
    forall z | Common(f, t', b, z) ensures Rank(t', z) <= Rank(t', n) {
      MoveCommon(f, rpo, t, at, linked, b, n, b, z);
      ChainRank(t, n, z);
    }
    forall z | z in Chain(t', p) && Rank(t', z) <= Rank(t', n) ensures z in Chain(t', n) {
      ChainLinear(t, p, n, z);
    }
  }

  lemma MoveTracked(f: SsaFunction, rpo: seq<BlockId>, t: Tree, at: nat, linked: nat, b: BlockId, n: BlockId, x: BlockId)
    requires Turn(f, rpo, t, at, linked, b, n) && b in t.up && t.up[b] != n
    requires x in t.up && x != b && x != f.entry && x in t.num && LinkOk(t, x) && LinkTracked(f, rpo, t, at, x)
    requires TreeOk(Relink(t, b, n)) && LinkOk(Relink(t, b, n), x)
    ensures LinkTracked(f, rpo, Relink(t, b, n), at + 1, x)
  {
    TurnFacts(f, rpo, t, at, linked, b, n);
    MoveUp(f, rpo, t, at, linked, b, n);
    var t' := Relink(t, b, n);
    var p, y := Forward(f, rpo, t.num, x), t.up[x];
    RelinkShrinks(t, b, n, p);
    assert Apart(t, x, b);
    if at > Rank(t, x) { RelinkBelow(t, b, n, p); }
    if Rank(t, y) < at { RelinkBelow(t, b, n, y); }
    forall z | z in Chain(t', p) && Rank(t', z) <= Rank(t', y) ensures z in Chain(t', y) {
      if Rank(t, y) >= at { ChainLinear(t', p, y, z); }
    }
  }

  lemma MoveOther(f: SsaFunction, rpo: seq<BlockId>, t: Tree, at: nat, linked: nat, b: BlockId, n: BlockId, x: BlockId)
    requires Turn(f, rpo, t, at, linked, b, n) && b in t.up && t.up[b] != n
    requires x in t.up && x != b
    ensures TreeOk(Relink(t, b, n)) && LinkInv(f, rpo, Relink(t, b, n), at + 1, x)
  {
    MoveUp(f, rpo, t, at, linked, b, n);
    var t' := Relink(t, b, n);
    assert LinkInv(f, rpo, t, at, x);
    if x != f.entry {
      assert LinkOk(t', x);
      MoveTracked(f, rpo, t, at, linked, b, n, x);
      forall z | Common(f, t', x, z) ensures Rank(t', z) <= Rank(t', t'.up[x]) {
        MoveCommon(f, rpo, t, at, linked, b, n, x, z);
      }
    }
  }

  lemma MoveLink(f: SsaFunction, rpo: seq<BlockId>, t: Tree, at: nat, linked: nat, b: BlockId, n: BlockId)
    requires Turn(f, rpo, t, at, linked, b, n) && b in t.up && t.up[b] != n
    ensures Inv(f, rpo, Relink(t, b, n), at + 1, linked)
    ensures Rank(t, n) < Rank(t, t.up[b])
  {
    hide Setting, TreeOk, LinkInv, LinkTracked, LinkDeep, LinkSound, Nearest;
    TurnFacts(f, rpo, t, at, linked, b, n);
    MoveUp(f, rpo, t, at, linked, b, n);
    var t' := Relink(t, b, n);
    forall x | x in t'.up ensures LinkInv(f, rpo, t', at + 1, x) {
      if x == b {
        MoveSelf(f, rpo, t, at, linked, b, n);
      } else {
        MoveOther(f, rpo, t, at, linked, b, n, x);
      }
    }
    MoveKeys(t, b, n);
  }

  lemma MoveKeys(t: Tree, b: BlockId, n: BlockId)
    requires b in t.up
    ensures forall x :: x in Relink(t, b, n).up <==> x in t.up
  {
  }

  /** Between sweeps every link lies on its forward predecessor's chain. */
  lemma NextSweep(f: SsaFunction, rpo: seq<BlockId>, t: Tree)
    requires Inv(f, rpo, t, |rpo|, |rpo|)
    ensures Inv(f, rpo, t, 1, |rpo|)
  {
    forall x | x in t.up ensures LinkInv(f, rpo, t, 1, x) {
      assert LinkInv(f, rpo, t, |rpo|, x);
      assert x in rpo;
      var i :| 0 <= i < |rpo| && rpo[i] == x;
    }
  }

  // ----- The iteration -----

  ghost predicate CommonTo(t: Tree, ps: seq<BlockId>, z: BlockId)
    requires TreeOk(t)
  {
    forall i :: 0 <= i < |ps| && ps[i] in t.up ==> z in Chain(t, ps[i])
  }

  ghost predicate NearestTo(t: Tree, ps: seq<BlockId>, n: Option<BlockId>)
    requires TreeOk(t)
  {
    if n.None? then
      forall i :: 0 <= i < |ps| ==> ps[i] !in t.up
    else
      n.value in t.up && forall z :: CommonTo(t, ps, z) <==> z in Chain(t, n.value)
  }

  /** The nearest common ancestor of those predecessors that have a link. */
  method NearestOfPreds(preds: seq<BlockId>, reachable: set<BlockId>, idoms: map<BlockId, BlockId>,
                        number: map<BlockId, nat>, ghost root: BlockId)
      returns (n: Option<BlockId>)
    requires TreeOk(Tree(root, number, idoms)) && idoms.Keys <= reachable
    ensures NearestTo(Tree(root, number, idoms), preds, n)
  {
    ghost var t := Tree(root, number, idoms);
    n := None;
    for k := 0 to |preds|
      invariant NearestTo(t, preds[..k], n)
    {
      var pred := preds[k];
      ghost var ps := preds[..k];
      assert preds[..k + 1] == ps + [pred];
      if pred !in reachable || pred !in idoms {
        SkipPred(t, ps, pred, n);
        continue;
      }
      match n {
        case None =>
          n := Some(pred);
        case Some(current) =>
          var r := Intersect(pred, current, idoms, number, root);
          n := Some(r);
      }
      forall z ensures CommonTo(t, ps + [pred], z) <==> CommonTo(t, ps, z) && z in Chain(t, pred) {
        CommonToSnoc(t, ps, pred, z);
      }
    }
    assert preds[..|preds|] == preds;
  }

  lemma CommonToSnoc(t: Tree, ps: seq<BlockId>, p: BlockId, z: BlockId)
    requires TreeOk(t)
    ensures CommonTo(t, ps + [p], z) <==> CommonTo(t, ps, z) && (p in t.up ==> z in Chain(t, p))
  {
    var qs := ps + [p];
    assert qs[|ps|] == p;
    assert forall i :: 0 <= i < |ps| ==> qs[i] == ps[i];
  }

  lemma SkipPred(t: Tree, ps: seq<BlockId>, p: BlockId, n: Option<BlockId>)
    requires TreeOk(t) && p !in t.up && NearestTo(t, ps, n)
    ensures NearestTo(t, ps + [p], n)
  {
    forall z ensures CommonTo(t, ps + [p], z) <==> CommonTo(t, ps, z) {
      CommonToSnoc(t, ps, p, z);
    }
  }

  lemma NearestFromPreds(f: SsaFunction, rpo: seq<BlockId>, t: Tree, at: nat, linked: nat, b: BlockId, n: Option<BlockId>)
    requires Inv(f, rpo, t, at, linked) && 0 < at < |rpo| && at <= linked && rpo[at] == b
    requires b < |f.blocks| && NearestTo(t, f.blocks[b].preds, n)
    ensures n.Some? && Turn(f, rpo, t, at, linked, b, n.value)
  {
    var ps := f.blocks[b].preds;
    assert rpo[0] != rpo[at];
    var p := Forward(f, rpo, t.num, b);
    assert rpo[t.num[p]] == p by {
      assert p in rpo;
      var i :| 0 <= i < |rpo| && rpo[i] == p;
    }
    assert p in t.up;
    assert BackEdge(f, p, b);
    forall z ensures Common(f, t, b, z) <==> CommonTo(t, ps, z) {
      if Common(f, t, b, z) {
        forall i | 0 <= i < |ps| && ps[i] in t.up ensures z in Chain(t, ps[i]) {
          assert BackEdge(f, ps[i], b);
          assert AssignedPred(f, t, ps[i], b);
        }
      }
      if CommonTo(t, ps, z) {
        forall q | AssignedPred(f, t, q, b) ensures z in Chain(t, q) {
          assert BackEdge(f, q, b);
        }
      }
    }
  }

  /** What the sweeps use up: the positions the links point at. */
  ghost function Potential(rpo: seq<BlockId>, t: Tree, m: nat): nat
    requires m <= |rpo|
  {
    if m == 0 then 0 else
      Potential(rpo, t, m - 1) + (if rpo[m - 1] in t.up then Rank(t, t.up[rpo[m - 1]]) else |rpo|)
  }

  lemma {:induction false} PotentialDrops(rpo: seq<BlockId>, t: Tree, k: nat, n: BlockId, m: nat)
    requires m <= |rpo| && k < |rpo| && Distinct(rpo)
    requires Rank(t, n) < if rpo[k] in t.up then Rank(t, t.up[rpo[k]]) else |rpo|
    ensures k < m ==> Potential(rpo, Relink(t, rpo[k], n), m) < Potential(rpo, t, m)
    ensures m <= k ==> Potential(rpo, Relink(t, rpo[k], n), m) == Potential(rpo, t, m)
  {
    if m > 0 {
      PotentialDrops(rpo, t, k, n, m - 1);
      assert m - 1 != k ==> rpo[m - 1] != rpo[k];
    }
  }

  ghost predicate Settled(f: SsaFunction, rpo: seq<BlockId>, t: Tree, m: nat)
    requires TreeOk(t) && m <= |rpo|
  {
    forall j :: 0 < j < m ==> SettledAt(f, t, rpo[j])
  }

  ghost predicate SettledAt(f: SsaFunction, t: Tree, b: BlockId)
    requires TreeOk(t)
  {
    b in t.up && Nearest(f, t, b, t.up[b])
  }

  /** The links are the dominator tree: the ancestors of a block are its dominators. */
  ghost predicate DominatorTreeOf(f: SsaFunction, t: Tree) {
    && TreeOk(t) && t.root == f.entry
    && (forall b :: b in t.up <==> Reachable(f, b))
    && (forall d, b :: b in t.up ==> (d in Chain(t, b) <==> Dominates(f, d, b)))
  }

  /** Along every edge the successor's strict ancestors are ancestors of the predecessor. */
  ghost predicate Stable(f: SsaFunction, t: Tree, q: BlockId, b: BlockId)
    requires TreeOk(t)
  {
    Edge(f, q, b) && q in t.up && b in t.up && b != t.root ==>
      t.up[b] in t.up && Chain(t, t.up[b]) <= Chain(t, q)
  }

  /** With stable links an ancestor lies on every path. */
  lemma {:induction false} AncestorOnPath(f: SsaFunction, t: Tree, p: seq<BlockId>, b: BlockId, d: BlockId)
    requires TreeOk(t) && t.root == f.entry
    requires forall c :: Reachable(f, c) ==> c in t.up
    requires forall q, c :: Stable(f, t, q, c)
    requires PathTo(f, p, b)
    ensures b in t.up
    ensures d in Chain(t, b) ==> d in p
    decreases |p|
  {
    assert Reachable(f, b);
    if d in Chain(t, b) && d != b && b != f.entry {
      var n := |p| - 1;
      assert StepAt(f, p, n);
      PathPrefix(f, p, n - 1);
      AncestorOnPath(f, t, p[..n], p[n - 1], d);
      assert Stable(f, t, p[n - 1], b);
    }
  }

  lemma LinkedIffReachable(f: SsaFunction, rpo: seq<BlockId>, t: Tree, b: BlockId)
    requires Inv(f, rpo, t, |rpo|, |rpo|)
    ensures b in t.up <==> Reachable(f, b)
  {
    hide LinkInv, TreeOk;
    if b in t.up {
      assert b in t.num;
    }
    if b in rpo {
      var i :| 0 <= i < |rpo| && rpo[i] == b;
    }
  }

  lemma SettledIsStable(f: SsaFunction, rpo: seq<BlockId>, t: Tree, q: BlockId, b: BlockId)
    requires Inv(f, rpo, t, |rpo|, |rpo|) && Settled(f, rpo, t, |rpo|)
    ensures Stable(f, t, q, b)
  {
    hide LinkInv, Nearest;
    if Edge(f, q, b) && q in t.up && b in t.up && b != f.entry {
      assert b in t.num;
      var j :| 0 <= j < |rpo| && rpo[j] == b;
      assert SettledAt(f, t, rpo[j]);
      assert AssignedPred(f, t, q, b);
      assert LinkOk(t, b);
      NearestWithin(f, t, q, b);
    }
  }

  lemma NearestWithin(f: SsaFunction, t: Tree, q: BlockId, b: BlockId)
    requires TreeOk(t) && b in t.up && Nearest(f, t, b, t.up[b]) && AssignedPred(f, t, q, b)
    ensures Chain(t, t.up[b]) <= Chain(t, q)
  {
    forall d | d in Chain(t, t.up[b]) ensures d in Chain(t, q) {
      assert Common(f, t, b, d);
    }
  }

  lemma SettledIsDominatorTree(f: SsaFunction, rpo: seq<BlockId>, t: Tree)
    requires Inv(f, rpo, t, |rpo|, |rpo|) && Settled(f, rpo, t, |rpo|)
    ensures DominatorTreeOf(f, t)
  {
    hide LinkInv, Settled, Setting;
    forall b ensures b in t.up <==> Reachable(f, b) {
      LinkedIffReachable(f, rpo, t, b);
    }
    forall q, c ensures Stable(f, t, q, c) {
      SettledIsStable(f, rpo, t, q, c);
    }
    forall d, b | b in t.up ensures d in Chain(t, b) <==> Dominates(f, d, b) {
      if Dominates(f, d, b) {
        DominatorOnChain(f, rpo, t, |rpo|, |rpo|, d, b);
      }
      if d in Chain(t, b) {
        forall p | PathTo(f, p, b) ensures d in p {
          AncestorOnPath(f, t, p, b, d);
        }
      }
    }
  }

  /** `a` is the closest strict dominator of `b`. */
  ghost predicate ImmediatelyDominates(f: SsaFunction, a: BlockId, b: BlockId) {
    && a != b && Dominates(f, a, b)
    && forall d :: Dominates(f, d, b) && d != b ==> Dominates(f, d, a)
  }

  lemma LinkIsImmediate(f: SsaFunction, t: Tree, b: BlockId)
    requires DominatorTreeOf(f, t) && b in t.up && b != f.entry
    ensures ImmediatelyDominates(f, t.up[b], b)
  {
    assert LinkOk(t, b);
    assert t.up[b] in Chain(t, t.up[b]);
  }

  method NumberOrder(rpo: seq<BlockId>) returns (number: map<BlockId, nat>)
    requires Distinct(rpo)
    ensures number.Keys == (set b | b in rpo)
    ensures forall i :: 0 <= i < |rpo| ==> rpo[i] in number && number[rpo[i]] == i
  {
    number := map[];
    for k := 0 to |rpo|
      invariant number.Keys == (set b | b in rpo[..k])
      invariant forall i :: 0 <= i < k ==> rpo[i] in number && number[rpo[i]] == i
    {
      number := number[rpo[k] := k];
      assert rpo[..k + 1] == rpo[..k] + [rpo[k]];
    }
    assert rpo[..|rpo|] == rpo;
  }

  lemma StartInv(f: SsaFunction, rpo: seq<BlockId>, num: map<BlockId, nat>)
    requires Setting(f, rpo, num)
    ensures Inv(f, rpo, Tree(f.entry, num, map[f.entry := f.entry]), 1, 1)
  {
    var t := Tree(f.entry, num, map[f.entry := f.entry]);
    forall a, b ensures Apart(t, a, b) {
      if a in num && b in num && num[a] == num[b] {
        var i :| 0 <= i < |rpo| && rpo[i] == a;
        var j :| 0 <= j < |rpo| && rpo[j] == b;
      }
    }
    assert LinkOk(t, f.entry);
    forall i | 0 <= i < |rpo| ensures rpo[i] in t.up <==> i < 1 {
      if i > 0 { assert rpo[0] != rpo[i]; }
    }
  }

  /** One block's turn: the new links keep the invariant, and a change uses up potential. */
  lemma TakeTurn(f: SsaFunction, rpo: seq<BlockId>, t: Tree, at: nat, linked: nat, b: BlockId, n: BlockId)
      returns (t': Tree, linked': nat)
    requires Turn(f, rpo, t, at, linked, b, n)
    ensures t' == if b in t.up && t.up[b] == n then t else Relink(t, b, n)
    ensures at < linked' && Inv(f, rpo, t', at + 1, linked')
    ensures t' != t ==> Potential(rpo, t', |rpo|) < Potential(rpo, t, |rpo|)
    ensures t' == t ==> b in t.up && Nearest(f, t, b, t.up[b])
  {
    t', linked' := t, linked;
    if b in t.up && t.up[b] == n {
      KeepLink(f, rpo, t, at, linked, b, n);
      InUpPosition(f, rpo, t, at, linked);
    } else {
      t' := Relink(t, b, n);
      TurnFacts(f, rpo, t, at, linked, b, n);
      if b in t.up {
        MoveLink(f, rpo, t, at, linked, b, n);
        InUpPosition(f, rpo, t, at, linked);
        assert t'.up[b] != t.up[b];
      } else {
        FirstLink(f, rpo, t, at, linked, b, n);
        linked' := linked + 1;
        assert b in t'.up;
      }
      PotentialDrops(rpo, t, at, n, |rpo|);
    }
  }

  lemma InUpPosition(f: SsaFunction, rpo: seq<BlockId>, t: Tree, at: nat, linked: nat)
    requires Inv(f, rpo, t, at, linked) && at < |rpo| && rpo[at] in t.up
    ensures at < linked
  {
  }

  lemma PositionFacts(f: SsaFunction, rpo: seq<BlockId>, t: Tree, k: nat, linked: nat)
    requires Inv(f, rpo, t, k, linked) && k <= linked
    ensures TreeOk(t) && Distinct(rpo) && linked <= |rpo|
    ensures forall b :: b in t.up ==> Reachable(f, b)
    ensures k < |rpo| ==> rpo[k] < |f.blocks|
  {
    hide LinkInv, TreeOk;
    if k < |rpo| {
      assert rpo[k] in rpo;
      ReachableInRange(f, rpo[k]);
    }
  }

  method ComputeIdoms(f: SsaFunction, reachable: set<BlockId>)
      returns (idoms: map<BlockId, BlockId>, ghost number: map<BlockId, nat>)
    requires GraphOk(f) && forall b :: b in reachable <==> Reachable(f, b)
    ensures idoms.Keys == reachable && f.entry in idoms && idoms[f.entry] == f.entry
    ensures forall b :: b in idoms && b != f.entry ==> ImmediatelyDominates(f, idoms[b], b)
    ensures DominatorTreeOf(f, Tree(f.entry, number, idoms))
  {
    hide Inv, Setting, Settled, LinkInv, TreeOk, Nearest, Turn, IsOrder, DominatorTreeOf, ImmediatelyDominates;
    var rpo := ReversePostOrder(f);
    var rpoNumber := NumberReversePostOrder(f, rpo);
    number := rpoNumber;
    idoms := map[f.entry := f.entry];
    StartInv(f, rpo, rpoNumber);
    ghost var t := Tree(f.entry, rpoNumber, idoms);
    ghost var linked := 1;
    var changed := true;
    while changed
      invariant t == Tree(f.entry, rpoNumber, idoms)
      invariant Inv(f, rpo, t, 1, linked) && 1 <= linked
      invariant !changed ==> Inv(f, rpo, t, |rpo|, |rpo|) && TreeOk(t) && Settled(f, rpo, t, |rpo|)
      decreases Potential(rpo, t, |rpo|) + (if changed then 1 else 0)
    {
      changed := false;
      ghost var start := t;
      var k := 1;
      PositionFacts(f, rpo, t, 1, linked);
      EmptySettled(f, rpo, t);
      while k < |rpo|
        invariant 1 <= k <= |rpo| && k <= linked
        invariant t == Tree(f.entry, rpoNumber, idoms) && TreeOk(t)
        invariant Inv(f, rpo, t, k, linked)
        invariant changed ==> Potential(rpo, t, |rpo|) < Potential(rpo, start, |rpo|)
        invariant !changed ==> t == start && Settled(f, rpo, t, k)
      {
        var b := rpo[k];
        PositionFacts(f, rpo, t, k, linked);
        var newIdom := NearestOfPreds(f.blocks[b].preds, reachable, idoms, rpoNumber, f.entry);
        NearestFromPreds(f, rpo, t, k, linked, b, newIdom);
        ghost var t', linked' := TakeTurn(f, rpo, t, k, linked, b, newIdom.value);
        if b !in idoms || idoms[b] != newIdom.value {
          idoms := idoms[b := newIdom.value];
          changed := true;
        }
        if !changed { ExtendSettled(f, rpo, t, k); }
        t, linked := t', linked';
        k := k + 1;
        PositionFacts(f, rpo, t, k, linked);
      }
      PositionFacts(f, rpo, t, k, linked);
      NextSweep(f, rpo, t);
    }
    SettledIsDominatorTree(f, rpo, t);
    FinishedLinks(f, t, reachable);
  }

  method NumberReversePostOrder(f: SsaFunction, rpo: seq<BlockId>) returns (number: map<BlockId, nat>)
    requires GraphOk(f) && IsOrder(f, rpo)
    ensures Setting(f, rpo, number) && |rpo| > 0
  {
    number := NumberOrder(rpo);
  }

  lemma EmptySettled(f: SsaFunction, rpo: seq<BlockId>, t: Tree)
    requires TreeOk(t) && |rpo| > 0
    ensures Settled(f, rpo, t, 1)
  {
  }

  lemma ExtendSettled(f: SsaFunction, rpo: seq<BlockId>, t: Tree, k: nat)
    requires TreeOk(t) && 0 < k < |rpo| && Settled(f, rpo, t, k)
    requires rpo[k] in t.up && Nearest(f, t, rpo[k], t.up[rpo[k]])
    ensures Settled(f, rpo, t, k + 1)
  {
  }

  lemma FinishedLinks(f: SsaFunction, t: Tree, reachable: set<BlockId>)
    requires DominatorTreeOf(f, t) && forall b :: b in reachable <==> Reachable(f, b)
    ensures t.up.Keys == reachable && t.root in t.up && t.up[t.root] == t.root
    ensures forall b :: b in t.up && b != f.entry ==> ImmediatelyDominates(f, t.up[b], b)
    ensures t.root == f.entry
  {
    forall b | b in t.up && b != f.entry ensures ImmediatelyDominates(f, t.up[b], b) {
      LinkIsImmediate(f, t, b);
    }
  }

  // ----- Dominance queries -----

  /** Whether `a` dominates `b` (reflexive), by walking the links upward. */
  method DominatesByLinks(f: SsaFunction, a: BlockId, b: BlockId, idoms: map<BlockId, BlockId>, ghost number: map<BlockId, nat>)
      returns (r: bool)
    requires DominatorTreeOf(f, Tree(f.entry, number, idoms))
    ensures Reachable(f, b) ==> (r <==> Dominates(f, a, b))
    ensures !Reachable(f, b) ==> (r <==> a == b)
  {
    ghost var t := Tree(f.entry, number, idoms);
    var current := b;
    while true
      invariant b in idoms ==> current in idoms && (a in Chain(t, current) <==> a in Chain(t, b))
      invariant b !in idoms ==> current == b
      decreases Rank(t, current)
    {
      if current == a {
        if b in idoms { assert a in Chain(t, a); }
        return true;
      }
      if current == f.entry {
        return false;
      }
      assert current in idoms ==> LinkOk(t, current);
      if current !in idoms || idoms[current] == current {
        return false;
      }
      current := idoms[current];
    }
  }
}
