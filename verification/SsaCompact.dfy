/** Deleting unreachable blocks: edges from them disappear, and the surviving blocks are
    renumbered densely in their order. */
module SsaCompact {
  import opened Options
  import opened SsaModel
  import opened SsaVerify
  import opened SsaSemantics
  import opened SsaThin

  // ----- Renumbering -----

  /** The blocks of `live` below `n`, ascending. */
  function Order(live: set<BlockId>, n: nat): (r: seq<BlockId>)
    ensures forall k :: 0 <= k < |r| ==> r[k] in live && r[k] < n
  {
    if n == 0 then [] else Order(live, n - 1) + (if n - 1 in live then [n - 1] else [])
  }

  /** The new number of block `b`: how many surviving blocks come before it. */
  function NewId(live: set<BlockId>, b: BlockId): BlockId {
    |Order(live, b)|
  }

  lemma {:induction false} OrderAt(live: set<BlockId>, n: nat, b: BlockId)
    requires b in live && b < n
    ensures NewId(live, b) < |Order(live, n)| && Order(live, n)[NewId(live, b)] == b
    decreases n
  {
    if b < n - 1 { OrderAt(live, n - 1, b); }
  }

  lemma {:induction false} OrderBack(live: set<BlockId>, n: nat, k: nat)
    requires k < |Order(live, n)|
    ensures NewId(live, Order(live, n)[k]) == k
    decreases n
  {
    if k < |Order(live, n - 1)| { OrderBack(live, n - 1, k); }
  }

  /** Surviving blocks keep different numbers. */
  lemma NewIdInjective(live: set<BlockId>, a: BlockId, b: BlockId)
    requires a in live && b in live && NewId(live, a) == NewId(live, b)
    ensures a == b
  {
    var n := a + b + 1;
    OrderAt(live, n, a);
    OrderAt(live, n, b);
  }

  function RenameAll(live: set<BlockId>, s: seq<BlockId>): (r: seq<BlockId>)
    ensures |r| == |s| && forall k :: 0 <= k < |s| ==> r[k] == NewId(live, s[k])
  {
    seq(|s|, k requires 0 <= k < |s| => NewId(live, s[k]))
  }

  lemma RenamedMember(live: set<BlockId>, s: seq<BlockId>, b: BlockId)
    requires b in live && forall k :: 0 <= k < |s| ==> s[k] in live
    ensures NewId(live, b) in RenameAll(live, s) <==> b in s
  {
    hide NewId;
    if NewId(live, b) in RenameAll(live, s) {
      var k :| 0 <= k < |s| && RenameAll(live, s)[k] == NewId(live, b);
      NewIdInjective(live, s[k], b);
    }
    if b in s {
      var k :| 0 <= k < |s| && s[k] == b;
      assert RenameAll(live, s)[k] == NewId(live, b);
    }
  }

  lemma {:induction false} RenamedIndex(live: set<BlockId>, s: seq<BlockId>, b: BlockId)
    requires b in live && forall k :: 0 <= k < |s| ==> s[k] in live
    ensures FirstIndex(RenameAll(live, s), NewId(live, b)) == FirstIndex(s, b)
    decreases |s|
  {
    hide NewId;
    if s != [] {
      if s[0] != b && NewId(live, s[0]) == NewId(live, b) { NewIdInjective(live, s[0], b); }
      RenamedIndex(live, s[1..], b);
      assert RenameAll(live, s)[1..] == RenameAll(live, s[1..]);
    }
  }

  function RenameTerminator(live: set<BlockId>, t: Terminator): Terminator {
    match t
    case Jump(target) => Jump(NewId(live, target))
    case Branch(c, thenTarget, elseTarget) => Branch(c, NewId(live, thenTarget), NewId(live, elseTarget))
    case Return(_) => t
  }

  function RenameStmt(live: set<BlockId>, s: SsaStatement): SsaStatement {
    if s.op.Phi? then SsaStatement(s.id, Phi(RenameAll(live, s.op.edges), s.op.values)) else s
  }

  function RenameStmts(live: set<BlockId>, stmts: seq<SsaStatement>): (r: seq<SsaStatement>)
    ensures |r| == |stmts| && forall i :: 0 <= i < |stmts| ==> r[i] == RenameStmt(live, stmts[i])
  {
    seq(|stmts|, i requires 0 <= i < |stmts| => RenameStmt(live, stmts[i]))
  }

  function RenameBlock(live: set<BlockId>, b: SsaBlock): SsaBlock {
    SsaBlock(NewId(live, b.id), RenameStmts(live, b.stmts), RenameTerminator(live, b.terminator),
             RenameAll(live, b.preds), RenameAll(live, b.succs))
  }

  /** A surviving block: edges from deleted blocks gone, the others renumbered. */
  function CompactBlock(live: set<BlockId>, b: SsaBlock): SsaBlock {
    RenameBlock(live, ThinBlock(b, b.terminator, live))
  }

  function Compact(f: SsaFunction, live: set<BlockId>): (g: SsaFunction)
    ensures |g.blocks| == |Order(live, |f.blocks|)|
    ensures forall k: nat :: k < |g.blocks| ==> g.blocks[k] == CompactBlock(live, f.blocks[Order(live, |f.blocks|)[k]])
  {
    var order := Order(live, |f.blocks|);
    SsaFunction(f.params, NewId(live, f.entry), seq(|order|, k requires 0 <= k < |order| => CompactBlock(live, f.blocks[order[k]])))
  }

  ghost function LiveBlocks(f: SsaFunction): (live: set<BlockId>)
    ensures forall b: BlockId :: b in live <==> b < |f.blocks| && Reachable(f, b)
  {
    set b: BlockId | b < |f.blocks| && Reachable(f, b)
  }

  /** The function without its unreachable blocks. */
  ghost function Compacted(f: SsaFunction): SsaFunction {
    Compact(f, LiveBlocks(f))
  }

  // ----- What the surroundings guarantee -----

  /** `live` are the reachable blocks of an accepted function. */
  ghost predicate Surviving(f: SsaFunction, live: set<BlockId>) {
    WellFormed(f) && GraphOk(f) && forall b: BlockId :: b in live <==> b < |f.blocks| && Reachable(f, b)
  }

  lemma LiveSurviving(f: SsaFunction)
    requires WellFormed(f)
    ensures Surviving(f, LiveBlocks(f))
  {
    EdgesGiveGraph(f);
  }

  function OldId(f: SsaFunction, live: set<BlockId>, k: nat): BlockId
    requires k < |Compact(f, live).blocks|
  {
    Order(live, |f.blocks|)[k]
  }

  /** The block that survives as number `k`, and back. */
  lemma OldNew(f: SsaFunction, live: set<BlockId>, k: nat)
    requires k < |Compact(f, live).blocks|
    ensures OldId(f, live, k) in live && OldId(f, live, k) < |f.blocks| && NewId(live, OldId(f, live, k)) == k
    ensures Compact(f, live).blocks[k] == CompactBlock(live, f.blocks[OldId(f, live, k)])
  {
    OrderBack(live, |f.blocks|, k);
  }

  lemma NewOld(f: SsaFunction, live: set<BlockId>, b: BlockId)
    requires b in live && b < |f.blocks|
    ensures NewId(live, b) < |Compact(f, live).blocks| && OldId(f, live, NewId(live, b)) == b
    ensures Compact(f, live).blocks[NewId(live, b)] == CompactBlock(live, f.blocks[b])
  {
    OrderAt(live, |f.blocks|, b);
  }

  /** A surviving block's targets survive, and its other edges come from known blocks. */
  lemma LiveTargets(f: SsaFunction, live: set<BlockId>, b: BlockId)
    requires Surviving(f, live) && b in live
    ensures b < |f.blocks| && f.blocks[b].succs == f.blocks[b].terminator.Targets()
    ensures forall k :: 0 <= k < |f.blocks[b].succs| ==> f.blocks[b].succs[k] in live
  {
    assert BlockEdgesOk(f, b);
    hide WellFormed, Reachable;
    forall k | 0 <= k < |f.blocks[b].succs| ensures f.blocks[b].succs[k] in live {
      assert Edge(f, b, f.blocks[b].succs[k]);
      SuccReachable(f, b, f.blocks[b].succs[k]);
    }
  }

  lemma RenamedTargets(live: set<BlockId>, t: Terminator)
    requires forall k :: 0 <= k < |t.Targets()| ==> t.Targets()[k] in live
    ensures RenameTerminator(live, t).Targets() == RenameAll(live, t.Targets())
    ensures RenameTerminator(live, t).Operands() == t.Operands()
  {
    hide NewId;
    match t
    case Branch(_, a, b) =>
      assert a in live && b in live by { BranchLive(live, t); }
      if a != b && NewId(live, a) == NewId(live, b) { NewIdInjective(live, a, b); }
      assert RenameTerminator(live, t).Targets() == RenameAll(live, t.Targets());
    case Jump(a) =>
      assert RenameTerminator(live, t).Targets() == RenameAll(live, t.Targets());
    case Return(_) =>
      assert RenameTerminator(live, t).Targets() == RenameAll(live, t.Targets());
  }

  lemma BranchLive(live: set<BlockId>, t: Terminator)
    requires t.Branch? && forall k :: 0 <= k < |t.Targets()| ==> t.Targets()[k] in live
    ensures t.thenTarget in live && t.elseTarget in live
  {
    var ts := t.Targets();
    assert ts[0] in live && ts[|ts| - 1] in live;
  }

  // ----- Still well-formed -----

  /** Edges between surviving blocks are the same. */
  lemma CompactEdge(f: SsaFunction, live: set<BlockId>, k: nat, j: BlockId)
    requires Surviving(f, live) && k < |Compact(f, live).blocks|
    ensures Edge(Compact(f, live), k, j) ==> j < |Compact(f, live).blocks| && Edge(f, OldId(f, live, k), OldId(f, live, j))
  {
    hide WellFormed, Pick, Reachable, NewId, Order, GraphOk;
    var g, b := Compact(f, live), OldId(f, live, k);
    OldNew(f, live, k);
    LiveTargets(f, live, b);
    if Edge(g, k, j) {
      var i :| 0 <= i < |g.blocks[k].succs| && g.blocks[k].succs[i] == j;
      var v := f.blocks[b].succs[i];
      NewOld(f, live, v);
    }
  }

  lemma CompactEdgeBack(f: SsaFunction, live: set<BlockId>, u: BlockId, v: BlockId)
    requires Surviving(f, live) && u in live && Edge(f, u, v)
    ensures v in live && Edge(Compact(f, live), NewId(live, u), NewId(live, v))
  {
    hide WellFormed, Pick, Reachable, NewId, Order, GraphOk;
    LiveTargets(f, live, u);
    NewOld(f, live, u);
    var i :| 0 <= i < |f.blocks[u].succs| && f.blocks[u].succs[i] == v;
    assert Compact(f, live).blocks[NewId(live, u)].succs[i] == NewId(live, v);
  }

  function OldPath(f: SsaFunction, live: set<BlockId>, p: seq<BlockId>): (q: seq<BlockId>)
    requires forall i :: 0 <= i < |p| ==> p[i] < |Compact(f, live).blocks|
    ensures |q| == |p| && forall i :: 0 <= i < |p| ==> q[i] == OldId(f, live, p[i])
  {
    seq(|p|, i requires 0 <= i < |p| => OldId(f, live, p[i]))
  }

  lemma EntryNumber(f: SsaFunction, live: set<BlockId>)
    requires Surviving(f, live)
    ensures f.entry in live && f.entry < |f.blocks| && Compact(f, live).entry == NewId(live, f.entry)
    ensures Compact(f, live).entry < |Compact(f, live).blocks| && OldId(f, live, Compact(f, live).entry) == f.entry
  {
    EntryReachable(f);
    NewOld(f, live, f.entry);
  }

  /** A path is a shorter path and one more edge. */
  lemma PathTake(f: SsaFunction, p: seq<BlockId>)
    requires IsPath(f, p) && |p| > 1
    ensures IsPath(f, p[..|p| - 1]) && Edge(f, p[|p| - 2], p[|p| - 1])
  {
    var q := p[..|p| - 1];
    forall i | 0 < i < |q| ensures StepAt(f, q, i) { assert StepAt(f, p, i); }
    assert StepAt(f, p, |p| - 1);
  }

  lemma {:induction false} CompactPath(f: SsaFunction, live: set<BlockId>, p: seq<BlockId>)
    requires Surviving(f, live) && IsPath(Compact(f, live), p)
    ensures forall i :: 0 <= i < |p| ==> p[i] < |Compact(f, live).blocks|
    ensures IsPath(f, OldPath(f, live, p))
    decreases |p|
  {
    hide Surviving, Compact, OldId, IsPath, Edge, OldPath;
    var g := Compact(f, live);
    EntryNumber(f, live);
    PathEnds(g, p);
    if |p| == 1 {
      EntryPath(f);
      assert p == [g.entry];
      assert OldPath(f, live, p) == [f.entry];
    } else {
      var n := |p| - 1;
      PathTake(g, p);
      CompactPath(f, live, p[..n]);
      CompactEdge(f, live, p[n - 1], p[n]);
      OldPathNext(f, live, p[..n], p[n]);
      assert p[..n] + [p[n]] == p;
      PathNext(f, OldPath(f, live, p[..n]), OldId(f, live, p[n]));
    }
  }

  lemma OldPathNext(f: SsaFunction, live: set<BlockId>, p: seq<BlockId>, k: nat)
    requires |p| > 0 && k < |Compact(f, live).blocks| && forall i :: 0 <= i < |p| ==> p[i] < |Compact(f, live).blocks|
    ensures forall i :: 0 <= i < |p + [k]| ==> (p + [k])[i] < |Compact(f, live).blocks|
    ensures OldPath(f, live, p + [k]) == OldPath(f, live, p) + [OldId(f, live, k)]
    ensures OldPath(f, live, p)[|p| - 1] == OldId(f, live, p[|p| - 1])
  {
    hide Compact, OldId;
  }

  lemma EntryPath(f: SsaFunction)
    ensures IsPath(f, [f.entry])
  {
  }

  lemma PathNext(f: SsaFunction, q: seq<BlockId>, v: BlockId)
    requires IsPath(f, q) && Edge(f, q[|q| - 1], v)
    ensures IsPath(f, q + [v])
  {
    ExtendPath(f, q, q[|q| - 1], v);
  }

  lemma PathEnds(f: SsaFunction, q: seq<BlockId>)
    requires IsPath(f, q)
    ensures |q| > 0 && q[0] == f.entry
  {
  }

  /** What dominates a surviving block survives, and still dominates it. */
  lemma CompactDominates(f: SsaFunction, live: set<BlockId>, d: BlockId, b: BlockId)
    requires Surviving(f, live) && b in live && Dominates(f, d, b)
    ensures d in live && Dominates(Compact(f, live), NewId(live, d), NewId(live, b))
  {
    var g := Compact(f, live);
    DominatorLive(f, live, d, b);
    NewOld(f, live, b);
    hide Surviving, Compact, NewId, Order;
    forall p | PathTo(g, p, NewId(live, b)) ensures NewId(live, d) in p {
      CompactPath(f, live, p);
      var q := OldPath(f, live, p);
      assert PathTo(f, q, b);
      var i :| 0 <= i < |q| && q[i] == d;
      OldNew(f, live, p[i]);
    }
  }

  lemma DominatorLive(f: SsaFunction, live: set<BlockId>, d: BlockId, b: BlockId)
    requires Surviving(f, live) && b in live && Dominates(f, d, b)
    ensures d in live
  {
    var p :| PathTo(f, p, b);
    var i :| 0 <= i < |p| && p[i] == d;
    PathPrefix(f, p, i);
    ReachableInRange(f, d);
  }

  lemma {:induction false} CompactPreds(f: SsaFunction, live: set<BlockId>, v: BlockId, n: nat)
    requires Surviving(f, live) && v in live && n <= |f.blocks|
    ensures NewId(live, n) <= |Compact(f, live).blocks|
    ensures PredList(Compact(f, live), NewId(live, v), NewId(live, n)) == RenameAll(live, Pick(PredList(f, v, n), PredList(f, v, n), live))
    decreases n
  {
    hide Surviving, Compact, Pick, PredList, NewId, Order;
    if n == 0 {
      NoPreds(f, v);
      NoPreds(Compact(f, live), NewId(live, v));
      EmptyPick([], live);
      assert NewId(live, 0) == 0 by { NewIdZero(live); }
    } else {
      CompactPreds(f, live, v, n - 1);
      NewIdNext(live, n - 1);
      PredNext(f, v, n);
      PickNext(PredList(f, v, n - 1), n - 1, live);
      if n - 1 in live {
        NewOld(f, live, n - 1);
        CompactJump(f, live, n - 1, v);
        PredNext(Compact(f, live), NewId(live, v), NewId(live, n));
      }
    }
  }

  lemma NewIdZero(live: set<BlockId>)
    ensures NewId(live, 0) == 0
  {
  }

  lemma NewIdNext(live: set<BlockId>, b: BlockId)
    ensures NewId(live, b + 1) == NewId(live, b) + (if b in live then 1 else 0)
  {
  }

  lemma CompactJump(f: SsaFunction, live: set<BlockId>, u: BlockId, v: BlockId)
    requires Surviving(f, live) && u in live && v in live
    ensures u < |f.blocks| && NewId(live, u) < |Compact(f, live).blocks|
    ensures NewId(live, v) in Compact(f, live).blocks[NewId(live, u)].terminator.Targets() <==> v in f.blocks[u].terminator.Targets()
  {
    hide WellFormed, Pick, NewId, Order, GraphOk;
    LiveTargets(f, live, u);
    NewOld(f, live, u);
    RenamedTargets(live, f.blocks[u].terminator);
    RenamedMember(live, f.blocks[u].terminator.Targets(), v);
  }

  lemma CompactBlockEdges(f: SsaFunction, live: set<BlockId>, k: nat)
    requires Surviving(f, live) && k < |Compact(f, live).blocks|
    ensures var g := Compact(f, live);
            BlockEdgesOk(g, k) && g.blocks[k].preds == PredList(g, k, |g.blocks|) && g.blocks[k].id == k
  {
    var g, v := Compact(f, live), OldId(f, live, k);
    OldNew(f, live, k);
    assert f.blocks[v].id == v && f.blocks[v].preds == PredList(f, v, |f.blocks|);
    hide WellFormed, Pick, PredList, NewId, Order, GraphOk;
    LiveTargets(f, live, v);
    RenamedTargets(live, f.blocks[v].terminator);
    CompactPreds(f, live, v, |f.blocks|);
    assert NewId(live, |f.blocks|) == |g.blocks| by { AllNumbered(f, live); }
    forall j | 0 <= j < |g.blocks[k].succs| ensures g.blocks[k].succs[j] < |g.blocks| {
      NewOld(f, live, f.blocks[v].succs[j]);
    }
  }

  lemma AllNumbered(f: SsaFunction, live: set<BlockId>)
    ensures NewId(live, |f.blocks|) == |Compact(f, live).blocks|
  {
  }

  lemma CompactGraph(f: SsaFunction, live: set<BlockId>)
    requires Surviving(f, live)
    ensures StructureOk(Compact(f, live)) && EdgesOk(Compact(f, live))
  {
    var g := Compact(f, live);
    EntryNumber(f, live);
    assert f.blocks[f.entry].preds == [];
    EmptyPick(f.blocks[f.entry].preds, live);
    OldNew(f, live, g.entry);
    assert g.blocks[g.entry].preds == [];
    hide WellFormed, Pick, PredList, NewId, Order, GraphOk, Compact, BlockEdgesOk, Surviving;
    forall k: BlockId | k < |g.blocks|
      ensures BlockEdgesOk(g, k) && g.blocks[k].preds == PredList(g, k, |g.blocks|) && g.blocks[k].id == k
    {
      CompactBlockEdges(f, live, k);
    }
  }

  lemma CompactSite(f: SsaFunction, live: set<BlockId>, id: ValueId, k: nat, i: nat)
    requires k < |Compact(f, live).blocks|
    ensures DefAt(Compact(f, live), id, k, i) <==> DefAt(f, id, OldId(f, live, k), i)
  {
    OldNew(f, live, k);
    hide Pick, NewId, Order;
  }

  lemma CompactUnique(f: SsaFunction, live: set<BlockId>)
    requires Surviving(f, live)
    ensures UniqueDefs(Compact(f, live))
  {
    var g := Compact(f, live);
    assert UniqueDefs(f);
    hide Surviving, Compact, OldId, NewId;
    forall id: ValueId, b: BlockId, i: nat, c: BlockId, j: nat | DefAt(g, id, b, i) && DefAt(g, id, c, j) ensures b == c && i == j {
      CompactSite(f, live, id, b, i);
      CompactSite(f, live, id, c, j);
      OldNew(f, live, b);
      OldNew(f, live, c);
    }
  }

  lemma CompactPhis(f: SsaFunction, live: set<BlockId>)
    requires Surviving(f, live)
    ensures PhisOk(Compact(f, live))
  {
    var g := Compact(f, live);
    assert PhisOk(f);
    hide Surviving, Pick, NewId, Order, OldId, Compact;
    forall k: BlockId, i: nat | k < |g.blocks| && i < |g.blocks[k].stmts| ensures PhiOk(g, k, i) {
      var b := OldId(f, live, k);
      OldNew(f, live, k);
      assert PhiOk(f, b, i);
      var op := f.blocks[b].stmts[i].op;
      if op.Phi? { PickLength(op.edges, op.edges, op.values, live); }
    }
  }

  lemma CompactUse(f: SsaFunction, live: set<BlockId>, v: SsaValue, b: BlockId, i: nat)
    requires Surviving(f, live) && b in live && UseOk(f, v, b, i)
    ensures UseOk(Compact(f, live), v, NewId(live, b), i)
  {
    var g := Compact(f, live);
    assert g.params == f.params;
    hide Surviving, Compact, Dominates, NewId, OldId;
    if v.Def? {
      var d: BlockId, di: nat :| DefAt(f, v.id, d, di) && SiteBefore(f, d, di, b, i);
      if d != b { CompactDominates(f, live, d, b); }
      NewOld(f, live, d);
      CompactSite(f, live, v.id, NewId(live, d), di);
      if NewId(live, d) == NewId(live, b) { NewIdInjective(live, d, b); }
      assert SiteBefore(g, NewId(live, d), di, NewId(live, b), i);
    }
  }

  lemma CompactPhiUse(f: SsaFunction, live: set<BlockId>, v: SsaValue, u: BlockId)
    requires Surviving(f, live) && u in live && PhiUseOk(f, v, u)
    ensures PhiUseOk(Compact(f, live), v, NewId(live, u))
  {
    var g := Compact(f, live);
    assert g.params == f.params;
    hide Surviving, Compact, Dominates, NewId, OldId;
    if v.Def? {
      var d: BlockId, di: nat :| DefAt(f, v.id, d, di) && Dominates(f, d, u);
      CompactDominates(f, live, d, u);
      NewOld(f, live, d) by { assert d < |f.blocks|; }
      CompactSite(f, live, v.id, NewId(live, d), di);
    }
  }

  lemma CompactStmtUses(f: SsaFunction, live: set<BlockId>, k: nat, i: nat)
    requires Surviving(f, live) && k < |Compact(f, live).blocks| && i < |Compact(f, live).blocks[k].stmts|
    ensures StmtUsesOk(Compact(f, live), k, i)
  {
    var g, b := Compact(f, live), OldId(f, live, k);
    OldNew(f, live, k);
    assert BlockUsesOk(f, b) && PhiOk(f, b, i);
    assert StmtUsesOk(f, b, i);
    hide WellFormed, Compact, UseOk, PhiUseOk, Pick, Reachable, NewId, Order, OldId, GraphOk;
    var op := f.blocks[b].stmts[i].op;
    if op.Phi? {
      var edges, values := Pick(op.edges, op.edges, live), Pick(op.edges, op.values, live);
      assert g.blocks[k].stmts[i].op == Phi(RenameAll(live, edges), values);
      forall j | 0 <= j < |edges| && j < |values| && values[j].Some?
        ensures PhiUseOk(g, values[j].value, NewId(live, edges[j]))
      {
        var e := PickPairs(op.edges, op.values, live, j);
        CompactPhiUse(f, live, values[j].value, edges[j]);
      }
    } else {
      assert g.blocks[k].stmts[i].op == op;
      forall j | 0 <= j < |Operands(op)| ensures UseOk(g, Operands(op)[j], k, i) {
        CompactUse(f, live, Operands(op)[j], b, i);
      }
    }
  }

  lemma CompactBlockUses(f: SsaFunction, live: set<BlockId>, k: nat)
    requires Surviving(f, live) && k < |Compact(f, live).blocks|
    ensures BlockUsesOk(Compact(f, live), k)
  {
    var g, b := Compact(f, live), OldId(f, live, k);
    OldNew(f, live, k);
    assert BlockUsesOk(f, b);
    LiveTargets(f, live, b);
    RenamedTargets(live, f.blocks[b].terminator);
    hide WellFormed, UseOk, StmtUsesOk, Pick, Reachable, NewId, Order, OldId, GraphOk;
    forall i | 0 <= i < |g.blocks[k].stmts| ensures StmtUsesOk(g, k, i) { CompactStmtUses(f, live, k, i); }
    var vs := f.blocks[b].terminator.Operands();
    forall j | 0 <= j < |vs| ensures UseOk(g, vs[j], k, |g.blocks[k].stmts|) {
      CompactUse(f, live, vs[j], b, |f.blocks[b].stmts|);
    }
  }

  lemma CompactWellFormed(f: SsaFunction, live: set<BlockId>)
    requires Surviving(f, live)
    ensures WellFormed(Compact(f, live))
  {
    hide Surviving, Compact, StructureOk, EdgesOk, UniqueDefs, PhisOk, BlockUsesOk, Reachable;
    CompactGraph(f, live);
    CompactUnique(f, live);
    CompactPhis(f, live);
    var g := Compact(f, live);
    forall k: BlockId | k < |g.blocks| ensures BlockUsesOk(g, k) { CompactBlockUses(f, live, k); }
    UsesFromBlocks(g);
  }

  // ----- Every block is reachable -----

  lemma {:induction false} PathKept(f: SsaFunction, live: set<BlockId>, p: seq<BlockId>)
    requires Surviving(f, live) && IsPath(f, p)
    ensures forall i :: 0 <= i < |p| ==> p[i] in live
    ensures IsPath(Compact(f, live), RenameAll(live, p))
    decreases |p|
  {
    hide Surviving, Compact, NewId, IsPath, Edge, RenameAll;
    var g := Compact(f, live);
    EntryNumber(f, live);
    PathEnds(f, p);
    if |p| == 1 {
      EntryPath(g);
      assert p == [f.entry];
      assert RenameAll(live, p) == [g.entry];
    } else {
      var n := |p| - 1;
      PathTake(f, p);
      PathKept(f, live, p[..n]);
      assert p[..n][n - 1] == p[n - 1];
      CompactEdgeBack(f, live, p[n - 1], p[n]);
      assert p[..n] + [p[n]] == p;
      forall i | 0 <= i < |p| ensures p[i] in live { if i < n { assert p[..n][i] == p[i]; } }
      assert RenameAll(live, p) == RenameAll(live, p[..n]) + [NewId(live, p[n])];
      PathNext(g, RenameAll(live, p[..n]), NewId(live, p[n]));
    }
  }

  lemma CompactReachable(f: SsaFunction, live: set<BlockId>, k: nat)
    requires Surviving(f, live) && k < |Compact(f, live).blocks|
    ensures Reachable(Compact(f, live), k)
  {
    OldNew(f, live, k);
    var p :| PathTo(f, p, OldId(f, live, k));
    PathKept(f, live, p);
    hide Surviving, Compact, OldId, NewId;
    assert PathTo(Compact(f, live), RenameAll(live, p), k);
  }

  // ----- The same runs -----

  lemma RenamedSamePhis<V(!new), W(!new)>(m: Machine<V, W>, args: seq<V>, live: set<BlockId>, stmts: seq<SsaStatement>, pos: nat,
                                          thin: seq<SsaStatement>, pos': nat)
    requires SamePhis(m, args, stmts, pos, thin, pos')
    ensures SamePhis(m, args, stmts, pos, RenameStmts(live, thin), pos')
  {
    hide Eval, NewId;
    forall i: nat | i < |stmts| ensures SameStmt(m, args, stmts[i], pos, RenameStmts(live, thin)[i], pos') {
      assert SameStmt(m, args, stmts[i], pos, thin[i], pos');
    }
  }

  lemma RenamedLeave<V, W>(m: Machine<V, W>, args: seq<V>, live: set<BlockId>, t: Terminator, env: map<ValueId, V>, w: W)
    ensures RunTerminator(m, args, RenameTerminator(live, t), env, w) ==
            match RunTerminator(m, args, t, env, w) case Goto(b) => Goto(NewId(live, b)) case Done(o) => Done(o)
  {
    hide NewId;
  }

  function RenameFrom(live: set<BlockId>, from: Option<BlockId>): Option<BlockId> {
    match from case None => None case Some(u) => Some(NewId(live, u))
  }

  /** How a run can be at a surviving block. */
  ghost predicate ComesFrom(f: SsaFunction, live: set<BlockId>, b: BlockId, from: Option<BlockId>) {
    b in live && b < |f.blocks| &&
    match from case None => f.blocks[b].preds == [] case Some(u) => u in live && u in f.blocks[b].preds
  }

  lemma CompactSamePhis<V(!new), W(!new)>(m: Machine<V, W>, args: seq<V>, f: SsaFunction, live: set<BlockId>, b: BlockId, from: Option<BlockId>)
    requires Surviving(f, live) && ComesFrom(f, live, b, from)
    ensures var g := Compact(f, live);
            && NewId(live, b) < |g.blocks|
            && SamePhis(m, args, f.blocks[b].stmts, EdgePosition(f, b, from), g.blocks[NewId(live, b)].stmts,
                        EdgePosition(g, NewId(live, b), RenameFrom(live, from)))
  {
    NewOld(f, live, b);
    assert PhisOk(f);
    hide Surviving, Pick, NewId, Order, SamePhis, Compact, PhisOk;
    var preds := f.blocks[b].preds;
    ThinSamePhis(m, args, f, b, from, live);
    RenamedSamePhis(m, args, live, f.blocks[b].stmts, EdgePosition(f, b, from), ThinStmts(f.blocks[b].stmts, live),
                    if from.None? then 0 else FirstIndex(Pick(preds, preds, live), from.value));
    if from.Some? {
      PickedLive(preds, live);
      RenamedIndex(live, Pick(preds, preds, live), from.value);
    }
  }

  lemma PickedLive(edges: seq<BlockId>, live: set<BlockId>)
    ensures forall k :: 0 <= k < |Pick(edges, edges, live)| ==> Pick(edges, edges, live)[k] in live
  {
    forall k | 0 <= k < |Pick(edges, edges, live)| ensures Pick(edges, edges, live)[k] in live {
      PickMembers(edges, live, Pick(edges, edges, live)[k]);
    }
  }

  lemma NextComes(f: SsaFunction, live: set<BlockId>, b: BlockId, v: BlockId)
    requires Surviving(f, live) && b in live && v in f.blocks[b].terminator.Targets()
    ensures b < |f.blocks| && ComesFrom(f, live, v, Some(b))
  {
    LiveTargets(f, live, b);
    hide WellFormed, Reachable;
    assert Edge(f, b, v);
    assert BackEdge(f, b, v);
    var k :| 0 <= k < |f.blocks[b].succs| && f.blocks[b].succs[k] == v;
  }

  /** One block of a run. */
  lemma RunUnfolds<V, W>(m: Machine<V, W>, args: seq<V>, f: SsaFunction, fuel: nat, b: BlockId, from: Option<BlockId>, env: map<ValueId, V>, w: W)
    requires fuel > 0 && b < |f.blocks|
    ensures Run(m, args, f, fuel, b, from, env, w) ==
            match RunStmts(m, args, env, EdgePosition(f, b, from), f.blocks[b].stmts, env, w)
            case Stop(o) => o
            case Next(env', w') =>
              (match RunTerminator(m, args, f.blocks[b].terminator, env', w')
               case Done(o) => o
               case Goto(t) => Run(m, args, f, fuel - 1, t, Some(b), env', w'))
  {
    hide RunStmts, RunTerminator, EdgePosition;
  }

  /** A surviving block does what it did before, and leaves for the renumbered target. */
  lemma CompactBlockRun<V(!new), W(!new)>(m: Machine<V, W>, args: seq<V>, f: SsaFunction, live: set<BlockId>,
                                          b: BlockId, from: Option<BlockId>, env: map<ValueId, V>, w: W)
    requires Surviving(f, live) && ComesFrom(f, live, b, from)
    ensures var g, k := Compact(f, live), NewId(live, b);
            && k < |g.blocks| && g.blocks[k].terminator == RenameTerminator(live, f.blocks[b].terminator)
            && RunStmts(m, args, env, EdgePosition(g, k, RenameFrom(live, from)), g.blocks[k].stmts, env, w) ==
               RunStmts(m, args, env, EdgePosition(f, b, from), f.blocks[b].stmts, env, w)
  {
    var g, k := Compact(f, live), NewId(live, b);
    NewOld(f, live, b);
    CompactSamePhis(m, args, f, live, b, from);
    hide Surviving, Pick, RunStmts, ThinStmts, Compact, NewId, Order, SamePhis, RenameTerminator, EdgePosition;
    SameRunStmts(m, args, env, f.blocks[b].stmts, EdgePosition(f, b, from), g.blocks[k].stmts, EdgePosition(g, k, RenameFrom(live, from)), env, w);
  }

  lemma {:induction false} CompactRun<V(!new), W(!new)>(m: Machine<V, W>, args: seq<V>, f: SsaFunction, live: set<BlockId>, fuel: nat,
                                                        b: BlockId, from: Option<BlockId>, env: map<ValueId, V>, w: W)
    requires Surviving(f, live) && ComesFrom(f, live, b, from)
    ensures Run(m, args, Compact(f, live), fuel, NewId(live, b), RenameFrom(live, from), env, w) == Run(m, args, f, fuel, b, from, env, w)
    decreases fuel
  {
    hide Surviving, RunStmts, RunTerminator, Compact, NewId, RenameTerminator, ComesFrom, Run, EdgePosition;
    var g, k := Compact(f, live), NewId(live, b);
    LiveFrom(f, live, b, from);
    if fuel == 0 {
      RunNowhere(m, args, f, b, from, env, w);
      RunNowhere(m, args, g, k, RenameFrom(live, from), env, w);
    } else {
      CompactBlockRun(m, args, f, live, b, from, env, w);
      RunUnfolds(m, args, f, fuel, b, from, env, w);
      RunUnfolds(m, args, g, fuel, k, RenameFrom(live, from), env, w);
      var r := RunStmts(m, args, env, EdgePosition(f, b, from), f.blocks[b].stmts, env, w);
      if r.Next? {
        var t := f.blocks[b].terminator;
        RenamedLeave(m, args, live, t, r.env, r.world);
        TargetOfRun(m, args, t, r.env, r.world);
        var l := RunTerminator(m, args, t, r.env, r.world);
        if l.Goto? {
          NextComes(f, live, b, l.target);
          CompactRun(m, args, f, live, fuel - 1, l.target, Some(b), r.env, r.world);
        }
      }
    }
  }

  lemma RunNowhere<V, W>(m: Machine<V, W>, args: seq<V>, f: SsaFunction, b: BlockId, from: Option<BlockId>, env: map<ValueId, V>, w: W)
    ensures Run(m, args, f, 0, b, from, env, w) == OutOfFuel
  {
  }

  lemma LiveFrom(f: SsaFunction, live: set<BlockId>, b: BlockId, from: Option<BlockId>)
    requires ComesFrom(f, live, b, from)
    ensures b in live && b < |f.blocks|
  {
  }

  // ----- What deleting unreachable blocks keeps -----

  /** The verifier still accepts the function, of which every block is now reachable. */
  lemma CompactingKeepsWellFormed(f: SsaFunction)
    requires WellFormed(f)
    ensures WellFormed(Compacted(f))
    ensures forall k: BlockId :: k < |Compacted(f).blocks| ==> Reachable(Compacted(f), k)
  {
    LiveSurviving(f);
    hide Surviving, Compact, WellFormed, Reachable;
    CompactWellFormed(f, LiveBlocks(f));
    forall k: BlockId | k < |Compacted(f).blocks| ensures Reachable(Compacted(f), k) {
      CompactReachable(f, LiveBlocks(f), k);
    }
  }

  /** Every run is the same, block for block under the renumbering. */
  lemma CompactingPreservesRuns<V(!new), W(!new)>(m: Machine<V, W>, args: seq<V>, f: SsaFunction, fuel: nat, w: W)
    requires WellFormed(f)
    ensures Start(m, args, Compacted(f), fuel, w) == Start(m, args, f, fuel, w)
  {
    var live := LiveBlocks(f);
    LiveSurviving(f);
    EntryNumber(f, live);
    EntryAlone(f);
    hide Surviving, Compact, WellFormed, Reachable;
    CompactRun(m, args, f, live, fuel, f.entry, None, map[], w);
  }
}
