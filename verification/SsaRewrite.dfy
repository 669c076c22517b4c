/** What the passes share: dropping statements and keeping the graph. */
module SsaRewrite {
  import opened Options
  import opened SsaModel
  import opened SsaVerify

  // ----- Rewrites that keep the graph -----

  /** Same blocks, edges and branch targets; statements and operands may differ. */
  ghost predicate SameGraph(f: SsaFunction, g: SsaFunction) {
    && f.entry == g.entry && f.params == g.params && |f.blocks| == |g.blocks|
    && forall b: BlockId :: b < |f.blocks| ==> SameEdges(f, g, b)
  }

  ghost predicate SameEdges(f: SsaFunction, g: SsaFunction, b: BlockId)
    requires b < |f.blocks| == |g.blocks|
  {
    && f.blocks[b].id == g.blocks[b].id
    && f.blocks[b].preds == g.blocks[b].preds
    && f.blocks[b].succs == g.blocks[b].succs
    && f.blocks[b].terminator.Targets() == g.blocks[b].terminator.Targets()
  }

  lemma SameGraphSym(f: SsaFunction, g: SsaFunction)
    requires SameGraph(f, g)
    ensures SameGraph(g, f)
  {
    forall b: BlockId | b < |g.blocks| ensures SameEdges(g, f, b) {
      assert SameEdges(f, g, b);
    }
  }

  lemma SameGraphPaths(f: SsaFunction, g: SsaFunction, p: seq<BlockId>, b: BlockId)
    requires SameGraph(f, g) && PathTo(f, p, b)
    ensures PathTo(g, p, b)
  {
    forall i | 0 < i < |p| ensures StepAt(g, p, i) {
      assert StepAt(f, p, i);
      assert SameEdges(f, g, p[i - 1]);
    }
  }

  lemma SameGraphFlow(f: SsaFunction, g: SsaFunction, a: BlockId, b: BlockId)
    requires SameGraph(f, g)
    ensures Reachable(f, b) <==> Reachable(g, b)
    ensures Dominates(f, a, b) <==> Dominates(g, a, b)
  {
    SameGraphSym(f, g);
    if p :| PathTo(f, p, b) { SameGraphPaths(f, g, p, b); }
    if p :| PathTo(g, p, b) { SameGraphPaths(g, f, p, b); }
    if Dominates(f, a, b) {
      forall p | PathTo(g, p, b) ensures a in p { SameGraphPaths(g, f, p, b); }
    }
    if Dominates(g, a, b) {
      forall p | PathTo(f, p, b) ensures a in p { SameGraphPaths(f, g, p, b); }
    }
  }

  lemma {:induction false} SamePredList(f: SsaFunction, g: SsaFunction, v: BlockId, n: nat)
    requires SameGraph(f, g) && n <= |f.blocks|
    ensures PredList(f, v, n) == PredList(g, v, n)
  {
    if n > 0 {
      SamePredList(f, g, v, n - 1);
      assert SameEdges(f, g, n - 1);
    }
  }

  lemma SameGraphOk(f: SsaFunction, g: SsaFunction)
    requires SameGraph(f, g) && StructureOk(f) && EdgesOk(f)
    ensures StructureOk(g) && EdgesOk(g)
  {
    forall b: BlockId | b < |f.blocks|
      ensures BlockEdgesOk(g, b) && g.blocks[b].id == b && g.blocks[b].preds == PredList(g, b, |g.blocks|)
    {
      assert SameEdges(f, g, b) && BlockEdgesOk(f, b);
      SamePredList(f, g, b, |f.blocks|);
    }
    assert SameEdges(f, g, f.entry);
  }

  // ----- Dropping statements -----

  function Retain(stmts: seq<SsaStatement>, keep: ValueId -> bool): seq<SsaStatement> {
    if stmts == [] then [] else
      (if keep(stmts[0].id) then [stmts[0]] else []) + Retain(stmts[1..], keep)
  }

  /** Where the statement at `i` ends up. */
  function NewIndex(stmts: seq<SsaStatement>, keep: ValueId -> bool, i: nat): nat
    requires i <= |stmts|
  {
    |Retain(stmts[..i], keep)|
  }

  lemma {:induction false} RetainSplit(stmts: seq<SsaStatement>, keep: ValueId -> bool, i: nat)
    requires i <= |stmts|
    ensures Retain(stmts, keep) == Retain(stmts[..i], keep) + Retain(stmts[i..], keep)
  {
    if i == 0 {
      assert stmts[..0] == [] && stmts[0..] == stmts;
    } else {
      RetainSplit(stmts[1..], keep, i - 1);
      assert stmts[..i][1..] == stmts[1..][..i - 1];
      assert stmts[i..] == stmts[1..][i - 1..];
    }
  }

  lemma RetainedAt(stmts: seq<SsaStatement>, keep: ValueId -> bool, i: nat)
    requires i < |stmts| && keep(stmts[i].id)
    ensures NewIndex(stmts, keep, i) < |Retain(stmts, keep)|
    ensures Retain(stmts, keep)[NewIndex(stmts, keep, i)] == stmts[i]
  {
    RetainSplit(stmts, keep, i);
    assert stmts[i..][0] == stmts[i];
  }

  lemma NewIndexStep(stmts: seq<SsaStatement>, keep: ValueId -> bool, i: nat)
    requires i < |stmts|
    ensures NewIndex(stmts, keep, i + 1) == NewIndex(stmts, keep, i) + (if keep(stmts[i].id) then 1 else 0)
  {
    var s := stmts[..i + 1];
    RetainSplit(s, keep, i);
    assert s[..i] == stmts[..i] && s[i..] == [stmts[i]];
    assert Retain([stmts[i]], keep) == if keep(stmts[i].id) then [stmts[i]] else [];
  }

  lemma {:induction false} NewIndexMonotone(stmts: seq<SsaStatement>, keep: ValueId -> bool, i: nat, j: nat)
    requires i < j <= |stmts| && keep(stmts[i].id)
    ensures NewIndex(stmts, keep, i) < NewIndex(stmts, keep, j)
    decreases j
  {
    NewIndexStep(stmts, keep, j - 1);
    if i < j - 1 { NewIndexMonotone(stmts, keep, i, j - 1); }
  }

  /** Every retained statement comes from a kept one. */
  lemma {:induction false} OldIndex(stmts: seq<SsaStatement>, keep: ValueId -> bool, k: nat) returns (i: nat)
    requires k < |Retain(stmts, keep)|
    ensures i < |stmts| && keep(stmts[i].id) && NewIndex(stmts, keep, i) == k && stmts[i] == Retain(stmts, keep)[k]
    decreases |stmts|
  {
    var n := |stmts| - 1;
    var front := stmts[..n];
    RetainSplit(stmts, keep, n);
    assert stmts[n..] == [stmts[n]];
    if k < |Retain(front, keep)| {
      i := OldIndex(front, keep, k);
      assert front[..i] == stmts[..i];
    } else {
      i := n;
    }
  }

  lemma NewIndexEnd(stmts: seq<SsaStatement>, keep: ValueId -> bool)
    ensures NewIndex(stmts, keep, |stmts|) == |Retain(stmts, keep)|
  {
    assert stmts[..|stmts|] == stmts;
  }

  function DropBlock(b: SsaBlock, keep: ValueId -> bool): SsaBlock {
    b.(stmts := Retain(b.stmts, keep))
  }

  function Dropped(f: SsaFunction, keep: ValueId -> bool): (g: SsaFunction)
    ensures |g.blocks| == |f.blocks|
  {
    f.(blocks := seq(|f.blocks|, b requires 0 <= b < |f.blocks| => DropBlock(f.blocks[b], keep)))
  }

  /** Exactly the statements to keep are kept. */
  lemma {:induction false} RetainedExactly(stmts: seq<SsaStatement>, keep: ValueId -> bool, x: SsaStatement)
    ensures x in Retain(stmts, keep) <==> x in stmts && keep(x.id)
  {
    if stmts != [] { RetainedExactly(stmts[1..], keep, x); }
  }

  // ----- Operands -----

  function ValueDefs(vs: seq<SsaValue>): (ids: set<ValueId>)
    ensures forall id :: id in ids <==> Def(id) in vs
  {
    set v | v in vs && v.Def? :: v.id
  }

  /** Definition ids read by an operation, phi incoming values included. */
  function OperandDefs(op: SsaOp): (ids: set<ValueId>)
    ensures !op.Phi? ==> forall id :: id in ids <==> Def(id) in Operands(op)
    ensures op.Phi? ==> forall id :: id in ids <==> Some(Def(id)) in op.values
  {
    match op
    case Phi(_, values) => set v | v in values && v.Some? && v.value.Def? :: v.value.id
    case _ => ValueDefs(Operands(op))
  }

  ghost predicate StmtSupported(s: SsaStatement, keep: ValueId -> bool) {
    keep(s.id) ==> forall id :: id in OperandDefs(s.op) ==> keep(id)
  }

  ghost predicate BlockSupported(b: SsaBlock, keep: ValueId -> bool) {
    && (forall i :: 0 <= i < |b.stmts| ==> StmtSupported(b.stmts[i], keep))
    && (forall id :: id in ValueDefs(b.terminator.Operands()) ==> keep(id))
  }

  /** Nothing kept reads a dropped definition. */
  ghost predicate Supported(f: SsaFunction, keep: ValueId -> bool) {
    forall b :: 0 <= b < |f.blocks| ==> BlockSupported(f.blocks[b], keep)
  }

  // ----- Dropping unread definitions keeps a function well-formed -----

  lemma DroppedGraph(f: SsaFunction, keep: ValueId -> bool)
    ensures SameGraph(f, Dropped(f, keep))
  {
    forall b: BlockId | b < |f.blocks| ensures SameEdges(f, Dropped(f, keep), b) {
      assert Dropped(f, keep).blocks[b] == DropBlock(f.blocks[b], keep);
    }
  }

  lemma DroppedSite(f: SsaFunction, keep: ValueId -> bool, id: ValueId, b: BlockId, i: nat)
    requires DefAt(f, id, b, i) && keep(id)
    ensures DefAt(Dropped(f, keep), id, b, NewIndex(f.blocks[b].stmts, keep, i))
  {
    RetainedAt(f.blocks[b].stmts, keep, i);
  }

  lemma OldSite(f: SsaFunction, keep: ValueId -> bool, id: ValueId, b: BlockId, k: nat) returns (i: nat)
    requires DefAt(Dropped(f, keep), id, b, k)
    ensures DefAt(f, id, b, i) && keep(id) && k == NewIndex(f.blocks[b].stmts, keep, i)
  {
    i := OldIndex(f.blocks[b].stmts, keep, k);
  }

  lemma DroppedUse(f: SsaFunction, keep: ValueId -> bool, v: SsaValue, b: BlockId, i: nat)
    requires b < |f.blocks| && i <= |f.blocks[b].stmts|
    requires UseOk(f, v, b, i) && (v.Def? ==> keep(v.id))
    ensures UseOk(Dropped(f, keep), v, b, NewIndex(f.blocks[b].stmts, keep, i))
  {
    hide Dominates, Retain;
    var g := Dropped(f, keep);
    if v.Def? {
      var d: BlockId, di: nat :| DefAt(f, v.id, d, di) && SiteBefore(f, d, di, b, i);
      DroppedSite(f, keep, v.id, d, di);
      var dj := NewIndex(f.blocks[d].stmts, keep, di);
      DroppedGraph(f, keep);
      SameGraphFlow(f, g, d, b);
      if d == b { NewIndexMonotone(f.blocks[b].stmts, keep, di, i); }
      assert SiteBefore(g, d, dj, b, NewIndex(f.blocks[b].stmts, keep, i));
    }
  }

  lemma DroppedPhiUse(f: SsaFunction, keep: ValueId -> bool, v: SsaValue, u: BlockId)
    requires PhiUseOk(f, v, u) && (v.Def? ==> keep(v.id))
    ensures PhiUseOk(Dropped(f, keep), v, u)
  {
    hide Dominates, Retain;
    if v.Def? {
      var d: BlockId, di: nat :| DefAt(f, v.id, d, di) && Dominates(f, d, u);
      DroppedSite(f, keep, v.id, d, di);
      DroppedGraph(f, keep);
      SameGraphFlow(f, Dropped(f, keep), d, u);
    }
  }

  lemma DroppedStmtUses(f: SsaFunction, keep: ValueId -> bool, b: BlockId, k: nat)
    requires b < |f.blocks| && BlockUsesOk(f, b) && BlockSupported(f.blocks[b], keep)
    requires k < |Dropped(f, keep).blocks[b].stmts|
    ensures StmtUsesOk(Dropped(f, keep), b, k)
  {
    hide Reachable, UseOk, PhiUseOk, Retain;
    var g := Dropped(f, keep);
    var i := OldIndex(f.blocks[b].stmts, keep, k);
    assert StmtUsesOk(f, b, i) && StmtSupported(f.blocks[b].stmts[i], keep);
    match f.blocks[b].stmts[i].op
    case Phi(edges, values) =>
      forall j | 0 <= j < |edges| && j < |values| && values[j].Some? && Reachable(g, edges[j])
        ensures PhiUseOk(g, values[j].value, edges[j])
      {
        DroppedGraph(f, keep);
        SameGraphFlow(f, g, edges[j], edges[j]);
        DroppedPhiUse(f, keep, values[j].value, edges[j]);
      }
    case op =>
      forall j | 0 <= j < |Operands(op)| ensures UseOk(g, Operands(op)[j], b, k) {
        DroppedUse(f, keep, Operands(op)[j], b, i);
      }
  }

  lemma DroppedBlockUses(f: SsaFunction, keep: ValueId -> bool, b: BlockId)
    requires b < |f.blocks| && BlockUsesOk(f, b) && BlockSupported(f.blocks[b], keep)
    ensures BlockUsesOk(Dropped(f, keep), b)
  {
    hide UseOk, StmtUsesOk, Retain;
    var g := Dropped(f, keep);
    forall k | 0 <= k < |g.blocks[b].stmts| ensures StmtUsesOk(g, b, k) {
      DroppedStmtUses(f, keep, b, k);
    }
    var vs := f.blocks[b].terminator.Operands();
    forall k | 0 <= k < |vs| ensures UseOk(g, vs[k], b, |g.blocks[b].stmts|) {
      NewIndexEnd(f.blocks[b].stmts, keep);
      DroppedUse(f, keep, vs[k], b, |f.blocks[b].stmts|);
    }
  }

  lemma DroppedPhi(f: SsaFunction, keep: ValueId -> bool, b: BlockId, k: nat)
    requires PhisOk(f) && b < |f.blocks| && k < |Dropped(f, keep).blocks[b].stmts|
    ensures PhiOk(Dropped(f, keep), b, k)
  {
    hide Retain;
    var stmts := f.blocks[b].stmts;
    var i := OldIndex(stmts, keep, k);
    assert PhiOk(f, b, i);
    if stmts[i].op.Phi? {
      forall j | 0 <= j < k ensures Retain(stmts, keep)[j].op.Phi? {
        var i' := OldIndex(stmts, keep, j);
        if i < i' { NewIndexMonotone(stmts, keep, i, i'); }
      }
    }
  }

  lemma DroppedUnique(f: SsaFunction, keep: ValueId -> bool)
    requires UniqueDefs(f)
    ensures UniqueDefs(Dropped(f, keep))
  {
    hide Retain;
    var g := Dropped(f, keep);
    forall id: ValueId, b: BlockId, i: nat, c: BlockId, j: nat | DefAt(g, id, b, i) && DefAt(g, id, c, j)
      ensures b == c && i == j
    {
      var i' := OldSite(f, keep, id, b, i);
      var j' := OldSite(f, keep, id, c, j);
    }
  }

  lemma DroppedWellFormed(f: SsaFunction, keep: ValueId -> bool)
    requires WellFormed(f) && Supported(f, keep)
    ensures WellFormed(Dropped(f, keep))
  {
    hide StructureOk, EdgesOk, UniqueDefs, PhiOk, BlockUsesOk, Reachable, BlockSupported, Retain;
    var g := Dropped(f, keep);
    DroppedGraph(f, keep);
    SameGraphOk(f, g);
    DroppedUnique(f, keep);
    forall b: BlockId, i: nat | b < |g.blocks| && i < |g.blocks[b].stmts| ensures PhiOk(g, b, i) {
      DroppedPhi(f, keep, b, i);
    }
    forall b: BlockId | b < |g.blocks| && Reachable(g, b) ensures BlockUsesOk(g, b) {
      SameGraphFlow(f, g, b, b);
      assert BlockSupported(f.blocks[b], keep);
      DroppedBlockUses(f, keep, b);
    }
  }
}
