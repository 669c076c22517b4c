/** The SSA verifier: it accepts exactly the well-formed functions, where
    "defined before used" is stated over all paths of the graph. */
module SsaVerify {
  import opened Options
  import opened SsaModel
  import opened SsaDominators
  import opened DominatorTree
  import opened SsaIdoms

  // ----- Well-formedness -----

  ghost predicate StructureOk(f: SsaFunction) {
    && |f.blocks| > 0 && f.entry < |f.blocks|
    && (forall b :: 0 <= b < |f.blocks| ==> f.blocks[b].id == b)
    && f.blocks[f.entry].preds == []
  }

  ghost predicate BlockEdgesOk(f: SsaFunction, b: BlockId)
    requires b < |f.blocks|
  {
    && (forall t :: t in f.blocks[b].terminator.Targets() ==> t < |f.blocks|)
    && f.blocks[b].succs == f.blocks[b].terminator.Targets()
  }

  /** The blocks among the first `n` that jump to `v`, ascending. */
  ghost function PredList(f: SsaFunction, v: BlockId, n: nat): seq<BlockId>
    requires n <= |f.blocks|
  {
    if n == 0 then [] else
      PredList(f, v, n - 1) + (if v in f.blocks[n - 1].terminator.Targets() then [n - 1] else [])
  }

  ghost predicate EdgesOk(f: SsaFunction) {
    && (forall b: BlockId :: b < |f.blocks| ==> BlockEdgesOk(f, b))
    && (forall v: BlockId :: v < |f.blocks| ==> f.blocks[v].preds == PredList(f, v, |f.blocks|))
  }

  ghost predicate DefAt(f: SsaFunction, id: ValueId, b: BlockId, i: nat) {
    b < |f.blocks| && i < |f.blocks[b].stmts| && f.blocks[b].stmts[i].id == id
  }

  ghost predicate UniqueDefs(f: SsaFunction) {
    forall id: ValueId, b: BlockId, i: nat, c: BlockId, j: nat :: DefAt(f, id, b, i) && DefAt(f, id, c, j) ==> b == c && i == j
  }

  ghost predicate PhiOk(f: SsaFunction, b: BlockId, i: nat)
    requires b < |f.blocks| && i < |f.blocks[b].stmts|
  {
    var stmts := f.blocks[b].stmts;
    stmts[i].op.Phi? ==>
      && (forall j :: 0 <= j < i ==> stmts[j].op.Phi?)
      && |stmts[i].op.edges| == |stmts[i].op.values|
      && stmts[i].op.edges == f.blocks[b].preds
  }

  ghost predicate PhisOk(f: SsaFunction) {
    forall b: BlockId, i: nat :: b < |f.blocks| && i < |f.blocks[b].stmts| ==> PhiOk(f, b, i)
  }

  /** The definition at `(d, di)` comes before the point `(b, i)` on every path. */
  ghost predicate SiteBefore(f: SsaFunction, d: BlockId, di: nat, b: BlockId, i: nat) {
    if d == b then di < i else Dominates(f, d, b)
  }

  /** `v` may be read just before statement `i` of block `b`. */
  ghost predicate UseOk(f: SsaFunction, v: SsaValue, b: BlockId, i: nat) {
    match v
    case Const(_) => true
    case Argument(k) => k < |f.params|
    case Def(id) => exists d: BlockId, di: nat :: DefAt(f, id, d, di) && SiteBefore(f, d, di, b, i)
  }

  /** `v` may be read on leaving the predecessor `u`. */
  ghost predicate PhiUseOk(f: SsaFunction, v: SsaValue, u: BlockId) {
    match v
    case Const(_) => true
    case Argument(k) => k < |f.params|
    case Def(id) => exists d: BlockId, di: nat :: DefAt(f, id, d, di) && Dominates(f, d, u)
  }

  ghost predicate StmtUsesOk(f: SsaFunction, b: BlockId, i: nat)
    requires b < |f.blocks| && i < |f.blocks[b].stmts|
  {
    match f.blocks[b].stmts[i].op
    case Phi(edges, values) =>
      forall k :: 0 <= k < |edges| && k < |values| && values[k].Some? && Reachable(f, edges[k]) ==>
        PhiUseOk(f, values[k].value, edges[k])
    case op =>
      forall k :: 0 <= k < |Operands(op)| ==> UseOk(f, Operands(op)[k], b, i)
  }

  ghost predicate TerminatorUsesOk(f: SsaFunction, b: BlockId)
    requires b < |f.blocks|
  {
    var vs := f.blocks[b].terminator.Operands();
    forall k :: 0 <= k < |vs| ==> UseOk(f, vs[k], b, |f.blocks[b].stmts|)
  }

  ghost predicate BlockUsesOk(f: SsaFunction, b: BlockId)
    requires b < |f.blocks|
  {
    && (forall i :: 0 <= i < |f.blocks[b].stmts| ==> StmtUsesOk(f, b, i))
    && TerminatorUsesOk(f, b)
  }

  ghost predicate UsesOk(f: SsaFunction) {
    forall b: BlockId :: b < |f.blocks| && Reachable(f, b) ==> BlockUsesOk(f, b)
  }

  ghost predicate WellFormed(f: SsaFunction) {
    StructureOk(f) && EdgesOk(f) && UniqueDefs(f) && PhisOk(f) && UsesOk(f)
  }

  // ----- Verdicts -----

  datatype Phase = Structure | Edges | Definitions | Phis | Dominance
  datatype Verdict = Accepted | Rejected(phase: Phase)

  /** The first phase that fails decides the verdict. */
  ghost function Judgement(f: SsaFunction): Verdict {
    if !StructureOk(f) then Rejected(Structure)
    else if !EdgesOk(f) then Rejected(Edges)
    else if !UniqueDefs(f) then Rejected(Definitions)
    else if !PhisOk(f) then Rejected(Phis)
    else if !UsesOk(f) then Rejected(Dominance)
    else Accepted
  }

  lemma {:induction false} PredListMembers(f: SsaFunction, v: BlockId, n: nat)
    requires n <= |f.blocks|
    ensures forall u: BlockId :: u in PredList(f, v, n) <==> u < n && v in f.blocks[u].terminator.Targets()
  {
    if n > 0 { PredListMembers(f, v, n - 1); }
  }

  lemma EdgesGiveGraph(f: SsaFunction)
    requires StructureOk(f) && EdgesOk(f)
    ensures GraphOk(f)
  {
    forall u: BlockId, v: BlockId ensures Edge(f, u, v) ==> v < |f.blocks| {
      if Edge(f, u, v) { assert BlockEdgesOk(f, u); }
    }
    forall u: BlockId, v: BlockId ensures Edge(f, u, v) <==> BackEdge(f, u, v) {
      if v < |f.blocks| {
        PredListMembers(f, v, |f.blocks|);
        if u < |f.blocks| { assert BlockEdgesOk(f, u); }
      }
    }
  }

  // ----- Edges -----

  ghost predicate Expected(f: SsaFunction, expected: seq<seq<BlockId>>, n: nat)
    requires n <= |f.blocks|
  {
    |expected| == |f.blocks| && forall v :: 0 <= v < |expected| ==> expected[v] == PredList(f, v, n)
  }

  /** Pushing block `u` onto the list of each of its targets. */
  method PushTargets(f: SsaFunction, u: BlockId, before: seq<seq<BlockId>>) returns (expected: seq<seq<BlockId>>)
    requires u < |f.blocks| && Expected(f, before, u)
    requires forall t :: t in f.blocks[u].terminator.Targets() ==> t < |f.blocks|
    ensures Expected(f, expected, u + 1)
  {
    expected := before;
    var targets := f.blocks[u].terminator.Targets();
    for k := 0 to |targets|
      invariant |expected| == |f.blocks|
      invariant forall v :: 0 <= v < |expected| ==>
                  expected[v] == before[v] + (if v in targets[..k] then [u] else [])
    {
      assert targets[..k + 1] == targets[..k] + [targets[k]];
      assert targets[k] !in targets[..k];
      assert targets[k] in targets;
      expected := expected[targets[k] := expected[targets[k]] + [u]];
    }
    assert targets[..|targets|] == targets;
  }

  method VerifySuccs(f: SsaFunction, u: BlockId) returns (ok: bool)
    requires u < |f.blocks|
    ensures ok <==> BlockEdgesOk(f, u)
    ensures ok ==> forall t :: t in f.blocks[u].terminator.Targets() ==> t < |f.blocks|
  {
    var targets := f.blocks[u].terminator.Targets();
    for k := 0 to |targets|
      invariant forall j :: 0 <= j < k ==> targets[j] < |f.blocks|
    {
      if targets[k] >= |f.blocks| {
        assert targets[k] in targets;
        return false;
      }
    }
    ok := f.blocks[u].succs == targets;
  }

  method VerifyEdges(f: SsaFunction) returns (ok: bool)
    requires StructureOk(f)
    ensures ok <==> EdgesOk(f)
  {
    var expected := seq(|f.blocks|, _ => []);
    assert Expected(f, expected, 0);
    hide BlockEdgesOk, PredList;
    for u := 0 to |f.blocks|
      invariant Expected(f, expected, u)
      invariant forall b: BlockId :: b < u ==> BlockEdgesOk(f, b)
    {
      var succsOk := VerifySuccs(f, u);
      if !succsOk { return false; }
      expected := PushTargets(f, u, expected);
    }
    for v := 0 to |f.blocks|
      invariant forall w: BlockId :: w < v ==> f.blocks[w].preds == PredList(f, w, |f.blocks|)
    {
      if f.blocks[v].preds != expected[v] {
        return false;
      }
    }
    ok := true;
  }

  // ----- Definition sites -----

  type Sites = map<ValueId, (BlockId, nat)>

  /** `sites` records exactly the definitions before point `(b, i)` in block order. */
  ghost predicate Collected(f: SsaFunction, sites: Sites, b: BlockId, i: nat) {
    && (forall id :: id in sites ==> DefAt(f, id, sites[id].0, sites[id].1))
    && (forall id: ValueId, c: BlockId, j: nat :: DefAt(f, id, c, j) && (c < b || (c == b && j < i)) ==>
          id in sites && sites[id] == (c, j))
  }

  method CollectDefSites(f: SsaFunction) returns (result: Option<Sites>)
    ensures result.Some? <==> UniqueDefs(f)
    ensures result.Some? ==> Collected(f, result.value, |f.blocks|, 0)
  {
    var sites: Sites := map[];
    for b := 0 to |f.blocks|
      invariant Collected(f, sites, b, 0)
      invariant forall id :: id in sites ==> sites[id].0 < b
    {
      for i := 0 to |f.blocks[b].stmts|
        invariant Collected(f, sites, b, i)
        invariant forall id :: id in sites ==> sites[id].0 < b || (sites[id].0 == b && sites[id].1 < i)
      {
        var id := f.blocks[b].stmts[i].id;
        assert DefAt(f, id, b, i);
        if id in sites {
          assert DefAt(f, id, sites[id].0, sites[id].1);
          return None;
        }
        sites := sites[id := (b, i)];
      }
    }
    result := Some(sites);
  }

  // ----- Phi shape -----

  method VerifyPhiShape(f: SsaFunction) returns (ok: bool)
    ensures ok <==> PhisOk(f)
  {
    for b := 0 to |f.blocks|
      invariant forall c: BlockId, i: nat :: c < b && i < |f.blocks[c].stmts| ==> PhiOk(f, c, i)
    {
      var stmts := f.blocks[b].stmts;
      var seenNonPhi := false;
      for i := 0 to |stmts|
        invariant forall j: nat :: j < i ==> PhiOk(f, b, j)
        invariant seenNonPhi <==> exists j :: 0 <= j < i && !stmts[j].op.Phi?
      {
        if !stmts[i].op.Phi? {
          seenNonPhi := true;
        } else if seenNonPhi || |stmts[i].op.edges| != |stmts[i].op.values| || stmts[i].op.edges != f.blocks[b].preds {
          assert !PhiOk(f, b, i);
          return false;
        }
      }
    }
    ok := true;
  }

  // ----- Dominance -----

  /** What the dominance phase works with. */
  ghost predicate Tables(f: SsaFunction, sites: Sites, reachable: set<BlockId>, idoms: map<BlockId, BlockId>, number: map<BlockId, nat>) {
    && UniqueDefs(f) && Collected(f, sites, |f.blocks|, 0)
    && (forall b :: b in reachable <==> Reachable(f, b))
    && DominatorTreeOf(f, Tree(f.entry, number, idoms))
  }

  lemma SiteOf(f: SsaFunction, sites: Sites, id: ValueId)
    requires UniqueDefs(f) && Collected(f, sites, |f.blocks|, 0)
    ensures id in sites <==> exists d: BlockId, di: nat :: DefAt(f, id, d, di)
    ensures id in sites ==> DefAt(f, id, sites[id].0, sites[id].1)
    ensures id in sites ==> forall d: BlockId, di: nat :: DefAt(f, id, d, di) ==> (d, di) == sites[id]
  {
    if d: BlockId, di: nat :| DefAt(f, id, d, di) {
      assert id in sites;
    }
  }

  method CheckOperand(f: SsaFunction, sites: Sites, reachable: set<BlockId>, idoms: map<BlockId, BlockId>,
                      ghost number: map<BlockId, nat>, operand: SsaValue, useBlock: BlockId, useIndex: nat)
      returns (ok: bool)
    requires Tables(f, sites, reachable, idoms, number) && Reachable(f, useBlock)
    ensures ok <==> UseOk(f, operand, useBlock, useIndex)
  {
    match operand
    case Const(_) => ok := true;
    case Argument(k) => ok := k < |f.params|;
    case Def(id) =>
      SiteOf(f, sites, id);
      if id !in sites {
        return false;
      }
      var (defBlock, defIndex) := sites[id];
      if defBlock == useBlock {
        ok := defIndex < useIndex;
      } else {
        ok := DominatesByLinks(f, defBlock, useBlock, idoms, number);
      }
  }

  method CheckPhiOperand(f: SsaFunction, sites: Sites, reachable: set<BlockId>, idoms: map<BlockId, BlockId>,
                         ghost number: map<BlockId, nat>, operand: SsaValue, edgePred: BlockId)
      returns (ok: bool)
    requires Tables(f, sites, reachable, idoms, number) && Reachable(f, edgePred)
    ensures ok <==> PhiUseOk(f, operand, edgePred)
  {
    match operand
    case Const(_) => ok := true;
    case Argument(k) => ok := k < |f.params|;
    case Def(id) =>
      SiteOf(f, sites, id);
      if id !in sites {
        return false;
      }
      ok := DominatesByLinks(f, sites[id].0, edgePred, idoms, number);
  }

  method CheckStatement(f: SsaFunction, sites: Sites, reachable: set<BlockId>, idoms: map<BlockId, BlockId>,
                        ghost number: map<BlockId, nat>, b: BlockId, i: nat)
      returns (ok: bool)
    requires Tables(f, sites, reachable, idoms, number)
    requires b < |f.blocks| && i < |f.blocks[b].stmts| && Reachable(f, b)
    ensures ok <==> StmtUsesOk(f, b, i)
  {
    hide Tables, UseOk, PhiUseOk;
    assert forall u :: u in reachable <==> Reachable(f, u) by { ReachableMeans(f, sites, reachable, idoms, number); }
    match f.blocks[b].stmts[i].op
    case Phi(edges, values) =>
      for k := 0 to if |edges| < |values| then |edges| else |values|
        invariant forall j :: 0 <= j < k && values[j].Some? && Reachable(f, edges[j]) ==>
                    PhiUseOk(f, values[j].value, edges[j])
      {
        if values[k].Some? && edges[k] in reachable {
          var fine := CheckPhiOperand(f, sites, reachable, idoms, number, values[k].value, edges[k]);
          if !fine { return false; }
        }
      }
      ok := true;
    case op =>
      var vs := Operands(op);
      for k := 0 to |vs|
        invariant forall j :: 0 <= j < k ==> UseOk(f, vs[j], b, i)
      {
        var fine := CheckOperand(f, sites, reachable, idoms, number, vs[k], b, i);
        if !fine { return false; }
      }
      ok := true;
  }

  lemma ReachableMeans(f: SsaFunction, sites: Sites, reachable: set<BlockId>, idoms: map<BlockId, BlockId>, number: map<BlockId, nat>)
    requires Tables(f, sites, reachable, idoms, number)
    ensures forall u :: u in reachable <==> Reachable(f, u)
  {
  }

  method VerifyDominance(f: SsaFunction, sites: Sites, reachable: set<BlockId>, idoms: map<BlockId, BlockId>,
                         ghost number: map<BlockId, nat>)
      returns (ok: bool)
    requires Tables(f, sites, reachable, idoms, number)
    ensures ok <==> UsesOk(f)
  {
    hide Tables, UseOk, StmtUsesOk, Reachable;
    ReachableMeans(f, sites, reachable, idoms, number);
    for b := 0 to |f.blocks|
      invariant forall c: BlockId :: c < b && Reachable(f, c) ==> BlockUsesOk(f, c)
    {
      if b !in reachable {
        continue;
      }
      for i := 0 to |f.blocks[b].stmts|
        invariant forall j :: 0 <= j < i ==> StmtUsesOk(f, b, j)
      {
        var fine := CheckStatement(f, sites, reachable, idoms, number, b, i);
        if !fine {
          assert !BlockUsesOk(f, b);
          return false;
        }
      }
      var vs := f.blocks[b].terminator.Operands();
      for k := 0 to |vs|
        invariant forall j :: 0 <= j < k ==> UseOk(f, vs[j], b, |f.blocks[b].stmts|)
      {
        var fine := CheckOperand(f, sites, reachable, idoms, number, vs[k], b, |f.blocks[b].stmts|);
        if !fine {
          assert !TerminatorUsesOk(f, b);
          return false;
        }
      }
      assert TerminatorUsesOk(f, b);
    }
    ok := true;
  }

  method VerifyStructure(f: SsaFunction) returns (ok: bool)
    ensures ok <==> StructureOk(f)
  {
    if |f.blocks| == 0 || f.entry >= |f.blocks| {
      return false;
    }
    for b := 0 to |f.blocks|
      invariant forall c :: 0 <= c < b ==> f.blocks[c].id == c
    {
      if f.blocks[b].id != b {
        return false;
      }
    }
    ok := f.blocks[f.entry].preds == [];
  }

  method Verify(f: SsaFunction) returns (verdict: Verdict)
    ensures verdict == Judgement(f)
    ensures verdict.Accepted? <==> WellFormed(f)
  {
    hide StructureOk, EdgesOk, UniqueDefs, PhisOk, UsesOk, Collected, DominatorTreeOf;
    var ok := VerifyStructure(f);
    if !ok { return Rejected(Structure); }
    ok := VerifyEdges(f);
    if !ok { return Rejected(Edges); }
    var sites := CollectDefSites(f);
    if sites.None? { return Rejected(Definitions); }
    ok := VerifyPhiShape(f);
    if !ok { return Rejected(Phis); }
    EdgesGiveGraph(f);
    var reachable := ComputeReachable(f);
    ghost var number;
    var idoms;
    idoms, number := ComputeIdoms(f, reachable);
    ok := VerifyDominance(f, sites.value, reachable, idoms, number);
    verdict := if ok then Accepted else Rejected(Dominance);
  }
}
