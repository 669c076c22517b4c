/** Taking edges out of a function: predecessor lists and phis lose the same entries,
    and what remains is well-formed and runs the same along the edges that are left. */
module SsaThin {
  import opened Options
  import opened SsaModel
  import opened SsaVerify
  import opened SsaSemantics

  // ----- Picking entries by edge -----

  /** The entries of `xs` whose edge comes from a block of `keep`. */
  function Pick<T>(edges: seq<BlockId>, xs: seq<T>, keep: set<BlockId>): (r: seq<T>)
    requires |edges| == |xs|
    ensures forall x :: x in r ==> x in xs
  {
    if edges == [] then [] else
    (if edges[0] in keep then [xs[0]] else []) + Pick(edges[1..], xs[1..], keep)
  }

  lemma {:induction false} PickLength<T, U>(edges: seq<BlockId>, xs: seq<T>, ys: seq<U>, keep: set<BlockId>)
    requires |edges| == |xs| == |ys|
    ensures |Pick(edges, xs, keep)| == |Pick(edges, ys, keep)|
    decreases |edges|
  {
    if edges != [] { PickLength(edges[1..], xs[1..], ys[1..], keep); }
  }

  /** The entry of a kept edge is found at that edge's place among the kept ones. */
  lemma {:induction false} PickIndex<T>(edges: seq<BlockId>, xs: seq<T>, keep: set<BlockId>, u: BlockId)
    requires |edges| == |xs| && u in edges && u in keep
    ensures var k := FirstIndex(Pick(edges, edges, keep), u);
            k < |Pick(edges, xs, keep)| && k < |Pick(edges, edges, keep)| &&
            FirstIndex(edges, u) < |xs| && Pick(edges, xs, keep)[k] == xs[FirstIndex(edges, u)]
    decreases |edges|
  {
    if edges[0] != u {
      PickIndex(edges[1..], xs[1..], keep, u);
      PickFirst(edges, xs, keep);
      PickFirst(edges, edges, keep);
      hide Pick;
    }
  }

  lemma PickFirst<T>(edges: seq<BlockId>, xs: seq<T>, keep: set<BlockId>)
    requires |edges| == |xs| > 0
    ensures edges[0] !in keep ==> Pick(edges, xs, keep) == Pick(edges[1..], xs[1..], keep)
    ensures edges[0] in keep ==>
      && Pick(edges, xs, keep) == [xs[0]] + Pick(edges[1..], xs[1..], keep)
      && Pick(edges, xs, keep)[1..] == Pick(edges[1..], xs[1..], keep)
  {
  }

  /** Each entry picked comes with its own edge. */
  lemma {:induction false} PickPairs<T>(edges: seq<BlockId>, xs: seq<T>, keep: set<BlockId>, k: nat) returns (j: nat)
    requires |edges| == |xs| && k < |Pick(edges, xs, keep)|
    ensures j < |edges| && edges[j] in keep && Pick(edges, xs, keep)[k] == xs[j]
    ensures k < |Pick(edges, edges, keep)| && Pick(edges, edges, keep)[k] == edges[j]
    decreases |edges|
  {
    PickLength(edges, xs, edges, keep);
    if edges[0] in keep && k == 0 {
      j := 0;
    } else {
      var i := PickPairs(edges[1..], xs[1..], keep, if edges[0] in keep then k - 1 else k);
      j := i + 1;
    }
  }

  lemma {:induction false} PickAppend<T>(edges: seq<BlockId>, xs: seq<T>, e: BlockId, x: T, keep: set<BlockId>)
    requires |edges| == |xs|
    ensures Pick(edges + [e], xs + [x], keep) == Pick(edges, xs, keep) + (if e in keep then [x] else [])
    decreases |edges|
  {
    if edges == [] {
      assert [e][1..] == [] && [x][1..] == [] && edges + [e] == [e] && xs + [x] == [x];
    } else {
      PickAppend(edges[1..], xs[1..], e, x, keep);
      assert (edges + [e])[1..] == edges[1..] + [e] && (xs + [x])[1..] == xs[1..] + [x];
    }
  }

  lemma {:induction false} PickMembers(edges: seq<BlockId>, keep: set<BlockId>, u: BlockId)
    ensures u in Pick(edges, edges, keep) <==> u in edges && u in keep
    decreases |edges|
  {
    if edges != [] { PickMembers(edges[1..], keep, u); }
  }

  lemma {:induction false} PickAll<T>(edges: seq<BlockId>, xs: seq<T>, keep: set<BlockId>)
    requires |edges| == |xs| && forall k :: 0 <= k < |edges| ==> edges[k] in keep
    ensures Pick(edges, xs, keep) == xs
    decreases |edges|
  {
    if edges != [] { PickAll(edges[1..], xs[1..], keep); }
  }

  lemma {:induction false} PickSame<T>(edges: seq<BlockId>, xs: seq<T>, keep: set<BlockId>, other: set<BlockId>)
    requires |edges| == |xs| && forall k :: 0 <= k < |edges| ==> (edges[k] in keep <==> edges[k] in other)
    ensures Pick(edges, xs, keep) == Pick(edges, xs, other)
    decreases |edges|
  {
    if edges != [] { PickSame(edges[1..], xs[1..], keep, other); }
  }

  /** Picking twice keeps what both keep. */
  lemma {:induction false} PickTwice<T>(edges: seq<BlockId>, xs: seq<T>, keep: set<BlockId>, other: set<BlockId>)
    requires |edges| == |xs|
    ensures |Pick(edges, edges, keep)| == |Pick(edges, xs, keep)|
    ensures Pick(Pick(edges, edges, keep), Pick(edges, xs, keep), other) == Pick(edges, xs, keep * other)
    decreases |edges|
  {
    PickLength(edges, edges, xs, keep);
    if edges != [] {
      PickTwice(edges[1..], xs[1..], keep, other);
      PickFirst(edges, xs, keep);
      PickFirst(edges, edges, keep);
      PickFirst(edges, xs, keep * other);
      if edges[0] in keep { PickFirst(Pick(edges, edges, keep), Pick(edges, xs, keep), other); }
      hide Pick;
    }
  }

  // ----- Thinner blocks -----

  function ThinOp(op: SsaOp, keep: set<BlockId>): SsaOp {
    if op.Phi? && |op.edges| == |op.values| then
      Phi(Pick(op.edges, op.edges, keep), Pick(op.edges, op.values, keep))
    else op
  }

  function ThinStmt(s: SsaStatement, keep: set<BlockId>): SsaStatement {
    SsaStatement(s.id, ThinOp(s.op, keep))
  }

  function ThinStmts(stmts: seq<SsaStatement>, keep: set<BlockId>): (r: seq<SsaStatement>)
    ensures |r| == |stmts|
    ensures forall i :: 0 <= i < |stmts| ==> r[i] == ThinStmt(stmts[i], keep)
  {
    seq(|stmts|, i requires 0 <= i < |stmts| => ThinStmt(stmts[i], keep))
  }

  /** Block `b` leaving by `t`, with only the edges from `keep`. */
  function ThinBlock(b: SsaBlock, t: Terminator, keep: set<BlockId>): SsaBlock {
    SsaBlock(b.id, ThinStmts(b.stmts, keep), t, Pick(b.preds, b.preds, keep), t.Targets())
  }

  /** The blocks that jump to `v`. */
  function Sources(terms: seq<Terminator>, v: BlockId): set<BlockId> {
    set u: BlockId | u < |terms| && v in terms[u].Targets()
  }

  /** The function with other terminators and only the edges they leave. */
  function Thinned(f: SsaFunction, terms: seq<Terminator>): (g: SsaFunction)
    requires |terms| == |f.blocks|
    ensures |g.blocks| == |f.blocks|
    ensures forall v: BlockId :: v < |f.blocks| ==> g.blocks[v] == ThinBlock(f.blocks[v], terms[v], Sources(terms, v))
  {
    f.(blocks := seq(|f.blocks|, v requires 0 <= v < |f.blocks| => ThinBlock(f.blocks[v], terms[v], Sources(terms, v))))
  }

  /** The new terminators jump and read no more than the old ones. */
  ghost predicate Narrower(f: SsaFunction, terms: seq<Terminator>) {
    && |terms| == |f.blocks|
    && forall u: BlockId :: u < |terms| ==> NarrowerAt(f.blocks[u].terminator, terms[u])
  }

  ghost predicate NarrowerAt(t: Terminator, t': Terminator) {
    && (forall v :: v in t'.Targets() ==> v in t.Targets())
    && (forall x :: x in t'.Operands() ==> x in t.Operands())
  }

  // ----- Still well-formed -----

  lemma ThinnedEdge(f: SsaFunction, terms: seq<Terminator>, u: BlockId, v: BlockId)
    requires EdgesOk(f) && Narrower(f, terms)
    ensures Edge(Thinned(f, terms), u, v) ==> Edge(f, u, v)
  {
    if Edge(Thinned(f, terms), u, v) {
      assert NarrowerAt(f.blocks[u].terminator, terms[u]) && BlockEdgesOk(f, u);
    }
  }

  lemma ThinnedPath(f: SsaFunction, terms: seq<Terminator>, p: seq<BlockId>, b: BlockId)
    requires EdgesOk(f) && Narrower(f, terms) && PathTo(Thinned(f, terms), p, b)
    ensures PathTo(f, p, b)
  {
    forall i | 0 < i < |p| ensures StepAt(f, p, i) {
      assert StepAt(Thinned(f, terms), p, i);
      ThinnedEdge(f, terms, p[i - 1], p[i]);
    }
  }

  /** Fewer paths: less is reachable, and more dominates. */
  lemma ThinnedFlow(f: SsaFunction, terms: seq<Terminator>, a: BlockId, b: BlockId)
    requires EdgesOk(f) && Narrower(f, terms)
    ensures Reachable(Thinned(f, terms), b) ==> Reachable(f, b)
    ensures Dominates(f, a, b) ==> Dominates(Thinned(f, terms), a, b)
  {
    hide Thinned, EdgesOk;
    var g := Thinned(f, terms);
    if p :| PathTo(g, p, b) { ThinnedPath(f, terms, p, b); }
    if Dominates(f, a, b) {
      forall p | PathTo(g, p, b) ensures a in p { ThinnedPath(f, terms, p, b); }
    }
  }

  /** Picking from the ascending list of predecessors gives the new list. */
  lemma {:induction false} ThinnedPreds(f: SsaFunction, terms: seq<Terminator>, v: BlockId, n: nat)
    requires Narrower(f, terms) && |terms| == |f.blocks| && n <= |f.blocks|
    ensures PredList(Thinned(f, terms), v, n) == Pick(PredList(f, v, n), PredList(f, v, n), Sources(terms, v))
    decreases n
  {
    hide Pick, PredList, Thinned, Sources, Narrower;
    if n == 0 {
      NoPreds(f, v);
      NoPreds(Thinned(f, terms), v);
      EmptyPick([], Sources(terms, v));
    } else {
      ThinnedPreds(f, terms, v, n - 1);
      ThinnedJump(f, terms, v, n - 1);
      PredNext(f, v, n);
      PredNext(Thinned(f, terms), v, n);
      PickNext(PredList(f, v, n - 1), n - 1, Sources(terms, v));
    }
  }

  lemma NoPreds(f: SsaFunction, v: BlockId)
    ensures PredList(f, v, 0) == []
  {
  }

  lemma PickNext(edges: seq<BlockId>, e: BlockId, keep: set<BlockId>)
    ensures Pick(edges + [e], edges + [e], keep) == Pick(edges, edges, keep) + (if e in keep then [e] else [])
  {
    PickAppend(edges, edges, e, e, keep);
  }

  lemma ThinnedJump(f: SsaFunction, terms: seq<Terminator>, v: BlockId, u: BlockId)
    requires Narrower(f, terms) && u < |f.blocks|
    ensures |terms| == |f.blocks| && (u in Sources(terms, v) <==> v in Thinned(f, terms).blocks[u].terminator.Targets())
    ensures u in Sources(terms, v) ==> v in f.blocks[u].terminator.Targets()
  {
    hide Pick, ThinStmts;
    assert NarrowerAt(f.blocks[u].terminator, terms[u]);
  }

  lemma PredNext(f: SsaFunction, v: BlockId, n: nat)
    requires 0 < n <= |f.blocks|
    ensures PredList(f, v, n) ==
            if v in f.blocks[n - 1].terminator.Targets() then PredList(f, v, n - 1) + [n - 1] else PredList(f, v, n - 1)
  {
  }

  lemma ThinnedGraph(f: SsaFunction, terms: seq<Terminator>)
    requires StructureOk(f) && EdgesOk(f) && Narrower(f, terms)
    ensures StructureOk(Thinned(f, terms)) && EdgesOk(Thinned(f, terms))
  {
    hide Pick, Sources, ThinStmts;
    var g := Thinned(f, terms);
    forall v: BlockId | v < |g.blocks|
      ensures BlockEdgesOk(g, v) && g.blocks[v].preds == PredList(g, v, |g.blocks|)
    {
      assert BlockEdgesOk(f, v) && NarrowerAt(f.blocks[v].terminator, terms[v]);
      ThinnedPreds(f, terms, v, |f.blocks|);
    }
    assert g.blocks[f.entry].preds == [] by { EmptyPick(f.blocks[f.entry].preds, Sources(terms, f.entry)); }
  }

  lemma EmptyPick(edges: seq<BlockId>, keep: set<BlockId>)
    ensures edges == [] ==> Pick(edges, edges, keep) == []
  {
  }

  lemma ThinnedSite(f: SsaFunction, terms: seq<Terminator>, id: ValueId, b: BlockId, i: nat)
    requires |terms| == |f.blocks|
    ensures DefAt(Thinned(f, terms), id, b, i) <==> DefAt(f, id, b, i)
  {
    hide Pick, Sources;
  }

  lemma ThinnedUse(f: SsaFunction, terms: seq<Terminator>, v: SsaValue, b: BlockId, i: nat)
    requires EdgesOk(f) && Narrower(f, terms) && UseOk(f, v, b, i)
    ensures UseOk(Thinned(f, terms), v, b, i)
  {
    ThinnedParams(f, terms);
    hide Thinned, EdgesOk, Narrower, Dominates;
    if v.Def? {
      var d: BlockId, di: nat :| DefAt(f, v.id, d, di) && SiteBefore(f, d, di, b, i);
      ThinnedSite(f, terms, v.id, d, di);
      ThinnedFlow(f, terms, d, b);
    }
  }

  lemma ThinnedParams(f: SsaFunction, terms: seq<Terminator>)
    requires Narrower(f, terms)
    ensures |terms| == |f.blocks| && Thinned(f, terms).params == f.params && Thinned(f, terms).entry == f.entry
  {
  }

  lemma ThinnedPhiUse(f: SsaFunction, terms: seq<Terminator>, v: SsaValue, u: BlockId)
    requires EdgesOk(f) && Narrower(f, terms) && PhiUseOk(f, v, u)
    ensures |terms| == |f.blocks| && PhiUseOk(Thinned(f, terms), v, u)
  {
    ThinnedParams(f, terms);
    hide Thinned, EdgesOk, Narrower, Dominates;
    if v.Def? {
      var d: BlockId, di: nat :| DefAt(f, v.id, d, di) && Dominates(f, d, u);
      ThinnedSite(f, terms, v.id, d, di);
      ThinnedFlow(f, terms, d, u);
    }
  }

  lemma ThinnedStmtUses(f: SsaFunction, terms: seq<Terminator>, b: BlockId, i: nat)
    requires EdgesOk(f) && PhisOk(f) && Narrower(f, terms) && b < |f.blocks| && i < |f.blocks[b].stmts| && StmtUsesOk(f, b, i)
    ensures StmtUsesOk(Thinned(f, terms), b, i)
  {
    hide EdgesOk, Narrower, UseOk, PhiUseOk, Pick, Sources, Reachable;
    ThinnedParams(f, terms);
    var g, op, keep := Thinned(f, terms), f.blocks[b].stmts[i].op, Sources(terms, b);
    assert PhiOk(f, b, i);
    assert g.blocks[b].stmts[i].op == ThinOp(op, keep);
    if op.Phi? {
      var edges, values := Pick(op.edges, op.edges, keep), Pick(op.edges, op.values, keep);
      forall k | 0 <= k < |edges| && k < |values| && values[k].Some? && Reachable(g, edges[k])
        ensures PhiUseOk(g, values[k].value, edges[k])
      {
        var j := PickPairs(op.edges, op.values, keep, k);
        ThinnedFlow(f, terms, edges[k], edges[k]);
        ThinnedPhiUse(f, terms, values[k].value, edges[k]);
      }
    } else {
      forall k | 0 <= k < |Operands(op)| ensures UseOk(g, Operands(op)[k], b, i) {
        ThinnedUse(f, terms, Operands(op)[k], b, i);
      }
    }
  }

  lemma ThinnedPhis(f: SsaFunction, terms: seq<Terminator>)
    requires PhisOk(f) && Narrower(f, terms)
    ensures PhisOk(Thinned(f, terms))
  {
    hide Pick, Sources;
    var g := Thinned(f, terms);
    forall b: BlockId, i: nat | b < |g.blocks| && i < |g.blocks[b].stmts| ensures PhiOk(g, b, i) {
      assert PhiOk(f, b, i);
      var op, keep := f.blocks[b].stmts[i].op, Sources(terms, b);
      if op.Phi? { PickLength(op.edges, op.edges, op.values, keep); }
    }
  }

  lemma ThinnedBlockUses(f: SsaFunction, terms: seq<Terminator>, b: BlockId)
    requires WellFormed(f) && Narrower(f, terms) && b < |f.blocks| && Reachable(Thinned(f, terms), b)
    ensures BlockUsesOk(Thinned(f, terms), b)
  {
    hide EdgesOk, UseOk, StmtUsesOk, Reachable, Pick, Sources, StructureOk, UniqueDefs, PhisOk;
    var g := Thinned(f, terms);
    ThinnedFlow(f, terms, b, b);
    assert BlockUsesOk(f, b);
    forall i | 0 <= i < |g.blocks[b].stmts| ensures StmtUsesOk(g, b, i) {
      ThinnedStmtUses(f, terms, b, i);
    }
    var vs, ws := f.blocks[b].terminator.Operands(), terms[b].Operands();
    assert NarrowerAt(f.blocks[b].terminator, terms[b]);
    forall k | 0 <= k < |ws| ensures UseOk(g, ws[k], b, |g.blocks[b].stmts|) {
      assert ws[k] in vs;
      var j :| 0 <= j < |vs| && vs[j] == ws[k];
      ThinnedUse(f, terms, ws[k], b, |f.blocks[b].stmts|);
    }
  }

  lemma ThinnedWellFormed(f: SsaFunction, terms: seq<Terminator>)
    requires WellFormed(f) && Narrower(f, terms)
    ensures |terms| == |f.blocks| && WellFormed(Thinned(f, terms))
  {
    ThinnedParams(f, terms);
    ThinnedGraph(f, terms);
    ThinnedPhis(f, terms);
    var g := Thinned(f, terms);
    forall b: BlockId | b < |g.blocks| && Reachable(g, b) ensures BlockUsesOk(g, b) {
      ThinnedBlockUses(f, terms, b);
    }
    hide Thinned, Narrower, EdgesOk, PhisOk, StructureOk, BlockUsesOk, Reachable;
    forall id: ValueId, b: BlockId, i: nat ensures DefAt(g, id, b, i) <==> DefAt(f, id, b, i) {
      ThinnedSite(f, terms, id, b, i);
    }
    assert UniqueDefs(g);
    assert UsesOk(g) by { UsesFromBlocks(g); }
  }

  lemma UsesFromBlocks(g: SsaFunction)
    requires forall b: BlockId :: b < |g.blocks| && Reachable(g, b) ==> BlockUsesOk(g, b)
    ensures UsesOk(g)
  {
    hide BlockUsesOk, Reachable;
  }

  // ----- Runs along the edges that are left -----

  /** A phi takes the same value on a kept edge, whatever the other edges were. */
  ghost predicate SamePhis<V(!new), W(!new)>(m: Machine<V, W>, args: seq<V>, stmts: seq<SsaStatement>, pos: nat, stmts': seq<SsaStatement>, pos': nat) {
    && |stmts'| == |stmts|
    && forall i: nat :: i < |stmts| ==> SameStmt(m, args, stmts[i], pos, stmts'[i], pos')
  }

  ghost predicate SameStmt<V(!new), W(!new)>(m: Machine<V, W>, args: seq<V>, s: SsaStatement, pos: nat, s': SsaStatement, pos': nat) {
    && s'.id == s.id && s'.op.Phi? == s.op.Phi?
    && (!s.op.Phi? ==> s'.op == s.op)
    && (s.op.Phi? ==> forall env: map<ValueId, V> :: PhiValue(m, args, env, s'.op, pos') == PhiValue(m, args, env, s.op, pos))
  }

  lemma {:induction false} SameRunStmts<V(!new), W(!new)>(m: Machine<V, W>, args: seq<V>, start: map<ValueId, V>, stmts: seq<SsaStatement>, pos: nat,
                                                          stmts': seq<SsaStatement>, pos': nat, env: map<ValueId, V>, w: W)
    requires SamePhis(m, args, stmts, pos, stmts', pos')
    ensures RunStmts(m, args, start, pos', stmts', env, w) == RunStmts(m, args, start, pos, stmts, env, w)
    decreases |stmts|
  {
    hide SameStmt;
    if stmts != [] {
      assert SameStmt(m, args, stmts[0], pos, stmts'[0], pos');
      SameRunStmt(m, args, start, stmts[0], pos, stmts'[0], pos', env, w);
      hide RunStmt;
      assert SamePhis(m, args, stmts[1..], pos, stmts'[1..], pos');
      var r := RunStmt(m, args, start, pos, stmts[0], env, w);
      if r.Next? { SameRunStmts(m, args, start, stmts[1..], pos, stmts'[1..], pos', r.env, r.world); }
    }
  }

  lemma SameRunStmt<V(!new), W(!new)>(m: Machine<V, W>, args: seq<V>, start: map<ValueId, V>, s: SsaStatement, pos: nat,
                                      s': SsaStatement, pos': nat, env: map<ValueId, V>, w: W)
    requires SameStmt(m, args, s, pos, s', pos')
    ensures RunStmt(m, args, start, pos', s', env, w) == RunStmt(m, args, start, pos, s, env, w)
  {
    hide PhiValue;
  }

  /** Entering block `b` from a kept predecessor, or the entry block from nowhere. */
  lemma ThinSamePhis<V(!new), W(!new)>(m: Machine<V, W>, args: seq<V>, f: SsaFunction, b: BlockId, from: Option<BlockId>, keep: set<BlockId>)
    requires PhisOk(f) && b < |f.blocks|
    requires match from case None => f.blocks[b].preds == [] case Some(u) => u in f.blocks[b].preds && u in keep
    ensures var preds := f.blocks[b].preds;
            SamePhis(m, args, f.blocks[b].stmts, EdgePosition(f, b, from), ThinStmts(f.blocks[b].stmts, keep),
                     if from.None? then 0 else FirstIndex(Pick(preds, preds, keep), from.value))
  {
    hide Eval;
    var preds, stmts := f.blocks[b].preds, f.blocks[b].stmts;
    var pos, pos' := EdgePosition(f, b, from), if from.None? then 0 else FirstIndex(Pick(preds, preds, keep), from.value);
    forall i: nat | i < |stmts| ensures SameStmt(m, args, stmts[i], pos, ThinStmt(stmts[i], keep), pos') {
      assert PhiOk(f, b, i);
      var op := stmts[i].op;
      if op.Phi? && from.Some? {
        PickIndex(op.edges, op.values, keep, from.value);
      }
    }
  }

  /** The new terminators leave every block as the old ones do. */
  ghost predicate SameLeaving<V(!new), W(!new)>(m: Machine<V, W>, args: seq<V>, f: SsaFunction, terms: seq<Terminator>) {
    && |terms| == |f.blocks|
    && forall u: BlockId, env: map<ValueId, V>, w: W :: u < |terms| ==>
         RunTerminator(m, args, terms[u], env, w) == RunTerminator(m, args, f.blocks[u].terminator, env, w)
  }

  lemma TargetOfRun<V, W>(m: Machine<V, W>, args: seq<V>, t: Terminator, env: map<ValueId, V>, w: W)
    ensures var r := RunTerminator(m, args, t, env, w); r.Goto? ==> r.target in t.Targets()
  {
  }

  lemma {:induction false} ThinnedRun<V(!new), W(!new)>(m: Machine<V, W>, args: seq<V>, f: SsaFunction, terms: seq<Terminator>, fuel: nat,
                                                        b: BlockId, from: Option<BlockId>, env: map<ValueId, V>, w: W)
    requires WellFormed(f) && Narrower(f, terms) && SameLeaving(m, args, f, terms)
    requires b < |f.blocks| && match from case None => f.blocks[b].preds == [] case Some(u) => Edge(Thinned(f, terms), u, b)
    ensures Run(m, args, Thinned(f, terms), fuel, b, from, env, w) == Run(m, args, f, fuel, b, from, env, w)
    decreases fuel
  {
    hide WellFormed, Pick, Sources, RunStmts, RunTerminator, ThinStmts;
    var g, keep, t := Thinned(f, terms), Sources(terms, b), terms[b];
    if fuel > 0 {
      ThinnedArrival(f, terms, b, from);
      ThinSamePhis(m, args, f, b, from, keep);
      SameRunStmts(m, args, env, f.blocks[b].stmts, EdgePosition(f, b, from), g.blocks[b].stmts, EdgePosition(g, b, from), env, w);
      var r := RunStmts(m, args, env, EdgePosition(f, b, from), f.blocks[b].stmts, env, w);
      if r.Next? {
        TargetOfRun(m, args, t, r.env, r.world);
        var l := RunTerminator(m, args, t, r.env, r.world);
        if l.Goto? {
          assert Edge(g, b, l.target);
          ThinnedTarget(f, terms, b, l.target);
          ThinnedRun(m, args, f, terms, fuel - 1, l.target, Some(b), r.env, r.world);
        }
      }
    }
  }

  lemma ThinnedArrival(f: SsaFunction, terms: seq<Terminator>, b: BlockId, from: Option<BlockId>)
    requires WellFormed(f) && Narrower(f, terms) && b < |f.blocks|
    requires from.Some? ==> Edge(Thinned(f, terms), from.value, b)
    ensures PhisOk(f) && (from.Some? ==> from.value in f.blocks[b].preds && from.value in Sources(terms, b))
  {
    if from.Some? {
      ThinnedEdge(f, terms, from.value, b);
      EdgesGiveGraph(f);
      assert BackEdge(f, from.value, b);
    }
  }

  lemma ThinnedTarget(f: SsaFunction, terms: seq<Terminator>, b: BlockId, v: BlockId)
    requires WellFormed(f) && Narrower(f, terms) && Edge(Thinned(f, terms), b, v)
    ensures v < |f.blocks|
  {
    ThinnedEdge(f, terms, b, v);
    EdgesGiveGraph(f);
  }

  /** Terminators that leave every block as before, without the edges never taken, give
      a function with the same runs. */
  lemma ThinnedStart<V(!new), W(!new)>(m: Machine<V, W>, args: seq<V>, f: SsaFunction, terms: seq<Terminator>, fuel: nat, w: W)
    requires WellFormed(f) && Narrower(f, terms) && SameLeaving(m, args, f, terms)
    ensures Start(m, args, Thinned(f, terms), fuel, w) == Start(m, args, f, fuel, w)
  {
    ThinnedParams(f, terms);
    EntryAlone(f);
    hide WellFormed, Thinned, Narrower;
    ThinnedRun(m, args, f, terms, fuel, f.entry, None, map[], w);
  }

  lemma EntryAlone(f: SsaFunction)
    requires WellFormed(f)
    ensures f.entry < |f.blocks| && f.blocks[f.entry].preds == []
  {
  }
}
