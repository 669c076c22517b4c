/** Dead definition elimination: liveness mark and sweep keeps exactly what is
    needed, keeps the function well-formed, and changes no run. */
module SsaDce {
  import opened Options
  import opened SsaModel
  import opened SsaVerify
  import opened SsaSemantics
  import opened SsaSafety
  import opened SsaRewrite

  // ----- What is needed -----

  ghost predicate StmtCovered(s: SsaStatement, ctx: EffectContext, live: set<ValueId>) {
    && (!Removable(s.op, ctx) ==> s.id in live)
    && (s.id in live ==> OperandDefs(s.op) <= live)
  }

  ghost predicate BlockCovered(b: SsaBlock, ctx: EffectContext, live: set<ValueId>) {
    && (forall i :: 0 <= i < |b.stmts| ==> StmtCovered(b.stmts[i], ctx, live))
    && ValueDefs(b.terminator.Operands()) <= live
  }

  /** Holds the results of all operations that must stay and of all terminator
      operands, and with a definition all the definitions it reads. */
  ghost predicate Covered(f: SsaFunction, ctx: EffectContext, live: set<ValueId>) {
    forall b :: 0 <= b < |f.blocks| ==> BlockCovered(f.blocks[b], ctx, live)
  }

  // ----- What goes and what stays, whatever the summaries say -----

  /** Splatted calls, calls of shadowed names, builtins, global accesses and opaque code. */
  predicate NeverDropped(op: SsaOp, ctx: EffectContext) {
    match op
    case Phi(_, _) => false
    case Call(callee, _) => callee.splatted || callee.function_ in ctx.shadowed
    case Apply(operator, _) =>
      || operator.Builtin? || operator.LoadGlobal? || operator.StoreGlobal?
      || operator.Opaque? || operator.OpaqueStmt?
  }

  /** Merges of control flow and reads of frame slots. */
  predicate AlwaysDroppable(op: SsaOp) {
    op.Phi? || (op.Apply? && op.operator.BarrierReload?)
  }

  ghost predicate BlockRead(b: SsaBlock, s: set<ValueId>) {
    && (forall i :: 0 <= i < |b.stmts| ==> AlwaysDroppable(b.stmts[i].op) || b.stmts[i].id in s)
    && (forall i :: 0 <= i < |b.stmts| ==> b.stmts[i].id in s ==> OperandDefs(b.stmts[i].op) <= s)
    && ValueDefs(b.terminator.Operands()) <= s
  }

  /** `s` holds everything but phis and reloads, and the phis and reloads that it or a terminator reads. */
  ghost predicate AllRead(f: SsaFunction, s: set<ValueId>) {
    forall b :: 0 <= b < |f.blocks| ==> BlockRead(f.blocks[b], s)
  }

  /** Whatever the summaries say: nothing that may have effects goes, and phis and reloads
      that are not read, or only read by one another, do. */
  ghost predicate Swept(f: SsaFunction, ctx: EffectContext, live: set<ValueId>) {
    && (forall b, i :: 0 <= b < |f.blocks| && 0 <= i < |f.blocks[b].stmts| && NeverDropped(f.blocks[b].stmts[i].op, ctx) ==>
          f.blocks[b].stmts[i].id in live)
    && (forall s :: AllRead(f, s) ==> live <= s)
  }

  lemma AllReadCovers(f: SsaFunction, ctx: EffectContext, s: set<ValueId>)
    requires AllRead(f, s)
    ensures Covered(f, ctx, s)
  {
    forall b | 0 <= b < |f.blocks| ensures BlockCovered(f.blocks[b], ctx, s) {
      assert BlockRead(f.blocks[b], s);
    }
  }

  lemma LeastIsSwept(f: SsaFunction, ctx: EffectContext, live: set<ValueId>)
    requires Covered(f, ctx, live)
    requires forall s :: Covered(f, ctx, s) ==> live <= s
    ensures Swept(f, ctx, live)
  {
    forall b, i | 0 <= b < |f.blocks| && 0 <= i < |f.blocks[b].stmts| && NeverDropped(f.blocks[b].stmts[i].op, ctx)
      ensures f.blocks[b].stmts[i].id in live
    {
      assert BlockCovered(f.blocks[b], ctx, live);
      assert StmtCovered(f.blocks[b].stmts[i], ctx, live);
    }
    forall s | AllRead(f, s) ensures live <= s {
      AllReadCovers(f, ctx, s);
    }
  }

  // ----- Mark -----

  type Deps = map<ValueId, set<ValueId>>

  ghost predicate DepsOf(f: SsaFunction, deps: Deps) {
    && (forall id: ValueId, b: BlockId, i: nat :: DefAt(f, id, b, i) ==>
          id in deps && deps[id] == OperandDefs(f.blocks[b].stmts[i].op))
    && (forall id :: id in deps ==> exists b: BlockId, i: nat :: DefAt(f, id, b, i))
  }

  /** Everything in `live` is needed, whatever covers the function. */
  ghost predicate Needed(f: SsaFunction, ctx: EffectContext, live: set<ValueId>) {
    forall s :: Covered(f, ctx, s) ==> live <= s
  }

  lemma NeededRoot(f: SsaFunction, ctx: EffectContext, live: set<ValueId>, b: BlockId, i: nat)
    requires Needed(f, ctx, live) && b < |f.blocks| && i < |f.blocks[b].stmts|
    requires !Removable(f.blocks[b].stmts[i].op, ctx)
    ensures Needed(f, ctx, live + {f.blocks[b].stmts[i].id})
  {
    forall s | Covered(f, ctx, s) ensures live + {f.blocks[b].stmts[i].id} <= s {
      assert BlockCovered(f.blocks[b], ctx, s);
      assert StmtCovered(f.blocks[b].stmts[i], ctx, s);
    }
  }

  lemma NeededOperands(f: SsaFunction, ctx: EffectContext, live: set<ValueId>, b: BlockId)
    requires Needed(f, ctx, live) && b < |f.blocks|
    ensures Needed(f, ctx, live + ValueDefs(f.blocks[b].terminator.Operands()))
  {
    forall s | Covered(f, ctx, s) ensures live + ValueDefs(f.blocks[b].terminator.Operands()) <= s {
      assert BlockCovered(f.blocks[b], ctx, s);
    }
  }

  lemma NeededDeps(f: SsaFunction, ctx: EffectContext, live: set<ValueId>, deps: Deps, id: ValueId)
    requires Needed(f, ctx, live) && DepsOf(f, deps) && id in live && id in deps
    ensures Needed(f, ctx, live + deps[id])
  {
    var b: BlockId, i: nat :| DefAt(f, id, b, i);
    forall s | Covered(f, ctx, s) ensures live + deps[id] <= s {
      assert BlockCovered(f.blocks[b], ctx, s);
      assert StmtCovered(f.blocks[b].stmts[i], ctx, s);
    }
  }

  /** The roots and dependencies found among the statements before `(b, i)`. */
  ghost predicate Scanned(f: SsaFunction, ctx: EffectContext, deps: Deps, live: set<ValueId>, b: nat, i: nat) {
    && (forall id: ValueId, c: BlockId, j: nat :: DefAt(f, id, c, j) && (c < b || (c == b && j < i)) ==>
          && id in deps && deps[id] == OperandDefs(f.blocks[c].stmts[j].op)
          && (!Removable(f.blocks[c].stmts[j].op, ctx) ==> id in live))
    && (forall id :: id in deps ==> exists c: BlockId, j: nat :: DefAt(f, id, c, j))
  }

  lemma ScanStep(f: SsaFunction, ctx: EffectContext, deps: Deps, live: set<ValueId>, live': set<ValueId>, b: BlockId, i: nat)
    requires UniqueDefs(f) && b < |f.blocks| && i < |f.blocks[b].stmts| && Scanned(f, ctx, deps, live, b, i)
    requires live <= live' && (!Removable(f.blocks[b].stmts[i].op, ctx) ==> f.blocks[b].stmts[i].id in live')
    ensures Scanned(f, ctx, deps[f.blocks[b].stmts[i].id := OperandDefs(f.blocks[b].stmts[i].op)], live', b, i + 1)
  {
    var s := f.blocks[b].stmts[i];
    var deps' := deps[s.id := OperandDefs(s.op)];
    assert DefAt(f, s.id, b, i);
  }

  method CollectRoots(f: SsaFunction, ctx: EffectContext) returns (deps: Deps, live: set<ValueId>)
    requires UniqueDefs(f)
    ensures DepsOf(f, deps) && Needed(f, ctx, live)
    ensures Scanned(f, ctx, deps, live, |f.blocks|, 0)
    ensures forall b :: 0 <= b < |f.blocks| ==> ValueDefs(f.blocks[b].terminator.Operands()) <= live
  {
    hide Needed, OpEffects, Removable;
    deps, live := map[], {};
    assert Needed(f, ctx, live) by { NeededNothing(f, ctx); }
    for b := 0 to |f.blocks|
      invariant Scanned(f, ctx, deps, live, b, 0)
      invariant Needed(f, ctx, live)
      invariant forall c :: 0 <= c < b ==> ValueDefs(f.blocks[c].terminator.Operands()) <= live
    {
      for i := 0 to |f.blocks[b].stmts|
        invariant Scanned(f, ctx, deps, live, b, i)
        invariant Needed(f, ctx, live)
        invariant forall c :: 0 <= c < b ==> ValueDefs(f.blocks[c].terminator.Operands()) <= live
      {
        var s := f.blocks[b].stmts[i];
        ghost var before := live;
        RemovableExact(s.op, ctx);
        if !OpEffects(s.op, ctx).IsRemovable() {
          NeededRoot(f, ctx, live, b, i);
          live := live + {s.id};
        }
        ScanStep(f, ctx, deps, before, live, b, i);
        deps := deps[s.id := OperandDefs(s.op)];
      }
      NeededOperands(f, ctx, live, b);
      live := live + ValueDefs(f.blocks[b].terminator.Operands());
    }
  }

  lemma NeededNothing(f: SsaFunction, ctx: EffectContext)
    ensures Needed(f, ctx, {})
  {
  }

  ghost function Mentioned(deps: Deps): set<ValueId> {
    set a, c | a in deps && c in deps[a] :: c
  }

  method MarkLive(f: SsaFunction, ctx: EffectContext) returns (live: set<ValueId>)
    requires UniqueDefs(f)
    ensures Covered(f, ctx, live)
    ensures forall s :: Covered(f, ctx, s) ==> live <= s
    ensures Swept(f, ctx, live)
  {
    var deps;
    deps, live := CollectRoots(f, ctx);
    hide Scanned, Needed, Covered, DepsOf, UniqueDefs, Swept;
    ghost var roots := live;
    var worklist := live;
    ghost var all := live + Mentioned(deps);
    while worklist != {}
      invariant worklist <= live <= all && roots <= live
      invariant Needed(f, ctx, live)
      invariant forall a :: a in live && a in deps ==> a in worklist || deps[a] <= live
      decreases all - live, worklist
    {
      var id :| id in worklist;
      worklist := worklist - {id};
      if id in deps {
        NeededDeps(f, ctx, live, deps, id);
        var fresh_ := deps[id] - live;
        ghost var before := live;
        assert deps[id] <= Mentioned(deps);
        live := live + fresh_;
        assert live == before + deps[id];
        worklist := worklist + fresh_;
        if fresh_ != {} { assert all - live < all - before; }
      }
    }
    ScannedGrows(f, ctx, deps, roots, live);
    MarkedCovers(f, ctx, deps, live);
    NeededIsLeast(f, ctx, live);
    LeastIsSwept(f, ctx, live);
  }

  lemma ScannedGrows(f: SsaFunction, ctx: EffectContext, deps: Deps, roots: set<ValueId>, live: set<ValueId>)
    requires Scanned(f, ctx, deps, roots, |f.blocks|, 0) && roots <= live
    ensures Scanned(f, ctx, deps, live, |f.blocks|, 0)
  {
    hide Removable;
  }

  lemma NeededIsLeast(f: SsaFunction, ctx: EffectContext, live: set<ValueId>)
    requires Needed(f, ctx, live)
    ensures forall s :: Covered(f, ctx, s) ==> live <= s
  {
    hide Covered;
  }

  lemma MarkedCovers(f: SsaFunction, ctx: EffectContext, deps: Deps, live: set<ValueId>)
    requires Scanned(f, ctx, deps, live, |f.blocks|, 0)
    requires forall b :: 0 <= b < |f.blocks| ==> ValueDefs(f.blocks[b].terminator.Operands()) <= live
    requires forall a :: a in live && a in deps ==> deps[a] <= live
    ensures Covered(f, ctx, live)
  {
    hide Removable;
    forall b | 0 <= b < |f.blocks| ensures BlockCovered(f.blocks[b], ctx, live) {
      forall i | 0 <= i < |f.blocks[b].stmts| ensures StmtCovered(f.blocks[b].stmts[i], ctx, live) {
        assert DefAt(f, f.blocks[b].stmts[i].id, b, i);
      }
    }
  }

  // ----- Sweep -----

  ghost function LiveOnly(live: set<ValueId>): ValueId -> bool {
    id => id in live
  }

  method RetainLive(stmts: seq<SsaStatement>, live: set<ValueId>) returns (kept: seq<SsaStatement>)
    ensures kept == Retain(stmts, LiveOnly(live))
  {
    kept := [];
    for i := 0 to |stmts|
      invariant kept == Retain(stmts[..i], LiveOnly(live))
    {
      RetainSplit(stmts[..i + 1], LiveOnly(live), i);
      assert stmts[..i + 1][..i] == stmts[..i] && stmts[..i + 1][i..] == [stmts[i]];
      if stmts[i].id in live {
        kept := kept + [stmts[i]];
      }
    }
    assert stmts[..|stmts|] == stmts;
  }

  /** The live statements and no others. */
  ghost predicate LiveAmong(stmts: seq<SsaStatement>, kept: seq<SsaStatement>, live: set<ValueId>) {
    forall x :: x in kept <==> x in stmts && x.id in live
  }

  ghost predicate OnlyLiveLeft(f: SsaFunction, g: SsaFunction, live: set<ValueId>) {
    |g.blocks| == |f.blocks| && forall b :: 0 <= b < |f.blocks| ==> LiveAmong(f.blocks[b].stmts, g.blocks[b].stmts, live)
  }

  lemma RetainedLive(stmts: seq<SsaStatement>, live: set<ValueId>)
    ensures LiveAmong(stmts, Retain(stmts, LiveOnly(live)), live)
  {
    hide Retain;
    forall x ensures x in Retain(stmts, LiveOnly(live)) <==> x in stmts && x.id in live {
      RetainedExactly(stmts, LiveOnly(live), x);
    }
  }

  lemma OnlyLive(f: SsaFunction, live: set<ValueId>)
    ensures OnlyLiveLeft(f, Dropped(f, LiveOnly(live)), live)
  {
    hide Retain, LiveAmong, LiveOnly;
    var g := Dropped(f, LiveOnly(live));
    forall b | 0 <= b < |f.blocks| ensures LiveAmong(f.blocks[b].stmts, g.blocks[b].stmts, live) {
      RetainedLive(f.blocks[b].stmts, live);
    }
  }

  method EliminateDeadDefs(f: SsaFunction, ctx: EffectContext)
      returns (g: SsaFunction, changed: bool, ghost live: set<ValueId>)
    requires UniqueDefs(f)
    ensures Covered(f, ctx, live) && forall s :: Covered(f, ctx, s) ==> live <= s
    ensures Swept(f, ctx, live)
    ensures g == Dropped(f, LiveOnly(live)) && OnlyLiveLeft(f, g, live)
    ensures changed <==> g != f
  {
    var marked := MarkLive(f, ctx);
    live := marked;
    var blocks: seq<SsaBlock> := [];
    changed := false;
    for b := 0 to |f.blocks|
      invariant |blocks| == b
      invariant forall c :: 0 <= c < b ==> blocks[c] == DropBlock(f.blocks[c], LiveOnly(live))
      invariant changed <==> exists c :: 0 <= c < b && blocks[c] != f.blocks[c]
    {
      var kept := RetainLive(f.blocks[b].stmts, marked);
      RetainShorter(f.blocks[b].stmts, LiveOnly(live));
      if |kept| != |f.blocks[b].stmts| {
        changed := true;
      }
      blocks := blocks + [f.blocks[b].(stmts := kept)];
    }
    g := f.(blocks := blocks);
    assert g.blocks == Dropped(f, LiveOnly(live)).blocks;
    OnlyLive(f, live);
    if forall c :: 0 <= c < |f.blocks| ==> blocks[c] == f.blocks[c] {
      assert blocks == f.blocks;
    }
  }

  /** Nothing is dropped unless the statement list gets shorter. */
  lemma {:induction false} RetainShorter(stmts: seq<SsaStatement>, keep: ValueId -> bool)
    ensures |Retain(stmts, keep)| <= |stmts|
    ensures |Retain(stmts, keep)| == |stmts| ==> Retain(stmts, keep) == stmts
  {
    if stmts != [] {
      RetainShorter(stmts[1..], keep);
      assert stmts == [stmts[0]] + stmts[1..];
    }
  }

  // ----- The sweep changes no run -----

  ghost predicate Agree<V>(live: set<ValueId>, env: map<ValueId, V>, env': map<ValueId, V>) {
    forall id :: id in live ==> (id in env <==> id in env') && (id in env ==> env[id] == env'[id])
  }

  lemma AgreeEvalAll<V, W>(m: Machine<V, W>, args: seq<V>, live: set<ValueId>, env: map<ValueId, V>, env': map<ValueId, V>, vs: seq<SsaValue>)
    requires Agree(live, env, env') && ValueDefs(vs) <= live
    ensures EvalAll(m, args, env, vs) == EvalAll(m, args, env', vs)
  {
    forall k | 0 <= k < |vs| ensures Eval(m, args, env, vs[k]) == Eval(m, args, env', vs[k]) {
      assert vs[k] in vs;
    }
    EvalAllAgree(m, args, env, env', vs, vs);
  }

  /** A kept statement does the same to both runs. */
  lemma KeptStmt<V(!new), W(!new)>(m: Machine<V, W>, args: seq<V>, live: set<ValueId>, start: map<ValueId, V>, start': map<ValueId, V>,
                       pos: nat, s: SsaStatement, env: map<ValueId, V>, env': map<ValueId, V>, w: W)
    requires Agree(live, start, start') && Agree(live, env, env') && OperandDefs(s.op) <= live
    ensures var r, r' := RunStmt(m, args, start, pos, s, env, w), RunStmt(m, args, start', pos, s, env', w);
            && (r.Stop? ==> r' == r)
            && (r.Next? ==> r'.Next? && r'.world == r.world && Agree(live, r.env, r'.env))
  {
    if !s.op.Phi? {
      assert ValueDefs(Operands(s.op)) <= live;
      AgreeEvalAll(m, args, live, env, env', Operands(s.op));
    } else if pos < |s.op.values| && s.op.values[pos].Some? {
      assert s.op.values[pos] in s.op.values;
    }
  }

  /** A dropped statement only binds its own result. */
  lemma DroppedStmt<V(!new), W(!new)>(m: Machine<V, W>, args: seq<V>, ctx: EffectContext, live: set<ValueId>, start: map<ValueId, V>,
                          pos: nat, s: SsaStatement, env: map<ValueId, V>, env': map<ValueId, V>, w: W)
    requires Sound(m, args, ctx) && Agree(live, env, env')
    requires s.id !in live && Removable(s.op, ctx)
    requires RunStmt(m, args, start, pos, s, env, w) != Stop(Stuck)
    ensures var r := RunStmt(m, args, start, pos, s, env, w);
            r.Next? && r.world == w && Agree(live, r.env, env')
  {
    if !s.op.Phi? {
      assert RemovableSound(m, args, ctx, s.op, env, w);
    }
  }

  lemma {:induction false} SweptStmts<V(!new), W(!new)>(m: Machine<V, W>, args: seq<V>, ctx: EffectContext, live: set<ValueId>,
                                            start: map<ValueId, V>, start': map<ValueId, V>, pos: nat,
                                            stmts: seq<SsaStatement>, env: map<ValueId, V>, env': map<ValueId, V>, w: W)
    requires Sound(m, args, ctx) && Agree(live, start, start') && Agree(live, env, env')
    requires forall i :: 0 <= i < |stmts| ==> StmtCovered(stmts[i], ctx, live)
    requires RunStmts(m, args, start, pos, stmts, env, w) != Stop(Stuck)
    ensures var r := RunStmts(m, args, start, pos, stmts, env, w);
            var r' := RunStmts(m, args, start', pos, Retain(stmts, LiveOnly(live)), env', w);
            && (r.Stop? ==> r' == r)
            && (r.Next? ==> r'.Next? && r'.world == r.world && Agree(live, r.env, r'.env))
    decreases |stmts|
  {
    hide Sound, Agree, Removable;
    if stmts != [] {
      var s := stmts[0];
      assert StmtCovered(s, ctx, live);
      var r := RunStmt(m, args, start, pos, s, env, w);
      if s.id in live {
        KeptStmt(m, args, live, start, start', pos, s, env, env', w);
        var r' := RunStmt(m, args, start', pos, s, env', w);
        var kept := Retain(stmts, LiveOnly(live));
        assert kept[0] == s && kept[1..] == Retain(stmts[1..], LiveOnly(live));
        if r.Next? {
          SweptStmts(m, args, ctx, live, start, start', pos, stmts[1..], r.env, r'.env, r.world);
        }
      } else {
        assert Retain(stmts, LiveOnly(live)) == Retain(stmts[1..], LiveOnly(live));
        DroppedStmt(m, args, ctx, live, start, pos, s, env, env', w);
        SweptStmts(m, args, ctx, live, start, start', pos, stmts[1..], r.env, env', r.world);
      }
    }
  }

  lemma SweptTerminator<V, W>(m: Machine<V, W>, args: seq<V>, live: set<ValueId>, t: Terminator, env: map<ValueId, V>, env': map<ValueId, V>, w: W)
    requires Agree(live, env, env') && ValueDefs(t.Operands()) <= live
    ensures RunTerminator(m, args, t, env, w) == RunTerminator(m, args, t, env', w)
  {
    var vs := t.Operands();
    if vs != [] {
      assert vs[0] in vs;
    }
  }

  lemma {:induction false} SweptRun<V(!new), W(!new)>(m: Machine<V, W>, args: seq<V>, ctx: EffectContext, live: set<ValueId>, f: SsaFunction,
                                          fuel: nat, b: BlockId, from: Option<BlockId>, env: map<ValueId, V>, env': map<ValueId, V>, w: W)
    requires Sound(m, args, ctx) && Covered(f, ctx, live) && Agree(live, env, env')
    requires Run(m, args, f, fuel, b, from, env, w) != Stuck
    ensures Run(m, args, Dropped(f, LiveOnly(live)), fuel, b, from, env', w) == Run(m, args, f, fuel, b, from, env, w)
    decreases fuel
  {
    hide Sound, Agree, StmtCovered;
    if fuel > 0 && b < |f.blocks| {
      assert BlockCovered(f.blocks[b], ctx, live);
      var pos := EdgePosition(f, b, from);
      SweptStmts(m, args, ctx, live, env, env', pos, f.blocks[b].stmts, env, env', w);
      var r := RunStmts(m, args, env, pos, f.blocks[b].stmts, env, w);
      if r.Next? {
        var r' := RunStmts(m, args, env', pos, Retain(f.blocks[b].stmts, LiveOnly(live)), env', w);
        SweptTerminator(m, args, live, f.blocks[b].terminator, r.env, r'.env, r.world);
        var t := RunTerminator(m, args, f.blocks[b].terminator, r.env, r.world);
        if t.Goto? {
          SweptRun(m, args, ctx, live, f, fuel - 1, t.target, Some(b), r.env, r'.env, r.world);
        }
      }
    }
  }

  /** Dead definition elimination preserves the meaning of an accepted function:
      every run, of any length, ends in the same outcome and world. */
  lemma EliminationPreservesRuns<V(!new), W(!new)>(m: Machine<V, W>, args: seq<V>, ctx: EffectContext, f: SsaFunction, live: set<ValueId>, fuel: nat, w: W)
    requires WellFormed(f) && |args| == |f.params| && Sound(m, args, ctx) && Covered(f, ctx, live)
    ensures Start(m, args, Dropped(f, LiveOnly(live)), fuel, w) == Start(m, args, f, fuel, w)
  {
    hide WellFormed, Sound, Covered;
    AcceptedNeverStuck(m, args, f, fuel, w);
    SweptRun(m, args, ctx, live, f, fuel, f.entry, None, map[], map[], w);
  }

  /** ... and the verifier still accepts the result. */
  lemma EliminationKeepsWellFormed(f: SsaFunction, ctx: EffectContext, live: set<ValueId>)
    requires WellFormed(f) && Covered(f, ctx, live)
    ensures WellFormed(Dropped(f, LiveOnly(live)))
  {
    hide WellFormed, Removable;
    forall b | 0 <= b < |f.blocks| ensures BlockSupported(f.blocks[b], LiveOnly(live)) {
      assert BlockCovered(f.blocks[b], ctx, live);
      forall i | 0 <= i < |f.blocks[b].stmts| ensures StmtSupported(f.blocks[b].stmts[i], LiveOnly(live)) {
        assert StmtCovered(f.blocks[b].stmts[i], ctx, live);
      }
    }
    DroppedWellFormed(f, LiveOnly(live));
  }
}
