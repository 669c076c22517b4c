/** Rewriting a function along legitimate merges: every run is unchanged and the
    verifier still accepts the result. */
module SsaCseRewrite {
  import opened Options
  import opened SsaModel
  import opened SsaVerify
  import opened SsaSemantics
  import opened SsaSafety
  import opened SsaRewrite
  import opened SsaCse

  // ----- The rewrite -----

  function SubstValue(s: Subst, v: SsaValue): SsaValue {
    if v.Def? && v.id in s then Def(s[v.id]) else v
  }

  function SubstAll(s: Subst, vs: seq<SsaValue>): (r: seq<SsaValue>)
    ensures |r| == |vs| && forall k :: 0 <= k < |vs| ==> r[k] == SubstValue(s, vs[k])
  {
    seq(|vs|, k requires 0 <= k < |vs| => SubstValue(s, vs[k]))
  }

  function SubstIncoming(s: Subst, v: Option<SsaValue>): Option<SsaValue> {
    if v.Some? then Some(SubstValue(s, v.value)) else None
  }

  function SubstOp(s: Subst, op: SsaOp): SsaOp {
    match op
    case Phi(edges, values) => Phi(edges, seq(|values|, k requires 0 <= k < |values| => SubstIncoming(s, values[k])))
    case Call(callee, args) => Call(callee, SubstAll(s, args))
    case Apply(operator, operands) => Apply(operator, SubstAll(s, operands))
  }

  function SubstStmt(s: Subst, z: SsaStatement): SsaStatement {
    z.(op := SubstOp(s, z.op))
  }

  function SubstTerminator(s: Subst, t: Terminator): Terminator {
    match t
    case Branch(c, x, y) => Branch(SubstValue(s, c), x, y)
    case Return(Some(v)) => Return(Some(SubstValue(s, v)))
    case _ => t
  }

  function SubstStmts(s: Subst, stmts: seq<SsaStatement>): (r: seq<SsaStatement>)
    ensures |r| == |stmts| && forall i :: 0 <= i < |stmts| ==> r[i] == SubstStmt(s, stmts[i])
  {
    seq(|stmts|, i requires 0 <= i < |stmts| => SubstStmt(s, stmts[i]))
  }

  function SubstBlock(s: Subst, b: SsaBlock): SsaBlock {
    b.(stmts := SubstStmts(s, b.stmts), terminator := SubstTerminator(s, b.terminator))
  }

  /** Every use site rewritten. */
  function Substituted(f: SsaFunction, s: Subst): (g: SsaFunction)
    ensures |g.blocks| == |f.blocks|
  {
    f.(blocks := seq(|f.blocks|, b requires 0 <= b < |f.blocks| => SubstBlock(s, f.blocks[b])))
  }

  ghost function Unmerged(s: Subst): ValueId -> bool {
    id => id !in s
  }

  /** Uses rewritten and the merged statements deleted. */
  ghost function Merged(f: SsaFunction, s: Subst): SsaFunction {
    Dropped(Substituted(f, s), Unmerged(s))
  }

  lemma SubstOperands(s: Subst, op: SsaOp, t: Terminator)
    ensures Operands(SubstOp(s, op)) == SubstAll(s, Operands(op))
    ensures SubstTerminator(s, t).Operands() == SubstAll(s, t.Operands())
    ensures SubstTerminator(s, t).Targets() == t.Targets()
  {
  }

  // ----- Well-formedness of the result -----

  lemma SubstitutedGraph(f: SsaFunction, s: Subst)
    ensures SameGraph(f, Substituted(f, s))
  {
    forall b: BlockId | b < |f.blocks| ensures SameEdges(f, Substituted(f, s), b) {
      assert Substituted(f, s).blocks[b] == SubstBlock(s, f.blocks[b]);
    }
  }

  lemma SubstitutedSite(f: SsaFunction, s: Subst, id: ValueId, b: BlockId, i: nat)
    ensures DefAt(f, id, b, i) <==> DefAt(Substituted(f, s), id, b, i)
  {
    if b < |f.blocks| && i < |f.blocks[b].stmts| {
      assert Substituted(f, s).blocks[b].stmts[i] == SubstStmt(s, f.blocks[b].stmts[i]);
    }
  }

  lemma SubstitutedUse(f: SsaFunction, ctx: EffectContext, s: Subst, v: SsaValue, b: BlockId, i: nat)
    requires UniqueDefs(f) && MergesOk(f, ctx, s) && Reachable(f, b) && UseOk(f, v, b, i)
    ensures UseOk(f, SubstValue(s, v), b, i)
  {
    hide Reachable, Dominates, SameCall;
    if v.Def? && v.id in s {
      var d: BlockId, di: nat :| DefAt(f, v.id, d, di) && SiteBefore(f, d, di, b, i);
      assert MergeOk(f, ctx, s, v.id);
      var d': BlockId, di': nat, o: BlockId, oi: nat :|
        DefAt(f, v.id, d', di') && DefAt(f, s[v.id], o, oi) && SiteBefore(f, o, oi, d', di');
      SiteTransitive(f, o, oi, d, di, b, i);
    }
  }

  lemma SubstitutedPhiUse(f: SsaFunction, ctx: EffectContext, s: Subst, v: SsaValue, u: BlockId)
    requires UniqueDefs(f) && MergesOk(f, ctx, s) && PhiUseOk(f, v, u)
    ensures PhiUseOk(f, SubstValue(s, v), u)
  {
    hide Reachable, Dominates, SameCall;
    if v.Def? && v.id in s {
      var d: BlockId, di: nat :| DefAt(f, v.id, d, di) && Dominates(f, d, u);
      assert MergeOk(f, ctx, s, v.id);
      var d': BlockId, di': nat, o: BlockId, oi: nat :|
        DefAt(f, v.id, d', di') && DefAt(f, s[v.id], o, oi) && SiteBefore(f, o, oi, d', di');
      if o != d { DominanceTransitive(f, o, d, u); }
    }
  }

  lemma UseTransfer(f: SsaFunction, s: Subst, v: SsaValue, b: BlockId, i: nat)
    requires UseOk(f, v, b, i)
    ensures UseOk(Substituted(f, s), v, b, i)
  {
    hide Dominates;
    if v.Def? {
      var d: BlockId, di: nat :| DefAt(f, v.id, d, di) && SiteBefore(f, d, di, b, i);
      SubstitutedSite(f, s, v.id, d, di);
      SubstitutedGraph(f, s);
      SameGraphFlow(f, Substituted(f, s), d, b);
      assert SiteBefore(Substituted(f, s), d, di, b, i);
    }
  }

  lemma PhiUseTransfer(f: SsaFunction, s: Subst, v: SsaValue, u: BlockId)
    requires PhiUseOk(f, v, u)
    ensures PhiUseOk(Substituted(f, s), v, u)
  {
    hide Dominates;
    if v.Def? {
      var d: BlockId, di: nat :| DefAt(f, v.id, d, di) && Dominates(f, d, u);
      SubstitutedSite(f, s, v.id, d, di);
      SubstitutedGraph(f, s);
      SameGraphFlow(f, Substituted(f, s), d, u);
    }
  }

  lemma SubstitutedStmtUses(f: SsaFunction, ctx: EffectContext, s: Subst, b: BlockId, i: nat)
    requires UniqueDefs(f) && MergesOk(f, ctx, s) && b < |f.blocks| && Reachable(f, b) && i < |f.blocks[b].stmts|
    requires StmtUsesOk(f, b, i)
    ensures StmtUsesOk(Substituted(f, s), b, i)
  {
    hide UniqueDefs, MergesOk, Reachable, UseOk, PhiUseOk;
    var g := Substituted(f, s);
    assert g.blocks[b].stmts[i] == SubstStmt(s, f.blocks[b].stmts[i]);
    match f.blocks[b].stmts[i].op
    case Phi(edges, values) =>
      forall k | 0 <= k < |edges| && k < |values| && values[k].Some? && Reachable(g, edges[k])
        ensures PhiUseOk(g, SubstValue(s, values[k].value), edges[k])
      {
        SubstitutedGraph(f, s);
        SameGraphFlow(f, g, edges[k], edges[k]);
        SubstitutedPhiUse(f, ctx, s, values[k].value, edges[k]);
        PhiUseTransfer(f, s, SubstValue(s, values[k].value), edges[k]);
      }
    case op =>
      SubstOperands(s, op, f.blocks[b].terminator);
      forall k | 0 <= k < |Operands(op)| ensures UseOk(g, SubstAll(s, Operands(op))[k], b, i) {
        SubstitutedUse(f, ctx, s, Operands(op)[k], b, i);
        UseTransfer(f, s, SubstValue(s, Operands(op)[k]), b, i);
      }
  }

  lemma SubstitutedBlockUses(f: SsaFunction, ctx: EffectContext, s: Subst, b: BlockId)
    requires UniqueDefs(f) && MergesOk(f, ctx, s) && b < |f.blocks| && Reachable(f, b) && BlockUsesOk(f, b)
    ensures BlockUsesOk(Substituted(f, s), b)
  {
    hide UniqueDefs, MergesOk, Reachable, UseOk, StmtUsesOk;
    var g := Substituted(f, s);
    assert g.blocks[b] == SubstBlock(s, f.blocks[b]);
    forall i | 0 <= i < |g.blocks[b].stmts| ensures StmtUsesOk(g, b, i) {
      SubstitutedStmtUses(f, ctx, s, b, i);
    }
    var vs := f.blocks[b].terminator.Operands();
    SubstOperands(s, Phi([], []), f.blocks[b].terminator);
    forall k | 0 <= k < |vs| ensures UseOk(g, SubstAll(s, vs)[k], b, |f.blocks[b].stmts|) {
      SubstitutedUse(f, ctx, s, vs[k], b, |f.blocks[b].stmts|);
      UseTransfer(f, s, SubstValue(s, vs[k]), b, |f.blocks[b].stmts|);
    }
  }

  lemma SubstitutedWellFormed(f: SsaFunction, ctx: EffectContext, s: Subst)
    requires WellFormed(f) && MergesOk(f, ctx, s)
    ensures WellFormed(Substituted(f, s))
  {
    hide StructureOk, EdgesOk, MergesOk, BlockUsesOk, Reachable;
    var g := Substituted(f, s);
    SubstitutedGraph(f, s);
    SameGraphOk(f, g);
    forall id: ValueId, b: BlockId, i: nat, c: BlockId, j: nat | DefAt(g, id, b, i) && DefAt(g, id, c, j)
      ensures b == c && i == j
    {
      SubstitutedSite(f, s, id, b, i);
      SubstitutedSite(f, s, id, c, j);
    }
    forall b: BlockId, i: nat | b < |g.blocks| && i < |g.blocks[b].stmts| ensures PhiOk(g, b, i) {
      assert PhiOk(f, b, i);
      assert g.blocks[b] == SubstBlock(s, f.blocks[b]);
    }
    forall b: BlockId | b < |g.blocks| && Reachable(g, b) ensures BlockUsesOk(g, b) {
      SameGraphFlow(f, g, b, b);
      SubstitutedBlockUses(f, ctx, s, b);
    }
  }

  /** After the substitution nothing reads a merged definition. */
  lemma SubstitutedSupported(f: SsaFunction, ctx: EffectContext, s: Subst)
    requires MergesOk(f, ctx, s)
    ensures Supported(Substituted(f, s), Unmerged(s))
  {
    hide SameCall, SiteBefore;
    var g := Substituted(f, s);
    forall v: SsaValue ensures SubstValue(s, v).Def? ==> SubstValue(s, v).id !in s {
      if v.Def? && v.id in s { assert MergeOk(f, ctx, s, v.id); }
    }
    forall b | 0 <= b < |g.blocks| ensures BlockSupported(g.blocks[b], Unmerged(s)) {
      assert g.blocks[b] == SubstBlock(s, f.blocks[b]);
      forall i | 0 <= i < |g.blocks[b].stmts| ensures StmtSupported(g.blocks[b].stmts[i], Unmerged(s)) {
        var op := f.blocks[b].stmts[i].op;
        forall id | id in OperandDefs(SubstOp(s, op)) ensures id !in s {
          if op.Phi? {
            var k :| 0 <= k < |op.values| && SubstIncoming(s, op.values[k]) == Some(Def(id));
          } else {
            var k :| 0 <= k < |Operands(op)| && SubstValue(s, Operands(op)[k]) == Def(id);
          }
        }
      }
    }
  }

  lemma MergingKeepsWellFormed(f: SsaFunction, ctx: EffectContext, s: Subst)
    requires WellFormed(f) && MergesOk(f, ctx, s)
    ensures WellFormed(Merged(f, s))
  {
    hide WellFormed, MergesOk, Supported;
    SubstitutedWellFormed(f, ctx, s);
    SubstitutedSupported(f, ctx, s);
    DroppedWellFormed(Substituted(f, s), Unmerged(s));
  }

  // ----- The result runs the same -----

  /** The rewritten run's environment: the same, without the merged definitions. */
  ghost predicate Mirrors<V>(s: Subst, env: map<ValueId, V>, env': map<ValueId, V>) {
    forall id :: id !in s ==> (id in env <==> id in env') && (id in env ==> env[id] == env'[id])
  }

  lemma MirrorEval<V(!new), W(!new)>(m: Machine<V, W>, args: seq<V>, f: SsaFunction, ctx: EffectContext, s: Subst,
                         b: BlockId, i: nat, env: map<ValueId, V>, env': map<ValueId, V>, v: SsaValue)
    requires MergesOk(f, ctx, s) && Holds(m, args, f, ctx, s, b, i, env) && Mirrors(s, env, env') && UseOk(f, v, b, i)
    ensures Eval(m, args, env, v) == Eval(m, args, env', SubstValue(s, v))
  {
    hide SameCall, CallHolds;
    if v.Def? && v.id in s {
      var d: BlockId, di: nat :| DefAt(f, v.id, d, di) && SiteBefore(f, d, di, b, i);
      assert MergedEqual(s, env, v.id);
      assert MergeOk(f, ctx, s, v.id);
    }
  }

  /** The situation on entry to a block, in both runs. */
  ghost predicate Entered<V(!new), W(!new)>(m: Machine<V, W>, args: seq<V>, f: SsaFunction, ctx: EffectContext, s: Subst,
                                b: BlockId, from: Option<BlockId>, env: map<ValueId, V>, env': map<ValueId, V>) {
    && ArrivesWith(f, b, from, env)
    && Holds(m, args, f, ctx, s, b, 0, env)
    && (from.Some? ==> Holds(m, args, f, ctx, s, from.value, |f.blocks[from.value].stmts|, env))
    && Mirrors(s, env, env')
  }

  lemma MirrorPhi<V(!new), W(!new)>(m: Machine<V, W>, args: seq<V>, f: SsaFunction, ctx: EffectContext, s: Subst,
                        b: BlockId, from: Option<BlockId>, start: map<ValueId, V>, start': map<ValueId, V>, i: nat)
    requires WellFormed(f) && MergesOk(f, ctx, s) && Entered(m, args, f, ctx, s, b, from, start, start')
    requires i < |f.blocks[b].stmts| && f.blocks[b].stmts[i].op.Phi?
    ensures var op, pos := f.blocks[b].stmts[i].op, EdgePosition(f, b, from);
            PhiValue(m, args, start, op, pos) == PhiValue(m, args, start', SubstOp(s, op), pos)
  {
    hide MergesOk, Holds, UniqueDefs, DefinedAt, Reachable, Dominates;
    var op, pos := f.blocks[b].stmts[i].op, EdgePosition(f, b, from);
    assert PhiOk(f, b, i);
    if pos < |op.values| && op.values[pos].Some? {
      assert BlockUsesOk(f, b);
      assert StmtUsesOk(f, b, i);
      EdgesGiveGraph(f);
      assert Edge(f, from.value, b) && BackEdge(f, from.value, b);
      assert op.edges[pos] == from.value;
      var u, v := from.value, op.values[pos].value;
      assert PhiUseOk(f, v, u);
      assert UseOk(f, v, u, |f.blocks[u].stmts|) by {
        if v.Def? {
          var d: BlockId, di: nat :| DefAt(f, v.id, d, di) && Dominates(f, d, u);
          assert SiteBefore(f, d, di, u, |f.blocks[u].stmts|);
        }
      }
      MirrorEval(m, args, f, ctx, s, u, |f.blocks[u].stmts|, start, start', v);
    }
  }

  lemma MirrorOperands<V(!new), W(!new)>(m: Machine<V, W>, args: seq<V>, f: SsaFunction, ctx: EffectContext, s: Subst,
                             b: BlockId, i: nat, env: map<ValueId, V>, env': map<ValueId, V>)
    requires WellFormed(f) && MergesOk(f, ctx, s) && b < |f.blocks| && Reachable(f, b) && i < |f.blocks[b].stmts|
    requires Holds(m, args, f, ctx, s, b, i, env) && Mirrors(s, env, env') && !f.blocks[b].stmts[i].op.Phi?
    ensures var op := f.blocks[b].stmts[i].op;
            EvalAll(m, args, env, Operands(op)) == EvalAll(m, args, env', Operands(SubstOp(s, op)))
  {
    hide WellFormed, MergesOk, Holds, UseOk, Reachable;
    var vs := Operands(f.blocks[b].stmts[i].op);
    forall k | 0 <= k < |vs| ensures Eval(m, args, env, vs[k]) == Eval(m, args, env', SubstAll(s, vs)[k]) {
      OperandUse(f, b, i, k);
      MirrorEval(m, args, f, ctx, s, b, i, env, env', vs[k]);
    }
    EvalAllAgree(m, args, env, env', vs, SubstAll(s, vs));
  }

  /** A statement that stays does the same to both runs. */
  lemma MirrorStmt<V(!new), W(!new)>(m: Machine<V, W>, args: seq<V>, f: SsaFunction, ctx: EffectContext, s: Subst,
                         b: BlockId, from: Option<BlockId>, start: map<ValueId, V>, start': map<ValueId, V>,
                         i: nat, env: map<ValueId, V>, env': map<ValueId, V>, w: W)
    requires WellFormed(f) && MergesOk(f, ctx, s) && Entered(m, args, f, ctx, s, b, from, start, start')
    requires i < |f.blocks[b].stmts| && Holds(m, args, f, ctx, s, b, i, env) && Mirrors(s, env, env')
    ensures var z, pos := f.blocks[b].stmts[i], EdgePosition(f, b, from);
            var r, r' := RunStmt(m, args, start, pos, z, env, w), RunStmt(m, args, start', pos, SubstStmt(s, z), env', w);
            && (r.Stop? ==> r' == r)
            && (r.Next? ==> r'.Next? && r'.world == r.world && Mirrors(s, r.env, r'.env))
  {
    hide WellFormed, MergesOk, Holds, Reachable, Mirrors, ArrivesWith, EvalAll, PhiValue, Operands;
    ArrivesReachable(f, b, from, start);
    var z, pos := f.blocks[b].stmts[i], EdgePosition(f, b, from);
    if z.op.Phi? {
      MirrorPhi(m, args, f, ctx, s, b, from, start, start', i);
      var x := PhiValue(m, args, start, z.op, pos);
      if x.Some? { MirrorBind(s, env, env', z.id, x.value); }
    } else {
      MirrorOperands(m, args, f, ctx, s, b, i, env, env');
      var vs := EvalAll(m, args, env, Operands(z.op));
      if vs.Some? {
        var e := m.perform(TagOf(z.op), vs.value, w);
        if e.Value? { MirrorBind(s, env, env', z.id, e.value); }
      }
    }
  }

  lemma ArrivesReachable<V>(f: SsaFunction, b: BlockId, from: Option<BlockId>, env: map<ValueId, V>)
    requires ArrivesWith(f, b, from, env)
    ensures b < |f.blocks| && Reachable(f, b)
  {
  }

  lemma MirrorBind<V>(s: Subst, env: map<ValueId, V>, env': map<ValueId, V>, id: ValueId, x: V)
    requires Mirrors(s, env, env')
    ensures Mirrors(s, env[id := x], env'[id := x])
  {
  }

  lemma SuffixStep(s: Subst, stmts: seq<SsaStatement>, i: nat)
    requires i < |stmts|
    ensures stmts[i..] == [stmts[i]] + stmts[i + 1..]
    ensures Retain(SubstStmts(s, stmts[i..]), Unmerged(s)) ==
            (if stmts[i].id in s then [] else [SubstStmt(s, stmts[i])]) + Retain(SubstStmts(s, stmts[i + 1..]), Unmerged(s))
  {
    var t := SubstStmts(s, stmts[i..]);
    assert t[1..] == SubstStmts(s, stmts[i + 1..]);
  }

  lemma {:induction false} MirrorStmts<V(!new), W(!new)>(m: Machine<V, W>, args: seq<V>, f: SsaFunction, ctx: EffectContext, s: Subst,
                         b: BlockId, from: Option<BlockId>, start: map<ValueId, V>, start': map<ValueId, V>,
                         i: nat, env: map<ValueId, V>, env': map<ValueId, V>, w: W)
    requires WellFormed(f) && Sound(m, args, ctx) && MergesOk(f, ctx, s) && Entered(m, args, f, ctx, s, b, from, start, start')
    requires i <= |f.blocks[b].stmts| && Holds(m, args, f, ctx, s, b, i, env) && Mirrors(s, env, env')
    ensures var stmts, pos := f.blocks[b].stmts[i..], EdgePosition(f, b, from);
            var r := RunStmts(m, args, start, pos, stmts, env, w);
            var r' := RunStmts(m, args, start', pos, Retain(SubstStmts(s, stmts), Unmerged(s)), env', w);
            && (r.Stop? ==> r' == r)
            && (r.Next? ==> r'.Next? && r'.world == r.world && Mirrors(s, r.env, r'.env)
                            && Holds(m, args, f, ctx, s, b, |f.blocks[b].stmts|, r.env))
    decreases |f.blocks[b].stmts| - i
  {
    hide WellFormed, Sound, MergesOk, Holds, Reachable, Retain, SubstStmts;
    var stmts, pos := f.blocks[b].stmts, EdgePosition(f, b, from);
    if i == |stmts| {
      assert Retain(SubstStmts(s, stmts[i..]), Unmerged(s)) == [] by { NothingLeft(s); }
    } else {
      var z := stmts[i];
      SuffixStep(s, stmts, i);
      var rest := Retain(SubstStmts(s, stmts[i + 1..]), Unmerged(s));
      var r := RunStmt(m, args, start, pos, z, env, w);
      if z.id in s {
        StmtMerged(m, args, f, ctx, s, start, pos, b, i, env, w);
        StmtHolds(m, args, f, ctx, s, start, pos, b, i, env, w);
        assert [] + rest == rest;
        MirrorStmts(m, args, f, ctx, s, b, from, start, start', i + 1, r.env, env', w);
      } else {
        MirrorStmt(m, args, f, ctx, s, b, from, start, start', i, env, env', w);
        var r' := RunStmt(m, args, start', pos, SubstStmt(s, z), env', w);
        var all := [SubstStmt(s, z)] + rest;
        assert all[1..] == rest;
        if r.Next? {
          StmtHolds(m, args, f, ctx, s, start, pos, b, i, env, w);
          MirrorStmts(m, args, f, ctx, s, b, from, start, start', i + 1, r.env, r'.env, r.world);
        }
      }
    }
  }

  lemma NothingLeft(s: Subst)
    ensures Retain(SubstStmts(s, []), Unmerged(s)) == []
  {
  }

  lemma HoldsAcross<V(!new), W(!new)>(m: Machine<V, W>, args: seq<V>, f: SsaFunction, ctx: EffectContext, s: Subst,
                          b: BlockId, t: BlockId, env: map<ValueId, V>)
    requires Edge(f, b, t) && Holds(m, args, f, ctx, s, b, |f.blocks[b].stmts|, env)
    ensures Holds(m, args, f, ctx, s, t, 0, env)
  {
    hide MergedEqual, CallHolds, DefinedAt, Dominates;
    DefinedAcross(f, b, t, env);
    forall id: ValueId, d: BlockId, di: nat | DefAt(f, id, d, di) && SiteBefore(f, d, di, t, 0)
      ensures SiteBefore(f, d, di, b, |f.blocks[b].stmts|)
    {
      DominatesPred(f, d, b, t);
    }
  }

  lemma MirrorTerminator<V(!new), W(!new)>(m: Machine<V, W>, args: seq<V>, f: SsaFunction, ctx: EffectContext, s: Subst,
                               b: BlockId, env: map<ValueId, V>, env': map<ValueId, V>, w: W)
    requires WellFormed(f) && MergesOk(f, ctx, s) && b < |f.blocks| && Reachable(f, b)
    requires Holds(m, args, f, ctx, s, b, |f.blocks[b].stmts|, env) && Mirrors(s, env, env')
    ensures RunTerminator(m, args, SubstTerminator(s, f.blocks[b].terminator), env', w)
            == RunTerminator(m, args, f.blocks[b].terminator, env, w)
  {
    hide MergesOk, Holds, Reachable, UniqueDefs, UseOk;
    var vs := f.blocks[b].terminator.Operands();
    assert BlockUsesOk(f, b);
    if vs != [] {
      assert UseOk(f, vs[0], b, |f.blocks[b].stmts|);
      MirrorEval(m, args, f, ctx, s, b, |f.blocks[b].stmts|, env, env', vs[0]);
    }
  }

  lemma {:induction false} MirrorRun<V(!new), W(!new)>(m: Machine<V, W>, args: seq<V>, f: SsaFunction, ctx: EffectContext, s: Subst,
                         fuel: nat, b: BlockId, from: Option<BlockId>, env: map<ValueId, V>, env': map<ValueId, V>, w: W)
    requires WellFormed(f) && |args| == |f.params| && Sound(m, args, ctx) && MergesOk(f, ctx, s)
    requires Entered(m, args, f, ctx, s, b, from, env, env')
    ensures Run(m, args, Merged(f, s), fuel, b, from, env', w) == Run(m, args, f, fuel, b, from, env, w)
    decreases fuel
  {
    hide WellFormed, Sound, MergesOk, Holds, Mirrors, Entered, Reachable, RunTerminator, RunStmts, Merged, EdgePosition;
    EnteredInRange(m, args, f, ctx, s, b, from, env, env');
    MergedBlock(f, s, b, from);
    if fuel > 0 {
      var stmts, pos := f.blocks[b].stmts, EdgePosition(f, b, from);
      assert stmts[0..] == stmts;
      MirrorStmts(m, args, f, ctx, s, b, from, env, env', 0, env, env', w);
      var r := RunStmts(m, args, env, pos, stmts, env, w);
      if r.Next? {
        var r' := RunStmts(m, args, env', pos, Retain(SubstStmts(s, stmts), Unmerged(s)), env', w);
        MirrorTerminator(m, args, f, ctx, s, b, r.env, r'.env, r.world);
        var t := RunTerminator(m, args, f.blocks[b].terminator, r.env, r.world);
        if t.Goto? {
          EnterNext(m, args, f, ctx, s, b, r.env, r'.env, r.world);
          MirrorRun(m, args, f, ctx, s, fuel - 1, t.target, Some(b), r.env, r'.env, r.world);
        }
      }
    }
  }

  lemma MergedBlock(f: SsaFunction, s: Subst, b: BlockId, from: Option<BlockId>)
    requires b < |f.blocks|
    ensures b < |Merged(f, s).blocks|
    ensures Merged(f, s).blocks[b].stmts == Retain(SubstStmts(s, f.blocks[b].stmts), Unmerged(s))
    ensures Merged(f, s).blocks[b].terminator == SubstTerminator(s, f.blocks[b].terminator)
    ensures EdgePosition(Merged(f, s), b, from) == EdgePosition(f, b, from)
  {
    assert Merged(f, s).blocks[b] == DropBlock(SubstBlock(s, f.blocks[b]), Unmerged(s));
  }

  /** Leaving a block along an edge enters the next one. */
  lemma EnterNext<V(!new), W(!new)>(m: Machine<V, W>, args: seq<V>, f: SsaFunction, ctx: EffectContext, s: Subst,
                        b: BlockId, env: map<ValueId, V>, env': map<ValueId, V>, w: W)
    requires WellFormed(f) && |args| == |f.params| && b < |f.blocks| && Reachable(f, b)
    requires Holds(m, args, f, ctx, s, b, |f.blocks[b].stmts|, env) && Mirrors(s, env, env')
    requires RunTerminator(m, args, f.blocks[b].terminator, env, w).Goto?
    ensures Entered(m, args, f, ctx, s, RunTerminator(m, args, f.blocks[b].terminator, env, w).target, Some(b), env, env')
  {
    hide WellFormed, Holds, Mirrors, Reachable, DefinedAt, RunTerminator;
    HoldsDefined(m, args, f, ctx, s, b, f.blocks[b].stmts, env);
    TerminatorDefined(m, args, f, b, env, w);
    HoldsAcross(m, args, f, ctx, s, b, RunTerminator(m, args, f.blocks[b].terminator, env, w).target, env);
  }

  lemma EnteredInRange<V(!new), W(!new)>(m: Machine<V, W>, args: seq<V>, f: SsaFunction, ctx: EffectContext, s: Subst,
                             b: BlockId, from: Option<BlockId>, env: map<ValueId, V>, env': map<ValueId, V>)
    requires Entered(m, args, f, ctx, s, b, from, env, env')
    ensures b < |f.blocks| && Reachable(f, b)
    ensures Holds(m, args, f, ctx, s, b, 0, env) && Mirrors(s, env, env')
  {
    hide Holds, Mirrors, Reachable, DefinedAt;
  }

  lemma HoldsDefined<V(!new), W(!new)>(m: Machine<V, W>, args: seq<V>, f: SsaFunction, ctx: EffectContext, s: Subst,
                           b: BlockId, stmts: seq<SsaStatement>, env: map<ValueId, V>)
    requires Holds(m, args, f, ctx, s, b, |stmts|, env)
    ensures DefinedAt(f, b, |stmts|, env)
  {
  }

  lemma EntryHolds<V(!new), W(!new)>(m: Machine<V, W>, args: seq<V>, f: SsaFunction, ctx: EffectContext, s: Subst)
    requires WellFormed(f)
    ensures Entered(m, args, f, ctx, s, f.entry, None, map[], map[])
  {
    hide WellFormed, MergedEqual, CallHolds;
    EntryArrives<V>(f);
    forall d: BlockId, di: nat ensures !SiteBefore(f, d, di, f.entry, 0) {
      NothingBeforeEntry(f, d, di);
    }
  }

  /** Merging duplicate pure calls preserves the meaning of an accepted function:
      every run, of any length, ends in the same outcome and world. */
  lemma MergingPreservesRuns<V(!new), W(!new)>(m: Machine<V, W>, args: seq<V>, f: SsaFunction, ctx: EffectContext, s: Subst, fuel: nat, w: W)
    requires WellFormed(f) && |args| == |f.params| && Sound(m, args, ctx) && MergesOk(f, ctx, s)
    ensures Start(m, args, Merged(f, s), fuel, w) == Start(m, args, f, fuel, w)
  {
    hide WellFormed, Sound, MergesOk, Entered;
    EntryHolds(m, args, f, ctx, s);
    MirrorRun(m, args, f, ctx, s, fuel, f.entry, None, map[], map[], w);
  }
}
