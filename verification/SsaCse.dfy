/** Merging duplicate calls: what makes a merge legitimate, and why rewriting a
    function along legitimate merges changes no run. */
module SsaCse {
  import opened SsaModel
  import opened SsaVerify
  import opened SsaSemantics
  import opened SsaSafety

  type Subst = map<ValueId, ValueId>

  // ----- Sites form a strict order on reachable code -----

  lemma {:induction false} DominanceAntisymmetric(f: SsaFunction, a: BlockId, b: BlockId, p: seq<BlockId>)
    requires Dominates(f, a, b) && Dominates(f, b, a) && PathTo(f, p, b)
    ensures a == b
    decreases |p|
  {
    if a != b {
      var k :| 0 <= k < |p| && p[k] == a;
      PathPrefix(f, p, k);
      var q := p[..k + 1];
      assert PathTo(f, q, a);
      var j :| 0 <= j < |q| && q[j] == b;
      PathPrefix(f, q, j);
      DominanceAntisymmetric(f, a, b, q[..j + 1]);
    }
  }

  lemma DominanceTransitive(f: SsaFunction, a: BlockId, b: BlockId, c: BlockId)
    requires Dominates(f, a, b) && Dominates(f, b, c)
    ensures Dominates(f, a, c)
  {
    forall p | PathTo(f, p, c) ensures a in p {
      var k :| 0 <= k < |p| && p[k] == b;
      PathPrefix(f, p, k);
      assert a in p[..k + 1];
    }
  }

  lemma SiteAsymmetric(f: SsaFunction, d: BlockId, di: nat, b: BlockId, i: nat)
    requires Reachable(f, b) && SiteBefore(f, d, di, b, i)
    ensures !SiteBefore(f, b, i, d, di)
  {
    if d != b && Dominates(f, b, d) {
      var p :| PathTo(f, p, b);
      DominanceAntisymmetric(f, d, b, p);
    }
  }

  lemma SiteTransitive(f: SsaFunction, o: BlockId, oi: nat, d: BlockId, di: nat, b: BlockId, i: nat)
    requires Reachable(f, b) && SiteBefore(f, o, oi, d, di) && SiteBefore(f, d, di, b, i)
    ensures SiteBefore(f, o, oi, b, i)
  {
    if o != d && d != b {
      DominanceTransitive(f, o, d, b);
      if o == b {
        var p :| PathTo(f, p, b);
        DominanceAntisymmetric(f, d, b, p);
      }
    }
  }

  lemma SiteReachable(f: SsaFunction, d: BlockId, di: nat, b: BlockId, i: nat)
    requires Reachable(f, b) && SiteBefore(f, d, di, b, i)
    ensures Reachable(f, d)
  {
    var p :| PathTo(f, p, b);
    if d != b {
      var k :| 0 <= k < |p| && p[k] == d;
      PathPrefix(f, p, k);
    }
  }

  // ----- Keys and legitimate merges -----

  datatype ValueKey = DefKey(id: ValueId) | ArgumentKey(index: nat) | LiteralKey(literal: Literal)

  /** `k` is a key of `v`: for a definition, itself or what it was merged into. */
  predicate KeyFits(s: Subst, v: SsaValue, k: ValueKey) {
    match v
    case Const(l) => k == LiteralKey(l)
    case Argument(i) => k == ArgumentKey(i)
    case Def(x) => k == DefKey(x) || (x in s && k == DefKey(s[x]))
  }

  ghost predicate Congruent(s: Subst, v: SsaValue, u: SsaValue) {
    exists k :: KeyFits(s, v, k) && KeyFits(s, u, k)
  }

  /** The statement at a site is a pure call. */
  ghost predicate FoldableCall(f: SsaFunction, ctx: EffectContext, b: BlockId, i: nat)
    requires b < |f.blocks| && i < |f.blocks[b].stmts|
  {
    PureCall(f.blocks[b].stmts[i].op, ctx)
  }

  /** Two pure calls of one callee on congruent operands. */
  ghost predicate SameCall(f: SsaFunction, ctx: EffectContext, s: Subst, d: BlockId, di: nat, o: BlockId, oi: nat)
    requires d < |f.blocks| && di < |f.blocks[d].stmts| && o < |f.blocks| && oi < |f.blocks[o].stmts|
  {
    && FoldableCall(f, ctx, d, di) && FoldableCall(f, ctx, o, oi)
    && var x, y := f.blocks[d].stmts[di].op, f.blocks[o].stmts[oi].op;
       && x.callee == y.callee && |x.args| == |y.args|
       && forall k :: 0 <= k < |x.args| ==> Congruent(s, x.args[k], y.args[k])
  }

  /** `id` may be replaced by `s[id]`: the same call, made earlier on every path. */
  ghost predicate MergeOk(f: SsaFunction, ctx: EffectContext, s: Subst, id: ValueId)
    requires id in s
  {
    && s[id] !in s
    && exists d: BlockId, di: nat, o: BlockId, oi: nat ::
         && DefAt(f, id, d, di) && DefAt(f, s[id], o, oi)
         && SiteBefore(f, o, oi, d, di) && SameCall(f, ctx, s, d, di, o, oi)
  }

  ghost predicate MergesOk(f: SsaFunction, ctx: EffectContext, s: Subst) {
    forall id :: id in s ==> MergeOk(f, ctx, s, id)
  }

  // ----- What a run keeps -----

  ghost predicate MergedEqual<V>(s: Subst, env: map<ValueId, V>, id: ValueId)
    requires id in s
  {
    id in env && s[id] in env && env[id] == env[s[id]]
  }

  /** The value of a foldable call is what the call yields on its current operands. */
  ghost predicate CallHolds<V, W(!new)>(m: Machine<V, W>, args: seq<V>, env: map<ValueId, V>, id: ValueId, op: SsaOp) {
    op.Call? ==>
      && id in env
      && EvalAll(m, args, env, op.args).Some?
      && forall w :: m.perform(CallTag(op.callee), EvalAll(m, args, env, op.args).value, w) == Value(env[id], w)
  }

  /** At a point, for every definition that comes before it. */
  ghost predicate Holds<V(!new), W(!new)>(m: Machine<V, W>, args: seq<V>, f: SsaFunction, ctx: EffectContext, s: Subst,
                              b: BlockId, i: nat, env: map<ValueId, V>) {
    && DefinedAt(f, b, i, env)
    && (forall id: ValueId, d: BlockId, di: nat :: id in s && DefAt(f, id, d, di) && SiteBefore(f, d, di, b, i) ==>
          MergedEqual(s, env, id))
    && (forall id: ValueId, d: BlockId, di: nat :: DefAt(f, id, d, di) && SiteBefore(f, d, di, b, i) && FoldableCall(f, ctx, d, di) ==>
          CallHolds(m, args, env, id, f.blocks[d].stmts[di].op))
  }

  /** Congruent operands evaluate alike. */
  lemma CongruentEval<V(!new), W(!new)>(m: Machine<V, W>, args: seq<V>, f: SsaFunction, ctx: EffectContext, s: Subst,
                            b: BlockId, i: nat, env: map<ValueId, V>, v: SsaValue, u: SsaValue)
    requires Holds(m, args, f, ctx, s, b, i, env) && Congruent(s, v, u)
    requires UseOk(f, v, b, i) && UseOk(f, u, b, i)
    ensures Eval(m, args, env, v) == Eval(m, args, env, u)
  {
    if v.Def? && v.id in s {
      var d: BlockId, di: nat :| DefAt(f, v.id, d, di) && SiteBefore(f, d, di, b, i);
      assert MergedEqual(s, env, v.id);
    }
    if u.Def? && u.id in s {
      var d: BlockId, di: nat :| DefAt(f, u.id, d, di) && SiteBefore(f, d, di, b, i);
      assert MergedEqual(s, env, u.id);
    }
  }

  lemma EarlierUse(f: SsaFunction, v: SsaValue, o: BlockId, oi: nat, b: BlockId, i: nat)
    requires UseOk(f, v, o, oi) && SiteBefore(f, o, oi, b, i) && Reachable(f, b)
    ensures UseOk(f, v, b, i)
  {
    if v.Def? {
      var d: BlockId, di: nat :| DefAt(f, v.id, d, di) && SiteBefore(f, d, di, o, oi);
      SiteTransitive(f, d, di, o, oi, b, i);
    }
  }

  /** The operands of a call in a well-formed function come before it. */
  lemma OperandUse(f: SsaFunction, b: BlockId, i: nat, k: nat)
    requires WellFormed(f) && b < |f.blocks| && Reachable(f, b) && i < |f.blocks[b].stmts|
    requires !f.blocks[b].stmts[i].op.Phi? && k < |Operands(f.blocks[b].stmts[i].op)|
    ensures UseOk(f, Operands(f.blocks[b].stmts[i].op)[k], b, i)
  {
    hide Reachable, UseOk, PhiUseOk;
    assert BlockUsesOk(f, b);
    assert StmtUsesOk(f, b, i);
  }

  /** A duplicate call yields the value of the call it merges into, in any world. */
  lemma DuplicateYields<V(!new), W(!new)>(m: Machine<V, W>, args: seq<V>, f: SsaFunction, ctx: EffectContext, s: Subst,
                              b: BlockId, i: nat, env: map<ValueId, V>, w: W)
    requires WellFormed(f) && Reachable(f, b) && b < |f.blocks| && i < |f.blocks[b].stmts|
    requires Holds(m, args, f, ctx, s, b, i, env)
    requires f.blocks[b].stmts[i].id in s && MergeOk(f, ctx, s, f.blocks[b].stmts[i].id)
    ensures var x := f.blocks[b].stmts[i];
            && x.op.Call? && s[x.id] in env && EvalAll(m, args, env, x.op.args).Some?
            && m.perform(TagOf(x.op), EvalAll(m, args, env, x.op.args).value, w) == Value(env[s[x.id]], w)
  {
    hide WellFormed, UseOk, Reachable, Dominates, Congruent, DefinedAt;
    var x := f.blocks[b].stmts[i];
    var d: BlockId, di: nat, o: BlockId, oi: nat :|
      DefAt(f, x.id, d, di) && DefAt(f, s[x.id], o, oi) && SiteBefore(f, o, oi, d, di) && SameCall(f, ctx, s, d, di, o, oi);
    assert DefAt(f, x.id, b, i);
    assert d == b && di == i by { SameSite(f, x.id, b, i, d, di); }
    var y := f.blocks[o].stmts[oi];
    SiteReachable(f, o, oi, b, i);
    forall k | 0 <= k < |x.op.args| ensures Eval(m, args, env, x.op.args[k]) == Eval(m, args, env, y.op.args[k]) {
      OperandUse(f, b, i, k);
      OperandUse(f, o, oi, k);
      EarlierUse(f, y.op.args[k], o, oi, b, i);
      CongruentEval(m, args, f, ctx, s, b, i, env, x.op.args[k], y.op.args[k]);
    }
    EvalAllAgree(m, args, env, env, x.op.args, y.op.args);
    assert CallHolds(m, args, env, y.id, y.op);
  }

  lemma SameSite(f: SsaFunction, id: ValueId, b: BlockId, i: nat, c: BlockId, j: nat)
    requires WellFormed(f) && DefAt(f, id, b, i) && DefAt(f, id, c, j)
    ensures b == c && i == j
  {
    hide UsesOk, PhisOk, StructureOk, EdgesOk;
  }

  // ----- One statement -----

  /** Binding the statement's result leaves earlier equations alone. */
  lemma MergedEqualKept<V(!new), W(!new)>(m: Machine<V, W>, args: seq<V>, f: SsaFunction, ctx: EffectContext, s: Subst,
                              b: BlockId, i: nat, env: map<ValueId, V>, x: V, id: ValueId, d: BlockId, di: nat)
    requires WellFormed(f) && MergesOk(f, ctx, s) && Reachable(f, b) && b < |f.blocks| && i < |f.blocks[b].stmts|
    requires Holds(m, args, f, ctx, s, b, i, env)
    requires id in s && DefAt(f, id, d, di) && SiteBefore(f, d, di, b, i)
    ensures MergedEqual(s, env[f.blocks[b].stmts[i].id := x], id)
  {
    hide WellFormed, Reachable, Dominates, SameCall, DefinedAt, CallHolds;
    var z := f.blocks[b].stmts[i].id;
    assert MergedEqual(s, env, id);
    assert DefAt(f, z, b, i);
    SiteAsymmetric(f, d, di, b, i);
    if id == z {
      SameSite(f, z, b, i, d, di);
    }
    if s[id] == z {
      assert MergeOk(f, ctx, s, id);
      var d': BlockId, di': nat, o: BlockId, oi: nat :|
        DefAt(f, id, d', di') && DefAt(f, s[id], o, oi) && SiteBefore(f, o, oi, d', di');
      SameSite(f, id, d, di, d', di');
      SameSite(f, z, b, i, o, oi);
    }
  }

  lemma CallHoldsKept<V(!new), W(!new)>(m: Machine<V, W>, args: seq<V>, f: SsaFunction, ctx: EffectContext, s: Subst,
                            b: BlockId, i: nat, env: map<ValueId, V>, x: V, id: ValueId, d: BlockId, di: nat)
    requires WellFormed(f) && Reachable(f, b) && b < |f.blocks| && i < |f.blocks[b].stmts|
    requires Holds(m, args, f, ctx, s, b, i, env)
    requires DefAt(f, id, d, di) && SiteBefore(f, d, di, b, i) && FoldableCall(f, ctx, d, di)
    ensures CallHolds(m, args, env[f.blocks[b].stmts[i].id := x], id, f.blocks[d].stmts[di].op)
  {
    hide WellFormed, Reachable, Dominates, DefinedAt;
    var z, op := f.blocks[b].stmts[i].id, f.blocks[d].stmts[di].op;
    var env' := env[z := x];
    assert CallHolds(m, args, env, id, op);
    assert DefAt(f, z, b, i);
    SiteAsymmetric(f, d, di, b, i);
    if id == z {
      SameSite(f, z, b, i, d, di);
    }
    SiteReachable(f, d, di, b, i);
    forall k | 0 <= k < |op.args| ensures Eval(m, args, env, op.args[k]) == Eval(m, args, env', op.args[k]) {
      OperandUse(f, d, di, k);
      if op.args[k] == Def(z) {
        var c: BlockId, j: nat :| DefAt(f, z, c, j) && SiteBefore(f, c, j, d, di);
        SameSite(f, z, b, i, c, j);
      }
    }
    EvalAllAgree(m, args, env, env', op.args, op.args);
  }

  /** A foldable call's own result satisfies its equation. */
  lemma CallHoldsNew<V(!new), W(!new)>(m: Machine<V, W>, args: seq<V>, f: SsaFunction, ctx: EffectContext,
                           b: BlockId, i: nat, env: map<ValueId, V>, w: W)
    requires WellFormed(f) && Sound(m, args, ctx) && Reachable(f, b) && b < |f.blocks| && i < |f.blocks[b].stmts|
    requires FoldableCall(f, ctx, b, i) && EvalAll(m, args, env, f.blocks[b].stmts[i].op.args).Some?
    requires m.perform(TagOf(f.blocks[b].stmts[i].op), EvalAll(m, args, env, f.blocks[b].stmts[i].op.args).value, w).Value?
    ensures var z := f.blocks[b].stmts[i];
            var e := m.perform(TagOf(z.op), EvalAll(m, args, env, z.op.args).value, w);
            e.world == w && CallHolds(m, args, env[z.id := e.value], z.id, z.op)
  {
    hide WellFormed, Reachable, Dominates, PureCallee;
    var z := f.blocks[b].stmts[i];
    var vs := EvalAll(m, args, env, z.op.args).value;
    var e := m.perform(TagOf(z.op), vs, w);
    var env' := env[z.id := e.value];
    forall k | 0 <= k < |z.op.args| ensures Eval(m, args, env, z.op.args[k]) == Eval(m, args, env', z.op.args[k]) {
      OperandUse(f, b, i, k);
      if z.op.args[k] == Def(z.id) {
        var c: BlockId, j: nat :| DefAt(f, z.id, c, j) && SiteBefore(f, c, j, b, i);
        assert DefAt(f, z.id, b, i);
        SameSite(f, z.id, b, i, c, j);
      }
    }
    EvalAllAgree(m, args, env, env', z.op.args, z.op.args);
    assert PureSound(m, args, ctx, z.op, env, w, w);
    forall w' ensures m.perform(CallTag(z.op.callee), vs, w') == Value(e.value, w') {
      assert PureSound(m, args, ctx, z.op, env, w, w');
    }
  }

  /** Executing one statement keeps the equations. */
  lemma StmtHolds<V(!new), W(!new)>(m: Machine<V, W>, args: seq<V>, f: SsaFunction, ctx: EffectContext, s: Subst,
                        start: map<ValueId, V>, pos: nat, b: BlockId, i: nat, env: map<ValueId, V>, w: W)
    requires WellFormed(f) && Sound(m, args, ctx) && MergesOk(f, ctx, s)
    requires Reachable(f, b) && b < |f.blocks| && i < |f.blocks[b].stmts|
    requires Holds(m, args, f, ctx, s, b, i, env)
    requires RunStmt(m, args, start, pos, f.blocks[b].stmts[i], env, w).Next?
    ensures Holds(m, args, f, ctx, s, b, i + 1, RunStmt(m, args, start, pos, f.blocks[b].stmts[i], env, w).env)
  {
    hide WellFormed, Sound, MergesOk, Reachable, Dominates, PureCallee;
    var z := f.blocks[b].stmts[i];
    var r := RunStmt(m, args, start, pos, z, env, w);
    assert z.id in r.env && r.env == env[z.id := r.env[z.id]];
    DefinedNext(f, b, i, env, r.env[z.id]);
    assert DefAt(f, z.id, b, i);
    forall id: ValueId, d: BlockId, di: nat | id in s && DefAt(f, id, d, di) && SiteBefore(f, d, di, b, i + 1)
      ensures MergedEqual(s, r.env, id)
    {
      if d == b && di == i {
        StmtMerged(m, args, f, ctx, s, start, pos, b, i, env, w);
      } else {
        MergedEqualKept(m, args, f, ctx, s, b, i, env, r.env[z.id], id, d, di);
      }
    }
    forall id: ValueId, d: BlockId, di: nat | DefAt(f, id, d, di) && SiteBefore(f, d, di, b, i + 1) && FoldableCall(f, ctx, d, di)
      ensures CallHolds(m, args, r.env, id, f.blocks[d].stmts[di].op)
    {
      if d == b && di == i {
        CallHoldsNew(m, args, f, ctx, b, i, env, w);
      } else {
        CallHoldsKept(m, args, f, ctx, s, b, i, env, r.env[z.id], id, d, di);
      }
    }
  }

  lemma StmtMerged<V(!new), W(!new)>(m: Machine<V, W>, args: seq<V>, f: SsaFunction, ctx: EffectContext, s: Subst,
                         start: map<ValueId, V>, pos: nat, b: BlockId, i: nat, env: map<ValueId, V>, w: W)
    requires WellFormed(f) && MergesOk(f, ctx, s)
    requires Reachable(f, b) && b < |f.blocks| && i < |f.blocks[b].stmts|
    requires Holds(m, args, f, ctx, s, b, i, env) && f.blocks[b].stmts[i].id in s
    ensures RunStmt(m, args, start, pos, f.blocks[b].stmts[i], env, w).Next?
    ensures RunStmt(m, args, start, pos, f.blocks[b].stmts[i], env, w).world == w
    ensures MergedEqual(s, RunStmt(m, args, start, pos, f.blocks[b].stmts[i], env, w).env, f.blocks[b].stmts[i].id)
  {
    hide WellFormed, Holds, Reachable, Dominates, PureCallee, SameCall;
    var z := f.blocks[b].stmts[i];
    assert MergeOk(f, ctx, s, z.id);
    DuplicateYields(m, args, f, ctx, s, b, i, env, w);
  }
}
