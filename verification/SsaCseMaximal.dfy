/** Why the numbering misses nothing: stated without keys, over the expressions that
    the calls compute. */
module SsaCseMaximal {
  import opened SsaModel
  import opened SsaVerify
  import opened SsaSemantics
  import opened SsaCse
  import opened SsaValueNumbering

  /** Of two reachable calls with one key, the later on every path has been merged. */
  ghost predicate NoneMissed(f: SsaFunction, ctx: EffectContext, s: Subst) {
    forall o: BlockId, oi: nat, d: BlockId, di: nat ::
      IsSite(f, o, oi) && IsSite(f, d, di) && Reachable(f, d) ==> PairMerged(f, ctx, s, o, oi, d, di)
  }

  // ----- Calls on the same operands -----

  predicate Scalar(v: SsaValue) {
    !(v.Const? && v.literal.Payload?)
  }

  predicate ScalarArgs(f: SsaFunction, b: BlockId, i: nat)
    requires IsSite(f, b, i)
  {
    f.blocks[b].stmts[i].op.Call? && forall k :: 0 <= k < |f.blocks[b].stmts[i].op.args| ==> Scalar(f.blocks[b].stmts[i].op.args[k])
  }

  /** A pure call that an earlier one makes on every path, on the same operands up to merges, is merged. */
  ghost predicate DuplicatesMerged(f: SsaFunction, ctx: EffectContext, s: Subst) {
    forall o: BlockId, oi: nat, d: BlockId, di: nat ::
      && IsSite(f, o, oi) && IsSite(f, d, di) && Reachable(f, d) && SiteBefore(f, o, oi, d, di)
      && SameCall(f, ctx, s, d, di, o, oi) && ScalarArgs(f, d, di)
      ==> f.blocks[d].stmts[di].id in s
  }

  lemma CongruentKeys(s: Subst, v: SsaValue, u: SsaValue)
    requires forall id :: id in s ==> s[id] !in s
    requires Congruent(s, v, u) && Scalar(v)
    ensures Scalar(u) && KeyOf(s, v).Some? && KeyOf(s, u) == KeyOf(s, v)
  {
    var k :| KeyFits(s, v, k) && KeyFits(s, u, k);
  }

  lemma {:induction false} CongruentLists(s: Subst, vs: seq<SsaValue>, us: seq<SsaValue>)
    requires forall id :: id in s ==> s[id] !in s
    requires |vs| == |us| && forall k :: 0 <= k < |vs| ==> Congruent(s, vs[k], us[k]) && Scalar(vs[k])
    ensures KeysOf(s, vs).Some? && KeysOf(s, us) == KeysOf(s, vs)
    ensures forall k :: 0 <= k < |us| ==> Scalar(us[k])
  {
    hide Congruent;
    if vs != [] {
      CongruentKeys(s, vs[0], us[0]);
      CongruentLists(s, vs[1..], us[1..]);
      forall k | 0 <= k < |us| ensures Scalar(us[k]) {
        if k > 0 { assert us[k] == us[1..][k - 1]; }
      }
    }
  }

  /** Merge targets are not merged themselves. */
  lemma Flat(f: SsaFunction, ctx: EffectContext, s: Subst)
    requires MergesOk(f, ctx, s)
    ensures forall id :: id in s ==> s[id] !in s
  {
    hide SameCall;
    forall id | id in s ensures s[id] !in s { assert MergeOk(f, ctx, s, id); }
  }

  lemma SameCallSameKey(f: SsaFunction, ctx: EffectContext, s: Subst, d: BlockId, di: nat, o: BlockId, oi: nat)
    requires IsSite(f, d, di) && IsSite(f, o, oi) && ScalarArgs(f, d, di)
    requires forall id :: id in s ==> s[id] !in s
    requires SameCall(f, ctx, s, d, di, o, oi)
    ensures KeyAt(f, ctx, s, d, di).Some? && KeyAt(f, ctx, s, o, oi) == KeyAt(f, ctx, s, d, di) && ScalarArgs(f, o, oi)
  {
    hide OpEffects, PureCallee, Congruent;
    var x, y := f.blocks[d].stmts[di].op, f.blocks[o].stmts[oi].op;
    FoldableExact(x, ctx);
    FoldableExact(y, ctx);
    CongruentLists(s, x.args, y.args);
  }

  lemma AllDuplicatesMerged(f: SsaFunction, ctx: EffectContext, s: Subst)
    requires MergesOk(f, ctx, s) && NoneMissed(f, ctx, s)
    ensures DuplicatesMerged(f, ctx, s)
  {
    hide MergesOk, Reachable, SiteBefore, SameCall, KeyAt, ScalarArgs;
    Flat(f, ctx, s);
    forall o: BlockId, oi: nat, d: BlockId, di: nat |
      && IsSite(f, o, oi) && IsSite(f, d, di) && Reachable(f, d) && SiteBefore(f, o, oi, d, di)
      && SameCall(f, ctx, s, d, di, o, oi) && ScalarArgs(f, d, di)
      ensures f.blocks[d].stmts[di].id in s
    {
      SameCallSameKey(f, ctx, s, d, di, o, oi);
      assert PairMerged(f, ctx, s, o, oi, d, di);
    }
  }

  // ----- Calls that compute the same expression -----

  /** The sites compute one expression: a tree of pure calls, equal in shape and callees down
      to `depth`, over identical leaves. Nothing here depends on what has been merged. */
  ghost predicate Twins(f: SsaFunction, ctx: EffectContext, depth: nat, a: BlockId, i: nat, b: BlockId, j: nat)
    decreases depth, 1
  {
    && IsSite(f, a, i) && IsSite(f, b, j)
    && PureCall(f.blocks[a].stmts[i].op, ctx) && PureCall(f.blocks[b].stmts[j].op, ctx)
    && var x, y := f.blocks[a].stmts[i].op, f.blocks[b].stmts[j].op;
       && x.callee == y.callee && |x.args| == |y.args|
       && forall k :: 0 <= k < |x.args| ==> TwinOperands(f, ctx, depth, x.args[k], y.args[k])
  }

  ghost predicate TwinOperands(f: SsaFunction, ctx: EffectContext, depth: nat, v: SsaValue, u: SsaValue)
    decreases depth, 0
  {
    && Scalar(v)
    && (v == u
        || (depth > 0 && v.Def? && u.Def?
            && exists a: BlockId, i: nat, b: BlockId, j: nat ::
                 DefAt(f, v.id, a, i) && DefAt(f, u.id, b, j) && Twins(f, ctx, depth - 1, a, i, b, j)))
  }

  /** A recomputation of what an earlier call has computed on every path is merged, however
      deep the expression. */
  ghost predicate RecomputationsMerged(f: SsaFunction, ctx: EffectContext, s: Subst) {
    forall depth: nat, o: BlockId, oi: nat, d: BlockId, di: nat ::
      Reachable(f, d) && SiteBefore(f, o, oi, d, di) && Twins(f, ctx, depth, o, oi, d, di) ==>
        f.blocks[d].stmts[di].id in s && s[f.blocks[d].stmts[di].id] == Representative(s, f.blocks[o].stmts[oi].id)
  }

  function Representative(s: Subst, id: ValueId): ValueId {
    if id in s then s[id] else id
  }

  // ----- Blocks on every path are ordered -----

  lemma JoinPaths(f: SsaFunction, r: seq<BlockId>, p: seq<BlockId>, m: nat)
    requires IsPath(f, p) && m < |p| && PathTo(f, r, p[m])
    ensures PathTo(f, r + p[m + 1..], p[|p| - 1])
  {
    var q := r + p[m + 1..];
    forall i | 0 < i < |q| ensures StepAt(f, q, i) {
      if i < |r| {
        assert StepAt(f, r, i);
      } else {
        assert StepAt(f, p, m + 1 + i - |r|);
      }
    }
  }

  /** The last block of a path that is `a` or `b`. */
  lemma {:induction false} LastOfTwo(p: seq<BlockId>, a: BlockId, b: BlockId) returns (m: nat)
    requires a in p
    ensures m < |p| && (p[m] == a || p[m] == b) && a !in p[m + 1..] && b !in p[m + 1..]
  {
    var last := |p| - 1;
    if p[last] == a || p[last] == b {
      m := last;
    } else {
      assert p == p[..last] + [p[last]];
      m := LastOfTwo(p[..last], a, b);
      assert p[m + 1..] == p[..last][m + 1..] + [p[last]];
    }
  }

  lemma LeadsAround(f: SsaFunction, a: BlockId, b: BlockId, p: seq<BlockId>, m: nat)
    requires IsPath(f, p) && m < |p| && p[m] == a && b !in p[m + 1..] && Dominates(f, b, p[|p| - 1])
    ensures Dominates(f, b, a)
  {
    forall r | PathTo(f, r, a) ensures b in r {
      JoinPaths(f, r, p, m);
    }
  }

  lemma DominatorsOrdered(f: SsaFunction, a: BlockId, b: BlockId, c: BlockId)
    requires Reachable(f, c) && Dominates(f, a, c) && Dominates(f, b, c)
    ensures Dominates(f, a, b) || Dominates(f, b, a)
  {
    var p :| PathTo(f, p, c);
    var m := LastOfTwo(p, a, b);
    if p[m] == a {
      LeadsAround(f, a, b, p, m);
    } else {
      LeadsAround(f, b, a, p, m);
    }
  }

  lemma SitesOrdered(f: SsaFunction, a: BlockId, i: nat, b: BlockId, j: nat, c: BlockId, k: nat)
    requires Reachable(f, c) && SiteBefore(f, a, i, c, k) && SiteBefore(f, b, j, c, k)
    ensures (a == b && i == j) || SiteBefore(f, a, i, b, j) || SiteBefore(f, b, j, a, i)
  {
    hide Reachable, Dominates;
    if a != b && a != c && b != c {
      DominatorsOrdered(f, a, b, c);
    }
  }

  // ----- Equal expressions have equal keys and one representative -----

  lemma {:induction false} KeyedAreScalar(s: Subst, vs: seq<SsaValue>)
    requires KeysOf(s, vs).Some?
    ensures forall k :: 0 <= k < |vs| ==> Scalar(vs[k])
  {
    if vs != [] { KeyedAreScalar(s, vs[1..]); }
  }

  /** The representative of a call is an unmerged call with the same key, no later. */
  ghost predicate RepresentedAt(f: SsaFunction, ctx: EffectContext, s: Subst, a: BlockId, i: nat, c: BlockId, k: nat, r: BlockId, ri: nat)
    requires IsSite(f, a, i)
  {
    var id := Representative(s, f.blocks[a].stmts[i].id);
    && id !in s && DefAt(f, id, r, ri) && SiteBefore(f, r, ri, c, k)
    && KeyAt(f, ctx, s, r, ri) == KeyAt(f, ctx, s, a, i)
  }

  lemma Represented(f: SsaFunction, ctx: EffectContext, s: Subst, a: BlockId, i: nat, c: BlockId, k: nat) returns (r: BlockId, ri: nat)
    requires WellFormed(f) && MergesOk(f, ctx, s)
    requires Reachable(f, c) && IsSite(f, a, i) && SiteBefore(f, a, i, c, k) && KeyAt(f, ctx, s, a, i).Some?
    ensures RepresentedAt(f, ctx, s, a, i, c, k, r, ri)
  {
    hide WellFormed, Reachable, Dominates, OpEffects, SameCall;
    var id := f.blocks[a].stmts[i].id;
    assert DefAt(f, id, a, i);
    r, ri := a, i;
    if id in s {
      assert MergeOk(f, ctx, s, id);
      var d: BlockId, di: nat, o: BlockId, oi: nat :|
        DefAt(f, id, d, di) && DefAt(f, s[id], o, oi) && SiteBefore(f, o, oi, d, di) && SameCall(f, ctx, s, d, di, o, oi);
      SameSite(f, id, a, i, d, di);
      KeyedAreScalar(s, f.blocks[a].stmts[i].op.args);
      Flat(f, ctx, s);
      SameCallSameKey(f, ctx, s, a, i, o, oi);
      SiteTransitive(f, o, oi, a, i, c, k);
      r, ri := o, oi;
    }
  }

  lemma OneRepresentative(f: SsaFunction, ctx: EffectContext, s: Subst, a: BlockId, i: nat, b: BlockId, j: nat, c: BlockId, k: nat)
    requires WellFormed(f) && MergesOk(f, ctx, s) && NoneMissed(f, ctx, s)
    requires Reachable(f, c) && IsSite(f, a, i) && IsSite(f, b, j) && SiteBefore(f, a, i, c, k) && SiteBefore(f, b, j, c, k)
    requires KeyAt(f, ctx, s, a, i).Some? && KeyAt(f, ctx, s, b, j) == KeyAt(f, ctx, s, a, i)
    ensures Representative(s, f.blocks[a].stmts[i].id) == Representative(s, f.blocks[b].stmts[j].id)
  {
    hide WellFormed, MergesOk, Reachable, SiteBefore, KeyAt, Representative;
    var r, ri := Represented(f, ctx, s, a, i, c, k);
    var q, qi := Represented(f, ctx, s, b, j, c, k);
    SiteReachable(f, r, ri, c, k);
    SiteReachable(f, q, qi, c, k);
    SitesOrdered(f, r, ri, q, qi, c, k);
    assert PairMerged(f, ctx, s, r, ri, q, qi);
    assert PairMerged(f, ctx, s, q, qi, r, ri);
  }

  lemma {:induction false} EqualKeyLists(s: Subst, vs: seq<SsaValue>, us: seq<SsaValue>)
    requires |vs| == |us| && forall k :: 0 <= k < |vs| ==> KeyOf(s, vs[k]).Some? && KeyOf(s, us[k]) == KeyOf(s, vs[k])
    ensures KeysOf(s, vs).Some? && KeysOf(s, us) == KeysOf(s, vs)
  {
    hide KeyOf;
    if vs != [] { EqualKeyLists(s, vs[1..], us[1..]); }
  }

  lemma {:induction false} TwinsAlike(f: SsaFunction, ctx: EffectContext, s: Subst, depth: nat,
                                      a: BlockId, i: nat, b: BlockId, j: nat, c: BlockId, k: nat)
    requires WellFormed(f) && MergesOk(f, ctx, s) && NoneMissed(f, ctx, s)
    requires Reachable(f, c) && SiteBefore(f, a, i, c, k) && SiteBefore(f, b, j, c, k)
    requires Twins(f, ctx, depth, a, i, b, j)
    ensures KeyAt(f, ctx, s, a, i).Some? && KeyAt(f, ctx, s, b, j) == KeyAt(f, ctx, s, a, i)
    ensures Representative(s, f.blocks[a].stmts[i].id) == Representative(s, f.blocks[b].stmts[j].id)
    decreases depth, 1
  {
    hide WellFormed, MergesOk, NoneMissed, Reachable, SiteBefore, OpEffects, Representative, TwinOperands;
    var x, y := f.blocks[a].stmts[i].op, f.blocks[b].stmts[j].op;
    SiteReachable(f, a, i, c, k);
    SiteReachable(f, b, j, c, k);
    forall m | 0 <= m < |x.args| ensures KeyOf(s, x.args[m]).Some? && KeyOf(s, y.args[m]) == KeyOf(s, x.args[m]) {
      OperandUse(f, a, i, m);
      OperandUse(f, b, j, m);
      EarlierUse(f, x.args[m], a, i, c, k);
      EarlierUse(f, y.args[m], b, j, c, k);
      TwinOperandsAlike(f, ctx, s, depth, x.args[m], y.args[m], c, k);
    }
    EqualKeyLists(s, x.args, y.args);
    FoldableExact(x, ctx);
    FoldableExact(y, ctx);
    OneRepresentative(f, ctx, s, a, i, b, j, c, k);
  }

  lemma {:induction false} TwinOperandsAlike(f: SsaFunction, ctx: EffectContext, s: Subst, depth: nat, v: SsaValue, u: SsaValue, c: BlockId, k: nat)
    requires WellFormed(f) && MergesOk(f, ctx, s) && NoneMissed(f, ctx, s)
    requires Reachable(f, c) && UseOk(f, v, c, k) && UseOk(f, u, c, k) && TwinOperands(f, ctx, depth, v, u)
    ensures KeyOf(s, v).Some? && KeyOf(s, u) == KeyOf(s, v)
    decreases depth, 0
  {
    hide WellFormed, MergesOk, NoneMissed, Reachable, SiteBefore, Twins;
    if v != u {
      var a: BlockId, i: nat, b: BlockId, j: nat :|
        DefAt(f, v.id, a, i) && DefAt(f, u.id, b, j) && Twins(f, ctx, depth - 1, a, i, b, j);
      var d: BlockId, di: nat :| DefAt(f, v.id, d, di) && SiteBefore(f, d, di, c, k);
      var e: BlockId, ei: nat :| DefAt(f, u.id, e, ei) && SiteBefore(f, e, ei, c, k);
      SameSite(f, v.id, a, i, d, di);
      SameSite(f, u.id, b, j, e, ei);
      TwinsAlike(f, ctx, s, depth - 1, a, i, b, j, c, k);
    }
  }

  lemma AllRecomputationsMerged(f: SsaFunction, ctx: EffectContext, s: Subst)
    requires WellFormed(f) && MergesOk(f, ctx, s) && NoneMissed(f, ctx, s)
    ensures RecomputationsMerged(f, ctx, s)
  {
    forall depth: nat, o: BlockId, oi: nat, d: BlockId, di: nat |
      Reachable(f, d) && SiteBefore(f, o, oi, d, di) && Twins(f, ctx, depth, o, oi, d, di)
      ensures f.blocks[d].stmts[di].id in s && s[f.blocks[d].stmts[di].id] == Representative(s, f.blocks[o].stmts[oi].id)
    {
      RecomputationMerged(f, ctx, s, depth, o, oi, d, di);
    }
  }

  lemma RecomputationMerged(f: SsaFunction, ctx: EffectContext, s: Subst, depth: nat, o: BlockId, oi: nat, d: BlockId, di: nat)
    requires WellFormed(f) && MergesOk(f, ctx, s) && NoneMissed(f, ctx, s)
    requires Reachable(f, d) && SiteBefore(f, o, oi, d, di) && Twins(f, ctx, depth, o, oi, d, di)
    ensures f.blocks[d].stmts[di].id in s && s[f.blocks[d].stmts[di].id] == Representative(s, f.blocks[o].stmts[oi].id)
  {
    hide WellFormed, MergesOk, Reachable, KeyAt, Dominates, PureCall, TwinOperands;
    assert SiteBefore(f, o, oi, d, di + 1) && SiteBefore(f, d, di, d, di + 1);
    TwinsAlike(f, ctx, s, depth, o, oi, d, di, d, di + 1);
    assert PairMerged(f, ctx, s, o, oi, d, di);
  }
}
