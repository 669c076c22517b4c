/** A function the verifier accepts never reads a value before it is defined,
    whatever the arguments, the operations and the length of the run. */
module SsaSafety {
  import opened Options
  import opened SsaModel
  import opened SsaVerify
  import opened SsaSemantics

  lemma UseDefined<V, W>(m: Machine<V, W>, args: seq<V>, f: SsaFunction, b: BlockId, i: nat, env: map<ValueId, V>, v: SsaValue)
    requires UseOk(f, v, b, i) && |args| == |f.params| && DefinedAt(f, b, i, env)
    ensures Eval(m, args, env, v).Some?
  {
  }

  lemma PhiDefined<V, W>(m: Machine<V, W>, args: seq<V>, f: SsaFunction, u: BlockId, start: map<ValueId, V>, v: SsaValue)
    requires PhiUseOk(f, v, u) && |args| == |f.params| && u < |f.blocks|
    requires DefinedAt(f, u, |f.blocks[u].stmts|, start)
    ensures Eval(m, args, start, v).Some?
  {
    if v.Def? {
      var d: BlockId, di: nat :| DefAt(f, v.id, d, di) && Dominates(f, d, u);
      assert SiteBefore(f, d, di, u, |f.blocks[u].stmts|);
    }
  }

  lemma DefinedNext<V>(f: SsaFunction, b: BlockId, i: nat, env: map<ValueId, V>, x: V)
    requires b < |f.blocks| && i < |f.blocks[b].stmts| && DefinedAt(f, b, i, env)
    ensures DefinedAt(f, b, i + 1, env[f.blocks[b].stmts[i].id := x])
  {
    var env' := env[f.blocks[b].stmts[i].id := x];
    forall id: ValueId, d: BlockId, di: nat | DefAt(f, id, d, di) && SiteBefore(f, d, di, b, i + 1) ensures id in env' {
      if !(d == b && di == i) {
        assert SiteBefore(f, d, di, b, i);
      }
    }
  }

  lemma DefinedAcross<V>(f: SsaFunction, b: BlockId, t: BlockId, env: map<ValueId, V>)
    requires Edge(f, b, t) && DefinedAt(f, b, |f.blocks[b].stmts|, env)
    ensures DefinedAt(f, t, 0, env)
  {
    forall id: ValueId, d: BlockId, di: nat | DefAt(f, id, d, di) && SiteBefore(f, d, di, t, 0) ensures id in env {
      DominatesPred(f, d, b, t);
      assert SiteBefore(f, d, di, b, |f.blocks[b].stmts|);
    }
  }

  lemma StmtDefined<V, W>(m: Machine<V, W>, args: seq<V>, f: SsaFunction, b: BlockId, from: Option<BlockId>,
                          start: map<ValueId, V>, i: nat, env: map<ValueId, V>, w: W)
    requires WellFormed(f) && |args| == |f.params| && ArrivesWith(f, b, from, start)
    requires i < |f.blocks[b].stmts| && DefinedAt(f, b, i, env)
    ensures var r := RunStmt(m, args, start, EdgePosition(f, b, from), f.blocks[b].stmts[i], env, w);
            r != Stop(Stuck) && (r.Next? ==> DefinedAt(f, b, i + 1, r.env))
  {
    hide DefinedAt, UniqueDefs, UseOk, PhiUseOk, Dominates, Reachable;
    var s := f.blocks[b].stmts[i];
    var pos := EdgePosition(f, b, from);
    assert BlockUsesOk(f, b);
    assert StmtUsesOk(f, b, i) && PhiOk(f, b, i);
    if s.op.Phi? {
      if pos < |s.op.values| && s.op.values[pos].Some? {
        EdgesGiveGraph(f);
        assert Edge(f, from.value, b) && BackEdge(f, from.value, b);
        assert s.op.edges[pos] == from.value;
        PhiDefined(m, args, f, from.value, start, s.op.values[pos].value);
      }
      DefinedNext(f, b, i, env, PhiValue(m, args, start, s.op, pos).value);
    } else {
      forall k | 0 <= k < |Operands(s.op)| ensures Eval(m, args, env, Operands(s.op)[k]).Some? {
        UseDefined(m, args, f, b, i, env, Operands(s.op)[k]);
      }
      EvalAllDefined(m, args, env, Operands(s.op));
      var e := m.perform(TagOf(s.op), EvalAll(m, args, env, Operands(s.op)).value, w);
      if e.Value? { DefinedNext(f, b, i, env, e.value); }
    }
  }

  lemma {:induction false} StmtsDefined<V, W>(m: Machine<V, W>, args: seq<V>, f: SsaFunction, b: BlockId, from: Option<BlockId>,
                                              start: map<ValueId, V>, i: nat, env: map<ValueId, V>, w: W)
    requires WellFormed(f) && |args| == |f.params| && ArrivesWith(f, b, from, start)
    requires i <= |f.blocks[b].stmts| && DefinedAt(f, b, i, env)
    ensures var r := RunStmts(m, args, start, EdgePosition(f, b, from), f.blocks[b].stmts[i..], env, w);
            r != Stop(Stuck) && (r.Next? ==> DefinedAt(f, b, |f.blocks[b].stmts|, r.env))
    decreases |f.blocks[b].stmts| - i
  {
    hide WellFormed, DefinedAt, Reachable, Edge;
    var stmts := f.blocks[b].stmts;
    if i < |stmts| {
      StmtDefined(m, args, f, b, from, start, i, env, w);
      var r := RunStmt(m, args, start, EdgePosition(f, b, from), stmts[i], env, w);
      assert stmts[i..][0] == stmts[i] && stmts[i..][1..] == stmts[i + 1..];
      if r.Next? {
        StmtsDefined(m, args, f, b, from, start, i + 1, r.env, r.world);
      }
    }
  }

  lemma TerminatorDefined<V, W>(m: Machine<V, W>, args: seq<V>, f: SsaFunction, b: BlockId, env: map<ValueId, V>, w: W)
    requires WellFormed(f) && |args| == |f.params| && b < |f.blocks| && Reachable(f, b)
    requires DefinedAt(f, b, |f.blocks[b].stmts|, env)
    ensures var r := RunTerminator(m, args, f.blocks[b].terminator, env, w);
            && r != Done(Stuck)
            && (r.Goto? ==> Arrives(f, r.target, Some(b)) && ArrivesWith(f, r.target, Some(b), env))
  {
    hide DefinedAt, UniqueDefs, PhisOk, UseOk, StmtUsesOk, Reachable;
    assert BlockUsesOk(f, b) && BlockEdgesOk(f, b);
    var vs := f.blocks[b].terminator.Operands();
    forall k | 0 <= k < |vs| ensures Eval(m, args, env, vs[k]).Some? {
      UseDefined(m, args, f, b, |f.blocks[b].stmts|, env, vs[k]);
    }
    var r := RunTerminator(m, args, f.blocks[b].terminator, env, w);
    if |vs| > 0 { assert Eval(m, args, env, vs[0]).Some?; }
    if r.Goto? {
      assert r.target in f.blocks[b].terminator.Targets();
      assert Edge(f, b, r.target);
      SuccReachable(f, b, r.target);
      DefinedAcross(f, b, r.target, env);
    }
  }

  lemma {:induction false} RunNotStuck<V, W>(m: Machine<V, W>, args: seq<V>, f: SsaFunction, fuel: nat, b: BlockId,
                                             from: Option<BlockId>, env: map<ValueId, V>, w: W)
    requires WellFormed(f) && |args| == |f.params| && ArrivesWith(f, b, from, env)
    ensures Run(m, args, f, fuel, b, from, env, w) != Stuck
    decreases fuel
  {
    hide WellFormed, DefinedAt, Reachable;
    if fuel > 0 {
      var stmts := f.blocks[b].stmts;
      assert stmts[0..] == stmts;
      StmtsDefined(m, args, f, b, from, env, 0, env, w);
      var r := RunStmts(m, args, env, EdgePosition(f, b, from), stmts, env, w);
      if r.Next? {
        TerminatorDefined(m, args, f, b, r.env, r.world);
        var t := RunTerminator(m, args, f.blocks[b].terminator, r.env, r.world);
        if t.Goto? {
          RunNotStuck(m, args, f, fuel - 1, t.target, Some(b), r.env, r.world);
        }
      }
    }
  }

  lemma NothingBeforeEntry(f: SsaFunction, d: BlockId, di: nat)
    ensures !SiteBefore(f, d, di, f.entry, 0)
  {
    assert PathTo(f, [f.entry], f.entry);
  }

  lemma EntryArrives<V>(f: SsaFunction)
    requires WellFormed(f)
    ensures ArrivesWith<V>(f, f.entry, None, map[])
  {
    EntryReachable(f);
    forall d: BlockId, di: nat ensures !SiteBefore(f, d, di, f.entry, 0) {
      NothingBeforeEntry(f, d, di);
    }
  }

  /** Safety of every run of an accepted function. */
  lemma AcceptedNeverStuck<V, W>(m: Machine<V, W>, args: seq<V>, f: SsaFunction, fuel: nat, w: W)
    requires WellFormed(f) && |args| == |f.params|
    ensures Start(m, args, f, fuel, w) != Stuck
  {
    EntryArrives<V>(f);
    RunNotStuck(m, args, f, fuel, f.entry, None, map[], w);
  }
}
