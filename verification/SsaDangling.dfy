/** Which operands the verifier leaves unchecked: a function it accepts can still name a
    value that does not exist, but only where no run can read it. */
module SsaDangling {
  import opened Options
  import opened SsaModel
  import opened SsaVerify

  /** The value an operand names exists somewhere in the function. */
  ghost predicate Exists(f: SsaFunction, v: SsaValue) {
    match v
    case Const(_) => true
    case Argument(k) => k < |f.params|
    case Def(id) => exists d: BlockId, di: nat :: DefAt(f, id, d, di)
  }

  /** Block `b` reads `v`, in a statement that is no phi or in its terminator. */
  ghost predicate Reads(f: SsaFunction, b: BlockId, v: SsaValue) {
    && b < |f.blocks|
    && (v in f.blocks[b].terminator.Operands()
        || exists i :: 0 <= i < |f.blocks[b].stmts| && v in Operands(f.blocks[b].stmts[i].op))
  }

  /** A phi of block `b` takes `v` on the edge from `u`. */
  ghost predicate TakesFrom(f: SsaFunction, b: BlockId, u: BlockId, v: SsaValue) {
    b < |f.blocks| && exists i, k :: PhiEntry(f, b, i, k, u, v)
  }

  ghost predicate PhiEntry(f: SsaFunction, b: BlockId, i: int, k: int, u: BlockId, v: SsaValue)
    requires b < |f.blocks|
  {
    && 0 <= i < |f.blocks[b].stmts| && f.blocks[b].stmts[i].op.Phi?
    && 0 <= k < |f.blocks[b].stmts[i].op.edges| && k < |f.blocks[b].stmts[i].op.values|
    && f.blocks[b].stmts[i].op.edges[k] == u && f.blocks[b].stmts[i].op.values[k] == Some(v)
  }

  /** Every operand of the function names a value that exists. */
  ghost predicate AllExist(f: SsaFunction) {
    && (forall b: BlockId, v :: Reads(f, b, v) ==> Exists(f, v))
    && (forall b: BlockId, u: BlockId, v :: TakesFrom(f, b, u, v) ==> Exists(f, v))
  }

  /** The operands the dominance check skips name values that exist. */
  ghost predicate SkippedExist(f: SsaFunction) {
    && (forall b: BlockId, v :: Reads(f, b, v) && !Reachable(f, b) ==> Exists(f, v))
    && (forall b: BlockId, u: BlockId, v :: TakesFrom(f, b, u, v) && (!Reachable(f, b) || !Reachable(f, u)) ==> Exists(f, v))
  }

  /** What the verifier checks exists. */
  lemma CheckedRead(f: SsaFunction, b: BlockId, v: SsaValue)
    requires UsesOk(f) && Reads(f, b, v) && Reachable(f, b)
    ensures Exists(f, v)
  {
    hide Reachable, Dominates;
    assert BlockUsesOk(f, b);
    if v in f.blocks[b].terminator.Operands() {
      var k :| 0 <= k < |f.blocks[b].terminator.Operands()| && f.blocks[b].terminator.Operands()[k] == v;
      assert UseOk(f, v, b, |f.blocks[b].stmts|);
    } else {
      var i :| 0 <= i < |f.blocks[b].stmts| && v in Operands(f.blocks[b].stmts[i].op);
      assert StmtUsesOk(f, b, i);
      var k :| 0 <= k < |Operands(f.blocks[b].stmts[i].op)| && Operands(f.blocks[b].stmts[i].op)[k] == v;
      assert UseOk(f, v, b, i);
    }
  }

  lemma CheckedPhi(f: SsaFunction, b: BlockId, u: BlockId, v: SsaValue)
    requires UsesOk(f) && TakesFrom(f, b, u, v) && Reachable(f, b) && Reachable(f, u)
    ensures Exists(f, v)
  {
    hide Reachable, Dominates;
    assert BlockUsesOk(f, b);
    var i, k :| PhiEntry(f, b, i, k, u, v);
    assert StmtUsesOk(f, b, i);
    assert PhiUseOk(f, v, u);
  }

  /** An accepted function's operands all exist exactly when those in unreachable blocks
      and on phi edges from unreachable blocks do. */
  lemma AllExistIffSkippedExist(f: SsaFunction)
    requires WellFormed(f)
    ensures AllExist(f) <==> SkippedExist(f)
  {
    hide WellFormed, Exists, Reads, TakesFrom, Reachable;
    assert UsesOk(f) by { Checked(f); }
    if SkippedExist(f) {
      forall b: BlockId, v | Reads(f, b, v) ensures Exists(f, v) {
        if Reachable(f, b) { CheckedRead(f, b, v); }
      }
      forall b: BlockId, u: BlockId, v | TakesFrom(f, b, u, v) ensures Exists(f, v) {
        if Reachable(f, b) && Reachable(f, u) { CheckedPhi(f, b, u, v); }
      }
    }
  }

  lemma Checked(f: SsaFunction)
    requires WellFormed(f)
    ensures UsesOk(f) && GraphOk(f)
  {
    EdgesGiveGraph(f);
  }

  /** A phi's edges come from existing blocks. */
  lemma EdgeInRange(f: SsaFunction, b: BlockId, u: BlockId, v: SsaValue)
    requires WellFormed(f) && TakesFrom(f, b, u, v)
    ensures u < |f.blocks|
  {
    Checked(f);
    hide UsesOk;
    var i, k :| PhiEntry(f, b, i, k, u, v);
    assert PhiOk(f, b, i);
    assert BackEdge(f, u, b);
    assert Edge(f, u, b);
  }

  /** Where every block is reachable, the verifier's promise holds in full. */
  lemma ReachableAllExist(f: SsaFunction)
    requires WellFormed(f) && forall b: BlockId :: b < |f.blocks| ==> Reachable(f, b)
    ensures AllExist(f)
  {
    hide WellFormed, Exists, TakesFrom, Reachable;
    forall b: BlockId, u: BlockId, v | TakesFrom(f, b, u, v) ensures Reachable(f, b) && Reachable(f, u) {
      EdgeInRange(f, b, u, v);
      assert b < |f.blocks| by { TakerInRange(f, b, u, v); }
    }
    AllExistIffSkippedExist(f);
  }

  lemma TakerInRange(f: SsaFunction, b: BlockId, u: BlockId, v: SsaValue)
    requires TakesFrom(f, b, u, v)
    ensures b < |f.blocks|
  {
  }

  // ----- The promise fails otherwise -----

  /** An entry that returns, and a block nothing jumps to that returns a missing value. */
  function Dangling(): SsaFunction {
    SsaFunction([], 0, [SsaBlock(0, [], Return(None), [], []), SsaBlock(1, [], Return(Some(Def(7))), [], [])])
  }

  lemma SecondStep(f: SsaFunction, p: seq<BlockId>)
    requires IsPath(f, p) && |p| > 1
    ensures Edge(f, p[0], p[1])
  {
    assert StepAt(f, p, 1);
  }

  lemma DanglingPaths(p: seq<BlockId>)
    requires IsPath(Dangling(), p)
    ensures p == [0]
  {
    if |p| > 1 { SecondStep(Dangling(), p); }
  }

  lemma DanglingUses()
    ensures UsesOk(Dangling())
  {
    var f := Dangling();
    forall b: BlockId | b < |f.blocks| && Reachable(f, b) ensures BlockUsesOk(f, b) {
      var p :| PathTo(f, p, b);
      DanglingPaths(p);
    }
  }

  lemma DanglingAccepted()
    ensures WellFormed(Dangling()) && !AllExist(Dangling())
  {
    hide UsesOk, Reachable;
    var f := Dangling();
    assert PredList(f, 0, 2) == [] && PredList(f, 1, 2) == [];
    DanglingUses();
    assert Def(7) in f.blocks[1].terminator.Operands();
    assert Reads(f, 1, Def(7)) && !Exists(f, Def(7));
  }
}
