/** Common subexpression elimination for pure calls, end to end. */
module SsaCsePass {
  import opened SsaModel
  import opened SsaVerify
  import opened SsaSemantics
  import opened SsaRewrite
  import opened SsaCse
  import opened SsaCseRewrite
  import opened SsaCseMaximal
  import opened SsaCseWalk

  lemma {:induction false} RetainAll(stmts: seq<SsaStatement>)
    ensures Retain(stmts, Unmerged(map[])) == stmts
  {
    if stmts != [] { RetainAll(stmts[1..]); }
  }

  lemma SubstNothing(op: SsaOp)
    ensures SubstOp(map[], op) == op
  {
    match op
    case Phi(edges, values) => assert SubstOp(map[], op).values == values;
    case Call(_, args) => assert SubstAll(map[], args) == args;
    case Apply(_, operands) => assert SubstAll(map[], operands) == operands;
  }

  lemma MergeNothing(f: SsaFunction)
    ensures Merged(f, map[]) == f
  {
    forall b: BlockId | b < |f.blocks| ensures Merged(f, map[]).blocks[b] == f.blocks[b] {
      var stmts := f.blocks[b].stmts;
      forall i | 0 <= i < |stmts| ensures SubstStmt(map[], stmts[i]) == stmts[i] {
        SubstNothing(stmts[i].op);
      }
      assert SubstStmts(map[], stmts) == stmts;
      RetainAll(stmts);
    }
    assert Merged(f, map[]).blocks == f.blocks;
  }

  method RetainUnmerged(stmts: seq<SsaStatement>, s: Subst) returns (kept: seq<SsaStatement>)
    ensures kept == Retain(stmts, Unmerged(s))
  {
    kept := [];
    for i := 0 to |stmts|
      invariant kept == Retain(stmts[..i], Unmerged(s))
    {
      RetainSplit(stmts[..i + 1], Unmerged(s), i);
      assert stmts[..i + 1][..i] == stmts[..i] && stmts[..i + 1][i..] == [stmts[i]];
      if stmts[i].id !in s {
        kept := kept + [stmts[i]];
      }
    }
    assert stmts[..|stmts|] == stmts;
  }

  /** Exactly the merged definitions disappear, and no operand mentions them. */
  ghost predicate MergedAway(f: SsaFunction, g: SsaFunction, s: Subst) {
    && (forall id :: Defined(g, id) <==> Defined(f, id) && id !in s)
    && (forall b, i :: 0 <= b < |g.blocks| && 0 <= i < |g.blocks[b].stmts| ==> OperandDefs(g.blocks[b].stmts[i].op) !! s.Keys)
    && (forall b :: 0 <= b < |g.blocks| ==> ValueDefs(g.blocks[b].terminator.Operands()) !! s.Keys)
  }

  ghost predicate Defined(f: SsaFunction, id: ValueId) {
    exists b: BlockId, i: nat :: DefAt(f, id, b, i)
  }

  lemma SubstMentions(s: Subst, op: SsaOp, t: Terminator)
    requires forall id :: id in s ==> s[id] !in s
    ensures OperandDefs(SubstOp(s, op)) !! s.Keys && ValueDefs(SubstTerminator(s, t).Operands()) !! s.Keys
  {
    SubstOperands(s, op, t);
  }

  lemma MergedDefined(f: SsaFunction, s: Subst, id: ValueId)
    ensures Defined(Merged(f, s), id) <==> Defined(f, id) && id !in s
  {
    var h, g := Substituted(f, s), Merged(f, s);
    if Defined(g, id) {
      var b: BlockId, i: nat :| DefAt(g, id, b, i);
      RetainedExactly(h.blocks[b].stmts, Unmerged(s), g.blocks[b].stmts[i]);
      var j :| 0 <= j < |h.blocks[b].stmts| && h.blocks[b].stmts[j] == g.blocks[b].stmts[i];
      assert DefAt(f, id, b, j) by { SubstitutedSite(f, s, id, b, j); }
    }
    if Defined(f, id) && id !in s {
      var b: BlockId, i: nat :| DefAt(f, id, b, i);
      SubstitutedSite(f, s, id, b, i);
      var x := h.blocks[b].stmts[i];
      RetainedExactly(h.blocks[b].stmts, Unmerged(s), x);
      var j :| 0 <= j < |g.blocks[b].stmts| && g.blocks[b].stmts[j] == x;
      assert DefAt(g, id, b, j);
    }
  }

  lemma MergingRemoves(f: SsaFunction, s: Subst)
    requires forall id :: id in s ==> s[id] !in s
    ensures MergedAway(f, Merged(f, s), s)
  {
    var h, g := Substituted(f, s), Merged(f, s);
    forall id ensures Defined(g, id) <==> Defined(f, id) && id !in s { MergedDefined(f, s, id); }
    forall b, i | 0 <= b < |g.blocks| && 0 <= i < |g.blocks[b].stmts| ensures OperandDefs(g.blocks[b].stmts[i].op) !! s.Keys {
      RetainedExactly(h.blocks[b].stmts, Unmerged(s), g.blocks[b].stmts[i]);
      var j :| 0 <= j < |h.blocks[b].stmts| && h.blocks[b].stmts[j] == g.blocks[b].stmts[i];
      SubstMentions(s, f.blocks[b].stmts[j].op, f.blocks[b].terminator);
    }
    forall b | 0 <= b < |g.blocks| ensures ValueDefs(g.blocks[b].terminator.Operands()) !! s.Keys {
      SubstMentions(s, Phi([], []), f.blocks[b].terminator);
    }
  }

  method EliminateCommonCalls(f: SsaFunction, ctx: EffectContext) returns (g: SsaFunction, changed: bool, s: Subst)
    requires WellFormed(f)
    ensures MergesOk(f, ctx, s) && NoneMissed(f, ctx, s)
    ensures DuplicatesMerged(f, ctx, s) && RecomputationsMerged(f, ctx, s)
    ensures g == Merged(f, s) && WellFormed(g) && MergedAway(f, g, s)
    ensures changed <==> s != map[]
  {
    hide WellFormed, MergesOk, NoneMissed, DuplicatesMerged, RecomputationsMerged, MergedAway;
    s := NumberCalls(f, ctx);
    Flat(f, ctx, s);
    MergingRemoves(f, s);
    MergingKeepsWellFormed(f, ctx, s);
    if s == map[] {
      MergeNothing(f);
      return f, false, s;
    }
    var blocks: seq<SsaBlock> := [];
    for b := 0 to |f.blocks|
      invariant |blocks| == b
      invariant forall c :: 0 <= c < b ==> blocks[c] == Merged(f, s).blocks[c]
    {
      var rewritten := SubstBlock(s, f.blocks[b]);
      var kept := RetainUnmerged(rewritten.stmts, s);
      blocks := blocks + [rewritten.(stmts := kept)];
    }
    g := f.(blocks := blocks);
    changed := true;
    assert g.blocks == Merged(f, s).blocks;
  }
}
