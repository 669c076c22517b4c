/** Folding branches on constant conditions: the branch becomes a jump, and the edge not
    taken disappears from its target's predecessors and phis. */
module SsaFold {
  import opened Options
  import opened SsaModel
  import opened SsaDominators
  import opened SsaVerify
  import opened SsaSemantics
  import opened SsaThin

  // ----- Removing one edge -----

  function RemoveAt<T>(s: seq<T>, p: nat): seq<T>
    requires p < |s|
  {
    s[..p] + s[p + 1..]
  }

  function StmtWithout(s: SsaStatement, p: nat): SsaStatement {
    if s.op.Phi? && p < |s.op.edges| && p < |s.op.values| then
      SsaStatement(s.id, Phi(RemoveAt(s.op.edges, p), RemoveAt(s.op.values, p)))
    else s
  }

  /** The block without the edge from `from`. */
  function WithoutEdge(b: SsaBlock, from: BlockId): SsaBlock {
    var p := FirstIndex(b.preds, from);
    if p == |b.preds| then b
    else b.(preds := RemoveAt(b.preds, p),
            stmts := seq(|b.stmts|, i requires 0 <= i < |b.stmts| => StmtWithout(b.stmts[i], p)))
  }

  ghost predicate PhisInFront(b: SsaBlock) {
    forall i: nat, j: nat :: i < j < |b.stmts| && b.stmts[j].op.Phi? ==> b.stmts[i].op.Phi?
  }

  method RemoveEdge(b: SsaBlock, from: BlockId) returns (r: SsaBlock)
    requires PhisInFront(b)
    requires forall i :: 0 <= i < |b.stmts| && b.stmts[i].op.Phi? ==> |b.stmts[i].op.edges| == |b.stmts[i].op.values| == |b.preds|
    ensures r == WithoutEdge(b, from)
  {
    var position := 0;
    while position < |b.preds| && b.preds[position] != from
      invariant position <= |b.preds| && forall k :: 0 <= k < position ==> b.preds[k] != from
    {
      position := position + 1;
    }
    IndexOf(b.preds, from, position);
    if position == |b.preds| { return b; }
    var preds := b.preds[..position] + b.preds[position + 1..];
    var stmts := b.stmts;
    var i := 0;
    while i < |stmts|
      invariant i <= |stmts| == |b.stmts|
      invariant forall j :: 0 <= j < i ==> stmts[j] == StmtWithout(b.stmts[j], position)
      invariant forall j :: i <= j < |stmts| ==> stmts[j] == b.stmts[j]
    {
      if !stmts[i].op.Phi? { break; }
      var edges, values := stmts[i].op.edges, stmts[i].op.values;
      stmts := stmts[i := SsaStatement(stmts[i].id, Phi(edges[..position] + edges[position + 1..], values[..position] + values[position + 1..]))];
      i := i + 1;
    }
    r := b.(preds := preds, stmts := stmts);
    assert stmts == WithoutEdge(b, from).stmts;
  }

  lemma {:induction false} IndexOf(s: seq<BlockId>, u: BlockId, p: nat)
    requires p <= |s| && (p < |s| ==> s[p] == u) && forall k :: 0 <= k < p ==> s[k] != u
    ensures FirstIndex(s, u) == p
    decreases |s|
  {
    if p > 0 { IndexOf(s[1..], u, p - 1); }
  }

  /** Dropping one position is picking all the others. */
  lemma {:induction false} PickAllBut<T>(edges: seq<BlockId>, xs: seq<T>, keep: set<BlockId>, p: nat)
    requires |edges| == |xs| && p < |edges| && edges[p] !in keep
    requires forall k :: 0 <= k < |edges| && k != p ==> edges[k] in keep
    ensures Pick(edges, xs, keep) == RemoveAt(xs, p)
    decreases |edges|
  {
    PickFirst(edges, xs, keep);
    if p == 0 {
      PickAll(edges[1..], xs[1..], keep);
    } else {
      PickAllBut(edges[1..], xs[1..], keep, p - 1);
      assert RemoveAt(xs, p) == [xs[0]] + RemoveAt(xs[1..], p - 1);
    }
  }

  lemma {:induction false} PredsNoRepeats(f: SsaFunction, v: BlockId, n: nat)
    requires n <= |f.blocks|
    ensures Distinct(PredList(f, v, n)) && forall k :: 0 <= k < |PredList(f, v, n)| ==> PredList(f, v, n)[k] < n
    decreases n
  {
    if n > 0 { PredsNoRepeats(f, v, n - 1); }
  }

  // ----- One folded branch -----

  /** A branch on a constant condition jumps; other constants and conditions stay. */
  function FoldTerminator(t: Terminator): Terminator {
    match t
    case Branch(Const(Bool(c)), thenTarget, elseTarget) => Jump(if c then thenTarget else elseTarget)
    case _ => t
  }

  function Terms(f: SsaFunction): (r: seq<Terminator>)
    ensures |r| == |f.blocks| && forall u :: 0 <= u < |r| ==> r[u] == f.blocks[u].terminator
  {
    seq(|f.blocks|, u requires 0 <= u < |f.blocks| => f.blocks[u].terminator)
  }

  lemma FoldNarrower(f: SsaFunction, terms: seq<Terminator>)
    requires |terms| == |f.blocks|
    requires forall u :: 0 <= u < |terms| ==> terms[u] == f.blocks[u].terminator || terms[u] == FoldTerminator(f.blocks[u].terminator)
    ensures Narrower(f, terms)
  {
    forall u: BlockId | u < |terms| ensures NarrowerAt(f.blocks[u].terminator, terms[u]) {
      FoldedNarrower(f.blocks[u].terminator);
    }
  }

  lemma FoldedNarrower(t: Terminator)
    ensures NarrowerAt(t, FoldTerminator(t)) && NarrowerAt(t, t)
  {
  }

  /** Block `v` of an accepted function once the branch of block `u` has been folded. */
  function FoldedBlock(g: SsaFunction, u: BlockId, taken: BlockId, dropped: BlockId, v: BlockId): SsaBlock
    requires v < |g.blocks|
  {
    var b := if v == u then g.blocks[v].(terminator := Jump(taken), succs := [taken]) else g.blocks[v];
    if v == dropped && dropped != taken then WithoutEdge(b, u) else b
  }

  /** Where a block keeps all its sources, thinning leaves it as it was. */
  lemma ThinBlockSame(b: SsaBlock, t: Terminator, keep: set<BlockId>)
    requires forall u :: u in b.preds ==> u in keep
    requires forall i :: 0 <= i < |b.stmts| && b.stmts[i].op.Phi? ==> b.stmts[i].op.edges == b.preds && |b.stmts[i].op.values| == |b.preds|
    ensures ThinBlock(b, t, keep) == b.(terminator := t, succs := t.Targets())
  {
    PickAll(b.preds, b.preds, keep);
    forall i | 0 <= i < |b.stmts| ensures ThinStmt(b.stmts[i], keep) == b.stmts[i] {
      var op := b.stmts[i].op;
      if op.Phi? {
        PickAll(op.edges, op.edges, keep);
        PickAll(op.edges, op.values, keep);
      }
    }
    assert ThinStmts(b.stmts, keep) == b.stmts;
  }

  /** Where it loses one source, thinning removes that edge. */
  lemma ThinBlockWithout(b: SsaBlock, t: Terminator, keep: set<BlockId>, from: BlockId)
    requires Distinct(b.preds) && from in b.preds && from !in keep
    requires forall u :: u in b.preds && u != from ==> u in keep
    requires forall i :: 0 <= i < |b.stmts| && b.stmts[i].op.Phi? ==> b.stmts[i].op.edges == b.preds && |b.stmts[i].op.values| == |b.preds|
    ensures ThinBlock(b, t, keep) == WithoutEdge(b.(terminator := t, succs := t.Targets()), from)
  {
    var p := FirstIndex(b.preds, from);
    PickAllBut(b.preds, b.preds, keep, p);
    forall i | 0 <= i < |b.stmts| ensures ThinStmt(b.stmts[i], keep) == StmtWithout(b.stmts[i], p) {
      var op := b.stmts[i].op;
      if op.Phi? {
        PickAllBut(op.edges, op.edges, keep, p);
        PickAllBut(op.edges, op.values, keep, p);
      }
    }
    hide Pick, RemoveAt, StmtWithout, ThinStmt;
    assert ThinStmts(b.stmts, keep) == WithoutEdge(b.(terminator := t, succs := t.Targets()), from).stmts;
  }

  lemma BlockPreds(g: SsaFunction, v: BlockId)
    requires EdgesOk(g) && v < |g.blocks|
    ensures Distinct(g.blocks[v].preds) && g.blocks[v].succs == g.blocks[v].terminator.Targets()
    ensures forall u: BlockId :: u in g.blocks[v].preds <==> u < |g.blocks| && v in g.blocks[u].terminator.Targets()
  {
    PredsNoRepeats(g, v, |g.blocks|);
    PredListMembers(g, v, |g.blocks|);
    assert BlockEdgesOk(g, v);
    hide PredList;
  }

  lemma BlockPhis(g: SsaFunction, v: BlockId)
    requires PhisOk(g) && v < |g.blocks|
    ensures PhisInFront(g.blocks[v])
    ensures forall i :: 0 <= i < |g.blocks[v].stmts| && g.blocks[v].stmts[i].op.Phi? ==>
      g.blocks[v].stmts[i].op.edges == g.blocks[v].preds && |g.blocks[v].stmts[i].op.values| == |g.blocks[v].preds|
  {
    var b := g.blocks[v];
    forall i: nat, j: nat | i < j < |b.stmts| && b.stmts[j].op.Phi? ensures b.stmts[i].op.Phi? {
      assert PhiOk(g, v, j);
    }
    forall i | 0 <= i < |b.stmts| && b.stmts[i].op.Phi?
      ensures b.stmts[i].op.edges == b.preds && |b.stmts[i].op.values| == |b.preds|
    {
      assert PhiOk(g, v, i);
    }
  }

  /** What the verifier's acceptance says about one block's lists. */
  lemma BlockLists(g: SsaFunction, v: BlockId)
    requires WellFormed(g) && v < |g.blocks|
    ensures Distinct(g.blocks[v].preds) && PhisInFront(g.blocks[v])
    ensures forall u: BlockId :: u in g.blocks[v].preds <==> u < |g.blocks| && v in g.blocks[u].terminator.Targets()
    ensures g.blocks[v].succs == g.blocks[v].terminator.Targets()
    ensures forall i :: 0 <= i < |g.blocks[v].stmts| && g.blocks[v].stmts[i].op.Phi? ==>
      g.blocks[v].stmts[i].op.edges == g.blocks[v].preds && |g.blocks[v].stmts[i].op.values| == |g.blocks[v].preds|
  {
    hide EdgesOk, PhisOk, UsesOk, UniqueDefs, PhisInFront, Distinct;
    BlockPreds(g, v);
    BlockPhis(g, v);
  }

  lemma FoldStep(g: SsaFunction, u: BlockId, c: bool, v: BlockId)
    requires WellFormed(g) && u < |g.blocks| && v < |g.blocks|
    requires g.blocks[u].terminator.Branch? && g.blocks[u].terminator.condition == Const(Bool(c))
    ensures var t := g.blocks[u].terminator;
            var taken, dropped := if c then t.thenTarget else t.elseTarget, if c then t.elseTarget else t.thenTarget;
            Thinned(g, Terms(g)[u := Jump(taken)]).blocks[v] == FoldedBlock(g, u, taken, dropped, v)
  {
    hide WellFormed, Pick, ThinStmts, WithoutEdge;
    var t := g.blocks[u].terminator;
    var taken, dropped := if c then t.thenTarget else t.elseTarget, if c then t.elseTarget else t.thenTarget;
    var terms := Terms(g)[u := Jump(taken)];
    var b, keep := g.blocks[v], Sources(terms, v);
    BlockLists(g, v);
    forall w: BlockId ensures w in keep <==> w in b.preds && !(w == u && v == dropped && dropped != taken) {
      if w != u { assert w < |terms| ==> terms[w] == g.blocks[w].terminator; }
    }
    hide Sources;
    if v == dropped && dropped != taken {
      ThinBlockWithout(b, terms[v], keep, u);
    } else {
      ThinBlockSame(b, terms[v], keep);
    }
    assert v != u ==> terms[v] == b.terminator;
    hide ThinBlock;
  }

  // ----- The whole pass -----

  /** The terminators once the first `n` blocks have been looked at. */
  function FoldedTerms(f: SsaFunction, n: nat): (r: seq<Terminator>)
    ensures |r| == |f.blocks|
    ensures forall u :: 0 <= u < |r| ==> r[u] == if u < n then FoldTerminator(f.blocks[u].terminator) else f.blocks[u].terminator
  {
    seq(|f.blocks|, u requires 0 <= u < |f.blocks| =>
      if u < n then FoldTerminator(f.blocks[u].terminator) else f.blocks[u].terminator)
  }

  /** The function with every branch on a constant folded. */
  function Folded(f: SsaFunction): SsaFunction {
    Thinned(f, FoldedTerms(f, |f.blocks|))
  }

  lemma FoldedNarrow(f: SsaFunction, n: nat)
    ensures Narrower(f, FoldedTerms(f, n))
  {
    FoldNarrower(f, FoldedTerms(f, n));
  }

  /** Thinning twice is thinning once, by the narrower terminators. */
  lemma ThinnedTwice(f: SsaFunction, terms: seq<Terminator>, more: seq<Terminator>)
    requires WellFormed(f) && |terms| == |more| == |f.blocks|
    requires forall u: BlockId, v: BlockId :: u < |more| && v in more[u].Targets() ==> v in terms[u].Targets()
    ensures Thinned(Thinned(f, terms), more) == Thinned(f, more)
  {
    hide Pick;
    forall v: BlockId | v < |f.blocks|
      ensures ThinBlock(ThinBlock(f.blocks[v], terms[v], Sources(terms, v)), more[v], Sources(more, v)) ==
              ThinBlock(f.blocks[v], more[v], Sources(more, v))
    {
      assert Sources(terms, v) * Sources(more, v) == Sources(more, v);
      BlockLists(f, v);
      hide WellFormed;
      ThinBlockTwice(f.blocks[v], terms[v], Sources(terms, v), more[v], Sources(more, v));
    }
    assert Thinned(Thinned(f, terms), more).blocks == Thinned(f, more).blocks;
  }

  lemma ThinBlockTwice(b: SsaBlock, t: Terminator, keep: set<BlockId>, t': Terminator, other: set<BlockId>)
    requires keep * other == other
    requires forall i :: 0 <= i < |b.stmts| && b.stmts[i].op.Phi? ==> |b.stmts[i].op.edges| == |b.stmts[i].op.values|
    ensures ThinBlock(ThinBlock(b, t, keep), t', other) == ThinBlock(b, t', other)
  {
    PickTwice(b.preds, b.preds, keep, other);
    forall i | 0 <= i < |b.stmts| ensures ThinStmt(ThinStmt(b.stmts[i], keep), other) == ThinStmt(b.stmts[i], other) {
      var op := b.stmts[i].op;
      if op.Phi? {
        PickTwice(op.edges, op.edges, keep, other);
        PickTwice(op.edges, op.values, keep, other);
      }
    }
    hide Pick, ThinStmt;
    assert ThinStmts(ThinStmts(b.stmts, keep), other) == ThinStmts(b.stmts, other);
  }

  lemma NothingFolded(f: SsaFunction)
    requires WellFormed(f)
    ensures Thinned(f, FoldedTerms(f, 0)) == f
  {
    var terms := FoldedTerms(f, 0);
    forall v: BlockId | v < |f.blocks| ensures ThinBlock(f.blocks[v], terms[v], Sources(terms, v)) == f.blocks[v] {
      BlockLists(f, v);
      hide WellFormed;
      ThinBlockSame(f.blocks[v], terms[v], Sources(terms, v));
    }
    assert Thinned(f, terms).blocks == f.blocks;
  }

  /** One more block looked at, whose branch is folded. */
  lemma FoldNext(f: SsaFunction, g: SsaFunction, n: nat, c: bool)
    requires WellFormed(f) && n < |f.blocks| && g == Thinned(f, FoldedTerms(f, n))
    requires f.blocks[n].terminator.Branch? && f.blocks[n].terminator.condition == Const(Bool(c))
    ensures WellFormed(g) && g.blocks[n].terminator == f.blocks[n].terminator
    ensures var t := f.blocks[n].terminator;
            var taken, dropped := if c then t.thenTarget else t.elseTarget, if c then t.elseTarget else t.thenTarget;
            forall v: BlockId :: v < |g.blocks| ==> Thinned(f, FoldedTerms(f, n + 1)).blocks[v] == FoldedBlock(g, n, taken, dropped, v)
  {
    hide WellFormed, ThinBlock, FoldedBlock, Sources;
    FoldedNarrow(f, n);
    ThinnedWellFormed(f, FoldedTerms(f, n));
    assert g.blocks[n].terminator == f.blocks[n].terminator by { ThinnedTerminator(f, FoldedTerms(f, n), n); }
    var t := f.blocks[n].terminator;
    var taken := if c then t.thenTarget else t.elseTarget;
    forall u: nat | u < |f.blocks| ensures g.blocks[u].terminator == FoldedTerms(f, n)[u] {
      ThinnedTerminator(f, FoldedTerms(f, n), u);
    }
    assert Terms(g)[n := Jump(taken)] == FoldedTerms(f, n + 1);
    ThinnedTwice(f, FoldedTerms(f, n), FoldedTerms(f, n + 1));
    var h := Thinned(g, Terms(g)[n := Jump(taken)]);
    forall v: BlockId | v < |g.blocks|
      ensures h.blocks[v] == FoldedBlock(g, n, taken, if c then t.elseTarget else t.thenTarget, v)
    {
      FoldStep(g, n, c, v);
    }
  }

  lemma ThinnedTerminator(f: SsaFunction, terms: seq<Terminator>, u: BlockId)
    requires |terms| == |f.blocks| && u < |f.blocks|
    ensures Thinned(f, terms).blocks[u].terminator == terms[u]
  {
  }

  predicate Foldable(t: Terminator) {
    t.Branch? && t.condition.Const? && t.condition.literal.Bool?
  }

  /** Every branch on a Boolean constant jumps where the constant says; other terminators stay. */
  ghost predicate BranchesFolded(f: SsaFunction, g: SsaFunction) {
    && |g.blocks| == |f.blocks|
    && forall u :: 0 <= u < |f.blocks| ==>
         match f.blocks[u].terminator
         case Branch(Const(Bool(true)), thenTarget, _) => g.blocks[u].terminator == Jump(thenTarget)
         case Branch(Const(Bool(false)), _, elseTarget) => g.blocks[u].terminator == Jump(elseTarget)
         case t => g.blocks[u].terminator == t
  }

  lemma FoldedBranches(f: SsaFunction)
    ensures BranchesFolded(f, Folded(f))
  {
    hide ThinBlock, Sources;
    var terms := FoldedTerms(f, |f.blocks|);
    forall u: nat | u < |f.blocks| ensures Folded(f).blocks[u].terminator == FoldTerminator(f.blocks[u].terminator) {
      ThinnedTerminator(f, terms, u);
    }
  }

  /** Folding changes exactly the functions that have a foldable branch. */
  method FoldConstantBranches(f: SsaFunction) returns (g: SsaFunction, changed: bool)
    requires WellFormed(f)
    ensures g == Folded(f) && BranchesFolded(f, g)
    ensures changed <==> g != f
    ensures changed <==> exists u: BlockId :: u < |f.blocks| && Foldable(f.blocks[u].terminator)
  {
    hide WellFormed, Thinned, WithoutEdge;
    g, changed := f, false;
    NothingFolded(f);
    for n := 0 to |f.blocks|
      invariant g == Thinned(f, FoldedTerms(f, n))
      invariant changed <==> exists u: BlockId :: u < n && Foldable(f.blocks[u].terminator)
    {
      if Foldable(f.blocks[n].terminator) {
        g := FoldBlock(f, g, n);
        changed := true;
      } else {
        assert FoldedTerms(f, n + 1) == FoldedTerms(f, n);
      }
    }
    FoldedBranches(f);
    if !changed { assert FoldedTerms(f, |f.blocks|) == FoldedTerms(f, 0); }
  }

  method FoldBlock(ghost f: SsaFunction, g0: SsaFunction, n: nat) returns (g: SsaFunction)
    requires WellFormed(f) && n < |f.blocks| && g0 == Thinned(f, FoldedTerms(f, n)) && Foldable(f.blocks[n].terminator)
    ensures g == Thinned(f, FoldedTerms(f, n + 1))
  {
    FoldNext(f, g0, n, f.blocks[n].terminator.condition.literal.b);
    SameHead(f, n);
    hide WellFormed, Thinned, FoldedBlock;
    var blocks := FoldIn(g0, n);
    g := g0.(blocks := blocks);
    assert g.blocks == Thinned(f, FoldedTerms(f, n + 1)).blocks;
  }

  /** The branch of block `n` becomes a jump, and the other edge goes. */
  method FoldIn(g: SsaFunction, n: nat) returns (blocks: seq<SsaBlock>)
    requires WellFormed(g) && n < |g.blocks| && Foldable(g.blocks[n].terminator)
    ensures |blocks| == |g.blocks|
    ensures var t := g.blocks[n].terminator;
            var c := t.condition.literal.b;
            var taken, dropped := if c then t.thenTarget else t.elseTarget, if c then t.elseTarget else t.thenTarget;
            forall v: BlockId :: v < |g.blocks| ==> blocks[v] == FoldedBlock(g, n, taken, dropped, v)
  {
    FoldedTargets(g, n);
    var t := g.blocks[n].terminator;
    var c := t.condition.literal.b;
    var taken, dropped := if c then t.thenTarget else t.elseTarget, if c then t.elseTarget else t.thenTarget;
    BlockLists(g, dropped);
    hide WellFormed, WithoutEdge, Distinct, PhisInFront;
    blocks := g.blocks[n := g.blocks[n].(terminator := Jump(taken), succs := [taken])];
    if dropped != taken {
      InFront(g.blocks[dropped], blocks[dropped]);
      var b := RemoveEdge(blocks[dropped], n);
      blocks := blocks[dropped := b];
    }
  }

  lemma InFront(b: SsaBlock, b': SsaBlock)
    requires PhisInFront(b) && b'.stmts == b.stmts
    ensures PhisInFront(b')
  {
  }

  lemma SameHead(f: SsaFunction, n: nat)
    ensures Thinned(f, FoldedTerms(f, n)).entry == f.entry && Thinned(f, FoldedTerms(f, n)).params == f.params
    ensures Thinned(f, FoldedTerms(f, n + 1)).entry == f.entry && Thinned(f, FoldedTerms(f, n + 1)).params == f.params
  {
  }

  /** The branch of an accepted function leads to blocks that exist. */
  lemma FoldedTargets(g: SsaFunction, n: nat)
    requires WellFormed(g) && n < |g.blocks| && g.blocks[n].terminator.Branch?
    ensures g.blocks[n].terminator.thenTarget < |g.blocks| && g.blocks[n].terminator.elseTarget < |g.blocks|
  {
    assert BlockEdgesOk(g, n);
    var t := g.blocks[n].terminator;
    assert t.thenTarget in t.Targets() && t.elseTarget in t.Targets();
  }

  // ----- What folding keeps -----

  /** Boolean literals mean themselves. */
  ghost predicate LiteralTruth<V, W>(m: Machine<V, W>) {
    forall c: bool :: m.truth(m.literal(Bool(c))) == Some(c)
  }

  lemma FoldingKeepsWellFormed(f: SsaFunction)
    requires WellFormed(f)
    ensures WellFormed(Folded(f))
  {
    FoldedNarrow(f, |f.blocks|);
    ThinnedWellFormed(f, FoldedTerms(f, |f.blocks|));
  }

  lemma FoldedLeaves<V, W>(m: Machine<V, W>, args: seq<V>, t: Terminator, env: map<ValueId, V>, w: W)
    requires LiteralTruth(m)
    ensures RunTerminator(m, args, FoldTerminator(t), env, w) == RunTerminator(m, args, t, env, w)
  {
  }

  /** Folding constant branches changes no run of an accepted function. */
  lemma FoldingPreservesRuns<V(!new), W(!new)>(m: Machine<V, W>, args: seq<V>, f: SsaFunction, fuel: nat, w: W)
    requires WellFormed(f) && LiteralTruth(m)
    ensures Start(m, args, Folded(f), fuel, w) == Start(m, args, f, fuel, w)
  {
    hide WellFormed;
    var terms := FoldedTerms(f, |f.blocks|);
    FoldedNarrow(f, |f.blocks|);
    forall u: BlockId, env: map<ValueId, V>, w': W | u < |terms|
      ensures RunTerminator(m, args, terms[u], env, w') == RunTerminator(m, args, f.blocks[u].terminator, env, w')
    {
      FoldedLeaves(m, args, f.blocks[u].terminator, env, w');
    }
    ThinnedStart(m, args, f, terms, fuel, w);
  }
}
