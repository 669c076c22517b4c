/** The pass that deletes unreachable blocks, and what it leaves together with branch
    folding. */
module SsaCompactPass {
  import opened SsaModel
  import opened SsaDominators
  import opened SsaVerify
  import opened SsaSemantics
  import opened SsaThin
  import opened SsaFold
  import opened SsaCompact
  import opened SsaDangling

  // ----- Pruning one block -----

  /** The predecessors among the first `n` that are not in `reachable`. */
  function DeadAmong(preds: seq<BlockId>, reachable: set<BlockId>, n: nat): (r: seq<BlockId>)
    requires n <= |preds|
    ensures forall u :: u in r <==> u in preds[..n] && u !in reachable
  {
    if n == 0 then [] else
    assert preds[..n] == preds[..n - 1] + [preds[n - 1]];
    DeadAmong(preds, reachable, n - 1) + (if preds[n - 1] !in reachable then [preds[n - 1]] else [])
  }

  /** The predecessors still there once the first `i` dead ones are gone. */
  ghost function Left(preds: seq<BlockId>, dead: seq<BlockId>, i: nat): set<BlockId>
    requires i <= |dead|
  {
    set u | u in preds && u !in dead[..i]
  }

  ghost predicate ListsAgree(b: SsaBlock) {
    && Distinct(b.preds) && PhisInFront(b) && b.succs == b.terminator.Targets()
    && forall i :: 0 <= i < |b.stmts| && b.stmts[i].op.Phi? ==> b.stmts[i].op.edges == b.preds && |b.stmts[i].op.values| == |b.preds|
  }

  lemma {:induction false} PickNoRepeats(edges: seq<BlockId>, keep: set<BlockId>)
    requires Distinct(edges)
    ensures Distinct(Pick(edges, edges, keep))
    decreases |edges|
  {
    if edges != [] {
      forall i, j | 0 <= i < j < |edges[1..]| ensures edges[1..][i] != edges[1..][j] {
        assert edges[1..][i] == edges[i + 1] && edges[1..][j] == edges[j + 1];
      }
      PickNoRepeats(edges[1..], keep);
      PickFirst(edges, edges, keep);
      var r := Pick(edges[1..], edges[1..], keep);
      forall j | 0 <= j < |r| ensures r[j] != edges[0] {
        assert r[j] in edges[1..];
        var k :| 0 <= k < |edges[1..]| && edges[1..][k] == r[j];
        assert edges[k + 1] == r[j];
      }
    }
  }

  lemma ThinAgrees(b: SsaBlock, keep: set<BlockId>)
    requires ListsAgree(b)
    ensures ListsAgree(ThinBlock(b, b.terminator, keep))
  {
    var r := ThinBlock(b, b.terminator, keep);
    PickNoRepeats(b.preds, keep);
    forall i | 0 <= i < |r.stmts| && r.stmts[i].op.Phi?
      ensures r.stmts[i].op.edges == r.preds && |r.stmts[i].op.values| == |r.preds|
    {
      var op := b.stmts[i].op;
      PickLength(op.edges, op.edges, op.values, keep);
    }
    hide Pick, Distinct;
    forall i: nat, j: nat | i < j < |r.stmts| && r.stmts[j].op.Phi? ensures r.stmts[i].op.Phi? {
      assert b.stmts[j].op.Phi? && b.stmts[i].op.Phi?;
    }
  }

  /** Removing one more edge. */
  lemma PruneStep(b: SsaBlock, keep: set<BlockId>, u: BlockId, keep': set<BlockId>)
    requires ListsAgree(b) && u in b.preds && u in keep && keep' == keep - {u} && keep <= (set v | v in b.preds)
    ensures WithoutEdge(ThinBlock(b, b.terminator, keep), u) == ThinBlock(b, b.terminator, keep')
  {
    var r := ThinBlock(b, b.terminator, keep);
    ThinAgrees(b, keep);
    PickMembers(b.preds, keep, u);
    forall v | v in r.preds && v != u ensures v in keep' { PickMembers(b.preds, keep, v); }
    assert keep * keep' == keep';
    hide Pick, ThinStmts, Distinct, PhisInFront, WithoutEdge;
    ThinBlockWithout(r, b.terminator, keep', u);
    ThinBlockTwice(b, b.terminator, keep, b.terminator, keep');
    assert r.(terminator := b.terminator, succs := b.terminator.Targets()) == r;
  }

  lemma PruneStart(b: SsaBlock, keep: set<BlockId>)
    requires ListsAgree(b) && keep == set v | v in b.preds
    ensures ThinBlock(b, b.terminator, keep) == b
  {
    hide Distinct, PhisInFront;
    ThinBlockSame(b, b.terminator, keep);
  }

  lemma PruneEnd(b: SsaBlock, keep: set<BlockId>, reachable: set<BlockId>)
    requires ListsAgree(b) && forall v :: v in b.preds ==> (v in keep <==> v in reachable)
    ensures ThinBlock(b, b.terminator, keep) == ThinBlock(b, b.terminator, reachable)
  {
    PickSame(b.preds, b.preds, keep, reachable);
    forall i | 0 <= i < |b.stmts| ensures ThinStmt(b.stmts[i], keep) == ThinStmt(b.stmts[i], reachable) {
      var op := b.stmts[i].op;
      if op.Phi? {
        PickSame(op.edges, op.edges, keep, reachable);
        PickSame(op.edges, op.values, keep, reachable);
      }
    }
    hide Pick, ThinStmt;
    assert ThinStmts(b.stmts, keep) == ThinStmts(b.stmts, reachable);
  }

  /** All edges from deleted blocks, one after the other. */
  method PruneBlock(b: SsaBlock, reachable: set<BlockId>) returns (r: SsaBlock)
    requires ListsAgree(b)
    ensures r == ThinBlock(b, b.terminator, reachable)
  {
    var deadPreds := DeadAmong(b.preds, reachable, |b.preds|);
    assert b.preds[..|b.preds|] == b.preds;
    DeadNoRepeats(b.preds, reachable, |b.preds|);
    hide Pick, ThinBlock, Distinct, ListsAgree, WithoutEdge, DeadAmong;
    r := b;
    PruneStart(b, Left(b.preds, deadPreds, 0));
    for i := 0 to |deadPreds|
      invariant r == ThinBlock(b, b.terminator, Left(b.preds, deadPreds, i))
    {
      var u := deadPreds[i];
      LeftNext(b.preds, deadPreds, i);
      ThinAgrees(b, Left(b.preds, deadPreds, i));
      PruneStep(b, Left(b.preds, deadPreds, i), u, Left(b.preds, deadPreds, i + 1));
      r := RemoveFrom(r, u);
    }
    PruneEnd(b, Left(b.preds, deadPreds, |deadPreds|), reachable);
  }

  method RemoveFrom(b: SsaBlock, u: BlockId) returns (r: SsaBlock)
    requires ListsAgree(b)
    ensures r == WithoutEdge(b, u)
  {
    hide WithoutEdge, Distinct;
    r := RemoveEdge(b, u);
  }

  lemma {:induction false} DeadNoRepeats(preds: seq<BlockId>, reachable: set<BlockId>, n: nat)
    requires n <= |preds| && Distinct(preds)
    ensures Distinct(DeadAmong(preds, reachable, n))
    decreases n
  {
    if n > 0 {
      DeadNoRepeats(preds, reachable, n - 1);
      var d := DeadAmong(preds, reachable, n - 1);
      forall i | 0 <= i < |d| ensures d[i] != preds[n - 1] {
        assert d[i] in d;
      }
    }
  }

  lemma LeftNext(preds: seq<BlockId>, dead: seq<BlockId>, i: nat)
    requires i < |dead| && Distinct(dead) && forall u :: u in dead ==> u in preds
    ensures dead[i] in preds && dead[i] in Left(preds, dead, i)
    ensures Left(preds, dead, i + 1) == Left(preds, dead, i) - {dead[i]}
  {
    assert dead[..i + 1] == dead[..i] + [dead[i]];
  }

  // ----- Renumbering one block -----

  /** `remap` gives every surviving block its new number. */
  ghost predicate Numbers(remap: map<BlockId, BlockId>, live: set<BlockId>) {
    remap.Keys == live && forall b :: b in live ==> remap[b] == NewId(live, b)
  }

  method RenumberAll(s: seq<BlockId>, remap: map<BlockId, BlockId>, ghost live: set<BlockId>) returns (r: seq<BlockId>)
    requires Numbers(remap, live) && forall k :: 0 <= k < |s| ==> s[k] in live
    ensures r == RenameAll(live, s)
  {
    hide NewId;
    r := [];
    for k := 0 to |s|
      invariant |r| == k && forall j :: 0 <= j < k ==> r[j] == NewId(live, s[j])
    {
      r := r + [remap[s[k]]];
    }
    assert r == RenameAll(live, s);
  }

  /** All the blocks a surviving block names survive. */
  ghost predicate NamesLive(b: SsaBlock, live: set<BlockId>) {
    && b.id in live
    && (forall k :: 0 <= k < |b.preds| ==> b.preds[k] in live)
    && (forall k :: 0 <= k < |b.succs| ==> b.succs[k] in live)
    && TargetsLive(b.terminator, live)
    && (forall i :: 0 <= i < |b.stmts| && b.stmts[i].op.Phi? ==> b.stmts[i].op.edges == b.preds)
  }

  ghost predicate TargetsLive(t: Terminator, live: set<BlockId>) {
    match t
    case Jump(a) => a in live
    case Branch(_, a, b) => a in live && b in live
    case Return(_) => true
  }

  method RenumberBlock(b: SsaBlock, remap: map<BlockId, BlockId>, ghost live: set<BlockId>) returns (r: SsaBlock)
    requires Numbers(remap, live) && NamesLive(b, live) && PhisInFront(b)
    ensures r == RenameBlock(live, b)
  {
    hide NewId;
    var preds := RenumberAll(b.preds, remap, live);
    var succs := RenumberAll(b.succs, remap, live);
    var terminator := b.terminator;
    match b.terminator {
      case Jump(target) => terminator := Jump(remap[target]);
      case Branch(c, thenTarget, elseTarget) => terminator := Branch(c, remap[thenTarget], remap[elseTarget]);
      case Return(_) =>
    }
    var stmts := RenumberPhis(b, remap, live);
    r := SsaBlock(remap[b.id], stmts, terminator, preds, succs);
  }

  method RenumberPhis(b: SsaBlock, remap: map<BlockId, BlockId>, ghost live: set<BlockId>) returns (stmts: seq<SsaStatement>)
    requires Numbers(remap, live) && NamesLive(b, live) && PhisInFront(b)
    ensures stmts == RenameStmts(live, b.stmts)
  {
    hide NewId;
    stmts := b.stmts;
    var i := 0;
    while i < |stmts|
      invariant i <= |stmts| == |b.stmts|
      invariant forall j :: 0 <= j < i ==> stmts[j] == RenameStmt(live, b.stmts[j])
      invariant forall j :: i <= j < |stmts| ==> stmts[j] == b.stmts[j]
    {
      if !stmts[i].op.Phi? { break; }
      var edges := RenumberAll(stmts[i].op.edges, remap, live);
      stmts := stmts[i := SsaStatement(stmts[i].id, Phi(edges, stmts[i].op.values))];
      i := i + 1;
    }
    assert stmts == RenameStmts(live, b.stmts);
  }

  // ----- The pass -----

  lemma ThinNamesLive(f: SsaFunction, live: set<BlockId>, v: BlockId)
    requires Surviving(f, live) && v in live
    ensures v < |f.blocks| && ListsAgree(f.blocks[v])
    ensures var b := ThinBlock(f.blocks[v], f.blocks[v].terminator, live); NamesLive(b, live) && PhisInFront(b)
  {
    var b := f.blocks[v];
    LiveTargets(f, live, v);
    BlockLists(f, v);
    assert b.id == v;
    hide Surviving;
    assert ListsAgree(b);
    ThinAgrees(b, live);
    PickedLive(b.preds, live);
    if b.terminator.Branch? { BranchLive(live, b.terminator); }
    if b.terminator.Jump? { assert b.terminator.Targets()[0] in live; }
  }

  method NumberBlocks(n: nat, live: set<BlockId>) returns (remap: map<BlockId, BlockId>)
    requires forall b :: b in live ==> b < n
    ensures Numbers(remap, live)
  {
    remap := map[];
    var next := 0;
    for id := 0 to n
      invariant next == NewId(live, id)
      invariant forall b: BlockId :: b in remap <==> b in live && b < id
      invariant forall b :: b in remap ==> remap[b] == NewId(live, b)
    {
      NewIdNext(live, id);
      hide NewId;
      if id in live {
        remap := remap[id := next];
        next := next + 1;
      }
    }
    assert remap.Keys == live;
  }

  lemma {:induction false} RangeSize(n: nat)
    ensures |Range(n)| == n
    decreases n
  {
    if n > 0 {
      RangeSize(n - 1);
      assert n - 1 !in Range(n - 1) && Range(n) == Range(n - 1) + {n - 1};
    }
  }

  /** As many reachable blocks as blocks: all of them. */
  lemma AllLive(live: set<BlockId>, n: nat)
    requires (forall b :: b in live ==> b < n) && |live| == n
    ensures forall b: BlockId :: b < n ==> b in live
  {
    RangeSize(n);
    assert live <= Range(n);
    if b: BlockId :| b < n && b !in live {
      assert live <= Range(n) - {b};
      SubsetSize(live, Range(n) - {b});
    }
  }

  lemma {:induction false} SubsetSize(a: set<BlockId>, b: set<BlockId>)
    requires a <= b
    ensures |a| <= |b|
    decreases |a|
  {
    if x: BlockId :| x in a {
      SubsetSize(a - {x}, b - {x});
    } else {
      assert a == {};
    }
  }

  lemma {:induction false} NewIdSame(live: set<BlockId>, n: nat)
    requires forall b: BlockId :: b < n ==> b in live
    ensures NewId(live, n) == n && |Order(live, n)| == n && forall k :: 0 <= k < n ==> Order(live, n)[k] == k
    decreases n
  {
    if n > 0 { NewIdSame(live, n - 1); }
  }

  lemma RenameSame(live: set<BlockId>, s: seq<BlockId>, n: nat)
    requires (forall b: BlockId :: b < n ==> b in live) && forall k :: 0 <= k < |s| ==> s[k] < n
    ensures RenameAll(live, s) == s
  {
    forall k | 0 <= k < |s| ensures NewId(live, s[k]) == s[k] { NewIdSame(live, s[k]); }
  }

  lemma CompactSame(f: SsaFunction, live: set<BlockId>, v: BlockId)
    requires Surviving(f, live) && v < |f.blocks| && forall b: BlockId :: b < |f.blocks| <==> b in live
    ensures CompactBlock(live, f.blocks[v]) == f.blocks[v]
  {
    var b, n := f.blocks[v], |f.blocks|;
    ThinNamesLive(f, live, v);
    BlockLists(f, v);
    assert b.id == v;
    hide Surviving, WellFormed;
    ThinBlockSame(b, b.terminator, live);
    hide Pick, ThinStmts, Distinct, PhisInFront;
    assert ThinBlock(b, b.terminator, live) == b;
    NewIdSame(live, v);
    RenameSame(live, b.preds, n);
    RenameSame(live, b.succs, n);
    forall i | 0 <= i < |b.stmts| ensures RenameStmt(live, b.stmts[i]) == b.stmts[i] {
    }
    assert RenameStmts(live, b.stmts) == b.stmts;
    match b.terminator {
      case Jump(a) => NewIdSame(live, a);
      case Branch(_, a, c) => NewIdSame(live, a); NewIdSame(live, c);
      case Return(_) =>
    }
  }

  /** Where every block is reachable, there is nothing to do. */
  lemma NothingDeleted(f: SsaFunction, live: set<BlockId>)
    requires Surviving(f, live) && forall b: BlockId :: b < |f.blocks| ==> b in live
    ensures Compact(f, live) == f
  {
    var g := Compact(f, live);
    EntryNumber(f, live);
    NewIdSame(live, |f.blocks|);
    NewIdSame(live, f.entry);
    hide CompactBlock, Order, NewId;
    forall v: BlockId | v < |f.blocks| ensures g.blocks[v] == f.blocks[v] { CompactSame(f, live, v); }
    assert g.blocks == f.blocks;
  }

  /** Edges from unreachable blocks go, the unreachable blocks go, and the others are
      renumbered; a function whose blocks are all reachable is left alone. */
  method EliminateUnreachableBlocks(f: SsaFunction) returns (g: SsaFunction, changed: bool)
    requires WellFormed(f)
    ensures g == Compacted(f)
    ensures changed <==> exists b: BlockId :: b < |f.blocks| && !Reachable(f, b)
  {
    LiveSurviving(f);
    assert GraphOk(f);
    var reachable := ComputeReachable(f);
    assert reachable == LiveBlocks(f) by { ReachableIsLive(f, reachable); }
    hide WellFormed, Reachable, Compact, GraphOk;
    if |reachable| == |f.blocks| {
      AllLive(reachable, |f.blocks|);
      NothingDeleted(f, reachable);
      return f, false;
    }
    SomeDead(reachable, |f.blocks|);
    g := Survivors(f, reachable);
    changed := true;
  }

  lemma ReachableIsLive(f: SsaFunction, reachable: set<BlockId>)
    requires GraphOk(f) && forall b :: b in reachable <==> Reachable(f, b)
    ensures reachable == LiveBlocks(f)
  {
    forall b: BlockId ensures b in reachable <==> b in LiveBlocks(f) {
      if Reachable(f, b) { ReachableInRange(f, b); }
    }
  }

  lemma SomeDead(live: set<BlockId>, n: nat)
    requires (forall b :: b in live ==> b < n) && |live| != n
    ensures exists b: BlockId :: b < n && b !in live
  {
    if forall b: BlockId :: b < n ==> b in live { FullSize(live, n); }
  }

  lemma FullSize(live: set<BlockId>, n: nat)
    requires forall b: BlockId :: b in live <==> b < n
    ensures |live| == n
  {
    RangeSize(n);
    assert live == Range(n);
  }

  method PruneLive(f: SsaFunction, live: set<BlockId>) returns (blocks: seq<SsaBlock>)
    requires Surviving(f, live)
    ensures |blocks| == |f.blocks|
    ensures forall v :: v in live ==> blocks[v] == ThinBlock(f.blocks[v], f.blocks[v].terminator, live)
  {
    hide WellFormed, ThinBlock, GraphOk, Reachable;
    blocks := f.blocks;
    for index := 0 to |f.blocks|
      invariant |blocks| == |f.blocks|
      invariant forall v :: v in live && v < index ==> blocks[v] == ThinBlock(f.blocks[v], f.blocks[v].terminator, live)
      invariant forall v :: index <= v < |blocks| ==> blocks[v] == f.blocks[v]
    {
      if index in live {
        ThinNamesLive(f, live, index);
        var b := PruneBlock(blocks[index], live);
        blocks := blocks[index := b];
      }
    }
  }

  /** The surviving blocks below `n`, pruned and renumbered. */
  ghost predicate KeptBelow(f: SsaFunction, live: set<BlockId>, n: nat, kept: seq<SsaBlock>)
    requires n <= |f.blocks|
  {
    && |kept| == |Order(live, n)|
    && forall k :: 0 <= k < |kept| ==> kept[k] == CompactBlock(live, f.blocks[Order(live, n)[k]])
  }

  lemma KeptNext(f: SsaFunction, live: set<BlockId>, n: nat, kept: seq<SsaBlock>)
    requires n < |f.blocks| && KeptBelow(f, live, n, kept)
    ensures KeptBelow(f, live, n + 1, if n in live then kept + [CompactBlock(live, f.blocks[n])] else kept)
  {
    hide CompactBlock;
  }

  lemma KeptAll(f: SsaFunction, live: set<BlockId>, kept: seq<SsaBlock>)
    requires KeptBelow(f, live, |f.blocks|, kept)
    ensures kept == Compact(f, live).blocks && Compact(f, live).params == f.params && Compact(f, live).entry == NewId(live, f.entry)
  {
    hide CompactBlock, Order, NewId;
  }

  lemma KeptNone(f: SsaFunction, live: set<BlockId>)
    ensures KeptBelow(f, live, 0, [])
  {
  }

  method KeepLive(f: SsaFunction, live: set<BlockId>, blocks: seq<SsaBlock>, remap: map<BlockId, BlockId>) returns (kept: seq<SsaBlock>)
    requires Surviving(f, live) && Numbers(remap, live) && |blocks| == |f.blocks|
    requires forall v :: v in live ==> v < |blocks| && blocks[v] == ThinBlock(f.blocks[v], f.blocks[v].terminator, live)
    ensures KeptBelow(f, live, |f.blocks|, kept)
  {
    hide Surviving, ThinBlock, RenameBlock, NamesLive, PhisInFront, Numbers, KeptBelow;
    kept := [];
    KeptNone(f, live);
    for id := 0 to |f.blocks|
      invariant KeptBelow(f, live, id, kept)
    {
      KeptNext(f, live, id, kept);
      if id in live {
        ThinNamesLive(f, live, id);
        var b := RenumberBlock(blocks[id], remap, live);
        assert b == CompactBlock(live, f.blocks[id]);
        kept := kept + [b];
      }
    }
  }

  method Survivors(f: SsaFunction, live: set<BlockId>) returns (g: SsaFunction)
    requires Surviving(f, live)
    ensures g == Compact(f, live)
  {
    EntryNumber(f, live);
    LiveInRange(f, live);
    hide Surviving, ThinBlock, NewId, Compact, CompactBlock, Numbers, Order, KeptBelow;
    var blocks := PruneLive(f, live);
    var remap := NumberBlocks(|f.blocks|, live);
    var kept := KeepLive(f, live, blocks, remap);
    var entry := EntryOf(f, remap, live);
    KeptAll(f, live, kept);
    g := SsaFunction(f.params, entry, kept);
  }

  lemma LiveInRange(f: SsaFunction, live: set<BlockId>)
    requires Surviving(f, live)
    ensures forall b :: b in live ==> b < |f.blocks|
  {
  }

  method EntryOf(f: SsaFunction, remap: map<BlockId, BlockId>, ghost live: set<BlockId>) returns (entry: BlockId)
    requires Numbers(remap, live) && f.entry in live
    ensures entry == NewId(live, f.entry)
  {
    entry := remap[f.entry];
  }

  // ----- Folding and deleting -----

  /** Folding constant branches and deleting what becomes unreachable keeps the
      verifier's acceptance and every run; every block of the result is reachable, and
      all its operands name values that exist. */
  lemma CleaningUp<V(!new), W(!new)>(m: Machine<V, W>, args: seq<V>, f: SsaFunction, fuel: nat, w: W)
    requires WellFormed(f) && LiteralTruth(m)
    ensures WellFormed(Compacted(Folded(f))) && AllExist(Compacted(Folded(f)))
    ensures Start(m, args, Compacted(Folded(f)), fuel, w) == Start(m, args, f, fuel, w)
  {
    hide WellFormed, AllExist, Folded, Compacted, Reachable;
    FoldingKeepsWellFormed(f);
    FoldingPreservesRuns(m, args, f, fuel, w);
    CompactingKeepsWellFormed(Folded(f));
    CompactingPreservesRuns(m, args, Folded(f), fuel, w);
    ReachableAllExist(Compacted(Folded(f)));
  }
}
