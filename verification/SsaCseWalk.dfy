/** The walk itself: blocks in dominator-tree order, an explicit stack of blocks to
    enter and scopes to leave, and a table whose entries live as long as their scope. */
module SsaCseWalk {
  import opened Options
  import opened SsaModel
  import opened SsaDominators
  import opened DominatorTree
  import opened SsaIdoms
  import opened SsaVerify
  import opened SsaSemantics
  import opened SsaCse
  import opened SsaValueNumbering
  import opened SsaCseMaximal

  // ----- One block -----

  /** How a block's processing changes the table: it adds fresh keys for its own calls. */
  ghost predicate Grown(f: SsaFunction, b: BlockId, before: Table, after: Table, inserted: seq<CallKey>) {
    && (forall k :: k in after <==> k in before || k in inserted)
    && (forall k :: k in before ==> k in after && after[k] == before[k])
    && (forall k :: k in inserted ==> k !in before && k in after && exists i: nat :: DefAt(f, after[k], b, i))
  }

  /** Keys of calls in blocks entered earlier do not change. */
  ghost predicate KeysSame(f: SsaFunction, ctx: EffectContext, s: Subst, s': Subst, blocks: set<BlockId>) {
    forall d: BlockId, di: nat :: d in blocks && IsSite(f, d, di) ==> KeyAt(f, ctx, s', d, di) == KeyAt(f, ctx, s, d, di)
  }

  lemma KeysSameStep(f: SsaFunction, ctx: EffectContext, t: Tree, s0: Subst, s: Subst, entered: set<BlockId>, b: BlockId, i: nat, v: ValueId)
    requires WellFormed(f) && Frontier(f, t, entered, b, i) && IsSite(f, b, i) && KeysSame(f, ctx, s0, s, entered - {b})
    ensures KeysSame(f, ctx, s0, s[f.blocks[b].stmts[i].id := v], entered - {b})
  {
    hide WellFormed, Frontier, CallKeyOf;
    forall d: BlockId, di: nat | d in entered - {b} && IsSite(f, d, di)
      ensures KeyAt(f, ctx, s[f.blocks[b].stmts[i].id := v], d, di) == KeyAt(f, ctx, s0, d, di)
    {
      KeyKept(f, ctx, t, s, entered, b, i, d, di, v);
    }
  }

  lemma GrownInsert(f: SsaFunction, b: BlockId, before: Table, table: Table, inserted: seq<CallKey>, k: CallKey, i: nat)
    requires Grown(f, b, before, table, inserted) && k !in table && IsSite(f, b, i)
    ensures Grown(f, b, before, table[k := f.blocks[b].stmts[i].id], inserted + [k])
  {
    assert DefAt(f, f.blocks[b].stmts[i].id, b, i);
  }

  method NumberBlock(f: SsaFunction, ctx: EffectContext, b: BlockId, table0: Table, s0: Subst, ghost t: Tree, ghost entered: set<BlockId>)
      returns (table: Table, s: Subst, inserted: seq<CallKey>)
    requires Standing(f, ctx, t, s0, table0, entered, b, 0)
    ensures b < |f.blocks| && Standing(f, ctx, t, s, table, entered, b, |f.blocks[b].stmts|)
    ensures Grown(f, b, table0, table, inserted)
    ensures KeysSame(f, ctx, s0, s, entered - {b})
  {
    hide Standing, Grown, KeysSame, CallKeyOf;
    StandingFacts(f, ctx, t, s0, table0, entered, b, 0);
    table, s, inserted := table0, s0, [];
    assert Grown(f, b, table0, table, inserted) by { GrownStart(f, b, table0); }
    assert KeysSame(f, ctx, s0, s, entered - {b}) by { KeysSameStart(f, ctx, s0, entered - {b}); }
    for i := 0 to |f.blocks[b].stmts|
      invariant Standing(f, ctx, t, s, table, entered, b, i)
      invariant Grown(f, b, table0, table, inserted)
      invariant KeysSame(f, ctx, s0, s, entered - {b})
    {
      var stmt := f.blocks[b].stmts[i];
      match CallKeyOf(ctx, s, stmt.op) {
        case None =>
          StepPlain(f, ctx, t, s, table, entered, b, i);
        case Some(key) =>
          if key in table {
            StepMerge(f, ctx, t, s, table, entered, b, i, key);
            StandingFacts(f, ctx, t, s, table, entered, b, i);
            KeysSameStep(f, ctx, t, s0, s, entered, b, i, table[key]);
            s := s[stmt.id := table[key]];
          } else {
            StepInsert(f, ctx, t, s, table, entered, b, i, key);
            GrownInsert(f, b, table0, table, inserted, key, i);
            inserted := inserted + [key];
            table := table[key := stmt.id];
          }
      }
    }
  }

  lemma StandingFacts(f: SsaFunction, ctx: EffectContext, t: Tree, s: Subst, table: Table, entered: set<BlockId>, b: BlockId, i: nat)
    requires Standing(f, ctx, t, s, table, entered, b, i)
    ensures WellFormed(f) && Frontier(f, t, entered, b, i) && b < |f.blocks|
  {
    hide WellFormed;
  }

  lemma GrownStart(f: SsaFunction, b: BlockId, table: Table)
    ensures Grown(f, b, table, table, [])
  {
  }

  lemma KeysSameStart(f: SsaFunction, ctx: EffectContext, s: Subst, blocks: set<BlockId>)
    ensures KeysSame(f, ctx, s, s, blocks)
  {
  }

  // ----- The stack -----

  datatype Action =
    | Enter(block: BlockId)
    | Exit(block: BlockId, inserted: seq<CallKey>)

  ghost predicate OpenBelow(stack: seq<Action>, j: nat, a: BlockId) {
    exists i :: 0 <= i < j && i < |stack| && stack[i].Exit? && stack[i].block == a
  }

  ghost predicate Pending(stack: seq<Action>, b: BlockId) {
    Enter(b) in stack
  }

  /** Open scopes lie on the ancestor chain of everything above them. */
  ghost predicate Nested(t: Tree, stack: seq<Action>, i: nat, j: nat)
    requires TreeOk(t) && i < |stack| && j < |stack|
  {
    i < j && stack[i].Exit? ==>
      stack[j].block in t.up && stack[i].block in Chain(t, stack[j].block) && stack[i].block != stack[j].block
  }

  /** All strict ancestors of a block to be entered are open below it. */
  ghost predicate AncestorsOpen(t: Tree, stack: seq<Action>, j: nat)
    requires TreeOk(t) && j < |stack|
  {
    && stack[j].block in t.up
    && (stack[j].Enter? ==>
          forall a :: a in Chain(t, stack[j].block) && a != stack[j].block ==> OpenBelow(stack, j, a))
  }

  ghost predicate Reached(t: Tree, stack: seq<Action>, entered: set<BlockId>, c: BlockId) {
    c in t.up && (c == t.root || t.up[c] in entered) ==> c in entered || Pending(stack, c)
  }

  ghost predicate StackOk(t: Tree, stack: seq<Action>, entered: set<BlockId>) {
    && TreeOk(t)
    && (forall i, j :: 0 <= i < |stack| && 0 <= j < |stack| ==> Nested(t, stack, i, j))
    && (forall j :: 0 <= j < |stack| ==> AncestorsOpen(t, stack, j))
    && (forall j :: 0 <= j < |stack| ==> (stack[j].Exit? <==> stack[j].block in entered))
    && (forall i, j :: 0 <= i < j < |stack| && stack[i].Enter? && stack[j].Enter? ==> stack[i].block != stack[j].block)
    && (forall c :: c in entered ==> c in t.up && Chain(t, c) <= entered)
    && (forall c :: Reached(t, stack, entered, c))
  }

  // ----- The table -----

  /** The scope that owns a key is the block of the call it names. */
  ghost predicate OwnedBy(f: SsaFunction, ctx: EffectContext, s: Subst, stack: seq<Action>, table: Table, j: nat, k: CallKey)
    requires k in table
  {
    && j < |stack| && stack[j].Exit? && k in stack[j].inserted
    && table[k] !in s
    && exists oi: nat :: DefAt(f, table[k], stack[j].block, oi) && KeyAt(f, ctx, s, stack[j].block, oi) == Some(k)
  }

  ghost predicate KeyBelow(stack: seq<Action>, j: nat, k: CallKey) {
    exists i :: 0 <= i <= j && i < |stack| && stack[i].Exit? && k in stack[i].inserted
  }

  /** All calls of an open block have their key in the table. */
  ghost predicate ScopeFull(f: SsaFunction, ctx: EffectContext, s: Subst, stack: seq<Action>, j: nat)
    requires j < |stack|
  {
    stack[j].Exit? ==> forall i: nat :: IsSite(f, stack[j].block, i) && KeyAt(f, ctx, s, stack[j].block, i).Some? ==>
                         KeyBelow(stack, j, KeyAt(f, ctx, s, stack[j].block, i).value)
  }

  ghost predicate ScopesOk(f: SsaFunction, ctx: EffectContext, s: Subst, stack: seq<Action>, table: Table) {
    && (forall k :: k in table ==> exists j: nat :: OwnedBy(f, ctx, s, stack, table, j, k))
    && (forall j :: 0 <= j < |stack| && stack[j].Exit? ==> forall k :: k in stack[j].inserted ==> k in table)
    && (forall i, j :: 0 <= i < j < |stack| && stack[i].Exit? && stack[j].Exit? ==>
          forall k :: k in stack[i].inserted ==> k !in stack[j].inserted)
    && (forall j :: 0 <= j < |stack| ==> ScopeFull(f, ctx, s, stack, j))
  }

  // ----- The record of merges, between blocks -----

  ghost predicate MergeIn(f: SsaFunction, ctx: EffectContext, s: Subst, entered: set<BlockId>, id: ValueId)
    requires id in s
  {
    && s[id] !in s
    && exists d: BlockId, di: nat, o: BlockId, oi: nat ::
         && DefAt(f, id, d, di) && DefAt(f, s[id], o, oi)
         && SiteBefore(f, o, oi, d, di) && d in entered
         && KeyAt(f, ctx, s, d, di).Some? && KeyAt(f, ctx, s, o, oi) == KeyAt(f, ctx, s, d, di)
  }

  ghost predicate SubstIn(f: SsaFunction, ctx: EffectContext, s: Subst, entered: set<BlockId>) {
    && (forall id :: id in s ==> MergeIn(f, ctx, s, entered, id))
    && (forall o: BlockId, oi: nat, d: BlockId, di: nat ::
          IsSite(f, o, oi) && IsSite(f, d, di) && d in entered ==> PairMerged(f, ctx, s, o, oi, d, di))
  }

  lemma SubstBegin(f: SsaFunction, ctx: EffectContext, s: Subst, entered: set<BlockId>, b: BlockId)
    requires SubstIn(f, ctx, s, entered) && b !in entered
    ensures SubstOk(f, ctx, s, entered + {b}, b, 0)
  {
    hide CallKeyOf, Dominates;
    forall id | id in s ensures MergeAt(f, ctx, s, entered + {b}, b, 0, id) {
      assert MergeIn(f, ctx, s, entered, id);
      var d: BlockId, di: nat, o: BlockId, oi: nat :|
        && DefAt(f, id, d, di) && DefAt(f, s[id], o, oi)
        && SiteBefore(f, o, oi, d, di) && d in entered
        && KeyAt(f, ctx, s, d, di).Some? && KeyAt(f, ctx, s, o, oi) == KeyAt(f, ctx, s, d, di);
      assert Visited(entered + {b}, b, 0, d, di);
    }
  }

  lemma SubstEnd(f: SsaFunction, ctx: EffectContext, s: Subst, entered: set<BlockId>, b: BlockId)
    requires b in entered && b < |f.blocks| && SubstOk(f, ctx, s, entered, b, |f.blocks[b].stmts|)
    ensures SubstIn(f, ctx, s, entered)
  {
    hide CallKeyOf, Dominates;
    forall id | id in s ensures MergeIn(f, ctx, s, entered, id) {
      assert MergeAt(f, ctx, s, entered, b, |f.blocks[b].stmts|, id);
    }
    forall o: BlockId, oi: nat, d: BlockId, di: nat | IsSite(f, o, oi) && IsSite(f, d, di) && d in entered
      ensures PairMerged(f, ctx, s, o, oi, d, di)
    {
      assert Visited(entered, b, |f.blocks[b].stmts|, d, di);
    }
  }

  // ----- Entering a block -----

  ghost predicate WalkInv(f: SsaFunction, ctx: EffectContext, t: Tree, stack: seq<Action>, table: Table, s: Subst, entered: set<BlockId>) {
    && WellFormed(f) && DominatorTreeOf(f, t)
    && StackOk(t, stack, entered)
    && ScopesOk(f, ctx, s, stack, table)
    && SubstIn(f, ctx, s, entered)
  }

  lemma EnterFrontier(f: SsaFunction, t: Tree, stack: seq<Action>, b: BlockId, entered: set<BlockId>)
    requires WellFormed(f) && DominatorTreeOf(f, t) && StackOk(t, stack + [Enter(b)], entered)
    ensures b !in entered && Frontier(f, t, entered + {b}, b, 0)
    ensures forall a :: a in Chain(t, b) && a != b ==> a in entered && OpenBelow(stack, |stack|, a)
  {
    hide PhisOk, UsesOk, UniqueDefs, Reachable, Reached, Nested;
    var full := stack + [Enter(b)];
    assert full[|stack|] == Enter(b);
    assert AncestorsOpen(t, full, |stack|);
    assert b in t.up && Reachable(f, b);
    EdgesGiveGraph(f);
    ReachableInRange(f, b);
    forall a | a in Chain(t, b) && a != b ensures a in entered && OpenBelow(stack, |stack|, a) {
      assert OpenBelow(full, |stack|, a);
      var i :| 0 <= i < |stack| && full[i].Exit? && full[i].block == a;
      assert stack[i] == full[i];
    }
  }

  lemma EnterTable(f: SsaFunction, ctx: EffectContext, t: Tree, stack: seq<Action>, table: Table, s: Subst, b: BlockId, entered: set<BlockId>)
    requires WalkInv(f, ctx, t, stack + [Enter(b)], table, s, entered)
    ensures TableAt(f, ctx, s, table, b, 0)
  {
    hide WellFormed, CallKeyOf, Dominates, Reachable, Reached, TreeOk, SubstIn, MergeIn;
    var full := stack + [Enter(b)];
    EnterFrontier(f, t, stack, b, entered);
    assert full[|stack|] == Enter(b);
    forall k | k in table ensures EntryOk(f, ctx, s, table, b, 0, k) {
      var j: nat :| OwnedBy(f, ctx, s, full, table, j, k);
      assert Nested(t, full, j, |stack|);
      var oi: nat :| DefAt(f, table[k], full[j].block, oi) && KeyAt(f, ctx, s, full[j].block, oi) == Some(k);
      assert SiteBefore(f, full[j].block, oi, b, 0);
    }
    forall o: BlockId, oi: nat | IsSite(f, o, oi) && SiteBefore(f, o, oi, b, 0) && KeyAt(f, ctx, s, o, oi).Some?
      ensures KeyAt(f, ctx, s, o, oi).value in table
    {
      assert o in Chain(t, b);
      var i :| 0 <= i < |stack| && stack[i].Exit? && stack[i].block == o;
      assert full[i] == stack[i];
      assert ScopeFull(f, ctx, s, full, i);
      var k := KeyAt(f, ctx, s, o, oi).value;
      assert KeyBelow(full, i, k);
    }
  }

  lemma EnterStanding(f: SsaFunction, ctx: EffectContext, t: Tree, stack: seq<Action>, table: Table, s: Subst, b: BlockId, entered: set<BlockId>)
    requires WalkInv(f, ctx, t, stack + [Enter(b)], table, s, entered)
    ensures b !in entered && Standing(f, ctx, t, s, table, entered + {b}, b, 0)
  {
    hide WellFormed, DominatorTreeOf, StackOk, ScopesOk, SubstIn, Frontier;
    EnterFrontier(f, t, stack, b, entered);
    EnterTable(f, ctx, t, stack, table, s, b, entered);
    SubstBegin(f, ctx, s, entered, b);
  }

  // ----- Finishing a block: its scope and its children go on the stack -----

  ghost predicate IsChildren(t: Tree, b: BlockId, cs: seq<BlockId>) {
    && (forall c :: c in cs <==> c in t.up && c != t.root && t.up[c] == b)
    && (forall i, j :: 0 <= i < j < |cs| ==> cs[i] != cs[j])
  }

  function Enters(cs: seq<BlockId>): (r: seq<Action>)
    ensures |r| == |cs| && forall i :: 0 <= i < |cs| ==> r[i] == Enter(cs[i])
  {
    seq(|cs|, i requires 0 <= i < |cs| => Enter(cs[i]))
  }

  /** The stack after block `b`: what was below it, its scope, its children. */
  function After(stack: seq<Action>, b: BlockId, inserted: seq<CallKey>, cs: seq<BlockId>): seq<Action> {
    stack + [Exit(b, inserted)] + Enters(cs)
  }

  lemma AfterParts(stack: seq<Action>, b: BlockId, inserted: seq<CallKey>, cs: seq<BlockId>)
    ensures var a := After(stack, b, inserted, cs);
            && |a| == |stack| + 1 + |cs|
            && (forall i :: 0 <= i < |stack| ==> a[i] == stack[i])
            && a[|stack|] == Exit(b, inserted)
            && (forall i :: |stack| < i < |a| ==> a[i] == Enter(cs[i - |stack| - 1]))
  {
  }

  /** Children have not been entered and are not pending. */
  lemma ChildFresh(t: Tree, stack: seq<Action>, b: BlockId, c: BlockId, entered: set<BlockId>)
    requires StackOk(t, stack + [Enter(b)], entered)
    requires c in t.up && c != t.root && t.up[c] == b
    ensures b in t.up && c !in entered && c != b && !Pending(stack, c) && Chain(t, c) == {c} + Chain(t, b) && c !in Chain(t, b)
  {
    hide Reached, Nested;
    var full := stack + [Enter(b)];
    assert full[|stack|] == Enter(b);
    assert LinkOk(t, c);
    assert Chain(t, c) == {c} + Chain(t, b);
    if c in Chain(t, b) { ChainRank(t, b, c); }
    assert b in Chain(t, c);
    forall i | 0 <= i < |stack| && stack[i].Enter? ensures stack[i].block != c {
      assert full[i] == stack[i];
      assert AncestorsOpen(t, full, i);
    }
  }

  lemma LeaveNested(t: Tree, stack: seq<Action>, b: BlockId, inserted: seq<CallKey>, cs: seq<BlockId>, entered: set<BlockId>, i: nat, j: nat)
    requires StackOk(t, stack + [Enter(b)], entered) && IsChildren(t, b, cs)
    requires i < |stack| + 1 + |cs| && j < |stack| + 1 + |cs|
    ensures Nested(t, After(stack, b, inserted, cs), i, j)
  {
    hide Reached, AncestorsOpen;
    var full, after := stack + [Enter(b)], After(stack, b, inserted, cs);
    AfterParts(stack, b, inserted, cs);
    assert full[|stack|] == Enter(b);
    if i < j && after[i].Exit? {
      if j < |stack| {
        assert Nested(t, full, i, j);
      } else {
        if i < |stack| { assert Nested(t, full, i, |stack|); }
        if j > |stack| {
          var c := cs[j - |stack| - 1];
          assert c in cs;
          ChildFresh(t, stack, b, c, entered);
        }
      }
    }
  }

  lemma LeaveAncestors(t: Tree, stack: seq<Action>, b: BlockId, inserted: seq<CallKey>, cs: seq<BlockId>, entered: set<BlockId>, j: nat)
    requires StackOk(t, stack + [Enter(b)], entered) && IsChildren(t, b, cs)
    requires j < |stack| + 1 + |cs|
    ensures AncestorsOpen(t, After(stack, b, inserted, cs), j)
  {
    hide Reached, Nested;
    var full, after := stack + [Enter(b)], After(stack, b, inserted, cs);
    AfterParts(stack, b, inserted, cs);
    assert full[|stack|] == Enter(b);
    assert AncestorsOpen(t, full, |stack|);
    if j < |stack| {
      assert AncestorsOpen(t, full, j);
      if after[j].Enter? {
        forall a | a in Chain(t, after[j].block) && a != after[j].block ensures OpenBelow(after, j, a) {
          assert OpenBelow(full, j, a);
          var i :| 0 <= i < j && full[i].Exit? && full[i].block == a;
          assert after[i].Exit? && after[i].block == a;
        }
      }
    } else if j > |stack| {
      var c := cs[j - |stack| - 1];
      assert c in cs;
      ChildFresh(t, stack, b, c, entered);
      forall a | a in Chain(t, c) && a != c ensures OpenBelow(after, j, a) {
        if a == b {
          assert after[|stack|].Exit? && after[|stack|].block == a;
        } else {
          assert OpenBelow(full, |stack|, a);
          var i :| 0 <= i < |stack| && full[i].Exit? && full[i].block == a;
          assert after[i].Exit? && after[i].block == a;
        }
      }
    }
  }

  lemma LeaveReached(t: Tree, stack: seq<Action>, b: BlockId, inserted: seq<CallKey>, cs: seq<BlockId>, entered: set<BlockId>, c: BlockId)
    requires StackOk(t, stack + [Enter(b)], entered) && IsChildren(t, b, cs)
    ensures Reached(t, After(stack, b, inserted, cs), entered + {b}, c)
  {
    hide Nested, AncestorsOpen;
    var full, after := stack + [Enter(b)], After(stack, b, inserted, cs);
    AfterParts(stack, b, inserted, cs);
    assert Reached(t, full, entered, c);
    if c in t.up && c != t.root && t.up[c] == b {
      assert c in cs;
      var k :| 0 <= k < |cs| && cs[k] == c;
      assert after[|stack| + 1 + k] == Enter(c);
    } else if Pending(full, c) && c != b {
      var i :| 0 <= i < |full| && full[i] == Enter(c);
      assert after[i] == Enter(c);
    }
  }

  lemma LeaveKinds(t: Tree, stack: seq<Action>, b: BlockId, inserted: seq<CallKey>, cs: seq<BlockId>, entered: set<BlockId>)
    requires StackOk(t, stack + [Enter(b)], entered) && IsChildren(t, b, cs)
    ensures var after, e := After(stack, b, inserted, cs), entered + {b};
            && (forall j :: 0 <= j < |after| ==> (after[j].Exit? <==> after[j].block in e))
            && (forall i, j :: 0 <= i < j < |after| && after[i].Enter? && after[j].Enter? ==> after[i].block != after[j].block)
  {
    hide Nested, AncestorsOpen, Reached;
    var full, after := stack + [Enter(b)], After(stack, b, inserted, cs);
    AfterParts(stack, b, inserted, cs);
    assert full[|stack|] == Enter(b);
    forall c | c in cs ensures c !in entered && c != b && !Pending(stack, c) {
      ChildFresh(t, stack, b, c, entered);
    }
    forall j | 0 <= j < |after| ensures after[j].Exit? <==> after[j].block in entered + {b} {
      if j < |stack| {
        assert full[j] == stack[j];
      } else if j > |stack| {
        assert cs[j - |stack| - 1] in cs;
      }
    }
    forall i, j | 0 <= i < j < |after| && after[i].Enter? && after[j].Enter? ensures after[i].block != after[j].block {
      if j < |stack| {
        assert full[i] == stack[i] && full[j] == stack[j];
      } else {
        assert cs[j - |stack| - 1] in cs;
        if i < |stack| {
          assert stack[i] == Enter(after[i].block);
          assert Pending(stack, after[i].block);
        }
      }
    }
  }

  lemma LeaveStack(t: Tree, stack: seq<Action>, b: BlockId, inserted: seq<CallKey>, cs: seq<BlockId>, entered: set<BlockId>)
    requires StackOk(t, stack + [Enter(b)], entered) && IsChildren(t, b, cs)
    requires b in t.up && Chain(t, b) <= entered + {b}
    ensures StackOk(t, After(stack, b, inserted, cs), entered + {b})
  {
    hide Nested, AncestorsOpen, Reached, After, IsChildren;
    var after := After(stack, b, inserted, cs);
    AfterParts(stack, b, inserted, cs);
    LeaveKinds(t, stack, b, inserted, cs, entered);
    forall i, j | 0 <= i < |after| && 0 <= j < |after| ensures Nested(t, after, i, j) {
      LeaveNested(t, stack, b, inserted, cs, entered, i, j);
    }
    forall j | 0 <= j < |after| ensures AncestorsOpen(t, after, j) {
      LeaveAncestors(t, stack, b, inserted, cs, entered, j);
    }
    forall c ensures Reached(t, after, entered + {b}, c) {
      LeaveReached(t, stack, b, inserted, cs, entered, c);
    }
  }

  // ----- Finishing a block: the table -----

  /** What a block's processing leaves behind. */
  ghost predicate Processed(f: SsaFunction, ctx: EffectContext, stack: seq<Action>, table0: Table, s0: Subst, b: BlockId,
                            table: Table, s: Subst, inserted: seq<CallKey>, entered: set<BlockId>) {
    && WellFormed(f) && b < |f.blocks|
    && ScopesOk(f, ctx, s0, stack, table0)
    && TableAt(f, ctx, s, table, b, |f.blocks[b].stmts|)
    && Grown(f, b, table0, table, inserted)
    && KeysSame(f, ctx, s0, s, entered)
    && (forall i :: 0 <= i < |stack| && stack[i].Exit? ==> stack[i].block in entered)
  }

  lemma LeaveOwner(f: SsaFunction, ctx: EffectContext, stack: seq<Action>, table0: Table, s0: Subst, b: BlockId,
                   table: Table, s: Subst, inserted: seq<CallKey>, cs: seq<BlockId>, entered: set<BlockId>, k: CallKey)
    requires Processed(f, ctx, stack, table0, s0, b, table, s, inserted, entered) && k in table
    ensures exists j: nat :: OwnedBy(f, ctx, s, After(stack, b, inserted, cs), table, j, k)
  {
    hide WellFormed, CallKeyOf, Dominates, ScopeFull, PairMerged;
    var after := After(stack, b, inserted, cs);
    AfterParts(stack, b, inserted, cs);
    assert EntryOk(f, ctx, s, table, b, |f.blocks[b].stmts|, k);
    var o: BlockId, oi: nat :| DefAt(f, table[k], o, oi) && KeyAt(f, ctx, s, o, oi) == Some(k);
    if k in table0 {
      var j: nat :| OwnedBy(f, ctx, s0, stack, table0, j, k);
      var ji: nat :| DefAt(f, table0[k], stack[j].block, ji);
      SameSite(f, table[k], o, oi, stack[j].block, ji);
      assert OwnedBy(f, ctx, s, after, table, j, k);
    } else {
      var i: nat :| DefAt(f, table[k], b, i);
      SameSite(f, table[k], o, oi, b, i);
      assert OwnedBy(f, ctx, s, after, table, |stack|, k);
    }
  }

  lemma LeaveScope(f: SsaFunction, ctx: EffectContext, stack: seq<Action>, table0: Table, s0: Subst, b: BlockId,
                   table: Table, s: Subst, inserted: seq<CallKey>, cs: seq<BlockId>, entered: set<BlockId>, j: nat)
    requires Processed(f, ctx, stack, table0, s0, b, table, s, inserted, entered)
    requires j < |After(stack, b, inserted, cs)|
    ensures ScopeFull(f, ctx, s, After(stack, b, inserted, cs), j)
  {
    hide WellFormed, CallKeyOf, Dominates;
    var after := After(stack, b, inserted, cs);
    AfterParts(stack, b, inserted, cs);
    if j < |stack| && stack[j].Exit? {
      assert ScopeFull(f, ctx, s0, stack, j);
      forall i: nat | IsSite(f, stack[j].block, i) && KeyAt(f, ctx, s, stack[j].block, i).Some?
        ensures KeyBelow(after, j, KeyAt(f, ctx, s, stack[j].block, i).value)
      {
        var k := KeyAt(f, ctx, s, stack[j].block, i).value;
        assert KeyBelow(stack, j, k);
        var i' :| 0 <= i' <= j && stack[i'].Exit? && k in stack[i'].inserted;
        assert after[i'] == stack[i'];
      }
    } else if j == |stack| {
      forall i: nat | IsSite(f, b, i) && KeyAt(f, ctx, s, b, i).Some? ensures KeyBelow(after, j, KeyAt(f, ctx, s, b, i).value) {
        var k := KeyAt(f, ctx, s, b, i).value;
        assert SiteBefore(f, b, i, b, |f.blocks[b].stmts|);
        assert k in table;
        if k in table0 {
          var j': nat :| OwnedBy(f, ctx, s0, stack, table0, j', k);
          assert after[j'] == stack[j'];
        } else {
          assert after[|stack|].Exit? && k in after[|stack|].inserted;
        }
      }
    }
  }

  lemma LeaveScopes(f: SsaFunction, ctx: EffectContext, stack: seq<Action>, table0: Table, s0: Subst, b: BlockId,
                    table: Table, s: Subst, inserted: seq<CallKey>, cs: seq<BlockId>, entered: set<BlockId>)
    requires Processed(f, ctx, stack, table0, s0, b, table, s, inserted, entered)
    ensures ScopesOk(f, ctx, s, After(stack, b, inserted, cs), table)
  {
    hide WellFormed, ScopeFull, TableAt, KeysSame, After, OwnedBy;
    var after := After(stack, b, inserted, cs);
    AfterParts(stack, b, inserted, cs);
    forall k | k in table ensures exists j: nat :: OwnedBy(f, ctx, s, after, table, j, k) {
      LeaveOwner(f, ctx, stack, table0, s0, b, table, s, inserted, cs, entered, k);
    }
    forall j | 0 <= j < |after| ensures ScopeFull(f, ctx, s, after, j) {
      LeaveScope(f, ctx, stack, table0, s0, b, table, s, inserted, cs, entered, j);
    }
  }

  /** The part of the stack below a block to be entered owns the whole table. */
  lemma ScopesBelow(f: SsaFunction, ctx: EffectContext, s: Subst, stack: seq<Action>, b: BlockId, table: Table)
    requires ScopesOk(f, ctx, s, stack + [Enter(b)], table)
    ensures ScopesOk(f, ctx, s, stack, table)
  {
    hide CallKeyOf;
    var full := stack + [Enter(b)];
    assert forall i :: 0 <= i < |stack| ==> full[i] == stack[i];
    forall k | k in table ensures exists j: nat :: OwnedBy(f, ctx, s, stack, table, j, k) {
      var j: nat :| OwnedBy(f, ctx, s, full, table, j, k);
      assert OwnedBy(f, ctx, s, stack, table, j, k);
    }
    forall j | 0 <= j < |stack| ensures ScopeFull(f, ctx, s, stack, j) {
      assert ScopeFull(f, ctx, s, full, j);
      if stack[j].Exit? {
        forall i: nat | IsSite(f, stack[j].block, i) && KeyAt(f, ctx, s, stack[j].block, i).Some?
          ensures KeyBelow(stack, j, KeyAt(f, ctx, s, stack[j].block, i).value)
        {
          assert KeyBelow(full, j, KeyAt(f, ctx, s, stack[j].block, i).value);
        }
      }
    }
  }

  lemma LeaveBlock(f: SsaFunction, ctx: EffectContext, t: Tree, stack: seq<Action>, table0: Table, s0: Subst, b: BlockId,
                   table: Table, s: Subst, inserted: seq<CallKey>, cs: seq<BlockId>, entered: set<BlockId>)
    requires WalkInv(f, ctx, t, stack + [Enter(b)], table0, s0, entered) && IsChildren(t, b, cs) && b !in entered
    requires b < |f.blocks| && Standing(f, ctx, t, s, table, entered + {b}, b, |f.blocks[b].stmts|)
    requires Grown(f, b, table0, table, inserted) && KeysSame(f, ctx, s0, s, entered)
    ensures WalkInv(f, ctx, t, After(stack, b, inserted, cs), table, s, entered + {b})
  {
    hide WellFormed, DominatorTreeOf, ScopesOk, SubstIn, TableAt, SubstOk, Grown, KeysSame, IsChildren, After, Nested, AncestorsOpen, Reached;
    var full := stack + [Enter(b)];
    assert forall i :: 0 <= i < |stack| ==> full[i] == stack[i];
    LeaveStack(t, stack, b, inserted, cs, entered);
    ScopesBelow(f, ctx, s0, stack, b, table0);
    assert Processed(f, ctx, stack, table0, s0, b, table, s, inserted, entered);
    LeaveScopes(f, ctx, stack, table0, s0, b, table, s, inserted, cs, entered);
    SubstEnd(f, ctx, s, entered + {b}, b);
  }

  // ----- Leaving a scope -----

  lemma PopStack(t: Tree, stack: seq<Action>, u: BlockId, keys: seq<CallKey>, entered: set<BlockId>)
    requires StackOk(t, stack + [Exit(u, keys)], entered)
    ensures StackOk(t, stack, entered)
  {
    var full := stack + [Exit(u, keys)];
    assert forall i :: 0 <= i < |stack| ==> full[i] == stack[i];
    forall i, j | 0 <= i < |stack| && 0 <= j < |stack| ensures Nested(t, stack, i, j) {
      assert Nested(t, full, i, j);
    }
    forall j | 0 <= j < |stack| ensures AncestorsOpen(t, stack, j) {
      assert AncestorsOpen(t, full, j);
      if stack[j].Enter? {
        forall a | a in Chain(t, stack[j].block) && a != stack[j].block ensures OpenBelow(stack, j, a) {
          assert OpenBelow(full, j, a);
        }
      }
    }
    forall c ensures Reached(t, stack, entered, c) {
      assert Reached(t, full, entered, c);
    }
  }

  ghost function Without(table: Table, keys: seq<CallKey>): Table {
    map k | k in table && k !in keys :: table[k]
  }

  lemma PopScopes(f: SsaFunction, ctx: EffectContext, s: Subst, stack: seq<Action>, u: BlockId, keys: seq<CallKey>, table: Table)
    requires ScopesOk(f, ctx, s, stack + [Exit(u, keys)], table)
    ensures ScopesOk(f, ctx, s, stack, Without(table, keys))
  {
    hide CallKeyOf;
    var full, table' := stack + [Exit(u, keys)], Without(table, keys);
    assert full[|stack|] == Exit(u, keys);
    assert forall i :: 0 <= i < |stack| ==> full[i] == stack[i];
    forall k | k in table' ensures exists j: nat :: OwnedBy(f, ctx, s, stack, table', j, k) {
      var j: nat :| OwnedBy(f, ctx, s, full, table, j, k);
      assert OwnedBy(f, ctx, s, stack, table', j, k);
    }
    forall j | 0 <= j < |stack| ensures ScopeFull(f, ctx, s, stack, j) {
      assert ScopeFull(f, ctx, s, full, j);
      if stack[j].Exit? {
        forall i: nat | IsSite(f, stack[j].block, i) && KeyAt(f, ctx, s, stack[j].block, i).Some?
          ensures KeyBelow(stack, j, KeyAt(f, ctx, s, stack[j].block, i).value)
        {
          assert KeyBelow(full, j, KeyAt(f, ctx, s, stack[j].block, i).value);
        }
      }
    }
  }

  method RemoveKeys(table0: Table, keys: seq<CallKey>) returns (table: Table)
    ensures table == Without(table0, keys)
  {
    table := table0;
    for i := 0 to |keys|
      invariant table == Without(table0, keys[..i])
    {
      assert keys[..i + 1] == keys[..i] + [keys[i]];
      table := table - {keys[i]};
    }
    assert keys[..|keys|] == keys;
  }

  // ----- The end of the walk -----

  lemma {:induction false} AllEntered(t: Tree, entered: set<BlockId>, c: BlockId)
    requires StackOk(t, [], entered) && c in t.up
    ensures c in entered
    decreases Rank(t, c)
  {
    assert Reached(t, [], entered, c);
    assert LinkOk(t, c);
    if c != t.root {
      AllEntered(t, entered, t.up[c]);
    }
  }

  lemma WalkDone(f: SsaFunction, ctx: EffectContext, t: Tree, table: Table, s: Subst, entered: set<BlockId>)
    requires WalkInv(f, ctx, t, [], table, s, entered)
    ensures MergesOk(f, ctx, s) && NoneMissed(f, ctx, s)
  {
    hide WellFormed, CallKeyOf, Dominates, Reachable, StackOk, ScopesOk, TreeOk, SameCall;
    forall id | id in s ensures MergeOk(f, ctx, s, id) {
      assert MergeIn(f, ctx, s, entered, id);
      var d: BlockId, di: nat, o: BlockId, oi: nat :|
        && DefAt(f, id, d, di) && DefAt(f, s[id], o, oi)
        && SiteBefore(f, o, oi, d, di) && d in entered
        && KeyAt(f, ctx, s, d, di).Some? && KeyAt(f, ctx, s, o, oi) == KeyAt(f, ctx, s, d, di);
      EqualKeysCongruent(f, ctx, s, d, di, o, oi);
    }
    forall o: BlockId, oi: nat, d: BlockId, di: nat | IsSite(f, o, oi) && IsSite(f, d, di) && Reachable(f, d)
      ensures PairMerged(f, ctx, s, o, oi, d, di)
    {
      AllEntered(t, entered, d);
    }
  }

  lemma WalkStart(f: SsaFunction, ctx: EffectContext, t: Tree)
    requires WellFormed(f) && DominatorTreeOf(f, t)
    ensures WalkInv(f, ctx, t, [Enter(t.root)], map[], map[], {})
  {
    hide WellFormed, Reachable, Dominates, CallKeyOf;
    var stack := [Enter(t.root)];
    assert stack[0] == Enter(t.root);
    forall c ensures Reached(t, stack, {}, c) {
    }
  }

  // ----- The dominator tree's children -----

  method ChildrenOf(f: SsaFunction, idoms: map<BlockId, BlockId>, ghost t: Tree) returns (children: map<BlockId, seq<BlockId>>)
    requires DominatorTreeOf(f, t) && t.up == idoms && GraphOk(f)
    ensures forall u :: u in children ==> IsChildren(t, u, children[u])
    ensures forall u :: u !in children ==> IsChildren(t, u, [])
  {
    children := map[];
    for b := 0 to |f.blocks|
      invariant forall u :: u in children ==> ChildrenBelow(t, u, children[u], b)
      invariant forall u :: u !in children ==> ChildrenBelow(t, u, [], b)
    {
      ghost var before := children;
      if b in idoms && idoms[b] != b {
        var u := idoms[b];
        children := children[u := (if u in children then children[u] else []) + [b]];
      }
      forall u ensures ChildrenBelow(t, u, if u in children then children[u] else [], b + 1) {
        ChildrenNext(t, u, if u in before then before[u] else [], b);
      }
    }
    forall c | c in t.up ensures c < |f.blocks| {
      ReachableInRange(f, c);
    }
  }

  ghost predicate ChildrenBelow(t: Tree, b: BlockId, cs: seq<BlockId>, n: nat) {
    && (forall c :: c in cs <==> c < n && c in t.up && c != t.root && t.up[c] == b)
    && (forall i, j :: 0 <= i < j < |cs| ==> cs[i] != cs[j])
  }

  lemma ChildrenNext(t: Tree, u: BlockId, cs: seq<BlockId>, b: BlockId)
    requires TreeOk(t) && ChildrenBelow(t, u, cs, b)
    ensures ChildrenBelow(t, u, if b in t.up && t.up[b] != b && t.up[b] == u then cs + [b] else cs, b + 1)
  {
    assert b in t.up ==> LinkOk(t, b);
  }

  lemma ReversedChildren(t: Tree, b: BlockId, cs: seq<BlockId>)
    requires IsChildren(t, b, cs)
    ensures IsChildren(t, b, Reverse(cs))
  {
    var r := Reverse(cs);
    forall c ensures c in r <==> c in cs {
      if c in cs {
        var k :| 0 <= k < |cs| && cs[k] == c;
        assert r[|cs| - 1 - k] == c;
      }
    }
  }

  // ----- The pass -----

  lemma GraphOfWellFormed(f: SsaFunction)
    requires WellFormed(f)
    ensures GraphOk(f)
  {
    EdgesGiveGraph(f);
  }

  lemma PopWalk(f: SsaFunction, ctx: EffectContext, t: Tree, stack: seq<Action>, table: Table, s: Subst, entered: set<BlockId>,
                u: BlockId, keys: seq<CallKey>)
    requires WalkInv(f, ctx, t, stack + [Exit(u, keys)], table, s, entered)
    ensures WalkInv(f, ctx, t, stack, Without(table, keys), s, entered)
  {
    hide WellFormed, DominatorTreeOf, StackOk, ScopesOk, SubstIn, Without;
    PopStack(t, stack, u, keys, entered);
    PopScopes(f, ctx, s, stack, u, keys, table);
  }

  lemma EnterWalk(f: SsaFunction, ctx: EffectContext, t: Tree, stack: seq<Action>, table: Table, s: Subst, entered: set<BlockId>, b: BlockId)
    requires WalkInv(f, ctx, t, stack + [Enter(b)], table, s, entered)
    ensures b !in entered && b in t.up && Standing(f, ctx, t, s, table, entered + {b}, b, 0)
  {
    EnterStanding(f, ctx, t, stack, table, s, b, entered);
  }

  method NumberCalls(f: SsaFunction, ctx: EffectContext) returns (s: Subst)
    requires WellFormed(f)
    ensures MergesOk(f, ctx, s) && NoneMissed(f, ctx, s)
    ensures DuplicatesMerged(f, ctx, s) && RecomputationsMerged(f, ctx, s)
  {
    hide WellFormed, GraphOk, DominatorTreeOf, Reachable, WalkInv, IsChildren, Grown, KeysSame, Standing, After, MergesOk, NoneMissed, DuplicatesMerged, RecomputationsMerged;
    GraphOfWellFormed(f);
    var reachable := ComputeReachable(f);
    ghost var number;
    var idoms;
    idoms, number := ComputeIdoms(f, reachable);
    ghost var t := Tree(f.entry, number, idoms);
    var children := ChildrenOf(f, idoms, t);
    var table: Table := map[];
    s := map[];
    var stack := [Enter(f.entry)];
    ghost var entered: set<BlockId> := {};
    WalkStart(f, ctx, t);
    while stack != []
      invariant WalkInv(f, ctx, t, stack, table, s, entered)
      decreases idoms.Keys - entered, |stack|
    {
      var top := |stack| - 1;
      var action := stack[top];
      assert stack == stack[..top] + [action];
      stack := stack[..top];
      match action {
        case Exit(u, keys) =>
          PopWalk(f, ctx, t, stack, table, s, entered, u, keys);
          table := RemoveKeys(table, keys);
        case Enter(b) =>
          EnterWalk(f, ctx, t, stack, table, s, entered, b);
          var table', s', inserted := NumberBlock(f, ctx, b, table, s, t, entered + {b});
          var cs := Reverse(if b in children then children[b] else []);
          ReversedChildren(t, b, if b in children then children[b] else []);
          assert entered + {b} - {b} == entered;
          LeaveBlock(f, ctx, t, stack, table, s, b, table', s', inserted, cs, entered);
          assert idoms.Keys - (entered + {b}) < idoms.Keys - entered by { assert b in idoms.Keys - entered; }
          table, s := table', s';
          entered := entered + {b};
          stack := After(stack, b, inserted, cs);
      }
    }
    WalkDone(f, ctx, t, table, s, entered);
    AllDuplicatesMerged(f, ctx, s);
    AllRecomputationsMerged(f, ctx, s);
  }
}
