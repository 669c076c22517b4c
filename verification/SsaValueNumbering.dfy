/** Value numbering of pure calls by a depth-first walk of the dominator tree with
    a scoped table: every merge it records is legitimate, and it misses none. */
module SsaValueNumbering {
  import opened Options
  import opened SsaModel
  import opened DominatorTree
  import opened SsaIdoms
  import opened SsaVerify
  import opened SsaSemantics
  import opened SsaCse

  // ----- Keys -----

  datatype CallKey = CallKey(callee: Callee, args: seq<ValueKey>)

  /** Operand identity, with merged definitions replaced by what they merged into.
      Only scalar literals have a key. */
  function KeyOf(s: Subst, v: SsaValue): Option<ValueKey> {
    match v
    case Const(l) => if l.Payload? then None else Some(LiteralKey(l))
    case Argument(i) => Some(ArgumentKey(i))
    case Def(x) => Some(DefKey(if x in s then s[x] else x))
  }

  function KeysOf(s: Subst, vs: seq<SsaValue>): (r: Option<seq<ValueKey>>)
    ensures r.Some? ==> |r.value| == |vs| && forall k :: 0 <= k < |vs| ==> KeyOf(s, vs[k]) == Some(r.value[k])
  {
    if vs == [] then Some([]) else
    match KeyOf(s, vs[0])
    case None => None
    case Some(k) =>
      match KeysOf(s, vs[1..])
      case None => None
      case Some(rest) => Some([k] + rest)
  }

  function CallKeyOf(ctx: EffectContext, s: Subst, op: SsaOp): Option<CallKey> {
    if !op.Call? || !OpEffects(op, ctx).IsFoldable() then None
    else
      match KeysOf(s, op.args)
      case None => None
      case Some(keys) => Some(CallKey(op.callee, keys))
  }

  predicate IsSite(f: SsaFunction, b: BlockId, i: nat) {
    b < |f.blocks| && i < |f.blocks[b].stmts|
  }

  function KeyAt(f: SsaFunction, ctx: EffectContext, s: Subst, b: BlockId, i: nat): Option<CallKey>
    requires IsSite(f, b, i)
  {
    CallKeyOf(ctx, s, f.blocks[b].stmts[i].op)
  }

  lemma EqualKeysCongruent(f: SsaFunction, ctx: EffectContext, s: Subst, d: BlockId, di: nat, o: BlockId, oi: nat)
    requires IsSite(f, d, di) && IsSite(f, o, oi)
    requires KeyAt(f, ctx, s, d, di).Some? && KeyAt(f, ctx, s, o, oi) == KeyAt(f, ctx, s, d, di)
    ensures SameCall(f, ctx, s, d, di, o, oi)
  {
    hide OpEffects, PureCallee;
    var x, y := f.blocks[d].stmts[di].op, f.blocks[o].stmts[oi].op;
    FoldableExact(x, ctx);
    FoldableExact(y, ctx);
    var keys := KeysOf(s, x.args).value;
    forall k | 0 <= k < |x.args| ensures Congruent(s, x.args[k], y.args[k]) {
      assert KeyFits(s, x.args[k], keys[k]) && KeyFits(s, y.args[k], keys[k]);
    }
  }

  lemma {:induction false} KeysStable(s: Subst, vs: seq<SsaValue>, z: ValueId, v: ValueId)
    requires Def(z) !in vs
    ensures KeysOf(s[z := v], vs) == KeysOf(s, vs)
  {
    if vs != [] {
      assert vs[0] in vs;
      KeysStable(s, vs[1..], z, v);
    }
  }

  /** Merging a definition that a call does not read leaves the call's key alone. */
  lemma KeyStable(f: SsaFunction, ctx: EffectContext, s: Subst, b: BlockId, i: nat, z: ValueId, v: ValueId)
    requires IsSite(f, b, i) && Def(z) !in Operands(f.blocks[b].stmts[i].op)
    ensures KeyAt(f, ctx, s[z := v], b, i) == KeyAt(f, ctx, s, b, i)
  {
    hide OpEffects;
    var op := f.blocks[b].stmts[i].op;
    if op.Call? { KeysStable(s, op.args, z, v); }
  }

  // ----- The state of the walk -----

  /** The sites processed when the walk stands before statement `i` of block `b`. */
  ghost predicate Visited(entered: set<BlockId>, b: BlockId, i: nat, d: BlockId, di: nat) {
    if d == b then di < i else d in entered
  }

  /** The walk's frame: `b` and all its ancestors have been entered. */
  ghost predicate Frontier(f: SsaFunction, t: Tree, entered: set<BlockId>, b: BlockId, i: nat) {
    && DominatorTreeOf(f, t)
    && b in entered && b < |f.blocks| && i <= |f.blocks[b].stmts|
    && (forall c :: c in entered ==> c in t.up && Chain(t, c) <= entered)
    && (forall c :: c in entered && c != b ==> b !in Chain(t, c))
  }

  /** One recorded merge: the same key at an earlier site. */
  ghost predicate MergeAt(f: SsaFunction, ctx: EffectContext, s: Subst, entered: set<BlockId>, b: BlockId, i: nat, id: ValueId)
    requires id in s
  {
    && s[id] !in s
    && exists d: BlockId, di: nat, o: BlockId, oi: nat ::
         && DefAt(f, id, d, di) && DefAt(f, s[id], o, oi)
         && SiteBefore(f, o, oi, d, di) && Visited(entered, b, i, d, di)
         && KeyAt(f, ctx, s, d, di).Some? && KeyAt(f, ctx, s, o, oi) == KeyAt(f, ctx, s, d, di)
  }

  /** Of two processed sites with one key, the later is merged. */
  ghost predicate PairMerged(f: SsaFunction, ctx: EffectContext, s: Subst, o: BlockId, oi: nat, d: BlockId, di: nat)
    requires IsSite(f, o, oi) && IsSite(f, d, di)
  {
    (SiteBefore(f, o, oi, d, di) && KeyAt(f, ctx, s, d, di).Some? && KeyAt(f, ctx, s, o, oi) == KeyAt(f, ctx, s, d, di)) ==>
      f.blocks[d].stmts[di].id in s
  }

  ghost predicate SubstOk(f: SsaFunction, ctx: EffectContext, s: Subst, entered: set<BlockId>, b: BlockId, i: nat) {
    && (forall id :: id in s ==> MergeAt(f, ctx, s, entered, b, i, id))
    && (forall o: BlockId, oi: nat, d: BlockId, di: nat ::
          IsSite(f, o, oi) && IsSite(f, d, di) && Visited(entered, b, i, d, di) ==> PairMerged(f, ctx, s, o, oi, d, di))
  }

  type Table = map<CallKey, ValueId>

  /** An entry names an unmerged call before `(b, i)` with that key. */
  ghost predicate EntryOk(f: SsaFunction, ctx: EffectContext, s: Subst, table: Table, b: BlockId, i: nat, k: CallKey)
    requires k in table
  {
    && table[k] !in s
    && exists o: BlockId, oi: nat ::
         DefAt(f, table[k], o, oi) && SiteBefore(f, o, oi, b, i) && KeyAt(f, ctx, s, o, oi) == Some(k)
  }

  /** The table holds exactly the keys of the calls before `(b, i)`. */
  ghost predicate TableAt(f: SsaFunction, ctx: EffectContext, s: Subst, table: Table, b: BlockId, i: nat) {
    && (forall k :: k in table ==> EntryOk(f, ctx, s, table, b, i, k))
    && (forall o: BlockId, oi: nat :: IsSite(f, o, oi) && SiteBefore(f, o, oi, b, i) && KeyAt(f, ctx, s, o, oi).Some? ==>
          KeyAt(f, ctx, s, o, oi).value in table)
  }

  ghost predicate Standing(f: SsaFunction, ctx: EffectContext, t: Tree, s: Subst, table: Table, entered: set<BlockId>, b: BlockId, i: nat) {
    && WellFormed(f)
    && Frontier(f, t, entered, b, i)
    && SubstOk(f, ctx, s, entered, b, i)
    && TableAt(f, ctx, s, table, b, i)
  }

  // ----- Facts about sites -----

  lemma EarlierVisited(f: SsaFunction, t: Tree, entered: set<BlockId>, b: BlockId, i: nat, o: BlockId, oi: nat, d: BlockId, di: nat)
    requires Frontier(f, t, entered, b, i) && SiteBefore(f, o, oi, d, di)
    requires Visited(entered, b, i, d, di) || (d == b && di == i)
    ensures Visited(entered, b, i, o, oi) && Reachable(f, d)
  {
    hide TreeOk, Dominates, Reachable;
    assert d in t.up;
    if o != d {
      assert o in Chain(t, d);
    }
  }

  /** The result of the statement at hand is not read by processed statements or by itself. */
  lemma NotRead(f: SsaFunction, t: Tree, entered: set<BlockId>, b: BlockId, i: nat, d: BlockId, di: nat)
    requires WellFormed(f) && Frontier(f, t, entered, b, i) && IsSite(f, b, i) && IsSite(f, d, di)
    requires Visited(entered, b, i, d, di) || (d == b && di == i)
    ensures Def(f.blocks[b].stmts[i].id) !in Operands(f.blocks[d].stmts[di].op)
  {
    hide Dominates, Reachable, TreeOk, StructureOk, EdgesOk, PhisOk;
    var z, op := f.blocks[b].stmts[i].id, f.blocks[d].stmts[di].op;
    assert d in t.up;
    if Def(z) in Operands(op) {
      var k :| 0 <= k < |Operands(op)| && Operands(op)[k] == Def(z);
      OperandUse(f, d, di, k);
      var c: BlockId, j: nat :| DefAt(f, z, c, j) && SiteBefore(f, c, j, d, di);
      assert DefAt(f, z, b, i);
      SameSite(f, z, b, i, c, j);
      EarlierVisited(f, t, entered, b, i, b, i, d, di);
    }
  }

  lemma KeyKept(f: SsaFunction, ctx: EffectContext, t: Tree, s: Subst, entered: set<BlockId>, b: BlockId, i: nat, d: BlockId, di: nat, v: ValueId)
    requires WellFormed(f) && Frontier(f, t, entered, b, i) && IsSite(f, b, i) && IsSite(f, d, di)
    requires Visited(entered, b, i, d, di) || (d == b && di == i)
    ensures KeyAt(f, ctx, s[f.blocks[b].stmts[i].id := v], d, di) == KeyAt(f, ctx, s, d, di)
  {
    hide WellFormed, Frontier, CallKeyOf;
    NotRead(f, t, entered, b, i, d, di);
    KeyStable(f, ctx, s, d, di, f.blocks[b].stmts[i].id, v);
  }

  lemma FrontierNext(f: SsaFunction, t: Tree, entered: set<BlockId>, b: BlockId, i: nat)
    requires Frontier(f, t, entered, b, i) && IsSite(f, b, i)
    ensures Frontier(f, t, entered, b, i + 1)
  {
  }

  /** The id at hand is neither merged nor a merge target nor in the table. */
  lemma FreshId(f: SsaFunction, ctx: EffectContext, t: Tree, s: Subst, entered: set<BlockId>, b: BlockId, i: nat, id: ValueId)
    requires WellFormed(f) && Frontier(f, t, entered, b, i) && IsSite(f, b, i) && id in s && MergeAt(f, ctx, s, entered, b, i, id)
    ensures id != f.blocks[b].stmts[i].id && s[id] != f.blocks[b].stmts[i].id
  {
    hide WellFormed, CallKeyOf, Frontier;
    var z := f.blocks[b].stmts[i].id;
    var d: BlockId, di: nat, o: BlockId, oi: nat :|
      DefAt(f, id, d, di) && DefAt(f, s[id], o, oi) && SiteBefore(f, o, oi, d, di) && Visited(entered, b, i, d, di);
    assert DefAt(f, z, b, i);
    EarlierVisited(f, t, entered, b, i, o, oi, d, di);
    if id == z { SameSite(f, z, b, i, d, di); }
    if s[id] == z { SameSite(f, z, b, i, o, oi); }
  }

  lemma FreshEntry(f: SsaFunction, ctx: EffectContext, s: Subst, table: Table, b: BlockId, i: nat, k: CallKey)
    requires WellFormed(f) && IsSite(f, b, i) && k in table && EntryOk(f, ctx, s, table, b, i, k)
    ensures table[k] != f.blocks[b].stmts[i].id
  {
    hide WellFormed, CallKeyOf;
    var z := f.blocks[b].stmts[i].id;
    var o: BlockId, oi: nat :| DefAt(f, table[k], o, oi) && SiteBefore(f, o, oi, b, i);
    assert DefAt(f, z, b, i);
    if table[k] == z { SameSite(f, z, b, i, o, oi); }
  }

  // ----- One statement -----

  /** A statement whose key no earlier call has leaves the record of merges right. */
  lemma SubstAdvance(f: SsaFunction, ctx: EffectContext, s: Subst, entered: set<BlockId>, b: BlockId, i: nat)
    requires SubstOk(f, ctx, s, entered, b, i) && IsSite(f, b, i)
    requires forall o: BlockId, oi: nat :: IsSite(f, o, oi) && SiteBefore(f, o, oi, b, i) && KeyAt(f, ctx, s, b, i).Some? ==>
               KeyAt(f, ctx, s, o, oi) != KeyAt(f, ctx, s, b, i)
    ensures SubstOk(f, ctx, s, entered, b, i + 1)
  {
    hide CallKeyOf, Dominates;
    forall id | id in s ensures MergeAt(f, ctx, s, entered, b, i + 1, id) {
      assert MergeAt(f, ctx, s, entered, b, i, id);
    }
    forall o: BlockId, oi: nat, d: BlockId, di: nat | IsSite(f, o, oi) && IsSite(f, d, di) && Visited(entered, b, i + 1, d, di)
      ensures PairMerged(f, ctx, s, o, oi, d, di)
    {
      if !(d == b && di == i) { assert PairMerged(f, ctx, s, o, oi, d, di); }
    }
  }

  /** The statement has no key: nothing changes. */
  lemma StepPlain(f: SsaFunction, ctx: EffectContext, t: Tree, s: Subst, table: Table, entered: set<BlockId>, b: BlockId, i: nat)
    requires Standing(f, ctx, t, s, table, entered, b, i) && IsSite(f, b, i) && KeyAt(f, ctx, s, b, i).None?
    ensures Standing(f, ctx, t, s, table, entered, b, i + 1)
  {
    hide WellFormed, Frontier, CallKeyOf, Dominates, SubstOk;
    FrontierNext(f, t, entered, b, i);
    SubstAdvance(f, ctx, s, entered, b, i);
    forall k | k in table ensures EntryOk(f, ctx, s, table, b, i + 1, k) {
      assert EntryOk(f, ctx, s, table, b, i, k);
    }
  }

  /** The first call with its key enters the table. */
  lemma StepInsert(f: SsaFunction, ctx: EffectContext, t: Tree, s: Subst, table: Table, entered: set<BlockId>, b: BlockId, i: nat, k: CallKey)
    requires Standing(f, ctx, t, s, table, entered, b, i) && IsSite(f, b, i) && KeyAt(f, ctx, s, b, i) == Some(k) && k !in table
    ensures Standing(f, ctx, t, s, table[k := f.blocks[b].stmts[i].id], entered, b, i + 1)
  {
    hide WellFormed, Frontier, CallKeyOf, Dominates, SubstOk;
    var z := f.blocks[b].stmts[i].id;
    var table' := table[k := z];
    FrontierNext(f, t, entered, b, i);
    SubstAdvance(f, ctx, s, entered, b, i);
    UnmergedId(f, ctx, t, s, entered, b, i);
    assert DefAt(f, z, b, i);
    forall h | h in table' ensures EntryOk(f, ctx, s, table', b, i + 1, h) {
      if h == k {
        assert SiteBefore(f, b, i, b, i + 1);
      } else {
        assert EntryOk(f, ctx, s, table, b, i, h);
      }
    }
  }

  lemma UnmergedId(f: SsaFunction, ctx: EffectContext, t: Tree, s: Subst, entered: set<BlockId>, b: BlockId, i: nat)
    requires WellFormed(f) && Frontier(f, t, entered, b, i) && IsSite(f, b, i) && SubstOk(f, ctx, s, entered, b, i)
    ensures f.blocks[b].stmts[i].id !in s
  {
    hide WellFormed, Frontier, MergeAt, PairMerged;
    if f.blocks[b].stmts[i].id in s {
      FreshId(f, ctx, t, s, entered, b, i, f.blocks[b].stmts[i].id);
    }
  }

  /** A later call with a known key is merged: the record of merges stays right. */
  lemma StepMergeSubst(f: SsaFunction, ctx: EffectContext, t: Tree, s: Subst, table: Table, entered: set<BlockId>, b: BlockId, i: nat, k: CallKey)
    requires Standing(f, ctx, t, s, table, entered, b, i) && IsSite(f, b, i) && KeyAt(f, ctx, s, b, i) == Some(k) && k in table
    ensures SubstOk(f, ctx, s[f.blocks[b].stmts[i].id := table[k]], entered, b, i + 1)
  {
    hide WellFormed, Frontier, CallKeyOf, Dominates;
    var z, v := f.blocks[b].stmts[i].id, table[k];
    var s' := s[z := v];
    assert DefAt(f, z, b, i);
    assert EntryOk(f, ctx, s, table, b, i, k);
    FreshEntry(f, ctx, s, table, b, i, k);
    var o0: BlockId, oi0: nat :| DefAt(f, v, o0, oi0) && SiteBefore(f, o0, oi0, b, i) && KeyAt(f, ctx, s, o0, oi0) == Some(k);
    EarlierVisited(f, t, entered, b, i, o0, oi0, b, i);
    KeyKept(f, ctx, t, s, entered, b, i, o0, oi0, v);
    KeyKept(f, ctx, t, s, entered, b, i, b, i, v);
    forall id | id in s' ensures MergeAt(f, ctx, s', entered, b, i + 1, id) {
      if id == z {
        assert Visited(entered, b, i + 1, b, i);
      } else {
        FreshId(f, ctx, t, s, entered, b, i, id);
        MergeKept(f, ctx, t, s, entered, b, i, id, v);
      }
    }
    forall o: BlockId, oi: nat, d: BlockId, di: nat | IsSite(f, o, oi) && IsSite(f, d, di) && Visited(entered, b, i + 1, d, di)
      ensures PairMerged(f, ctx, s', o, oi, d, di)
    {
      if !(d == b && di == i) && SiteBefore(f, o, oi, d, di) {
        assert PairMerged(f, ctx, s, o, oi, d, di);
        EarlierVisited(f, t, entered, b, i, o, oi, d, di);
        KeyKept(f, ctx, t, s, entered, b, i, o, oi, v);
        KeyKept(f, ctx, t, s, entered, b, i, d, di, v);
      }
    }
  }

  lemma MergeKept(f: SsaFunction, ctx: EffectContext, t: Tree, s: Subst, entered: set<BlockId>, b: BlockId, i: nat, id: ValueId, v: ValueId)
    requires WellFormed(f) && Frontier(f, t, entered, b, i) && IsSite(f, b, i) && id in s && MergeAt(f, ctx, s, entered, b, i, id)
    requires id != f.blocks[b].stmts[i].id && s[id] != f.blocks[b].stmts[i].id
    ensures MergeAt(f, ctx, s[f.blocks[b].stmts[i].id := v], entered, b, i + 1, id)
  {
    hide WellFormed, Frontier, CallKeyOf, Dominates;
    var d: BlockId, di: nat, o: BlockId, oi: nat :|
      && DefAt(f, id, d, di) && DefAt(f, s[id], o, oi)
      && SiteBefore(f, o, oi, d, di) && Visited(entered, b, i, d, di)
      && KeyAt(f, ctx, s, d, di).Some? && KeyAt(f, ctx, s, o, oi) == KeyAt(f, ctx, s, d, di);
    EarlierVisited(f, t, entered, b, i, o, oi, d, di);
    KeyKept(f, ctx, t, s, entered, b, i, o, oi, v);
    KeyKept(f, ctx, t, s, entered, b, i, d, di, v);
    assert Visited(entered, b, i + 1, d, di);
  }

  lemma StepMergeTable(f: SsaFunction, ctx: EffectContext, t: Tree, s: Subst, table: Table, entered: set<BlockId>, b: BlockId, i: nat, k: CallKey)
    requires Standing(f, ctx, t, s, table, entered, b, i) && IsSite(f, b, i) && KeyAt(f, ctx, s, b, i) == Some(k) && k in table
    ensures TableAt(f, ctx, s[f.blocks[b].stmts[i].id := table[k]], table, b, i + 1)
  {
    hide WellFormed, Frontier, CallKeyOf, Dominates, SubstOk;
    var z, v := f.blocks[b].stmts[i].id, table[k];
    var s' := s[z := v];
    forall h | h in table ensures EntryOk(f, ctx, s', table, b, i + 1, h) {
      assert EntryOk(f, ctx, s, table, b, i, h);
      FreshEntry(f, ctx, s, table, b, i, h);
      var o: BlockId, oi: nat :| DefAt(f, table[h], o, oi) && SiteBefore(f, o, oi, b, i) && KeyAt(f, ctx, s, o, oi) == Some(h);
      EarlierVisited(f, t, entered, b, i, o, oi, b, i);
      KeyKept(f, ctx, t, s, entered, b, i, o, oi, v);
      assert SiteBefore(f, o, oi, b, i + 1);
    }
    forall o: BlockId, oi: nat | IsSite(f, o, oi) && SiteBefore(f, o, oi, b, i + 1) && KeyAt(f, ctx, s', o, oi).Some?
      ensures KeyAt(f, ctx, s', o, oi).value in table
    {
      if o == b && oi == i {
        KeyKept(f, ctx, t, s, entered, b, i, b, i, v);
      } else {
        assert SiteBefore(f, o, oi, b, i);
        EarlierVisited(f, t, entered, b, i, o, oi, b, i);
        KeyKept(f, ctx, t, s, entered, b, i, o, oi, v);
      }
    }
  }

  lemma StepMerge(f: SsaFunction, ctx: EffectContext, t: Tree, s: Subst, table: Table, entered: set<BlockId>, b: BlockId, i: nat, k: CallKey)
    requires Standing(f, ctx, t, s, table, entered, b, i) && IsSite(f, b, i) && KeyAt(f, ctx, s, b, i) == Some(k) && k in table
    ensures Standing(f, ctx, t, s[f.blocks[b].stmts[i].id := table[k]], table, entered, b, i + 1)
  {
    hide WellFormed, SubstOk, TableAt, CallKeyOf;
    FrontierNext(f, t, entered, b, i);
    StepMergeSubst(f, ctx, t, s, table, entered, b, i, k);
    StepMergeTable(f, ctx, t, s, table, entered, b, i, k);
  }
}
