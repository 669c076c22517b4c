/** What an SSA function does when it runs, over any values `V` and any outside
    world `W`, and the effect summaries the optimizer relies on. */
module SsaSemantics {
  import opened Options
  import opened SsaModel
  import opened SsaVerify

  datatype Effect<V, W> =
    | Value(value: V, world: W)
    | Raise(exception: V, after: W)
    | Loop

  /** An operation apart from its operands. */
  datatype Tag = CallTag(callee: Callee) | ApplyTag(operator: Operator)

  function TagOf(op: SsaOp): Tag
    requires !op.Phi?
  {
    if op.Call? then CallTag(op.callee) else ApplyTag(op.operator)
  }

  /** The interpretation of literals, operations and branch conditions. `truth`
      is `None` on values that are not `Bool`, on which a branch raises `typeError`. */
  datatype Machine<!V, !W> = Machine(
    literal: Literal -> V,
    undef: V,
    perform: (Tag, seq<V>, W) -> Effect<V, W>,
    truth: V -> Option<bool>,
    typeError: V -> V)

  datatype Outcome<V, W> =
    | OutOfFuel
    | Returned(result: V, end: W)
    | Threw(thrown: V, left: W)
    | Diverged
    | Stuck

  datatype Flow<V, W> = Next(env: map<ValueId, V>, world: W) | Stop(outcome: Outcome<V, W>)

  // ----- Operands -----

  function Eval<V, W>(m: Machine<V, W>, args: seq<V>, env: map<ValueId, V>, v: SsaValue): Option<V> {
    match v
    case Const(l) => Some(m.literal(l))
    case Argument(k) => if k < |args| then Some(args[k]) else None
    case Def(id) => if id in env then Some(env[id]) else None
  }

  function EvalAll<V, W>(m: Machine<V, W>, args: seq<V>, env: map<ValueId, V>, vs: seq<SsaValue>): Option<seq<V>> {
    if vs == [] then Some([]) else
    match Eval(m, args, env, vs[0])
    case None => None
    case Some(x) =>
      match EvalAll(m, args, env, vs[1..])
      case None => None
      case Some(xs) => Some([x] + xs)
  }

  // ----- Blocks -----

  function FirstIndex(s: seq<BlockId>, u: BlockId): (k: nat)
    ensures k <= |s| && (k < |s| ==> s[k] == u) && (u in s ==> k < |s|)
  {
    if s == [] || s[0] == u then 0 else 1 + FirstIndex(s[1..], u)
  }

  /** The value a phi takes when control arrives along edge `pos`; an absent entry
      makes the variable undefined, which is a value of its own. */
  function PhiValue<V, W>(m: Machine<V, W>, args: seq<V>, env: map<ValueId, V>, op: SsaOp, pos: nat): Option<V>
    requires op.Phi?
  {
    if pos < |op.values| && op.values[pos].Some? then Eval(m, args, env, op.values[pos].value) else Some(m.undef)
  }

  /** Executes the statements from the front. Phis read `start`, the environment at
      the end of the predecessor, so that they take effect in parallel. */
  function RunStmts<V, W>(m: Machine<V, W>, args: seq<V>, start: map<ValueId, V>, pos: nat,
                          stmts: seq<SsaStatement>, env: map<ValueId, V>, w: W): Flow<V, W>
    decreases |stmts|
  {
    if stmts == [] then Next(env, w) else
    match RunStmt(m, args, start, pos, stmts[0], env, w)
    case Next(env', w') => RunStmts(m, args, start, pos, stmts[1..], env', w')
    case stop => stop
  }

  function RunStmt<V, W>(m: Machine<V, W>, args: seq<V>, start: map<ValueId, V>, pos: nat,
                         s: SsaStatement, env: map<ValueId, V>, w: W): Flow<V, W>
  {
    if s.op.Phi? then
      match PhiValue(m, args, start, s.op, pos)
      case None => Stop(Stuck)
      case Some(x) => Next(env[s.id := x], w)
    else
      match EvalAll(m, args, env, Operands(s.op))
      case None => Stop(Stuck)
      case Some(xs) =>
        match m.perform(TagOf(s.op), xs, w)
        case Value(x, w') => Next(env[s.id := x], w')
        case Raise(x, w') => Stop(Threw(x, w'))
        case Loop => Stop(Diverged)
  }

  datatype Leave<V, W> = Goto(target: BlockId) | Done(outcome: Outcome<V, W>)

  function RunTerminator<V, W>(m: Machine<V, W>, args: seq<V>, t: Terminator, env: map<ValueId, V>, w: W): Leave<V, W> {
    match t
    case Jump(target) => Goto(target)
    case Branch(c, thenTarget, elseTarget) => (
      match Eval(m, args, env, c)
      case None => Done(Stuck)
      case Some(x) =>
        match m.truth(x)
        case None => Done(Threw(m.typeError(x), w))
        case Some(taken) => Goto(if taken then thenTarget else elseTarget))
    case Return(None) => Done(Returned(m.literal(Nothing), w))
    case Return(Some(v)) =>
      match Eval(m, args, env, v)
      case None => Done(Stuck)
      case Some(x) => Done(Returned(x, w))
  }

  function EdgePosition(f: SsaFunction, b: BlockId, from: Option<BlockId>): nat
    requires b < |f.blocks|
  {
    match from
    case None => 0
    case Some(u) => FirstIndex(f.blocks[b].preds, u)
  }

  /** Runs from the start of block `b`, entered from `from`, through at most `fuel` blocks. */
  function Run<V, W>(m: Machine<V, W>, args: seq<V>, f: SsaFunction, fuel: nat, b: BlockId, from: Option<BlockId>,
                     env: map<ValueId, V>, w: W): Outcome<V, W>
    decreases fuel
  {
    if fuel == 0 then OutOfFuel
    else if b >= |f.blocks| then Stuck
    else
      match RunStmts(m, args, env, EdgePosition(f, b, from), f.blocks[b].stmts, env, w)
      case Stop(o) => o
      case Next(env', w') =>
        match RunTerminator(m, args, f.blocks[b].terminator, env', w')
        case Done(o) => o
        case Goto(t) => Run(m, args, f, fuel - 1, t, Some(b), env', w')
  }

  function Start<V, W>(m: Machine<V, W>, args: seq<V>, f: SsaFunction, fuel: nat, w: W): Outcome<V, W> {
    Run(m, args, f, fuel, f.entry, None, map[], w)
  }

  // ----- Effect summaries -----

  /** A three-valued bit holds when it is always true; `noub` also when it is conditional. */
  datatype Effects = Effects(consistent: bool, effectFree: bool, nothrow: bool, terminates: bool,
                             inaccessibleMemOnly: bool, noub: bool)
  {
    predicate IsRemovable() { effectFree && nothrow && terminates }
    predicate IsFoldable() { consistent && noub && effectFree && terminates && inaccessibleMemOnly }
  }

  const TOTAL := Effects(true, true, true, true, true, true)
  const ARBITRARY := Effects(false, false, false, false, false, false)

  /** Where the summaries of calls and operators come from. `resolve` is the optional
      per-method summary of a statically resolved bare call. */
  datatype EffectContext = EffectContext(
    byName: map<string, Effects>,
    builtin: string -> Effects,
    unary: string -> Effects,
    binary: string -> Effects,
    resolve: (Callee, seq<SsaValue>) -> Option<Effects>,
    shadowed: set<string>)

  function OpEffects(op: SsaOp, ctx: EffectContext): Effects {
    match op
    case Phi(_, _) => TOTAL
    case Apply(Unary(o), _) => ctx.unary(o)
    case Apply(Binary(o), _) => ctx.binary(o)
    case Call(callee, args) =>
      if callee.splatted || callee.function_ in ctx.shadowed then ARBITRARY
      else if callee.qualifier.None? && ctx.resolve(callee, args).Some? then ctx.resolve(callee, args).value
      else if callee.function_ in ctx.byName then ctx.byName[callee.function_]
      else ctx.builtin(callee.function_)
    case Apply(BarrierReload(_), _) => TOTAL.(consistent := false, inaccessibleMemOnly := false)
    case Apply(_, _) => ARBITRARY
  }

  /** `e` speaks for a call: the summary of the method a bare call resolves to, failing
      that the one recorded under the callee's name, failing that the builtin table's.
      Nothing speaks for a splatted call or for a shadowed name. */
  ghost predicate Speaks(ctx: EffectContext, callee: Callee, args: seq<SsaValue>, e: Effects) {
    var resolved := if callee.qualifier.None? then ctx.resolve(callee, args) else None;
    && !callee.splatted && callee.function_ !in ctx.shadowed
    && match resolved {
         case Some(r) => e == r
         case None =>
           if callee.function_ in ctx.byName then e == ctx.byName[callee.function_] else e == ctx.builtin(callee.function_)
       }
  }

  /** An unread result of the operation may be dropped. */
  ghost predicate Removable(op: SsaOp, ctx: EffectContext) {
    match op
    case Phi(_, _) => true
    case Call(callee, args) => exists e :: Speaks(ctx, callee, args, e) && e.effectFree && e.nothrow && e.terminates
    case Apply(operator, _) =>
      match operator
      case Unary(o) => ctx.unary(o).effectFree && ctx.unary(o).nothrow && ctx.unary(o).terminates
      case Binary(o) => ctx.binary(o).effectFree && ctx.binary(o).nothrow && ctx.binary(o).terminates
      case BarrierReload(_) => true
      case _ => false
  }

  /** A call that returns, if it returns, what it returns on these operands at any time. */
  ghost predicate PureCall(op: SsaOp, ctx: EffectContext) {
    op.Call? && PureCallee(ctx, op.callee, op.args)
  }

  ghost predicate PureCallee(ctx: EffectContext, callee: Callee, args: seq<SsaValue>) {
    exists e ::
      Speaks(ctx, callee, args, e) && e.consistent && e.noub && e.effectFree && e.terminates && e.inaccessibleMemOnly
  }

  lemma SpeakingSummary(ctx: EffectContext, callee: Callee, args: seq<SsaValue>, e: Effects)
    requires Speaks(ctx, callee, args, e)
    ensures OpEffects(Call(callee, args), ctx) == e
  {
  }

  lemma SilentCall(ctx: EffectContext, callee: Callee, args: seq<SsaValue>)
    requires !Speaks(ctx, callee, args, OpEffects(Call(callee, args), ctx))
    ensures OpEffects(Call(callee, args), ctx) == ARBITRARY
  {
  }

  lemma RemovableExact(op: SsaOp, ctx: EffectContext)
    ensures OpEffects(op, ctx).IsRemovable() <==> Removable(op, ctx)
  {
    if op.Call? {
      hide OpEffects, Speaks;
      var e := OpEffects(op, ctx);
      forall r | Speaks(ctx, op.callee, op.args, r) ensures e == r { SpeakingSummary(ctx, op.callee, op.args, r); }
      if !Speaks(ctx, op.callee, op.args, e) { SilentCall(ctx, op.callee, op.args); }
    }
  }

  lemma FoldableExact(op: SsaOp, ctx: EffectContext)
    requires op.Call?
    ensures OpEffects(op, ctx).IsFoldable() <==> PureCall(op, ctx)
  {
    hide OpEffects, Speaks;
    var e := OpEffects(op, ctx);
    forall r | Speaks(ctx, op.callee, op.args, r) ensures e == r { SpeakingSummary(ctx, op.callee, op.args, r); }
    if !Speaks(ctx, op.callee, op.args, e) { SilentCall(ctx, op.callee, op.args); }
  }

  /** The summaries describe the machine: a removable operation only yields a value,
      and a pure call that yields a value yields it again in every world. */
  ghost predicate Sound<V(!new), W(!new)>(m: Machine<V, W>, args: seq<V>, ctx: EffectContext) {
    && (forall op: SsaOp, env: map<ValueId, V>, w: W :: RemovableSound(m, args, ctx, op, env, w))
    && (forall op: SsaOp, env: map<ValueId, V>, w: W, w': W :: PureSound(m, args, ctx, op, env, w, w'))
  }

  ghost predicate RemovableSound<V, W>(m: Machine<V, W>, args: seq<V>, ctx: EffectContext, op: SsaOp, env: map<ValueId, V>, w: W) {
    !op.Phi? && Removable(op, ctx) && EvalAll(m, args, env, Operands(op)).Some? ==>
      var e := m.perform(TagOf(op), EvalAll(m, args, env, Operands(op)).value, w);
      e.Value? && e.world == w
  }

  ghost predicate PureSound<V, W>(m: Machine<V, W>, args: seq<V>, ctx: EffectContext, op: SsaOp, env: map<ValueId, V>, w: W, w': W) {
    PureCall(op, ctx) && EvalAll(m, args, env, Operands(op)).Some? ==>
      var vs := EvalAll(m, args, env, Operands(op)).value;
      var e := m.perform(TagOf(op), vs, w);
      e.Value? ==> e.world == w && m.perform(TagOf(op), vs, w') == Value(e.value, w')
  }

  // ----- Runs of well-formed functions never read an undefined value -----

  lemma {:induction false} EvalAllAgree<V, W>(m: Machine<V, W>, args: seq<V>, env: map<ValueId, V>, env': map<ValueId, V>,
                                              vs: seq<SsaValue>, vs': seq<SsaValue>)
    requires |vs| == |vs'|
    requires forall k :: 0 <= k < |vs| ==> Eval(m, args, env, vs[k]) == Eval(m, args, env', vs'[k])
    ensures EvalAll(m, args, env, vs) == EvalAll(m, args, env', vs')
  {
    if vs != [] {
      EvalAllAgree(m, args, env, env', vs[1..], vs'[1..]);
    }
  }

  lemma {:induction false} EvalAllDefined<V, W>(m: Machine<V, W>, args: seq<V>, env: map<ValueId, V>, vs: seq<SsaValue>)
    requires forall k :: 0 <= k < |vs| ==> Eval(m, args, env, vs[k]).Some?
    ensures EvalAll(m, args, env, vs).Some?
  {
    if vs != [] {
      EvalAllDefined(m, args, env, vs[1..]);
    }
  }

  /** Every definition that comes before the point has a value. */
  ghost predicate DefinedAt<V>(f: SsaFunction, b: BlockId, i: nat, env: map<ValueId, V>) {
    forall id: ValueId, d: BlockId, di: nat :: DefAt(f, id, d, di) && SiteBefore(f, d, di, b, i) ==> id in env
  }

  /** On entry to `b` from `from`. */
  ghost predicate Arrives(f: SsaFunction, b: BlockId, from: Option<BlockId>) {
    && b < |f.blocks| && Reachable(f, b)
    && (from.None? ==> b == f.entry)
    && (from.Some? ==> Edge(f, from.value, b) && Reachable(f, from.value))
  }

  ghost predicate ArrivesWith<V>(f: SsaFunction, b: BlockId, from: Option<BlockId>, env: map<ValueId, V>) {
    && Arrives(f, b, from)
    && DefinedAt(f, b, 0, env)
    && (from.Some? ==> DefinedAt(f, from.value, |f.blocks[from.value].stmts|, env))
  }
}
