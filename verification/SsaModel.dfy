/** The SSA middle end's data model: values, operations, blocks and functions,
    and the control-flow graph that the blocks describe. */
module SsaModel {
  import opened Options

  type BlockId = nat
  type ValueId = nat

  /** Core IR literals. `Payload` stands for every literal that is not a scalar. */
  datatype Literal =
    | Int(i: int)
    | Float(bits: nat)
    | Bool(b: bool)
    | Str(s: string)
    | Char(c: char)
    | Symbol(name: string)
    | Nothing
    | Payload(code: nat)

  /** A value in operand position. */
  datatype SsaValue =
    | Def(id: ValueId)
    | Argument(index: nat)
    | Const(literal: Literal)

  /** The callee of a call, with its splat masks. */
  datatype Callee = Callee(
    qualifier: Option<string>,
    function_: string,
    keywords: seq<string>,
    splatted: bool)

  /** Every operation that is neither a phi nor a call. */
  datatype Operator =
    | Unary(unaryOp: string)
    | Binary(binaryOp: string)
    | Builtin(builtin: string)
    | LoadGlobal(loaded: string)
    | StoreGlobal(stored: string)
    | Opaque(expr: nat, exprReads: seq<string>)
    | OpaqueStmt(stmt: nat, stmtReads: seq<string>)
    | BarrierReload(variable: string)

  /** Operations. A call's operands are its positional arguments followed by its
      keyword arguments, in that order. */
  datatype SsaOp =
    | Phi(edges: seq<BlockId>, values: seq<Option<SsaValue>>)
    | Call(callee: Callee, args: seq<SsaValue>)
    | Apply(operator: Operator, operands: seq<SsaValue>)

  datatype SsaStatement = SsaStatement(id: ValueId, op: SsaOp)

  datatype Terminator =
    | Jump(target: BlockId)
    | Branch(condition: SsaValue, thenTarget: BlockId, elseTarget: BlockId)
    | Return(result: Option<SsaValue>)
  {
    /** Successor blocks in terminator order, deduplicated. */
    function Targets(): seq<BlockId> {
      match this
      case Jump(t) => [t]
      case Branch(_, t, e) => if t == e then [t] else [t, e]
      case Return(_) => []
    }

    function Operands(): seq<SsaValue> {
      match this
      case Branch(c, _, _) => [c]
      case Return(Some(v)) => [v]
      case _ => []
    }
  }

  datatype SsaBlock = SsaBlock(
    id: BlockId,
    stmts: seq<SsaStatement>,
    terminator: Terminator,
    preds: seq<BlockId>,
    succs: seq<BlockId>)

  datatype SsaFunction = SsaFunction(
    params: seq<string>,
    entry: BlockId,
    blocks: seq<SsaBlock>)

  /** Non-phi operand values, in evaluation order. */
  function Operands(op: SsaOp): seq<SsaValue> {
    match op
    case Phi(_, _) => []
    case Call(_, args) => args
    case Apply(_, operands) => operands
  }

  // ----- The control-flow graph -----

  predicate Edge(f: SsaFunction, u: BlockId, v: BlockId) {
    u < |f.blocks| && v in f.blocks[u].succs
  }

  predicate BackEdge(f: SsaFunction, u: BlockId, v: BlockId) {
    v < |f.blocks| && u in f.blocks[v].preds
  }

  /** Successor lists name existing blocks and predecessor lists are their inverse. */
  ghost predicate GraphOk(f: SsaFunction) {
    && f.entry < |f.blocks|
    && (forall u: BlockId, v: BlockId :: Edge(f, u, v) ==> v < |f.blocks|)
    && (forall u: BlockId, v: BlockId :: Edge(f, u, v) <==> BackEdge(f, u, v))
  }

  /** A walk from the entry block along successor edges. */
  ghost predicate IsPath(f: SsaFunction, p: seq<BlockId>) {
    && |p| > 0
    && p[0] == f.entry
    && forall i :: 0 < i < |p| ==> StepAt(f, p, i)
  }

  ghost predicate StepAt(f: SsaFunction, p: seq<BlockId>, i: nat)
    requires 0 < i < |p|
  {
    Edge(f, p[i - 1], p[i])
  }

  ghost predicate PathTo(f: SsaFunction, p: seq<BlockId>, b: BlockId) {
    IsPath(f, p) && p[|p| - 1] == b
  }

  ghost predicate Reachable(f: SsaFunction, b: BlockId) {
    exists p :: PathTo(f, p, b)
  }

  /** `a` lies on every path from the entry to `b`. */
  ghost predicate Dominates(f: SsaFunction, a: BlockId, b: BlockId) {
    forall p :: PathTo(f, p, b) ==> a in p
  }

  lemma EntryReachable(f: SsaFunction)
    ensures Reachable(f, f.entry)
  {
    assert PathTo(f, [f.entry], f.entry);
  }

  lemma ExtendPath(f: SsaFunction, p: seq<BlockId>, u: BlockId, v: BlockId)
    requires PathTo(f, p, u) && Edge(f, u, v)
    ensures PathTo(f, p + [v], v)
  {
    forall i | 0 < i < |p + [v]| ensures StepAt(f, p + [v], i) {
      if i < |p| { assert StepAt(f, p, i); }
    }
  }

  lemma SuccReachable(f: SsaFunction, u: BlockId, v: BlockId)
    requires Reachable(f, u) && Edge(f, u, v)
    ensures Reachable(f, v)
  {
    var p :| PathTo(f, p, u);
    ExtendPath(f, p, u, v);
  }

  lemma PathPrefix(f: SsaFunction, p: seq<BlockId>, i: nat)
    requires IsPath(f, p) && i < |p|
    ensures PathTo(f, p[..i + 1], p[i])
  {
    var q := p[..i + 1];
    forall k | 0 < k < |q| ensures StepAt(f, q, k) {
      assert StepAt(f, p, k);
    }
  }

  /** A block dominating `v` strictly dominates each of its predecessors. */
  lemma DominatesPred(f: SsaFunction, a: BlockId, u: BlockId, v: BlockId)
    requires Dominates(f, a, v) && a != v && Edge(f, u, v)
    ensures Dominates(f, a, u)
  {
    forall p | PathTo(f, p, u) ensures a in p {
      ExtendPath(f, p, u, v);
    }
  }

  lemma ReachableInRange(f: SsaFunction, b: BlockId)
    requires GraphOk(f) && Reachable(f, b)
    ensures b < |f.blocks|
  {
    var p :| PathTo(f, p, b);
    if |p| > 1 {
      assert StepAt(f, p, |p| - 1);
    }
  }
}
