/** Expressions, their meaning, and the postorder bytecode of a tree. */
module Syntax {
  import opened Options
  import opened Machine

  /** The operators with an infix rule for two operands; `and`/`&&` and `or`/`||` are distinct tokens. */
  datatype BinOp =
    | OpAdd | OpSub | OpMul | OpDiv | OpMod
    | OpEqual | OpNotEqual | OpLess | OpLessEqual | OpGreater | OpGreaterEqual
    | OpAndWord | OpAndSign | OpOrWord | OpOrSign

  /** The operators of compound assignment. */
  type CompoundOp = op: BinOp | op.OpAdd? || op.OpSub? || op.OpMul? || op.OpDiv? witness OpAdd

  datatype Expr =
    | Const(v: Value)
    | Interpolated(text: string)
    | Var(x: string)
    | Assign(x: string, e: Expr)
    | Compound(cop: CompoundOp, x: string, e: Expr)
    | PostStep(x: string, up: bool)
    | PreStep(x: string, up: bool)
    | Binary(op: BinOp, left: Expr, right: Expr)
    | Neg(e: Expr)
    | Not(e: Expr)
    | Call(f: string, args: Exprs)
    | Array(elems: Exprs)
    | Index(a: Expr, i: Expr)
    | IndexSet(a: Expr, i: Expr, e: Expr)

  datatype Exprs = NoExprs | More(head: Expr, tail: Exprs)

  function Count(es: Exprs): nat {
    match es case NoExprs => 0 case More(_, tail) => 1 + Count(tail)
  }

  /** A termination measure; a step counts like the compound assignment it abbreviates. */
  function Size(e: Expr): (n: nat)
    ensures n > 0
  {
    match e
    case Assign(_, e1) => 1 + Size(e1)
    case Compound(_, _, e1) => 1 + Size(e1)
    case PostStep(_, _) => 4
    case PreStep(_, _) => 4
    case Binary(_, l, r) => 1 + Size(l) + Size(r)
    case Neg(e1) => 1 + Size(e1)
    case Not(e1) => 1 + Size(e1)
    case Call(_, args) => 1 + SizeAll(args)
    case Array(elems) => 1 + SizeAll(elems)
    case Index(a, i) => 1 + Size(a) + Size(i)
    case IndexSet(a, i, e1) => 1 + Size(a) + Size(i) + Size(e1)
    case _ => 1
  }

  function SizeAll(es: Exprs): nat {
    match es case NoExprs => 0 case More(e, tail) => 1 + Size(e) + SizeAll(tail)
  }

  function Opcode(op: BinOp): (c: byte)
    ensures Arity(c, 0) == Some(2) && !HasOperand(c)
  {
    match op
    case OpAdd => ADD
    case OpSub => SUB
    case OpMul => MUL
    case OpDiv => DIV
    case OpMod => MOD
    case OpEqual => EQUAL
    case OpNotEqual => NOT_EQUAL
    case OpLess => LESS
    case OpLessEqual => LESS_EQUAL
    case OpGreater => GREATER
    case OpGreaterEqual => GREATER_EQUAL
    case OpAndWord => AND
    case OpAndSign => AND
    case OpOrWord => OR
    case OpOrSign => OR
  }

  function StepOp(up: bool): byte {
    if up then ADD else SUB
  }

  // ---- Meaning ----

  /** The value and the new world, or failure. Operands left to right; `and`, `or` evaluate both. */
  function Eval(vm: Vm, e: Expr, w: World): Option<(Value, World)> {
    match e
    case Const(v) => Some((v, w))
    case Interpolated(text) => vm.prim(INTERPOLATE, [Str(text)], w)
    case Var(x) => (match vm.Get(x, w) case None => None case Some(v) => Some((v, w)))
    case Assign(x, e1) => Store(x, Eval(vm, e1, w))
    case Compound(op, x, e1) => (
      match vm.Get(x, w)
      case None => None
      case Some(a) =>
        match Eval(vm, e1, w)
        case None => None
        case Some((b, w1)) => Store(x, vm.prim(Opcode(op), [a, b], w1)))
    case PostStep(x, up) => (
      match vm.Get(x, w)
      case None => None
      case Some(was) =>
        match vm.prim(StepOp(up), [was, Num(1.0)], w)
        case None => None
        case Some((v, w1)) => Some((was, Set(w1, x, v))))
    case PreStep(x, up) => (
      match vm.Get(x, w)
      case None => None
      case Some(a) => Store(x, vm.prim(StepOp(up), [a, Num(1.0)], w)))
    case Binary(op, l, r) => (
      match Eval(vm, l, w)
      case None => None
      case Some((a, w1)) =>
        match Eval(vm, r, w1)
        case None => None
        case Some((b, w2)) => vm.prim(Opcode(op), [a, b], w2))
    case Neg(e1) => (
      match Eval(vm, e1, w)
      case None => None
      case Some((a, w1)) => vm.prim(MUL, [a, Num(-1.0)], w1))
    case Not(e1) => (
      match Eval(vm, e1, w)
      case None => None
      case Some((a, w1)) => vm.prim(NOT, [a], w1))
    case Call(f, args) => (
      match EvalAll(vm, args, w)
      case None => None
      case Some((vs, w1)) =>
        match vm.Get(f, w1)
        case None => None
        case Some(fn) => vm.prim(CALL, vs + [fn], w1))
    case Array(elems) => (
      match EvalAll(vm, elems, w)
      case None => None
      case Some((vs, w1)) => vm.prim(ARRAY_NEW, vs, w1))
    case Index(a, i) => (
      match Eval(vm, a, w)
      case None => None
      case Some((va, w1)) =>
        match Eval(vm, i, w1)
        case None => None
        case Some((vi, w2)) => vm.prim(ARRAY_GET, [va, vi], w2))
    case IndexSet(a, i, e1) => (
      match Eval(vm, a, w)
      case None => None
      case Some((va, w1)) =>
        match Eval(vm, i, w1)
        case None => None
        case Some((vi, w2)) =>
          match Eval(vm, e1, w2)
          case None => None
          case Some((v, w3)) => vm.prim(ARRAY_SET, [va, vi, v], w3))
  }

  function Store(x: string, r: Option<(Value, World)>): Option<(Value, World)> {
    match r
    case None => None
    case Some((v, w)) => Some((v, Set(w, x, v)))
  }

  function EvalAll(vm: Vm, es: Exprs, w: World): (r: Option<(seq<Value>, World)>)
    ensures r.Some? ==> |r.value.0| == Count(es)
  {
    match es
    case NoExprs => Some(([], w))
    case More(e, tail) =>
      match Eval(vm, e, w)
      case None => None
      case Some((v, w1)) =>
        match EvalAll(vm, tail, w1)
        case None => None
        case Some((vs, w2)) => Some(([v] + vs, w2))
  }

  // ---- Postorder code ----

  /** Constants in the order the emitter adds them. */
  function Consts(e: Expr): seq<Value> {
    match e
    case Const(v) => [v]
    case Interpolated(text) => [Str(text)]
    case Var(x) => [Str(x)]
    case Assign(x, e1) => [Str(x)] + Consts(e1)
    case Compound(_, x, e1) => [Str(x)] + Consts(e1)
    case PostStep(x, _) => [Str(x), Num(1.0)]
    case PreStep(x, _) => [Str(x), Num(1.0)]
    case Binary(_, l, r) => Consts(l) + Consts(r)
    case Neg(e1) => Consts(e1) + [Num(-1.0)]
    case Not(e1) => Consts(e1)
    case Call(f, args) => [Str(f)] + ConstsAll(args)
    case Array(elems) => ConstsAll(elems)
    case Index(a, i) => Consts(a) + Consts(i)
    case IndexSet(a, i, e1) => Consts(a) + Consts(i) + Consts(e1)
  }

  function ConstsAll(es: Exprs): seq<Value> {
    match es case NoExprs => [] case More(e, tail) => Consts(e) + ConstsAll(tail)
  }

  /** `write_chunk` keeps the low byte. */
  function Byte(n: nat): byte {
    n % 256
  }

  /** The bytes of a tree whose first constant gets index `k`. */
  function Bytes(e: Expr, k: nat): seq<byte> {
    match e
    case Const(_) => [PUSH_CONST, Byte(k)]
    case Interpolated(_) => [PUSH_CONST, Byte(k), INTERPOLATE]
    case Var(_) => [GET_GLOBAL, Byte(k)]
    case Assign(_, e1) => Bytes(e1, k + 1) + [SET_GLOBAL, Byte(k)]
    case Compound(op, _, e1) => [GET_GLOBAL, Byte(k)] + Bytes(e1, k + 1) + [Opcode(op), SET_GLOBAL, Byte(k)]
    case PostStep(_, up) =>
      [GET_GLOBAL, Byte(k), GET_GLOBAL, Byte(k), PUSH_CONST, Byte(k + 1), StepOp(up), SET_GLOBAL, Byte(k), POP]
    case PreStep(_, up) => [GET_GLOBAL, Byte(k), PUSH_CONST, Byte(k + 1), StepOp(up), SET_GLOBAL, Byte(k)]
    case Binary(op, l, r) => Bytes(l, k) + Bytes(r, k + |Consts(l)|) + [Opcode(op)]
    case Neg(e1) => Bytes(e1, k) + [PUSH_CONST, Byte(k + |Consts(e1)|), MUL]
    case Not(e1) => Bytes(e1, k) + [NOT]
    case Call(_, args) => BytesAll(args, k + 1) + [GET_GLOBAL, Byte(k), CALL, Byte(Count(args))]
    case Array(elems) => BytesAll(elems, k) + [ARRAY_NEW, Byte(Count(elems))]
    case Index(a, i) => Bytes(a, k) + Bytes(i, k + |Consts(a)|) + [ARRAY_GET]
    case IndexSet(a, i, e1) =>
      Bytes(a, k) + Bytes(i, k + |Consts(a)|) + Bytes(e1, k + |Consts(a)| + |Consts(i)|) + [ARRAY_SET]
  }

  function BytesAll(es: Exprs, k: nat): seq<byte> {
    match es case NoExprs => [] case More(e, tail) => Bytes(e, k) + BytesAll(tail, k + |Consts(e)|)
  }

  lemma IndexSetBytes(e: Expr, k: nat)
    requires e.IndexSet?
    ensures Bytes(e, k)
      == Bytes(e.a, k) + Bytes(e.i, k + |Consts(e.a)|) + Bytes(e.e, k + |Consts(e.a)| + |Consts(e.i)|) + [ARRAY_SET]
  {
    hide Consts, BytesAll;
  }

  /** No call or array literal has more operands than its operand byte can count. */
  predicate CountsFit(e: Expr) {
    match e
    case Assign(_, e1) => CountsFit(e1)
    case Compound(_, _, e1) => CountsFit(e1)
    case Binary(_, l, r) => CountsFit(l) && CountsFit(r)
    case Neg(e1) => CountsFit(e1)
    case Not(e1) => CountsFit(e1)
    case Call(_, args) => Count(args) < 256 && AllCountsFit(args)
    case Array(elems) => Count(elems) < 256 && AllCountsFit(elems)
    case Index(a, i) => CountsFit(a) && CountsFit(i)
    case IndexSet(a, i, e1) => CountsFit(a) && CountsFit(i) && CountsFit(e1)
    case _ => true
  }

  predicate AllCountsFit(es: Exprs) {
    match es case NoExprs => true case More(e, tail) => CountsFit(e) && AllCountsFit(tail)
  }
}
