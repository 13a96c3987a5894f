/** What each operator token computes, on a machine that takes opcode numbers as the header lists them. */
module Operators {
  import opened Options
  import opened Machine
  import opened Syntax
  import opened Pratt
  import opened PrattRoundTrip
  import opened ExprCode
  import opened Grouping

  /**
   Instructions by their position in the opcode list of the header, on numbers and booleans. What the remainder of two
   numbers is stays a parameter; nothing else computes.
   */
  function Header(modulo: (real, real) -> real): Vm {
    Vm((op: nat, args: seq<Value>, w: World) => WithWorld(Computed(op, args, modulo), w),
       x => None, v => v == Bool(true))
  }

  function WithWorld(v: Option<Value>, w: World): Option<(Value, World)> {
    match v case None => None case Some(u) => Some((u, w))
  }

  function Computed(op: nat, args: seq<Value>, modulo: (real, real) -> real): Option<Value> {
    if |args| == 2 && args[0].Num? && args[1].Num? then Numbers(op, args[0].n, args[1].n, modulo)
    else if |args| == 2 && args[0].Bool? && args[1].Bool? then
      if op == 22 then Some(Bool(args[0].b && args[1].b)) else if op == 23 then Some(Bool(args[0].b || args[1].b)) else None
    else if |args| == 1 && args[0].Bool? && op == 24 then Some(Bool(!args[0].b))
    else None
  }

  function Numbers(op: nat, a: real, b: real, modulo: (real, real) -> real): Option<Value> {
    match op
    case 2 => Some(Num(a + b))
    case 3 => Some(Num(a - b))
    case 4 => Some(Num(a * b))
    case 5 => if b == 0.0 then None else Some(Num(a / b))
    case 6 => Some(Num(modulo(a, b)))
    case 7 => Some(Bool(a == b))
    case 8 => Some(Bool(a != b))
    case 9 => Some(Bool(a < b))
    case 10 => Some(Bool(a <= b))
    case 11 => Some(Bool(a > b))
    case 12 => Some(Bool(a >= b))
    case _ => None
  }

  /** The opcodes of the model are at their places in the header's list. */
  lemma HeaderNumbers()
    ensures [PUSH_CONST, POP, ADD, SUB, MUL, DIV, MOD, EQUAL, NOT_EQUAL, LESS, LESS_EQUAL, GREATER, GREATER_EQUAL,
             JUMP, JUMP_IF_FALSE, LOOP, CALL] == seq(17, i => i)
    ensures [SET_GLOBAL, GET_GLOBAL, AND, OR, NOT, ARRAY_NEW, ARRAY_GET, ARRAY_SET] == seq(8, i => 20 + i)
    ensures [INTERPOLATE, BREAK, CONTINUE] == seq(3, i => 33 + i)
  {
  }

  /** The code that `expression` emits for the tokens, run from `w`, leaves `v` on the stack and ends in world `w1`. */
  ghost predicate Leaves(vm: Vm, ts: seq<Token>, w: World, v: Value, w1: World) {
    var out := ParsePrec(P_ASSIGNMENT, Parse(ts, Chunk([], []), false, false)).out;
    exists n :: Run(vm, Program(out.bytes, out.consts), Running(State(0, [], w)), n)
      == Running(State(|out.bytes|, [v], w1))
  }

  lemma Evaluated(vm: Vm, ts: seq<Token>, e: Expr, w: World, v: Value, w1: World)
    requires Reads(ts, e) && CountsFit(e) && |Consts(e)| <= 256 && Eval(vm, e, w) == Some((v, w1))
    ensures Leaves(vm, ts, w, v, w1)
  {
    hide Eval, Bytes, Consts, CountsFit, ParsePrec, Run;
    var s := Parse(ts, Chunk([], []), false, false);
    var p := Program([] + Bytes(e, 0), [] + Consts(e));
    assert ParsePrec(P_ASSIGNMENT, s).out == Chunk(p.code, p.consts);
    assert p.code == Bytes(e, 0) && p.consts == Consts(e);
    assert p.code[0..|p.code|] == p.code && p.consts[0..|p.consts|] == p.consts;
    var n := EvalRuns(vm, p, e, 0, 0, [], w);
    assert [] + [v] == [v];
  }

  /** Two operands and an operator leave what the operator's instruction computes from their values. */
  lemma PairLeaves(vm: Vm, op: BinOp, a: Expr, b: Expr, w: World, v: Value)
    requires IsOperand(a) && IsOperand(b)
    requires var va, vb := Eval(vm, a, w), Eval(vm, b, w);
      && va.Some? && va.value.1 == w && vb.Some? && vb.value.1 == w
      && vm.prim(Opcode(op), [va.value.0, vb.value.0], w) == Some((v, w))
    ensures Leaves(vm, [TokenOf(a), TOp(op), TokenOf(b)], w, v, w)
  {
    hide Leaves, Opcode;
    PairPrint(op, a, b, P_ASSIGNMENT);
    ReadsPrint([TokenOf(a), TOp(op), TokenOf(b)], Binary(op, a, b));
    Evaluated(vm, [TokenOf(a), TOp(op), TokenOf(b)], Binary(op, a, b), w, v, w);
  }

  lemma HeaderComputes(modulo: (real, real) -> real, op: nat, args: seq<Value>, w: World)
    ensures Header(modulo).prim(op, args, w) == WithWorld(Computed(op, args, modulo), w)
  {
  }

  lemma NumbersLeave(op: BinOp, a: real, b: real, modulo: (real, real) -> real, w: World, v: Value)
    requires Numbers(Opcode(op), a, b, modulo) == Some(v)
    ensures Leaves(Header(modulo), [TNumber(a), TOp(op), TNumber(b)], w, v, w)
  {
    hide Leaves, Opcode, Numbers;
    HeaderComputes(modulo, Opcode(op), [Num(a), Num(b)], w);
    PairLeaves(Header(modulo), op, Const(Num(a)), Const(Num(b)), w, v);
  }

  /** Arithmetic on numbers. */
  lemma Arithmetic(a: real, b: real, modulo: (real, real) -> real, w: World)
    ensures var vm, l, r := Header(modulo), TNumber(a), TNumber(b);
      && Leaves(vm, [l, TOp(OpAdd), r], w, Num(a + b), w)
      && Leaves(vm, [l, TOp(OpSub), r], w, Num(a - b), w)
      && Leaves(vm, [l, TOp(OpMul), r], w, Num(a * b), w)
      && (b != 0.0 ==> Leaves(vm, [l, TOp(OpDiv), r], w, Num(a / b), w))
      && Leaves(vm, [l, TOp(OpMod), r], w, Num(modulo(a, b)), w)
  {
    hide Leaves;
    NumbersLeave(OpAdd, a, b, modulo, w, Num(a + b));
    NumbersLeave(OpSub, a, b, modulo, w, Num(a - b));
    NumbersLeave(OpMul, a, b, modulo, w, Num(a * b));
    if b != 0.0 {
      NumbersLeave(OpDiv, a, b, modulo, w, Num(a / b));
    }
    NumbersLeave(OpMod, a, b, modulo, w, Num(modulo(a, b)));
  }

  /** Comparisons of numbers. */
  lemma Comparing(a: real, b: real, modulo: (real, real) -> real, w: World)
    ensures var vm, l, r := Header(modulo), TNumber(a), TNumber(b);
      && Leaves(vm, [l, TOp(OpEqual), r], w, Bool(a == b), w)
      && Leaves(vm, [l, TOp(OpNotEqual), r], w, Bool(a != b), w)
      && Leaves(vm, [l, TOp(OpLess), r], w, Bool(a < b), w)
      && Leaves(vm, [l, TOp(OpLessEqual), r], w, Bool(a <= b), w)
      && Leaves(vm, [l, TOp(OpGreater), r], w, Bool(a > b), w)
      && Leaves(vm, [l, TOp(OpGreaterEqual), r], w, Bool(a >= b), w)
  {
    hide Leaves;
    NumbersLeave(OpEqual, a, b, modulo, w, Bool(a == b));
    NumbersLeave(OpNotEqual, a, b, modulo, w, Bool(a != b));
    NumbersLeave(OpLess, a, b, modulo, w, Bool(a < b));
    NumbersLeave(OpLessEqual, a, b, modulo, w, Bool(a <= b));
    NumbersLeave(OpGreater, a, b, modulo, w, Bool(a > b));
    NumbersLeave(OpGreaterEqual, a, b, modulo, w, Bool(a >= b));
  }

  /** A world in which `x` and `y` hold these values. */
  predicate Holds(w: World, x: string, v: Value, y: string, u: Value) {
    x in w.globals && w.globals[x] == v && y in w.globals && w.globals[y] == u
  }

  /** The logical operators, in both spellings, on booleans in variables. */
  lemma Logic(x: string, y: string, a: bool, b: bool, modulo: (real, real) -> real, w: World)
    requires Holds(w, x, Bool(a), y, Bool(b))
    ensures var vm, l, r := Header(modulo), TIdent(x), TIdent(y);
      && Leaves(vm, [l, TOp(OpAndWord), r], w, Bool(a && b), w)
      && Leaves(vm, [l, TOp(OpAndSign), r], w, Bool(a && b), w)
      && Leaves(vm, [l, TOp(OpOrWord), r], w, Bool(a || b), w)
      && Leaves(vm, [l, TOp(OpOrSign), r], w, Bool(a || b), w)
      && Leaves(vm, [TNot, l], w, Bool(!a), w)
  {
    hide Leaves;
    BooleansLeave(OpAndWord, x, y, a, b, modulo, w, Bool(a && b));
    BooleansLeave(OpAndSign, x, y, a, b, modulo, w, Bool(a && b));
    BooleansLeave(OpOrWord, x, y, a, b, modulo, w, Bool(a || b));
    BooleansLeave(OpOrSign, x, y, a, b, modulo, w, Bool(a || b));
    HeaderComputes(modulo, 24, [Bool(a)], w);
    SignPrint(Var(x), P_ASSIGNMENT);
    ReadsPrint([TNot, TIdent(x)], Not(Var(x)));
    Evaluated(Header(modulo), [TNot, TIdent(x)], Not(Var(x)), w, Bool(!a), w);
  }

  lemma BooleansLeave(op: BinOp, x: string, y: string, a: bool, b: bool, modulo: (real, real) -> real, w: World, v: Value)
    requires Holds(w, x, Bool(a), y, Bool(b)) && Computed(Opcode(op), [Bool(a), Bool(b)], modulo) == Some(v)
    ensures Leaves(Header(modulo), [TIdent(x), TOp(op), TIdent(y)], w, v, w)
  {
    hide Leaves, Opcode, Computed;
    HeaderComputes(modulo, Opcode(op), [Bool(a), Bool(b)], w);
    PairLeaves(Header(modulo), op, Var(x), Var(y), w, v);
  }

  /** A minus sign negates, literals push themselves. */
  lemma Literals(a: real, text: string, modulo: (real, real) -> real, w: World)
    ensures var vm := Header(modulo);
      && Leaves(vm, [TOp(OpSub), TNumber(a)], w, Num(-a), w) && Leaves(vm, [TNumber(a)], w, Num(a), w)
      && Leaves(vm, [TString(text)], w, Str(text), w)
      && Leaves(vm, [TTrue], w, Bool(true), w) && Leaves(vm, [TFalse], w, Bool(false), w)
  {
    hide Leaves;
    var vm := Header(modulo);
    SignPrint(Const(Num(a)), P_ASSIGNMENT);
    ReadsPrint([TOp(OpSub), TNumber(a)], Neg(Const(Num(a))));
    assert a * -1.0 == -a;
    HeaderComputes(modulo, 4, [Num(a), Num(-1.0)], w);
    Evaluated(vm, [TOp(OpSub), TNumber(a)], Neg(Const(Num(a))), w, Num(-a), w);
    LiteralLeaves(vm, Num(a), w);
    LiteralLeaves(vm, Str(text), w);
    LiteralLeaves(vm, Bool(true), w);
    LiteralLeaves(vm, Bool(false), w);
  }

  lemma LiteralLeaves(vm: Vm, v: Value, w: World)
    requires v.Num? || v.Str? || v.Bool?
    ensures Leaves(vm, [Literal(v)], w, v, w)
  {
    hide Leaves;
    ReadsPrint([Literal(v)], Const(v));
    Evaluated(vm, [Literal(v)], Const(v), w, v, w);
  }

  // ---- Assignment ----

  /** `w1` is `w` with `x` holding `v` and every other variable and the heap as before. */
  predicate Assigned(w: World, x: string, v: Value, w1: World) {
    && w1.heap == w.heap && x in w1.globals && w1.globals[x] == v && w1.globals.Keys == w.globals.Keys + {x}
    && forall y :: y in w.globals && y != x ==> w1.globals[y] == w.globals[y]
  }

  ghost predicate LeavesAssigned(vm: Vm, ts: seq<Token>, w: World, v: Value, x: string, u: Value) {
    exists w1 :: Assigned(w, x, u, w1) && Leaves(vm, ts, w, v, w1)
  }

  lemma EvaluatedAssigned(vm: Vm, ts: seq<Token>, e: Expr, w: World, v: Value, x: string, u: Value)
    requires Printable(e) && Print(e, P_ASSIGNMENT) == ts && CountsFit(e) && |Consts(e)| <= 256
    requires Eval(vm, e, w) == Some((v, Set(w, x, u)))
    ensures LeavesAssigned(vm, ts, w, v, x, u)
  {
    hide Leaves, Print, Eval, Consts, CountsFit;
    ReadsPrint(ts, e);
    Evaluated(vm, ts, e, w, v, Set(w, x, u));
    assert Assigned(w, x, u, Set(w, x, u));
  }

  /** Assignments store and leave the new value; compound ones compute it from the old one. */
  lemma Assignments(x: string, a: real, b: real, modulo: (real, real) -> real, w: World)
    requires x in w.globals && w.globals[x] == Num(a)
    ensures var vm, l, r := Header(modulo), TIdent(x), TNumber(b);
      && LeavesAssigned(vm, [l, TEqual, r], w, Num(b), x, Num(b))
      && LeavesAssigned(vm, [l, TOpEqual(OpAdd), r], w, Num(a + b), x, Num(a + b))
      && LeavesAssigned(vm, [l, TOpEqual(OpSub), r], w, Num(a - b), x, Num(a - b))
      && LeavesAssigned(vm, [l, TOpEqual(OpMul), r], w, Num(a * b), x, Num(a * b))
      && (b != 0.0 ==> LeavesAssigned(vm, [l, TOpEqual(OpDiv), r], w, Num(a / b), x, Num(a / b)))
  {
    hide LeavesAssigned;
    var vm, l, r := Header(modulo), TIdent(x), Const(Num(b));
    OperandPrint(r, P_ASSIGNMENT);
    EvaluatedAssigned(vm, [l, TEqual, TNumber(b)], Assign(x, r), w, Num(b), x, Num(b));
    CompoundLeaves(OpAdd, x, a, b, modulo, Num(a + b), w);
    CompoundLeaves(OpSub, x, a, b, modulo, Num(a - b), w);
    CompoundLeaves(OpMul, x, a, b, modulo, Num(a * b), w);
    if b != 0.0 {
      CompoundLeaves(OpDiv, x, a, b, modulo, Num(a / b), w);
    }
  }

  lemma CompoundLeaves(cop: CompoundOp, x: string, a: real, b: real, modulo: (real, real) -> real, v: Value, w: World)
    requires x in w.globals && w.globals[x] == Num(a) && Numbers(Opcode(cop), a, b, modulo) == Some(v)
    ensures LeavesAssigned(Header(modulo), [TIdent(x), TOpEqual(cop), TNumber(b)], w, v, x, v)
  {
    hide LeavesAssigned, Opcode, Numbers;
    var vm, r := Header(modulo), Const(Num(b));
    OperandPrint(r, P_ASSIGNMENT);
    HeaderComputes(modulo, Opcode(cop), [Num(a), Num(b)], w);
    assert Eval(vm, r, w) == Some((Num(b), w));
    assert Print(Compound(cop, x, r), P_ASSIGNMENT) == [TIdent(x), TOpEqual(cop)] + [TNumber(b)];
    EvaluatedAssigned(vm, [TIdent(x), TOpEqual(cop), TNumber(b)], Compound(cop, x, r), w, v, x, v);
  }

  /** Steps: behind the name they leave the old value, before it the new one. */
  lemma Steps(x: string, a: real, modulo: (real, real) -> real, w: World)
    requires x in w.globals && w.globals[x] == Num(a)
    ensures var vm, l := Header(modulo), TIdent(x);
      && LeavesAssigned(vm, [l, TPlusPlus], w, Num(a), x, Num(a + 1.0))
      && LeavesAssigned(vm, [l, TMinusMinus], w, Num(a), x, Num(a - 1.0))
      && LeavesAssigned(vm, [TPlusPlus, l], w, Num(a + 1.0), x, Num(a + 1.0))
      && LeavesAssigned(vm, [TMinusMinus, l], w, Num(a - 1.0), x, Num(a - 1.0))
  {
    hide LeavesAssigned;
    var vm, l := Header(modulo), TIdent(x);
    HeaderComputes(modulo, 2, [Num(a), Num(1.0)], w);
    HeaderComputes(modulo, 3, [Num(a), Num(1.0)], w);
    EvaluatedAssigned(vm, [l, TPlusPlus], PostStep(x, true), w, Num(a), x, Num(a + 1.0));
    EvaluatedAssigned(vm, [l, TMinusMinus], PostStep(x, false), w, Num(a), x, Num(a - 1.0));
    EvaluatedAssigned(vm, [TPlusPlus, l], PreStep(x, true), w, Num(a + 1.0), x, Num(a + 1.0));
    EvaluatedAssigned(vm, [TMinusMinus, l], PreStep(x, false), w, Num(a - 1.0), x, Num(a - 1.0));
  }
}
