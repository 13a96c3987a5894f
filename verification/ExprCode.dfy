/** Running the code of an expression computes the expression. */
module ExprCode {
  import opened Options
  import opened Machine
  import opened Syntax

  /** `part` stands at position `i` of `whole`. */
  ghost predicate At<T>(whole: seq<T>, i: nat, part: seq<T>) {
    i + |part| <= |whole| && whole[i..i + |part|] == part
  }

  lemma AtSplit<T>(whole: seq<T>, i: nat, a: seq<T>, b: seq<T>)
    requires At(whole, i, a + b)
    ensures At(whole, i, a) && At(whole, i + |a|, b)
  {
    assert whole[i..i + |a|] == (a + b)[..|a|];
    assert whole[i + |a|..i + |a| + |b|] == (a + b)[|a|..];
  }

  /** The code of `e` stands at `pc`, its constants at index `k`. */
  ghost predicate ExprAt(p: Program, e: Expr, pc: nat, k: nat) {
    At(p.code, pc, Bytes(e, k)) && At(p.consts, k, Consts(e))
  }

  ghost predicate ExprsAt(p: Program, es: Exprs, pc: nat, k: nat) {
    At(p.code, pc, BytesAll(es, k)) && At(p.consts, k, ConstsAll(es))
  }

  /** The machine after an expression that gave `r` from a stack `stack`. */
  function After(r: Option<(Value, World)>, pc: nat, stack: seq<Value>): Result {
    match r
    case None => Stopped
    case Some((v, w)) => Running(State(pc, stack + [v], w))
  }

  function AfterAll(r: Option<(seq<Value>, World)>, pc: nat, stack: seq<Value>): Result {
    match r
    case None => Stopped
    case Some((vs, w)) => Running(State(pc, stack + vs, w))
  }

  lemma Joined(vm: Vm, p: Program, r: Result, m: nat, mid: Result, n: nat, end: Result)
    requires Run(vm, p, r, m) == mid && Run(vm, p, mid, n) == end
    ensures Run(vm, p, r, m + n) == end
  {
    RunJoins(vm, p, r, m, n);
  }

  lemma RunOne(vm: Vm, p: Program, s: State)
    ensures Run(vm, p, Running(s), 1) == Step(vm, p, s)
  {
    assert Run(vm, p, Step(vm, p, s), 0) == Step(vm, p, s);
  }

  // ---- Single instructions ----

  lemma RunPrim(vm: Vm, p: Program, pc: nat, stack: seq<Value>, vs: seq<Value>, w: World)
    requires pc < |p.code| && Arity(p.code[pc], 0) == Some(|vs|) && !HasOperand(p.code[pc])
    ensures Run(vm, p, Running(State(pc, stack + vs, w)), 1) == After(vm.prim(p.code[pc], vs, w), pc + 1, stack)
  {
    RunOne(vm, p, State(pc, stack + vs, w));
    assert (stack + vs)[|stack|..] == vs && (stack + vs)[..|stack|] == stack;
  }

  lemma RunPrimWithCount(vm: Vm, p: Program, pc: nat, stack: seq<Value>, vs: seq<Value>, w: World)
    requires pc + 1 < |p.code| && (p.code[pc] == CALL || p.code[pc] == ARRAY_NEW)
    requires Arity(p.code[pc], p.code[pc + 1]) == Some(|vs|)
    ensures Run(vm, p, Running(State(pc, stack + vs, w)), 1) == After(vm.prim(p.code[pc], vs, w), pc + 2, stack)
  {
    RunOne(vm, p, State(pc, stack + vs, w));
    assert (stack + vs)[|stack|..] == vs && (stack + vs)[..|stack|] == stack;
  }

  lemma RunConst(vm: Vm, p: Program, pc: nat, stack: seq<Value>, w: World)
    requires pc + 1 < |p.code| && p.code[pc] == PUSH_CONST && p.code[pc + 1] < |p.consts|
    ensures Run(vm, p, Running(State(pc, stack, w)), 1) ==
      Running(State(pc + 2, stack + [p.consts[p.code[pc + 1]]], w))
  {
    RunOne(vm, p, State(pc, stack, w));
  }

  lemma RunGet(vm: Vm, p: Program, pc: nat, x: string, stack: seq<Value>, w: World)
    requires pc + 1 < |p.code| && p.code[pc] == GET_GLOBAL
    requires p.code[pc + 1] < |p.consts| && p.consts[p.code[pc + 1]] == Str(x)
    ensures Run(vm, p, Running(State(pc, stack, w)), 1) ==
      match vm.Get(x, w) case None => Stopped case Some(v) => Running(State(pc + 2, stack + [v], w))
  {
    RunOne(vm, p, State(pc, stack, w));
  }

  lemma RunSet(vm: Vm, p: Program, pc: nat, x: string, stack: seq<Value>, v: Value, w: World)
    requires pc + 1 < |p.code| && p.code[pc] == SET_GLOBAL
    requires p.code[pc + 1] < |p.consts| && p.consts[p.code[pc + 1]] == Str(x)
    ensures Run(vm, p, Running(State(pc, stack + [v], w)), 1) == Running(State(pc + 2, stack + [v], Set(w, x, v)))
  {
    RunOne(vm, p, State(pc, stack + [v], w));
  }

  lemma RunPop(vm: Vm, p: Program, pc: nat, stack: seq<Value>, v: Value, w: World)
    requires pc < |p.code| && p.code[pc] == POP
    ensures Run(vm, p, Running(State(pc, stack + [v], w)), 1) == Running(State(pc + 1, stack, w))
  {
    RunOne(vm, p, State(pc, stack + [v], w));
    assert (stack + [v])[..|stack|] == stack;
  }

  // ---- Expressions ----

  /** After `n` instructions the code of `e` at `pc` has done exactly what `e` means. */
  ghost predicate Runs(vm: Vm, p: Program, e: Expr, pc: nat, k: nat, stack: seq<Value>, w: World, n: nat) {
    Run(vm, p, Running(State(pc, stack, w)), n) == After(Eval(vm, e, w), pc + |Bytes(e, k)|, stack)
  }

  lemma ConstIndex(p: Program, k: nat, cs: seq<Value>, i: nat)
    requires At(p.consts, k, cs) && i < |cs| && |p.consts| <= 256
    ensures Byte(k + i) == k + i < |p.consts| && p.consts[k + i] == cs[i]
  {
    assert p.consts[k..k + |cs|][i] == cs[i];
  }

  lemma CodeIndex(p: Program, pc: nat, bs: seq<nat>, i: nat)
    requires At(p.code, pc, bs) && i < |bs|
    ensures pc + i < |p.code| && p.code[pc + i] == bs[i]
  {
    assert p.code[pc..pc + |bs|][i] == bs[i];
  }

  lemma {:induction false} ConstRuns(vm: Vm, p: Program, e: Expr, pc: nat, k: nat, stack: seq<Value>, w: World)
    returns (n: nat)
    requires e.Const? && ExprAt(p, e, pc, k) && CountsFit(e) && |p.consts| <= 256
    ensures Runs(vm, p, e, pc, k, stack, w, n)
    decreases Size(e), 0
  {
    ConstIndex(p, k, Consts(e), 0);
    CodeIndex(p, pc, Bytes(e, k), 0);
    CodeIndex(p, pc, Bytes(e, k), 1);
    RunConst(vm, p, pc, stack, w);
    n := 1;
  }

  lemma {:induction false} InterpolatedRuns(vm: Vm, p: Program, e: Expr, pc: nat, k: nat, stack: seq<Value>, w: World)
    returns (n: nat)
    requires e.Interpolated? && ExprAt(p, e, pc, k) && CountsFit(e) && |p.consts| <= 256
    ensures Runs(vm, p, e, pc, k, stack, w, n)
    decreases Size(e), 0
  {
    ConstIndex(p, k, Consts(e), 0);
    CodeIndex(p, pc, Bytes(e, k), 0);
    CodeIndex(p, pc, Bytes(e, k), 1);
    CodeIndex(p, pc, Bytes(e, k), 2);
    RunConst(vm, p, pc, stack, w);
    RunPrim(vm, p, pc + 2, stack, [Str(e.text)], w);
    Joined(vm, p, Running(State(pc, stack, w)), 1, Running(State(pc + 2, stack + [Str(e.text)], w)), 1,
           After(Eval(vm, e, w), pc + 3, stack));
    n := 2;
  }

  lemma {:induction false} VarRuns(vm: Vm, p: Program, e: Expr, pc: nat, k: nat, stack: seq<Value>, w: World)
    returns (n: nat)
    requires e.Var? && ExprAt(p, e, pc, k) && CountsFit(e) && |p.consts| <= 256
    ensures Runs(vm, p, e, pc, k, stack, w, n)
    decreases Size(e), 0
  {
    ConstIndex(p, k, Consts(e), 0);
    CodeIndex(p, pc, Bytes(e, k), 0);
    CodeIndex(p, pc, Bytes(e, k), 1);
    RunGet(vm, p, pc, e.x, stack, w);
    n := 1;
  }

  lemma {:induction false} AssignRuns(vm: Vm, p: Program, e: Expr, pc: nat, k: nat, stack: seq<Value>, w: World)
    returns (n: nat)
    requires e.Assign? && ExprAt(p, e, pc, k) && CountsFit(e) && |p.consts| <= 256
    ensures Runs(vm, p, e, pc, k, stack, w, n)
    decreases Size(e), 0
  {
    hide Step, Run, At;
    var start, end := Running(State(pc, stack, w)), pc + |Bytes(e.e, k + 1)|;
    AtSplit(p.code, pc, Bytes(e.e, k + 1), [SET_GLOBAL, Byte(k)]);
    CodeIndex(p, end, [SET_GLOBAL, Byte(k)], 0);
    CodeIndex(p, end, [SET_GLOBAL, Byte(k)], 1);
    AtSplit(p.consts, k, [Str(e.x)], Consts(e.e));
    ConstIndex(p, k, [Str(e.x)], 0);
    n := EvalRuns(vm, p, e.e, pc, k + 1, stack, w);
    match Eval(vm, e.e, w)
    case None =>
    case Some((v, w1)) =>
      RunSet(vm, p, end, e.x, stack, v, w1);
      Joined(vm, p, start, n, Running(State(end, stack + [v], w1)), 1, After(Eval(vm, e, w), end + 2, stack));
      n := n + 1;
  }

  lemma CompoundParts(vm: Vm, e: Expr, k: nat, w: World)
    requires e.Compound? && CountsFit(e)
    ensures CountsFit(e.e) && Size(e) == 1 + Size(e.e)
    ensures Bytes(e, k) == [GET_GLOBAL, Byte(k)] + Bytes(e.e, k + 1) + [Opcode(e.cop), SET_GLOBAL, Byte(k)]
    ensures Consts(e) == [Str(e.x)] + Consts(e.e)
    ensures Eval(vm, e, w) ==
      match vm.Get(e.x, w)
      case None => None
      case Some(a) =>
        match Eval(vm, e.e, w) case None => None case Some((b, w1)) => Store(e.x, vm.prim(Opcode(e.cop), [a, b], w1))
  {
  }

  /** The tail `op; SET_GLOBAL x` of compound assignment and of the steps. */
  lemma ArithSetRuns(vm: Vm, p: Program, op: nat, x: string, pc: nat, k: nat, stack: seq<Value>,
                     a: Value, b: Value, w: World) returns (n: nat)
    requires Arity(op, 0) == Some(2) && !HasOperand(op) && At(p.code, pc, [op, SET_GLOBAL, Byte(k)])
    requires At(p.consts, k, [Str(x)]) && |p.consts| <= 256
    ensures Run(vm, p, Running(State(pc, stack + [a] + [b], w)), n)
      == After(Store(x, vm.prim(op, [a, b], w)), pc + 3, stack)
  {
    ConstIndex(p, k, [Str(x)], 0);
    CodeIndex(p, pc, [op, SET_GLOBAL, Byte(k)], 0);
    CodeIndex(p, pc, [op, SET_GLOBAL, Byte(k)], 1);
    CodeIndex(p, pc, [op, SET_GLOBAL, Byte(k)], 2);
    assert stack + [a] + [b] == stack + [a, b];
    RunPrim(vm, p, pc, stack, [a, b], w);
    n := 1;
    match vm.prim(op, [a, b], w)
    case None =>
    case Some((v, w1)) =>
      RunSet(vm, p, pc + 1, x, stack, v, w1);
      Joined(vm, p, Running(State(pc, stack + [a, b], w)), 1, Running(State(pc + 1, stack + [v], w1)), 1,
             Running(State(pc + 3, stack + [v], Set(w1, x, v))));
      n := 2;
  }

  lemma {:induction false} CompoundRuns(vm: Vm, p: Program, e: Expr, pc: nat, k: nat, stack: seq<Value>, w: World)
    returns (n: nat)
    requires e.Compound? && ExprAt(p, e, pc, k) && CountsFit(e) && |p.consts| <= 256
    ensures Runs(vm, p, e, pc, k, stack, w, n)
    decreases Size(e), 0
  {
    hide Step, Run, At, Bytes, Consts, Eval, CountsFit;
    CompoundParts(vm, e, k, w);
    var start, tail := Running(State(pc, stack, w)), [Opcode(e.cop), SET_GLOBAL, Byte(k)];
    var end := pc + 2 + |Bytes(e.e, k + 1)|;
    AtSplit(p.code, pc, [GET_GLOBAL, Byte(k)] + Bytes(e.e, k + 1), tail);
    AtSplit(p.code, pc, [GET_GLOBAL, Byte(k)], Bytes(e.e, k + 1));
    CodeIndex(p, pc, [GET_GLOBAL, Byte(k)], 0);
    CodeIndex(p, pc, [GET_GLOBAL, Byte(k)], 1);
    AtSplit(p.consts, k, [Str(e.x)], Consts(e.e));
    ConstIndex(p, k, [Str(e.x)], 0);
    RunGet(vm, p, pc, e.x, stack, w);
    n := 1;
    match vm.Get(e.x, w)
    case None =>
    case Some(a) =>
      var n1 := EvalRuns(vm, p, e.e, pc + 2, k + 1, stack + [a], w);
      Joined(vm, p, start, n, Running(State(pc + 2, stack + [a], w)), n1, After(Eval(vm, e.e, w), end, stack + [a]));
      n := n + n1;
      match Eval(vm, e.e, w) {
        case None =>
        case Some((b, w1)) =>
          var n2 := ArithSetRuns(vm, p, Opcode(e.cop), e.x, end, k, stack, a, b, w1);
          Joined(vm, p, start, n, Running(State(end, stack + [a] + [b], w1)), n2, After(Eval(vm, e, w), end + 3, stack));
          n := n + n2;
      }
  }

  lemma {:induction false} PreStepRuns(vm: Vm, p: Program, e: Expr, pc: nat, k: nat, stack: seq<Value>, w: World)
    returns (n: nat)
    requires e.PreStep? && ExprAt(p, e, pc, k) && CountsFit(e) && |p.consts| <= 256
    ensures Runs(vm, p, e, pc, k, stack, w, n)
    decreases Size(e), 1
  {
    var c := Compound(if e.up then OpAdd else OpSub, e.x, Const(Num(1.0)));
    assert Bytes(c, k) == Bytes(e, k) && Consts(c) == Consts(e);
    assert Eval(vm, c.e, w) == Some((Num(1.0), w)) && Size(c) == 2;
    n := CompoundRuns(vm, p, c, pc, k, stack, w);
  }

  lemma {:induction false} PostStepRuns(vm: Vm, p: Program, e: Expr, pc: nat, k: nat, stack: seq<Value>, w: World)
    returns (n: nat)
    requires e.PostStep? && ExprAt(p, e, pc, k) && CountsFit(e) && |p.consts| <= 256
    ensures Runs(vm, p, e, pc, k, stack, w, n)
    decreases Size(e), 1
  {
    hide Step, Run, At;
    var start, head, tail := Running(State(pc, stack, w)), [GET_GLOBAL, Byte(k)], [POP];
    var c := Compound(if e.up then OpAdd else OpSub, e.x, Const(Num(1.0)));
    assert Bytes(e, k) == head + Bytes(c, k) + tail && Consts(c) == Consts(e);
    assert Eval(vm, c.e, w) == Some((Num(1.0), w)) && Size(c) == 2;
    AtSplit(p.code, pc, head + Bytes(c, k), tail);
    AtSplit(p.code, pc, head, Bytes(c, k));
    CodeIndex(p, pc, head, 0);
    CodeIndex(p, pc, head, 1);
    CodeIndex(p, pc + 9, tail, 0);
    ConstIndex(p, k, Consts(e), 0);
    RunGet(vm, p, pc, e.x, stack, w);
    n := 1;
    match vm.Get(e.x, w)
    case None =>
    case Some(a) =>
      var n1 := CompoundRuns(vm, p, c, pc + 2, k, stack + [a], w);
      Joined(vm, p, start, 1, Running(State(pc + 2, stack + [a], w)), n1, After(Eval(vm, c, w), pc + 9, stack + [a]));
      n := 1 + n1;
      match Eval(vm, c, w) {
        case None =>
        case Some((v, w1)) =>
          RunPop(vm, p, pc + 9, stack + [a], v, w1);
          Joined(vm, p, start, n, Running(State(pc + 9, stack + [a] + [v], w1)), 1, Running(State(pc + 10, stack + [a], w1)));
          n := n + 1;
      }
  }

  /** Two operands, left to right. */
  function Pair(vm: Vm, l: Expr, r: Expr, w: World): Option<(seq<Value>, World)> {
    match Eval(vm, l, w)
    case None => None
    case Some((a, w1)) =>
      match Eval(vm, r, w1)
      case None => None
      case Some((b, w2)) => Some(([a, b], w2))
  }

  lemma BinaryParts(vm: Vm, e: Expr, k: nat, w: World)
    requires e.Binary? && CountsFit(e)
    ensures CountsFit(e.left) && CountsFit(e.right) && Size(e) > Size(e.left) + Size(e.right)
    ensures Bytes(e, k) == Bytes(e.left, k) + Bytes(e.right, k + |Consts(e.left)|) + [Opcode(e.op)]
    ensures Consts(e) == Consts(e.left) + Consts(e.right)
    ensures Eval(vm, e, w) ==
      match Pair(vm, e.left, e.right, w) case None => None case Some((vs, w2)) => vm.prim(Opcode(e.op), vs, w2)
  {
  }

  lemma {:induction false} PairRuns(vm: Vm, p: Program, l: Expr, r: Expr, pc: nat, k: nat, stack: seq<Value>, w: World)
    returns (n: nat)
    requires ExprAt(p, l, pc, k) && ExprAt(p, r, pc + |Bytes(l, k)|, k + |Consts(l)|)
    requires CountsFit(l) && CountsFit(r) && |p.consts| <= 256
    ensures Run(vm, p, Running(State(pc, stack, w)), n)
      == AfterAll(Pair(vm, l, r, w), pc + |Bytes(l, k)| + |Bytes(r, k + |Consts(l)|)|, stack)
    decreases Size(l) + Size(r), 0
  {
    hide Step, Run, At, Bytes, Consts, Eval, CountsFit;
    var start, k1 := Running(State(pc, stack, w)), k + |Consts(l)|;
    var pc1 := pc + |Bytes(l, k)|;
    n := EvalRuns(vm, p, l, pc, k, stack, w);
    match Eval(vm, l, w)
    case None =>
    case Some((a, w1)) =>
      var n1 := EvalRuns(vm, p, r, pc1, k1, stack + [a], w1);
      Joined(vm, p, start, n, Running(State(pc1, stack + [a], w1)), n1,
             After(Eval(vm, r, w1), pc1 + |Bytes(r, k1)|, stack + [a]));
      n := n + n1;
      match Eval(vm, r, w1) {
        case None =>
        case Some((b, w2)) => assert stack + [a] + [b] == stack + [a, b];
      }
  }

  lemma {:induction false} BinaryRuns(vm: Vm, p: Program, e: Expr, pc: nat, k: nat, stack: seq<Value>, w: World)
    returns (n: nat)
    requires e.Binary? && ExprAt(p, e, pc, k) && CountsFit(e) && |p.consts| <= 256
    ensures Runs(vm, p, e, pc, k, stack, w, n)
    decreases Size(e), 0
  {
    hide Step, Run, At, Bytes, Consts, Eval, CountsFit;
    BinaryParts(vm, e, k, w);
    var start, k1 := Running(State(pc, stack, w)), k + |Consts(e.left)|;
    var pc1 := pc + |Bytes(e.left, k)|;
    var pc2 := pc1 + |Bytes(e.right, k1)|;
    AtSplit(p.code, pc, Bytes(e.left, k) + Bytes(e.right, k1), [Opcode(e.op)]);
    AtSplit(p.code, pc, Bytes(e.left, k), Bytes(e.right, k1));
    AtSplit(p.consts, k, Consts(e.left), Consts(e.right));
    CodeIndex(p, pc2, [Opcode(e.op)], 0);
    n := PairRuns(vm, p, e.left, e.right, pc, k, stack, w);
    if Pair(vm, e.left, e.right, w).Some? {
      var (vs, w2) := Pair(vm, e.left, e.right, w).value;
      RunPrim(vm, p, pc2, stack, vs, w2);
      Joined(vm, p, start, n, Running(State(pc2, stack + vs, w2)), 1, After(Eval(vm, e, w), pc2 + 1, stack));
      n := n + 1;
    }
  }

  lemma {:induction false} NegRuns(vm: Vm, p: Program, e: Expr, pc: nat, k: nat, stack: seq<Value>, w: World)
    returns (n: nat)
    requires e.Neg? && ExprAt(p, e, pc, k) && CountsFit(e) && |p.consts| <= 256
    ensures Runs(vm, p, e, pc, k, stack, w, n)
    decreases Size(e), 0
  {
    hide Step, Run, At;
    var start, k1 := Running(State(pc, stack, w)), k + |Consts(e.e)|;
    var pc1, tail := pc + |Bytes(e.e, k)|, [PUSH_CONST, Byte(k1), MUL];
    AtSplit(p.code, pc, Bytes(e.e, k), tail);
    AtSplit(p.consts, k, Consts(e.e), [Num(-1.0)]);
    ConstIndex(p, k1, [Num(-1.0)], 0);
    CodeIndex(p, pc1, tail, 0);
    CodeIndex(p, pc1, tail, 1);
    CodeIndex(p, pc1, tail, 2);
    n := EvalRuns(vm, p, e.e, pc, k, stack, w);
    match Eval(vm, e.e, w)
    case None =>
    case Some((a, w1)) =>
      RunConst(vm, p, pc1, stack + [a], w1);
      assert stack + [a] + [Num(-1.0)] == stack + [a, Num(-1.0)];
      RunPrim(vm, p, pc1 + 2, stack, [a, Num(-1.0)], w1);
      Joined(vm, p, Running(State(pc1, stack + [a], w1)), 1, Running(State(pc1 + 2, stack + [a, Num(-1.0)], w1)), 1,
             After(Eval(vm, e, w), pc1 + 3, stack));
      Joined(vm, p, start, n, Running(State(pc1, stack + [a], w1)), 2, After(Eval(vm, e, w), pc1 + 3, stack));
      n := n + 2;
  }

  lemma {:induction false} NotRuns(vm: Vm, p: Program, e: Expr, pc: nat, k: nat, stack: seq<Value>, w: World)
    returns (n: nat)
    requires e.Not? && ExprAt(p, e, pc, k) && CountsFit(e) && |p.consts| <= 256
    ensures Runs(vm, p, e, pc, k, stack, w, n)
    decreases Size(e), 0
  {
    hide Step, Run, At;
    var start, pc1 := Running(State(pc, stack, w)), pc + |Bytes(e.e, k)|;
    AtSplit(p.code, pc, Bytes(e.e, k), [NOT]);
    CodeIndex(p, pc1, [NOT], 0);
    n := EvalRuns(vm, p, e.e, pc, k, stack, w);
    match Eval(vm, e.e, w)
    case None =>
    case Some((a, w1)) =>
      RunPrim(vm, p, pc1, stack, [a], w1);
      Joined(vm, p, start, n, Running(State(pc1, stack + [a], w1)), 1, After(Eval(vm, e, w), pc1 + 1, stack));
      n := n + 1;
  }

  lemma CallParts(vm: Vm, e: Expr, k: nat, w: World)
    requires e.Call? && CountsFit(e)
    ensures AllCountsFit(e.args) && Count(e.args) < 256 && Size(e) == 1 + SizeAll(e.args)
    ensures Bytes(e, k) == BytesAll(e.args, k + 1) + [GET_GLOBAL, Byte(k), CALL, Byte(Count(e.args))]
    ensures Consts(e) == [Str(e.f)] + ConstsAll(e.args)
    ensures Eval(vm, e, w) ==
      match EvalAll(vm, e.args, w)
      case None => None
      case Some((vs, w1)) => match vm.Get(e.f, w1) case None => None case Some(fn) => vm.prim(CALL, vs + [fn], w1)
  {
  }

  lemma {:induction false} AllRuns(vm: Vm, p: Program, es: Exprs, pc: nat, k: nat, stack: seq<Value>, w: World)
    returns (n: nat)
    requires ExprsAt(p, es, pc, k) && AllCountsFit(es) && |p.consts| <= 256
    ensures Run(vm, p, Running(State(pc, stack, w)), n) == AfterAll(EvalAll(vm, es, w), pc + |BytesAll(es, k)|, stack)
    decreases SizeAll(es), 0
  {
    hide Step, At, Bytes, Consts, Eval, CountsFit;
    match es
    case NoExprs =>
      assert stack + [] == stack;
      n := 0;
    case More(e, tail) =>
      var start, k1 := Running(State(pc, stack, w)), k + |Consts(e)|;
      var pc1 := pc + |Bytes(e, k)|;
      AtSplit(p.code, pc, Bytes(e, k), BytesAll(tail, k1));
      AtSplit(p.consts, k, Consts(e), ConstsAll(tail));
      n := EvalRuns(vm, p, e, pc, k, stack, w);
      match Eval(vm, e, w)
      case None =>
      case Some((v, w1)) =>
        var n1 := AllRuns(vm, p, tail, pc1, k1, stack + [v], w1);
        Joined(vm, p, start, n, Running(State(pc1, stack + [v], w1)), n1,
               AfterAll(EvalAll(vm, tail, w1), pc1 + |BytesAll(tail, k1)|, stack + [v]));
        n := n + n1;
        match EvalAll(vm, tail, w1) {
          case None =>
          case Some((vs, w2)) => assert stack + [v] + vs == stack + ([v] + vs);
        }
  }

  lemma {:induction false} CallRuns(vm: Vm, p: Program, e: Expr, pc: nat, k: nat, stack: seq<Value>, w: World)
    returns (n: nat)
    requires e.Call? && ExprAt(p, e, pc, k) && CountsFit(e) && |p.consts| <= 256
    ensures Runs(vm, p, e, pc, k, stack, w, n)
    decreases Size(e), 0
  {
    hide Step, Run, At, Bytes, Consts, Eval, CountsFit, BytesAll, ConstsAll, EvalAll;
    CallParts(vm, e, k, w);
    var start, pc1 := Running(State(pc, stack, w)), pc + |BytesAll(e.args, k + 1)|;
    var tail := [GET_GLOBAL, Byte(k), CALL, Byte(Count(e.args))];
    AtSplit(p.code, pc, BytesAll(e.args, k + 1), tail);
    AtSplit(p.consts, k, [Str(e.f)], ConstsAll(e.args));
    ConstIndex(p, k, [Str(e.f)], 0);
    CodeIndex(p, pc1, tail, 0);
    CodeIndex(p, pc1, tail, 1);
    CodeIndex(p, pc1, tail, 2);
    CodeIndex(p, pc1, tail, 3);
    n := AllRuns(vm, p, e.args, pc, k + 1, stack, w);
    match EvalAll(vm, e.args, w)
    case None =>
    case Some((vs, w1)) =>
      RunGet(vm, p, pc1, e.f, stack + vs, w1);
      var got := match vm.Get(e.f, w1) case None => Stopped case Some(fn) => Running(State(pc1 + 2, stack + vs + [fn], w1));
      Joined(vm, p, start, n, Running(State(pc1, stack + vs, w1)), 1, got);
      n := n + 1;
      match vm.Get(e.f, w1) {
        case None =>
        case Some(fn) =>
          assert stack + vs + [fn] == stack + (vs + [fn]);
          RunPrimWithCount(vm, p, pc1 + 2, stack, vs + [fn], w1);
          Joined(vm, p, start, n, got, 1, After(Eval(vm, e, w), pc1 + 4, stack));
          n := n + 1;
      }
  }

  lemma IndexParts(vm: Vm, e: Expr, k: nat, w: World)
    requires e.Index? && CountsFit(e)
    ensures CountsFit(e.a) && CountsFit(e.i) && Size(e) > Size(e.a) + Size(e.i)
    ensures Bytes(e, k) == Bytes(e.a, k) + Bytes(e.i, k + |Consts(e.a)|) + [ARRAY_GET]
    ensures Consts(e) == Consts(e.a) + Consts(e.i)
    ensures Eval(vm, e, w) ==
      match Pair(vm, e.a, e.i, w) case None => None case Some((vs, w2)) => vm.prim(ARRAY_GET, vs, w2)
  {
  }

  lemma ArrayParts(vm: Vm, e: Expr, k: nat, w: World)
    requires e.Array? && CountsFit(e)
    ensures AllCountsFit(e.elems) && Count(e.elems) < 256 && Size(e) == 1 + SizeAll(e.elems)
    ensures Bytes(e, k) == BytesAll(e.elems, k) + [ARRAY_NEW, Byte(Count(e.elems))]
    ensures Consts(e) == ConstsAll(e.elems)
    ensures Eval(vm, e, w) ==
      match EvalAll(vm, e.elems, w) case None => None case Some((vs, w1)) => vm.prim(ARRAY_NEW, vs, w1)
  {
  }

  lemma {:induction false} ArrayRuns(vm: Vm, p: Program, e: Expr, pc: nat, k: nat, stack: seq<Value>, w: World)
    returns (n: nat)
    requires e.Array? && ExprAt(p, e, pc, k) && CountsFit(e) && |p.consts| <= 256
    ensures Runs(vm, p, e, pc, k, stack, w, n)
    decreases Size(e), 0
  {
    hide Step, Run, At, Bytes, Consts, Eval, CountsFit, BytesAll, ConstsAll, EvalAll;
    ArrayParts(vm, e, k, w);
    var start, pc1 := Running(State(pc, stack, w)), pc + |BytesAll(e.elems, k)|;
    var tail := [ARRAY_NEW, Byte(Count(e.elems))];
    AtSplit(p.code, pc, BytesAll(e.elems, k), tail);
    CodeIndex(p, pc1, tail, 0);
    CodeIndex(p, pc1, tail, 1);
    n := AllRuns(vm, p, e.elems, pc, k, stack, w);
    match EvalAll(vm, e.elems, w)
    case None =>
    case Some((vs, w1)) =>
      RunPrimWithCount(vm, p, pc1, stack, vs, w1);
      Joined(vm, p, start, n, Running(State(pc1, stack + vs, w1)), 1, After(Eval(vm, e, w), pc1 + 2, stack));
      n := n + 1;
  }

  lemma {:induction false} IndexRuns(vm: Vm, p: Program, e: Expr, pc: nat, k: nat, stack: seq<Value>, w: World)
    returns (n: nat)
    requires e.Index? && ExprAt(p, e, pc, k) && CountsFit(e) && |p.consts| <= 256
    ensures Runs(vm, p, e, pc, k, stack, w, n)
    decreases Size(e), 0
  {
    hide Step, Run, At, Bytes, Consts, Eval, CountsFit;
    IndexParts(vm, e, k, w);
    var start, k1 := Running(State(pc, stack, w)), k + |Consts(e.a)|;
    var pc2 := pc + |Bytes(e.a, k)| + |Bytes(e.i, k1)|;
    AtSplit(p.code, pc, Bytes(e.a, k) + Bytes(e.i, k1), [ARRAY_GET]);
    AtSplit(p.code, pc, Bytes(e.a, k), Bytes(e.i, k1));
    AtSplit(p.consts, k, Consts(e.a), Consts(e.i));
    CodeIndex(p, pc2, [ARRAY_GET], 0);
    n := PairRuns(vm, p, e.a, e.i, pc, k, stack, w);
    if Pair(vm, e.a, e.i, w).Some? {
      var (vs, w2) := Pair(vm, e.a, e.i, w).value;
      RunPrim(vm, p, pc2, stack, vs, w2);
      Joined(vm, p, start, n, Running(State(pc2, stack + vs, w2)), 1, After(Eval(vm, e, w), pc2 + 1, stack));
      n := n + 1;
    }
  }

  lemma IndexSetPlaced(p: Program, e: Expr, pc: nat, k: nat)
    requires e.IndexSet? && ExprAt(p, e, pc, k)
    ensures var k1 := k + |Consts(e.a)|;
      var k2, pc1 := k1 + |Consts(e.i)|, pc + |Bytes(e.a, k)|;
      var pc2 := pc1 + |Bytes(e.i, k1)|;
      var pc3 := pc2 + |Bytes(e.e, k2)|;
      && ExprAt(p, e.a, pc, k) && ExprAt(p, e.i, pc1, k1) && ExprAt(p, e.e, pc2, k2)
      && At(p.code, pc3, [ARRAY_SET]) && pc + |Bytes(e, k)| == pc3 + 1
  {
    hide At, Bytes;
    IndexSetBytes(e, k);
    assert At(p.consts, k, Consts(e.a) + Consts(e.i) + Consts(e.e)) by {
      hide ConstsAll;
    }
    hide Consts;
    var k1 := k + |Consts(e.a)|;
    var k2, pc2 := k1 + |Consts(e.i)|, pc + |Bytes(e.a, k)| + |Bytes(e.i, k1)|;
    AtSplit(p.code, pc, Bytes(e.a, k) + Bytes(e.i, k1) + Bytes(e.e, k2), [ARRAY_SET]);
    AtSplit(p.code, pc, Bytes(e.a, k) + Bytes(e.i, k1), Bytes(e.e, k2));
    AtSplit(p.code, pc, Bytes(e.a, k), Bytes(e.i, k1));
    AtSplit(p.consts, k, Consts(e.a) + Consts(e.i), Consts(e.e));
    AtSplit(p.consts, k, Consts(e.a), Consts(e.i));
  }

  lemma IndexSetChildren(e: Expr)
    requires e.IndexSet? && CountsFit(e)
    ensures CountsFit(e.a) && CountsFit(e.i) && CountsFit(e.e) && Size(e) > Size(e.a) + Size(e.i) + Size(e.e)
  {
  }

  lemma IndexSetMeaning(vm: Vm, e: Expr, w: World)
    requires e.IndexSet?
    ensures Eval(vm, e, w) ==
      match Pair(vm, e.a, e.i, w)
      case None => None
      case Some((vs, w2)) =>
        match Eval(vm, e.e, w2) case None => None case Some((v, w3)) => vm.prim(ARRAY_SET, vs + [v], w3)
  {
    if Pair(vm, e.a, e.i, w).Some? {
      var (vs, w2) := Pair(vm, e.a, e.i, w).value;
      if Eval(vm, e.e, w2).Some? {
        assert vs + [Eval(vm, e.e, w2).value.0] == [vs[0], vs[1], Eval(vm, e.e, w2).value.0];
      }
    }
  }

  lemma {:induction false} IndexSetRuns(vm: Vm, p: Program, e: Expr, pc: nat, k: nat, stack: seq<Value>, w: World)
    returns (n: nat)
    requires e.IndexSet? && ExprAt(p, e, pc, k) && CountsFit(e) && |p.consts| <= 256
    ensures Runs(vm, p, e, pc, k, stack, w, n)
    decreases Size(e), 0
  {
    hide Step, Run, At, Bytes, Consts, Eval, CountsFit;
    IndexSetPlaced(p, e, pc, k);
    IndexSetChildren(e);
    IndexSetMeaning(vm, e, w);
    var start, k1 := Running(State(pc, stack, w)), k + |Consts(e.a)|;
    var k2, pc2 := k1 + |Consts(e.i)|, pc + |Bytes(e.a, k)| + |Bytes(e.i, k1)|;
    var pc3 := pc2 + |Bytes(e.e, k2)|;
    CodeIndex(p, pc3, [ARRAY_SET], 0);
    n := PairRuns(vm, p, e.a, e.i, pc, k, stack, w);
    if Pair(vm, e.a, e.i, w).Some? {
      var (vs, w2) := Pair(vm, e.a, e.i, w).value;
      var n1 := EvalRuns(vm, p, e.e, pc2, k2, stack + vs, w2);
      Joined(vm, p, start, n, Running(State(pc2, stack + vs, w2)), n1, After(Eval(vm, e.e, w2), pc3, stack + vs));
      n := n + n1;
      match Eval(vm, e.e, w2) {
        case None =>
        case Some((v, w3)) =>
          assert stack + vs + [v] == stack + (vs + [v]);
          RunPrim(vm, p, pc3, stack, vs + [v], w3);
          Joined(vm, p, start, n, Running(State(pc3, stack + vs + [v], w3)), 1, After(Eval(vm, e, w), pc3 + 1, stack));
          n := n + 1;
      }
    }
  }

  /** Every expression's code pushes exactly its value, from any stack and world, or stops where it fails. */
  lemma {:induction false} EvalRuns(vm: Vm, p: Program, e: Expr, pc: nat, k: nat, stack: seq<Value>, w: World)
    returns (n: nat)
    requires ExprAt(p, e, pc, k) && CountsFit(e) && |p.consts| <= 256
    ensures Runs(vm, p, e, pc, k, stack, w, n)
    decreases Size(e), 2
  {
    match e
    case Const(_) => n := ConstRuns(vm, p, e, pc, k, stack, w);
    case Interpolated(_) => n := InterpolatedRuns(vm, p, e, pc, k, stack, w);
    case Var(_) => n := VarRuns(vm, p, e, pc, k, stack, w);
    case Assign(_, _) => n := AssignRuns(vm, p, e, pc, k, stack, w);
    case Compound(_, _, _) => n := CompoundRuns(vm, p, e, pc, k, stack, w);
    case PostStep(_, _) => n := PostStepRuns(vm, p, e, pc, k, stack, w);
    case PreStep(_, _) => n := PreStepRuns(vm, p, e, pc, k, stack, w);
    case Binary(_, _, _) => n := BinaryRuns(vm, p, e, pc, k, stack, w);
    case Neg(_) => n := NegRuns(vm, p, e, pc, k, stack, w);
    case Not(_) => n := NotRuns(vm, p, e, pc, k, stack, w);
    case Call(_, _) => n := CallRuns(vm, p, e, pc, k, stack, w);
    case Array(_) => n := ArrayRuns(vm, p, e, pc, k, stack, w);
    case Index(_, _) => n := IndexRuns(vm, p, e, pc, k, stack, w);
    case IndexSet(_, _, _) => n := IndexSetRuns(vm, p, e, pc, k, stack, w);
  }
}
