/** Running the laid-out code of a statement does exactly what the statement means. */
module StatementRuns {
  import opened Options
  import opened Machine
  import opened Syntax
  import opened ExprCode
  import opened Statements

  // ---- Widths do not depend on constant indices ----

  lemma {:induction false} BytesWidth(e: Expr, k: nat)
    ensures |Bytes(e, k)| == Width(e)
    decreases Size(e), 1
  {
    match e
    case Assign(_, e1) => BytesWidth(e1, k + 1);
    case Compound(_, _, e1) => BytesWidth(e1, k + 1);
    case Binary(_, _, _) => BinaryWidth(e, k);
    case Neg(e1) => BytesWidth(e1, k);
    case Not(e1) => BytesWidth(e1, k);
    case Call(_, args) => BytesAllWidth(args, k + 1);
    case Array(elems) => BytesAllWidth(elems, k);
    case Index(_, _) => IndexWidth(e, k);
    case IndexSet(_, _, _) => IndexSetWidth(e, k);
    case _ =>
  }

  lemma BinaryWidth(e: Expr, k: nat)
    requires e.Binary?
    ensures |Bytes(e, k)| == Width(e)
    decreases Size(e), 0
  {
    hide Consts, Opcode;
    BytesWidth(e.left, k);
    BytesWidth(e.right, k + |Consts(e.left)|);
  }

  lemma IndexWidth(e: Expr, k: nat)
    requires e.Index?
    ensures |Bytes(e, k)| == Width(e)
    decreases Size(e), 0
  {
    hide Consts;
    BytesWidth(e.a, k);
    BytesWidth(e.i, k + |Consts(e.a)|);
  }

  lemma IndexSetWidth(e: Expr, k: nat)
    requires e.IndexSet?
    ensures |Bytes(e, k)| == Width(e)
    decreases Size(e), 0
  {
    hide Width;
    var k1 := k + |Consts(e.a)|;
    var k2 := k1 + |Consts(e.i)|;
    assert |Bytes(e, k)| == |Bytes(e.a, k)| + |Bytes(e.i, k1)| + |Bytes(e.e, k2)| + 1 by { hide Consts; }
    assert Size(e) > Size(e.a) && Size(e) > Size(e.i) && Size(e) > Size(e.e);
    IndexSetSum(e, k, k1, k2);
  }

  lemma IndexSetSum(e: Expr, k: nat, k1: nat, k2: nat)
    requires e.IndexSet? && |Bytes(e, k)| == |Bytes(e.a, k)| + |Bytes(e.i, k1)| + |Bytes(e.e, k2)| + 1
    ensures |Bytes(e, k)| == Width(e)
    decreases Size(e), -1
  {
    hide Bytes;
    BytesWidth(e.a, k);
    BytesWidth(e.i, k1);
    BytesWidth(e.e, k2);
  }

  lemma {:induction false} BytesAllWidth(es: Exprs, k: nat)
    ensures |BytesAll(es, k)| == WidthAll(es)
    decreases SizeAll(es), 1
  {
    hide Bytes, Consts, Width;
    if es.More? {
      BytesWidth(es.head, k);
      BytesAllWidth(es.tail, k + |Consts(es.head)|);
    }
  }

  // ---- Parts of statements ----

  lemma DropRuns(vm: Vm, p: Program, e: Expr, pc: nat, k: nat, stack: seq<Value>, w: World) returns (n: nat)
    requires DropAt(p, e, pc, k) && CountsFit(e) && |p.consts| <= 256
    ensures Run(vm, p, Running(State(pc, stack, w)), n) ==
      match Eval(vm, e, w) case None => Stopped case Some((_, w1)) => Running(State(pc + Width(e) + 1, stack, w1))
  {
    hide Run, Step, At, Bytes, Consts, Eval, CountsFit, Width;
    BytesWidth(e, k);
    var end := pc + Width(e);
    n := EvalRuns(vm, p, e, pc, k, stack, w);
    match Eval(vm, e, w)
    case None =>
    case Some((v, w1)) =>
      RunPop(vm, p, end, stack, v, w1);
      Joined(vm, p, Running(State(pc, stack, w)), n, Running(State(end, stack + [v], w1)), 1,
             Running(State(end + 1, stack, w1)));
      n := n + 1;
  }

  lemma RunBranch(vm: Vm, p: Program, pc: nat, exit: nat, stack: seq<Value>, v: Value, w: World)
    requires Forward(p, pc, JUMP_IF_FALSE, exit)
    ensures Run(vm, p, Running(State(pc, stack + [v], w)), 1)
      == Running(State(if vm.truthy(v) then pc + 2 else exit, stack, w))
  {
    RunOne(vm, p, State(pc, stack + [v], w));
    assert (stack + [v])[..|stack|] == stack;
  }

  lemma RunForward(vm: Vm, p: Program, pc: nat, op: nat, target: nat, stack: seq<Value>, w: World)
    requires Forward(p, pc, op, target) && (op == JUMP || op == BREAK)
    ensures Run(vm, p, Running(State(pc, stack, w)), 1) == Running(State(target, stack, w))
  {
    RunOne(vm, p, State(pc, stack, w));
  }

  lemma RunBackward(vm: Vm, p: Program, pc: nat, op: nat, from: nat, target: nat, stack: seq<Value>, w: World)
    requires Backward(p, pc, op, from, target) && ((op == LOOP && from == 3) || (op == CONTINUE && from == 2))
    ensures Run(vm, p, Running(State(pc, stack, w)), 1) == Running(State(target, stack, w))
  {
    RunOne(vm, p, State(pc, stack, w));
  }

  predicate TestCountsFit(cond: Option<Expr>) {
    cond.Some? ==> CountsFit(cond.value)
  }

  lemma BranchRuns(vm: Vm, p: Program, e: Expr, pc: nat, k: nat, exit: nat, stack: seq<Value>, w: World)
    returns (n: nat)
    requires TestAt(p, Some(e), pc, k, exit) && CountsFit(e) && |p.consts| <= 256
    ensures Run(vm, p, Running(State(pc, stack, w)), n) ==
      match Eval(vm, e, w)
      case None => Stopped
      case Some((v, w1)) => Running(State(if vm.truthy(v) then pc + Width(e) + 2 else exit, stack, w1))
  {
    hide Run, Step, At, Bytes, Consts, Eval, CountsFit, Width, Forward;
    BytesWidth(e, k);
    var end := pc + Width(e);
    n := EvalRuns(vm, p, e, pc, k, stack, w);
    match Eval(vm, e, w)
    case None =>
    case Some((v, w1)) =>
      RunBranch(vm, p, end, exit, stack, v, w1);
      Joined(vm, p, Running(State(pc, stack, w)), n, Running(State(end, stack + [v], w1)), 1,
             Running(State(if vm.truthy(v) then end + 2 else exit, stack, w1)));
      n := n + 1;
  }

  lemma TestRuns(vm: Vm, p: Program, cond: Option<Expr>, pc: nat, k: nat, exit: nat, stack: seq<Value>, w: World)
    returns (n: nat)
    requires TestAt(p, cond, pc, k, exit) && TestCountsFit(cond) && |p.consts| <= 256
    ensures Run(vm, p, Running(State(pc, stack, w)), n) ==
      match Test(vm, cond, w)
      case None => Stopped
      case Some((go, w1)) => Running(State(if go then pc + TestLen(cond) else exit, stack, w1))
  {
    hide Step, ExprAt, Eval, CountsFit, Width, Forward;
    match cond
    case None => n := 0;
    case Some(e) => n := BranchRuns(vm, p, e, pc, k, exit, stack, w);
  }

  // ---- Statements ----

  /** Where the machine is after an outcome, the statement's code ending at `end`. */
  function Landing(o: Outcome, end: nat, t: Targets, stack: seq<Value>): Result
    requires t.Closed? && !o.Timeout?
  {
    match o
    case Fault => Stopped
    case Done(w, Normal) => Running(State(end, stack, w))
    case Done(w, Broke) => Running(State(t.afterLoop, stack, w))
    case Done(w, Continued) => Running(State(t.next, stack, w))
  }

  /**
   After `n` steps from `start` the machine has landed where the outcome says, its stack as before; or,
   where the fuel ran out, it is still running after at least as many steps as there was fuel.
   */
  ghost predicate Simulates(vm: Vm, p: Program, start: Result, o: Outcome, end: nat, t: Targets, stack: seq<Value>,
                            fuel: nat, n: nat)
    requires t.Closed?
  {
    if o.Timeout? then n >= fuel && Run(vm, p, start, n).Running?
    else Run(vm, p, start, n) == Landing(o, end, t, stack) && (o.Done? && o.signal != Normal ==> n >= 1)
  }

  lemma Prefixed(vm: Vm, p: Program, start: Result, m: nat, mid: Result, o: Outcome, end: nat, t: Targets,
                 stack: seq<Value>, less: nat, n: nat, fuel: nat)
    requires t.Closed? && Run(vm, p, start, m) == mid && Simulates(vm, p, mid, o, end, t, stack, less, n)
    requires fuel <= less + m
    ensures Simulates(vm, p, start, o, end, t, stack, fuel, m + n)
  {
    RunJoins(vm, p, start, m, n);
  }

  /** From the end of a body, or from the target of its `continue`, through the step back to the start. */
  lemma StepRuns(vm: Vm, p: Program, inc: Option<Increment>, i: nat, k: nat, pc: nat, stack: seq<Value>, w: World)
    returns (n: nat)
    requires (inc.Some? ==> DropAt(p, inc.value, i, k)) && Backward(p, i + DropLen(inc), LOOP, 3, pc)
    requires |p.consts| <= 256
    ensures n >= 1 || Statements.Advance(vm, inc, w).Fault?
    ensures Run(vm, p, Running(State(i, stack, w)), n) ==
      match Statements.Advance(vm, inc, w) case Done(w1, _) => Running(State(pc, stack, w1)) case _ => Stopped
  {
    hide Run, Step, At;
    if inc.None? {
      RunBackward(vm, p, i, LOOP, 3, pc, stack, w);
      n := 1;
    } else {
      var e := inc.value;
      n := DropRuns(vm, p, e, i, k, stack, w);
      match Eval(vm, e, w)
      case None =>
      case Some((_, w1)) =>
        RunBackward(vm, p, i + Width(e) + 1, LOOP, 3, pc, stack, w1);
        Joined(vm, p, Running(State(i, stack, w)), n, Running(State(i + Width(e) + 1, stack, w1)), 1,
               Running(State(pc, stack, w1)));
        n := n + 1;
    }
  }

  lemma {:induction false} LoopRuns(vm: Vm, p: Program, cond: Option<Expr>, inc: Option<Increment>, body: Stmt,
                                    pc: nat, k: nat, t: Targets, stack: seq<Value>, w: World, fuel: nat)
    returns (n: nat)
    requires LoopAt(p, cond, inc, body, pc, k) && TestCountsFit(cond) && StmtCountsFit(body)
    requires t.Closed? && |p.consts| <= 256
    ensures Simulates(vm, p, Running(State(pc, stack, w)), ExecLoop(vm, cond, inc, body, w, fuel),
                      pc + LoopLen(cond, inc, body), t, stack, fuel, n)
    decreases fuel, StmtSize(body), 1
  {
    hide Run, Step, At, Laid, DropAt, TestAt, Test;
    hide Exec, Statements.Advance, Len, Constants, CountsFit, StmtCountsFit, Backward;
    var start, end := Running(State(pc, stack, w)), pc + LoopLen(cond, inc, body);
    if fuel == 0 {
      n := 0;
      RunNone(vm, p, start);
      return;
    }
    var b, kb := pc + TestLen(cond), k + |OptionConsts(cond)|;
    var i, ki := b + Len(body), kb + |Constants(body)|;
    var n1 := TestRuns(vm, p, cond, pc, k, end, stack, w);
    n := n1;
    match Test(vm, cond, w)
    case None =>
    case Some((false, w1)) =>
    case Some((true, w1)) =>
      var inner := Closed(end, if inc.Some? then i else pc, inc.Some?);
      var n2 := StmtRuns(vm, p, body, b, kb, inner, stack, w1, fuel);
      Prefixed(vm, p, start, n1, Running(State(b, stack, w1)), Exec(vm, body, w1, fuel), i, inner, stack, fuel, n2, fuel);
      n := n1 + n2;
      match Exec(vm, body, w1, fuel) {
        case Done(w2, signal) =>
          if signal != Broke {
            n := NextRound(vm, p, cond, inc, body, pc, k, t, stack, start, n, signal, w2, fuel);
          }
        case _ =>
      }
  }

  lemma RunNone(vm: Vm, p: Program, r: Result)
    ensures Run(vm, p, r, 0) == r
  {
  }

  /** The rest of a loop once its body has ended normally or with `continue`. */
  lemma {:induction false} NextRound(vm: Vm, p: Program, cond: Option<Expr>, inc: Option<Increment>, body: Stmt,
                                     pc: nat, k: nat, t: Targets, stack: seq<Value>, start: Result, m: nat,
                                     signal: Signal, w: World, fuel: nat) returns (n: nat)
    requires LoopAt(p, cond, inc, body, pc, k) && TestCountsFit(cond) && StmtCountsFit(body)
    requires t.Closed? && |p.consts| <= 256 && fuel > 0
    requires signal == Normal || (signal == Continued && m >= 1)
    requires var i := pc + TestLen(cond) + Len(body);
      Run(vm, p, start, m) == Running(State(if signal == Normal || inc.Some? then i else pc, stack, w))
    ensures var o := match Statements.Advance(vm, inc, w)
        case Done(w1, _) => ExecLoop(vm, cond, inc, body, w1, fuel - 1)
        case other => other;
      Simulates(vm, p, start, o, pc + LoopLen(cond, inc, body), t, stack, fuel, n)
    decreases fuel, StmtSize(body), 0
  {
    hide Run, Step, At, Laid, DropAt, TestAt, Test, Exec;
    hide ExecLoop, Statements.Advance, Len, Constants, CountsFit, StmtCountsFit, Backward;
    var i, ki := pc + TestLen(cond) + Len(body), k + |OptionConsts(cond)| + |Constants(body)|;
    if signal == Normal || inc.Some? {
      var n1 := StepRuns(vm, p, inc, i, ki, pc, stack, w);
      var stepped := Statements.Advance(vm, inc, w);
      if stepped.Done? {
        var w1 := stepped.w;
        Joined(vm, p, start, m, Running(State(i, stack, w)), n1, Running(State(pc, stack, w1)));
        var n2 := LoopRuns(vm, p, cond, inc, body, pc, k, t, stack, w1, fuel - 1);
        Prefixed(vm, p, start, m + n1, Running(State(pc, stack, w1)), ExecLoop(vm, cond, inc, body, w1, fuel - 1),
                 pc + LoopLen(cond, inc, body), t, stack, fuel - 1, n2, fuel);
        n := m + n1 + n2;
      } else {
        Joined(vm, p, start, m, Running(State(i, stack, w)), n1, Stopped);
        n := m + n1;
      }
    } else {
      AdvanceNone(vm, w);
      var n2 := LoopRuns(vm, p, cond, inc, body, pc, k, t, stack, w, fuel - 1);
      Prefixed(vm, p, start, m, Running(State(pc, stack, w)), ExecLoop(vm, cond, inc, body, w, fuel - 1),
               pc + LoopLen(cond, inc, body), t, stack, fuel - 1, n2, fuel);
      n := m + n2;
    }
  }

  lemma AdvanceNone(vm: Vm, w: World)
    ensures Statements.Advance(vm, None, w) == Done(w, Normal)
  {
  }

  lemma {:induction false} DoRuns(vm: Vm, p: Program, s: Stmt, pc: nat, k: nat, t: Targets, stack: seq<Value>,
                                  w: World, fuel: nat) returns (n: nat)
    requires s.DoWhile? && Laid(p, s, pc, k, t) && StmtCountsFit(s) && t.Closed? && |p.consts| <= 256
    ensures Simulates(vm, p, Running(State(pc, stack, w)), ExecDo(vm, s.body, s.test, w, fuel), pc + Len(s), t, stack, fuel, n)
    decreases fuel, StmtSize(s.body), 1
  {
    hide Run, Step, At, Laid, TestAt, Exec, Len, Constants, CountsFit, StmtCountsFit, Backward;
    DoParts(p, s, pc, k, t);
    var start, body, e, test := Running(State(pc, stack, w)), s.body, s.test, pc + Len(s.body);
    var back := test + Width(e) + 2;
    if fuel == 0 {
      n := 0;
      RunNone(vm, p, start);
      return;
    }
    var inner := Closed(back + 2, pc, false);
    n := StmtRuns(vm, p, body, pc, k, inner, stack, w, fuel);
    match Exec(vm, body, w, fuel)
    case Done(w1, Broke) =>
    case Done(w1, Continued) => n := DoAgain(vm, p, s, pc, k, t, stack, start, n, w1, fuel);
    case Done(w1, Normal) =>
      var n1 := BranchRuns(vm, p, e, test, k + |Constants(body)|, back + 2, stack, w1);
      match Eval(vm, e, w1) {
        case None =>
          Joined(vm, p, start, n, Running(State(test, stack, w1)), n1, Stopped);
          n := n + n1;
        case Some((v, w2)) =>
          var next := if vm.truthy(v) then back else back + 2;
          Joined(vm, p, start, n, Running(State(test, stack, w1)), n1, Running(State(next, stack, w2)));
          n := n + n1;
          if vm.truthy(v) {
            RunBackward(vm, p, back, LOOP, 3, pc, stack, w2);
            Joined(vm, p, start, n, Running(State(back, stack, w2)), 1, Running(State(pc, stack, w2)));
            n := DoAgain(vm, p, s, pc, k, t, stack, start, n + 1, w2, fuel);
          }
      }
    case _ =>
  }

  lemma DoParts(p: Program, s: Stmt, pc: nat, k: nat, t: Targets)
    requires s.DoWhile? && Laid(p, s, pc, k, t) && StmtCountsFit(s)
    ensures var test := pc + Len(s.body);
      var back := test + Width(s.test) + 2;
      && Laid(p, s.body, pc, k, Closed(back + 2, pc, false))
      && TestAt(p, Some(s.test), test, k + |Constants(s.body)|, back + 2)
      && Backward(p, back, LOOP, 3, pc) && back + 2 == pc + Len(s)
    ensures StmtCountsFit(s.body) && CountsFit(s.test)
  {
    hide TestAt, Width, CountsFit, Constants;
  }

  lemma {:induction false} DoAgain(vm: Vm, p: Program, s: Stmt, pc: nat, k: nat, t: Targets, stack: seq<Value>,
                                   start: Result, m: nat, w: World, fuel: nat) returns (n: nat)
    requires s.DoWhile? && Laid(p, s, pc, k, t) && StmtCountsFit(s) && t.Closed? && |p.consts| <= 256
    requires fuel > 0 && m >= 1 && Run(vm, p, start, m) == Running(State(pc, stack, w))
    ensures Simulates(vm, p, start, ExecDo(vm, s.body, s.test, w, fuel - 1), pc + Len(s), t, stack, fuel, n)
    decreases fuel, StmtSize(s.body), 0
  {
    hide Run, Step, Laid, ExecDo, Len, StmtCountsFit;
    var o, next := ExecDo(vm, s.body, s.test, w, fuel - 1), Running(State(pc, stack, w));
    n := DoRuns(vm, p, s, pc, k, t, stack, w, fuel - 1);
    Prefixed(vm, p, start, m, next, o, pc + Len(s), t, stack, fuel - 1, n, fuel);
    n := m + n;
  }

  lemma SeqRuns(vm: Vm, p: Program, s: Stmt, pc: nat, k: nat, t: Targets, stack: seq<Value>, w: World, fuel: nat)
    returns (n: nat)
    requires s.Seq? && Laid(p, s, pc, k, t) && StmtCountsFit(s) && t.Closed? && |p.consts| <= 256
    ensures Simulates(vm, p, Running(State(pc, stack, w)), Exec(vm, s, w, fuel), pc + Len(s), t, stack, fuel, n)
    decreases fuel, StmtSize(s), 0, 0
  {
    hide Run, Step, At, Laid, Exec, Len, Constants, StmtCountsFit, StmtSize;
    SeqParts(vm, p, s, pc, k, t, w, fuel);
    var start, mid := Running(State(pc, stack, w)), pc + Len(s.first);
    n := StmtRuns(vm, p, s.first, pc, k, t, stack, w, fuel);
    match Exec(vm, s.first, w, fuel)
    case Done(w1, Normal) =>
      var n1 := StmtRuns(vm, p, s.second, mid, k + |Constants(s.first)|, t, stack, w1, fuel);
      Prefixed(vm, p, start, n, Running(State(mid, stack, w1)), Exec(vm, s.second, w1, fuel), pc + Len(s), t, stack, fuel, n1, fuel);
      n := n + n1;
    case _ =>
  }

  lemma SeqParts(vm: Vm, p: Program, s: Stmt, pc: nat, k: nat, t: Targets, w: World, fuel: nat)
    requires s.Seq? && Laid(p, s, pc, k, t) && StmtCountsFit(s)
    ensures Laid(p, s.first, pc, k, t) && Laid(p, s.second, pc + Len(s.first), k + |Constants(s.first)|, t)
    ensures StmtCountsFit(s.first) && StmtCountsFit(s.second) && Len(s) == Len(s.first) + Len(s.second)
    ensures StmtSize(s.first) < StmtSize(s) && StmtSize(s.second) < StmtSize(s)
    ensures Exec(vm, s, w, fuel) ==
      match Exec(vm, s.first, w, fuel) case Done(w1, Normal) => Exec(vm, s.second, w1, fuel) case other => other
  {
  }

  lemma IfRuns(vm: Vm, p: Program, s: Stmt, pc: nat, k: nat, t: Targets, stack: seq<Value>, w: World, fuel: nat)
    returns (n: nat)
    requires s.If? && Laid(p, s, pc, k, t) && StmtCountsFit(s) && t.Closed? && |p.consts| <= 256
    ensures Simulates(vm, p, Running(State(pc, stack, w)), Exec(vm, s, w, fuel), pc + Len(s), t, stack, fuel, n)
    decreases fuel, StmtSize(s), 0, 0
  {
    hide Run, Step, At, Laid, Exec, Len, Constants, StmtCountsFit, CountsFit, StmtSize, TestAt, Forward, Eval;
    IfParts(p, s, pc, k, t);
    IfMeaning(vm, s, w, fuel);
    var start, thn, ka := Running(State(pc, stack, w)), pc + Width(s.test) + 2, k + |Consts(s.test)|;
    var els := thn + Len(s.thn) + 2;
    n := BranchRuns(vm, p, s.test, pc, k, els, stack, w);
    match Eval(vm, s.test, w)
    case None =>
    case Some((v, w1)) =>
      var branch, at, kb := if vm.truthy(v) then s.thn else s.els, if vm.truthy(v) then thn else els,
        if vm.truthy(v) then ka else ka + |Constants(s.thn)|;
      var n1 := StmtRuns(vm, p, branch, at, kb, t, stack, w1, fuel);
      var o := Exec(vm, branch, w1, fuel);
      Prefixed(vm, p, start, n, Running(State(at, stack, w1)), o, at + Len(branch), t, stack, fuel, n1, fuel);
      n := n + n1;
      if vm.truthy(v) && o.Done? && o.signal == Normal {
        RunForward(vm, p, els - 2, JUMP, pc + Len(s), stack, o.w);
        Joined(vm, p, start, n, Running(State(els - 2, stack, o.w)), 1, Running(State(pc + Len(s), stack, o.w)));
        n := n + 1;
      }
  }

  lemma IfParts(p: Program, s: Stmt, pc: nat, k: nat, t: Targets)
    requires s.If? && Laid(p, s, pc, k, t) && StmtCountsFit(s)
    ensures var thn, ka := pc + Width(s.test) + 2, k + |Consts(s.test)|;
      var els := thn + Len(s.thn) + 2;
      && TestAt(p, Some(s.test), pc, k, els) && Laid(p, s.thn, thn, ka, t)
      && Forward(p, els - 2, JUMP, pc + Len(s)) && Laid(p, s.els, els, ka + |Constants(s.thn)|, t)
      && pc + Len(s) == els + Len(s.els)
    ensures CountsFit(s.test) && StmtCountsFit(s.thn) && StmtCountsFit(s.els)
    ensures StmtSize(s.thn) < StmtSize(s) && StmtSize(s.els) < StmtSize(s)
  {
    hide TestAt, Width, Consts, CountsFit, Constants;
  }

  lemma IfMeaning(vm: Vm, s: Stmt, w: World, fuel: nat)
    requires s.If?
    ensures Exec(vm, s, w, fuel) ==
      match Eval(vm, s.test, w)
      case None => Fault
      case Some((v, w1)) => Exec(vm, if vm.truthy(v) then s.thn else s.els, w1, fuel)
  {
  }

  lemma ForRuns(vm: Vm, p: Program, s: Stmt, pc: nat, k: nat, t: Targets, stack: seq<Value>, w: World, fuel: nat)
    returns (n: nat)
    requires s.For? && Laid(p, s, pc, k, t) && StmtCountsFit(s) && t.Closed? && |p.consts| <= 256
    ensures Simulates(vm, p, Running(State(pc, stack, w)), Exec(vm, s, w, fuel), pc + Len(s), t, stack, fuel, n)
    decreases fuel, StmtSize(s), 0, 0
  {
    hide Run, Step, At, DropAt, LoopAt, ExecLoop, CountsFit, Eval, LoopLen, Width, Consts;
    match s.init
    case None => n := LoopRuns(vm, p, s.cond, s.inc, s.body, pc, k, t, stack, w, fuel);
    case Some(e) =>
      var start, loopAt := Running(State(pc, stack, w)), pc + Width(e) + 1;
      n := DropRuns(vm, p, e, pc, k, stack, w);
      match Eval(vm, e, w) {
        case None =>
        case Some((_, w1)) =>
          var n1 := LoopRuns(vm, p, s.cond, s.inc, s.body, loopAt, k + |Consts(e)|, t, stack, w1, fuel);
          Prefixed(vm, p, start, n, Running(State(loopAt, stack, w1)), ExecLoop(vm, s.cond, s.inc, s.body, w1, fuel),
                   pc + Len(s), t, stack, fuel, n1, fuel);
          n := n + n1;
      }
  }

  lemma JumpRuns(vm: Vm, p: Program, s: Stmt, pc: nat, k: nat, t: Targets, stack: seq<Value>, w: World, fuel: nat)
    returns (n: nat)
    requires (s.Break? || s.Continue?) && Laid(p, s, pc, k, t) && t.Closed?
    ensures Simulates(vm, p, Running(State(pc, stack, w)), Exec(vm, s, w, fuel), pc + Len(s), t, stack, fuel, n)
  {
    hide Run, Step, Forward, Backward;
    n := 1;
    if s.Break? {
      RunForward(vm, p, pc, BREAK, t.afterLoop, stack, w);
    } else if !t.forwards {
      RunBackward(vm, p, pc, CONTINUE, 2, t.next, stack, w);
    } else {
      RunForward(vm, p, pc, JUMP, t.next, stack, w);
    }
  }

  /** The code of every statement simulates its meaning, from any stack, for any amount of fuel. */
  lemma {:induction false} StmtRuns(vm: Vm, p: Program, s: Stmt, pc: nat, k: nat, t: Targets, stack: seq<Value>,
                                    w: World, fuel: nat) returns (n: nat)
    requires Laid(p, s, pc, k, t) && StmtCountsFit(s) && t.Closed? && |p.consts| <= 256
    ensures Simulates(vm, p, Running(State(pc, stack, w)), Exec(vm, s, w, fuel), pc + Len(s), t, stack, fuel, n)
    decreases fuel, StmtSize(s), 0, 1
  {
    hide Run, Step, At, DropAt, LoopAt, ExecLoop, ExecDo, CountsFit, Eval, LoopLen, Width;
    match s
    case Skip =>
      n := 0;
      RunNone(vm, p, Running(State(pc, stack, w)));
    case Seq(_, _) => n := SeqRuns(vm, p, s, pc, k, t, stack, w, fuel);
    case Discard(e) => n := DropRuns(vm, p, e, pc, k, stack, w);
    case If(_, _, _) => n := IfRuns(vm, p, s, pc, k, t, stack, w, fuel);
    case While(e, b) => n := LoopRuns(vm, p, Some(e), None, b, pc, k, t, stack, w, fuel);
    case DoWhile(_, _) => n := DoRuns(vm, p, s, pc, k, t, stack, w, fuel);
    case For(_, _, _, _) => n := ForRuns(vm, p, s, pc, k, t, stack, w, fuel);
    case Break => n := JumpRuns(vm, p, s, pc, k, t, stack, w, fuel);
    case Continue => n := JumpRuns(vm, p, s, pc, k, t, stack, w, fuel);
  }
}
