/** Loops longer than their backward jump can span: which are accepted, and what their code does. */
module LongLoops {
  import opened Options
  import opened Machine
  import opened Syntax
  import ExprCode
  import opened Statements
  import opened StatementRuns
  import opened Layout
  import opened Emitters
  import opened Programs

  /** `n` negations of a constant. */
  function Negations(n: nat): Expr {
    if n == 0 then Const(Bool(true)) else Not(Negations(n - 1))
  }

  lemma {:induction false} NegationsWidth(n: nat)
    ensures Width(Negations(n)) == n + 2
  {
    if n > 0 {
      NegationsWidth(n - 1);
    }
  }

  /**
   Loops that are accepted although they do not fit: of `while x { x = not ... not true }` those of 255 to 259 bytes, of
   `for (; x; ) { ... }` and `do { ... } while x` with that body all from 255 bytes on.
   */
  lemma LongLoopsAccepted(n: nat)
    ensures var body := Discard(Assign("x", Negations(n)));
      var s := While(Var("x"), body);
      && WellFormed(s) && Len(s) == n + 11 && WithinLimits(s, 0, 0, 0)
      && (JumpsReach(s) <==> n <= 248) && (LoopsFit(s) <==> n <= 243)
    ensures var s := For(None, Some(Var("x")), None, Discard(Assign("x", Negations(n))));
      && WellFormed(s) && Len(s) == n + 11 && WithinLimits(s, 0, 0, 0)
      && JumpsReach(s) && (LoopsFit(s) <==> n <= 243)
    ensures var s := DoWhile(Discard(Assign("x", Negations(n))), Var("x"));
      && WellFormed(s) && Len(s) == n + 11 && WithinLimits(s, 0, 0, 0)
      && JumpsReach(s) && (LoopsFit(s) <==> n <= 243)
  {
    NegationsWidth(n);
    var body := Discard(Assign("x", Negations(n)));
    assert Width(body.e) == n + 4 && Width(Var("x")) == 2;
    assert LoopLen(Some(Var("x")), None, body) == n + 11;
  }

  /**
   After a round of a compiled `while` that ends normally the machine is not at the start of the loop but at the last
   multiple of 256 up to its length plus one; the two are the same exactly for at most 254 bytes.
   */
  lemma RoundRuns(vm: Vm, p: Program, s: Stmt, w: World, w1: World, w2: World, fuel: nat) returns (n: nat)
    requires s.While? && WhileAt(p, s, 0, 0) && |p.code| == Len(s) && LoopsFit(s.body)
    requires StmtCountsFit(s) && |p.consts| <= 256
    requires Test(vm, Some(s.test), w) == Some((true, w1)) && Exec(vm, s.body, w1, fuel) == Done(w2, Normal)
    ensures After(vm, p, w, n) == Running(State(Len(s) + 1 - Byte(Len(s) + 1), [], w2))
    ensures Len(s) + 1 - Byte(Len(s) + 1) == 0 <==> Len(s) <= 254
  {
    hide Run, Step, Exec, CountsFit, StmtCountsFit, Consts, Eval, Width, WhileAt, LoopsFit, Len, Byte, EndsLoop, TestAt, Laid;
    RoundParts(p, s);
    Spans(Len(s));
    var start, b, end := Running(State(0, [], w)), Width(s.test) + 2, Len(s);
    n := BranchRuns(vm, p, s.test, 0, 0, end, [], w);
    var n1 := BodyRuns(vm, p, s.body, b, |Consts(s.test)|, Closed(end, 0, false), w1, w2, fuel);
    ExprCode.Joined(vm, p, start, n, Running(State(b, [], w1)), n1, Running(State(end - 2, [], w2)));
    BackRuns(vm, p, end, w2);
    ExprCode.Joined(vm, p, start, n + n1, Running(State(end - 2, [], w2)), 1, Running(State(end + 1 - Byte(end + 1), [], w2)));
    n := n + n1 + 1;
  }

  lemma BodyRuns(vm: Vm, p: Program, s: Stmt, pc: nat, k: nat, t: Targets, w: World, w1: World, fuel: nat) returns (n: nat)
    requires Laid(p, s, pc, k, t) && StmtCountsFit(s) && t.Closed? && |p.consts| <= 256
    requires Exec(vm, s, w, fuel) == Done(w1, Normal)
    ensures Run(vm, p, Running(State(pc, [], w)), n) == Running(State(pc + Len(s), [], w1))
  {
    hide Run, Laid, Exec, StmtCountsFit, Len;
    n := StmtRuns(vm, p, s, pc, k, t, [], w, fuel);
  }

  lemma RoundParts(p: Program, s: Stmt)
    requires s.While? && WhileAt(p, s, 0, 0) && LoopsFit(s.body) && StmtCountsFit(s)
    ensures var b := Width(s.test) + 2;
      && TestAt(p, Some(s.test), 0, 0, Len(s)) && Laid(p, s.body, b, |Consts(s.test)|, Closed(Len(s), 0, false))
      && b + Len(s.body) + 2 == Len(s)
    ensures EndsLoop(p, Len(s)) && CountsFit(s.test) && StmtCountsFit(s.body)
  {
    hide Width, TestAt, Laid, Consts, Constants, CountsFit;
  }

  lemma Spans(length: nat)
    ensures length + 1 - Byte(length + 1) == 0 <==> length <= 254
    ensures Byte(length + 1) <= length + 1
  {
  }

  lemma BackRuns(vm: Vm, p: Program, length: nat, w: World)
    requires EndsLoop(p, length) && |p.code| == length
    ensures Run(vm, p, Running(State(length - 2, [], w)), 1) == Running(State(length + 1 - Byte(length + 1), [], w))
  {
    ExprCode.RunOne(vm, p, State(length - 2, [], w));
  }

  /** Where that is behind the end of the code, the machine stops there and never ends the program. */
  lemma RoundStops(vm: Vm, p: Program, s: Stmt, w: World, w1: World, w2: World, fuel: nat)
    requires s.While? && WhileAt(p, s, 0, 0) && |p.code| == Len(s) && LoopsFit(s.body)
    requires StmtCountsFit(s) && |p.consts| <= 256 && Byte(Len(s) + 1) == 0
    requires Test(vm, Some(s.test), w) == Some((true, w1)) && Exec(vm, s.body, w1, fuel) == Done(w2, Normal)
    ensures exists n :: After(vm, p, w, n) == Stopped
    ensures forall n, w3 :: After(vm, p, w, n) != End(p, w3)
  {
    hide WhileAt, LoopsFit, StmtCountsFit, Test, Exec, Run, Step;
    var m := RoundRuns(vm, p, s, w, w1, w2, fuel);
    var start, at := Running(State(0, [], w)), State(Len(s) + 1, [], w2);
    OffTheEnd(vm, p, at);
    ExprCode.Joined(vm, p, start, m, Running(at), 1, Stopped);
    assert After(vm, p, w, m + 1) == Stopped;
    forall n, w3
      ensures After(vm, p, w, n) != End(p, w3)
    {
      if After(vm, p, w, n) == End(p, w3) && n < m {
        StopsAfterEnd(vm, p, w, w3, n, m);
      } else if After(vm, p, w, n) == End(p, w3) && m < n {
        RunningBefore(vm, p, start, m + 1, n);
      }
    }
  }

  lemma OffTheEnd(vm: Vm, p: Program, s: State)
    requires s.pc >= |p.code|
    ensures Run(vm, p, Running(s), 1) == Stopped
  {
    ExprCode.RunOne(vm, p, s);
  }

  /** So the code of such a loop does not do what the program means, unless the program fails. */
  lemma LongLoopMisbehaves(vm: Vm, p: Program, s: Stmt, w: World, w1: World, w2: World, fuel: nat)
    requires s.While? && WhileAt(p, s, 0, 0) && |p.code| == Len(s) && LoopsFit(s.body)
    requires StmtCountsFit(s) && |p.consts| <= 256 && Byte(Len(s) + 1) == 0
    requires Test(vm, Some(s.test), w) == Some((true, w1)) && Exec(vm, s.body, w1, fuel) == Done(w2, Normal)
    requires forall f :: Programs.Outcome(vm, s, w, f) != Fault
    ensures !RunsAsMeantFrom(vm, p, s, w)
  {
    hide WhileAt, LoopsFit, StmtCountsFit, Test, Exec, Programs.Outcome, After;
    RoundStops(vm, p, s, w, w1, w2, fuel);
  }

  // ---- One that is accepted and misbehaves ----

  /** Every computed value is `false`, and only `true` is true. */
  function Falsifier(): Vm {
    Vm((op, args, w) => Some((Bool(false), w)), x => None, v => v == Bool(true))
  }

  lemma {:induction false} NegationsFalse(n: nat, w: World)
    requires n > 0
    ensures Eval(Falsifier(), Negations(n), w) == Some((Bool(false), w))
  {
    if n > 1 {
      NegationsFalse(n - 1, w);
    }
  }

  lemma {:induction false} NegationCounts(n: nat)
    ensures CountsFit(Negations(n))
  {
    if n > 0 {
      NegationCounts(n - 1);
    }
  }

  lemma {:induction false} NegationConsts(n: nat)
    ensures Consts(Negations(n)) == [Bool(true)]
  {
    if n > 0 {
      NegationConsts(n - 1);
    }
  }

  /**
   The 255-byte loop of that form, with 244 negations: it is accepted, the program ends after one round, and the bytes
   that compiling it gave stop without reaching their end.
   */
  lemma NegationLoopMisbehaves(n: nat, p: Program, w: World)
    requires n % 256 == 244 && w.globals == map["x" := Bool(true)]
    requires var s := While(Var("x"), Discard(Assign("x", Negations(n))));
      WhileAt(p, s, 0, 0) && |p.code| == Len(s) && p.consts == Constants(s)
    ensures var s := While(Var("x"), Discard(Assign("x", Negations(n))));
      && Programs.Outcome(Falsifier(), s, w, 2) == Done(Set(w, "x", Bool(false)), Normal)
      && (forall m, w2 :: After(Falsifier(), p, w, m) != End(p, w2)) && !RunsAsMeantFrom(Falsifier(), p, s, w)
  {
    hide Negations, Len, Constants, WhileAt, LoopsFit, StmtCountsFit, Test, Exec, After, RunsAsMeantFrom, Byte;
    var vm, body, w2 := Falsifier(), Discard(Assign("x", Negations(n))), Set(w, "x", Bool(false));
    var s := While(Var("x"), body);
    NegationLoopCounts(n);
    NegationLoopWraps(n);
    NegationRound(n, w);
    forall fuel: nat
      ensures Programs.Outcome(vm, s, w, fuel) == if fuel < 2 then Timeout else Done(w2, Normal)
    {
      RoundOfLoop(vm, Var("x"), body, w, w2, fuel);
    }
    RoundStops(vm, p, s, w, w, w2, 2);
    LongLoopMisbehaves(vm, p, s, w, w, w2, 2);
  }

  lemma NegationLoopCounts(n: nat)
    ensures var s := While(Var("x"), Discard(Assign("x", Negations(n))));
      StmtCountsFit(s) && Constants(s) == [Str("x"), Str("x"), Bool(true)] && LoopsFit(s.body)
  {
    hide Len;
    NegationConsts(n);
    NegationCounts(n);
    var body := Discard(Assign("x", Negations(n)));
    assert Consts(body.e) == [Str("x"), Bool(true)] && Constants(body) == Consts(body.e);
    assert LoopConsts(Some(Var("x")), None, body) == [Str("x"), Str("x"), Bool(true)];
  }

  lemma NegationLoopWraps(n: nat)
    requires n % 256 == 244
    ensures Byte(Len(While(Var("x"), Discard(Assign("x", Negations(n))))) + 1) == 0
  {
    hide Len, Width;
    LongLoopsAccepted(n);
    assert (n + 12) % 256 == 0;
  }

  /** Its test in both worlds, and its body. */
  lemma NegationRound(n: nat, w: World)
    requires n > 0 && w.globals == map["x" := Bool(true)]
    ensures var vm, w2 := Falsifier(), Set(w, "x", Bool(false));
      && Test(vm, Some(Var("x")), w) == Some((true, w)) && Test(vm, Some(Var("x")), w2) == Some((false, w2))
      && forall fuel :: Exec(vm, Discard(Assign("x", Negations(n))), w, fuel) == Done(w2, Normal)
  {
    NegationsFalse(n, w);
    assert Eval(Falsifier(), Assign("x", Negations(n)), w) == Some((Bool(false), Set(w, "x", Bool(false))));
  }

  /** A loop of exactly one round. */
  lemma RoundOfLoop(vm: Vm, test: Expr, body: Stmt, w: World, w2: World, fuel: nat)
    requires Test(vm, Some(test), w) == Some((true, w)) && Test(vm, Some(test), w2) == Some((false, w2))
    requires Exec(vm, body, w, fuel) == Done(w2, Normal)
    ensures Exec(vm, While(test, body), w, fuel) == if fuel < 2 then Timeout else Done(w2, Normal)
  {
    hide Test;
    assert fuel > 0 ==> ExecLoop(vm, Some(test), None, body, w, fuel) == ExecLoop(vm, Some(test), None, body, w2, fuel - 1);
  }
}
