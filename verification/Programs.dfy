/** Whole programs: the code the emitter produces ends, fails or runs forever exactly as the program does. */
module Programs {
  import opened Options
  import opened Machine
  import opened Syntax
  import opened ExprCode
  import opened Statements
  import opened StatementRuns
  import opened Layout
  import opened Emitters

  /** `p` is the code of the whole program `s`. */
  ghost predicate IsProgram(p: Program, s: Stmt) {
    Laid(p, s, 0, 0, Open) && |p.code| == Len(s) && BreakCount(s) == 0 && ContinueCount(s) == 0
  }

  /** How the program ends within an amount of fuel. */
  function Outcome(vm: Vm, s: Stmt, w: World, fuel: nat): Statements.Outcome {
    Exec(vm, s, w, fuel)
  }

  /** The machine after `n` instructions of `p` from an empty stack. */
  function After(vm: Vm, p: Program, w: World, n: nat): Result {
    Run(vm, p, Running(State(0, [], w)), n)
  }

  function End(p: Program, w: World): Result {
    Running(State(|p.code|, [], w))
  }

  // ---- Programs with code behind them ----

  /** `p` followed by an instruction that jumps to itself. */
  function Parked(p: Program): Program {
    p.(code := p.code + [LOOP, 3])
  }

  lemma StepParked(vm: Vm, p: Program, s: State)
    requires Step(vm, p, s).Running?
    ensures Step(vm, Parked(p), s) == Step(vm, p, s)
  {
  }

  lemma {:induction false} RunParked(vm: Vm, p: Program, r: Result, n: nat)
    requires Run(vm, p, r, n).Running?
    ensures Run(vm, Parked(p), r, n) == Run(vm, p, r, n)
    decreases n
  {
    hide Step;
    if n > 0 {
      StepParked(vm, p, r.s);
      RunParked(vm, p, Step(vm, p, r.s), n - 1);
    }
  }

  lemma {:induction false} StaysParked(vm: Vm, p: Program, w: World, n: nat)
    ensures Run(vm, Parked(p), End(p, w), n) == End(p, w)
    decreases n
  {
    if n > 0 {
      assert Step(vm, Parked(p), End(p, w).s) == End(p, w);
      StaysParked(vm, p, w, n - 1);
    }
  }

  /** A machine at the end of its code stops with the next instruction. */
  lemma StopsAfterEnd(vm: Vm, p: Program, w: World, w1: World, m: nat, n: nat)
    requires After(vm, p, w, m) == End(p, w1) && m < n
    ensures After(vm, p, w, n) == Stopped
  {
    RunJoins(vm, p, Running(State(0, [], w)), m, n - m);
  }

  // ---- Meaning preserved ----

  lemma Simulated(vm: Vm, p: Program, s: Stmt, w: World, fuel: nat) returns (n: nat)
    requires IsProgram(p, s) && StmtCountsFit(s) && |p.consts| <= 256
    ensures Simulates(vm, p, Running(State(0, [], w)), Exec(vm, s, w, fuel), Len(s), Closed(0, 0, false), [], fuel, n)
  {
    hide Laid, Exec, Len, Simulates;
    CountsOperands(s, 0);
    Relaid(p, p, s, 0, 0, Open, Closed(0, 0, false));
    n := StmtRuns(vm, p, s, 0, 0, Closed(0, 0, false), [], w, fuel);
  }

  /** A statement without own jumps does not end with one. */
  lemma {:induction false} EndsNormally(vm: Vm, s: Stmt, w: World, fuel: nat)
    requires BreakCount(s) == 0 && ContinueCount(s) == 0
    ensures Exec(vm, s, w, fuel).Done? ==> Exec(vm, s, w, fuel).signal == Normal
    decreases StmtSize(s)
  {
    match s
    case Seq(a, b) =>
      EndsNormally(vm, a, w, fuel);
      match Exec(vm, a, w, fuel) {
        case Done(w1, Normal) => EndsNormally(vm, b, w1, fuel);
        case _ =>
      }
    case If(e, a, b) =>
      if Eval(vm, e, w).Some? {
        EndsNormally(vm, a, Eval(vm, e, w).value.1, fuel);
        EndsNormally(vm, b, Eval(vm, e, w).value.1, fuel);
      }
    case _ =>
  }

  /** One amount of fuel: the outcome, and where the machine is. */
  lemma Outcomes(vm: Vm, p: Program, s: Stmt, w: World, fuel: nat) returns (n: nat)
    requires IsProgram(p, s) && StmtCountsFit(s) && |p.consts| <= 256
    ensures match Outcome(vm, s, w, fuel)
      case Timeout => n >= fuel && After(vm, p, w, n).Running?
      case Fault => After(vm, p, w, n) == Stopped
      case Done(w1, _) => After(vm, p, w, n) == End(p, w1)
  {
    hide Laid, Exec, Len, Run, StmtCountsFit;
    n := Simulated(vm, p, s, w, fuel);
    EndsNormally(vm, s, w, fuel);
  }

  lemma StillRunning(vm: Vm, p: Program, w: World, m: nat, n: nat)
    requires After(vm, p, w, n).Running? && m <= n
    ensures After(vm, p, w, m).Running?
  {
    RunningBefore(vm, p, Running(State(0, [], w)), m, n);
  }

  /** A failing program never reaches the end of its code. */
  lemma FaultNeverEnds(vm: Vm, p: Program, s: Stmt, w: World, fuel: nat, w1: World, n: nat)
    requires IsProgram(p, s) && StmtCountsFit(s) && |p.consts| <= 256 && Outcome(vm, s, w, fuel) == Fault
    ensures After(vm, p, w, n) != End(p, w1)
  {
    hide Laid, Exec, Len, Step, Run;
    if After(vm, p, w, n) == End(p, w1) {
      var q, start := Parked(p), Running(State(0, [], w));
      RunParked(vm, p, start, n);
      SameLaid(p, q, s, 0, 0, Open);
      CountsOperands(s, 0);
      Relaid(q, q, s, 0, 0, Open, Closed(0, 0, false));
      var m := StmtRuns(vm, q, s, 0, 0, Closed(0, 0, false), [], w, fuel);
      StaysParked(vm, p, w1, m);
      RunJoins(vm, q, start, n, m);
      RunJoins(vm, q, start, m, n);
      StoppedForever(vm, q, n);
      assert false;
    }
  }

  lemma StoppedForever(vm: Vm, p: Program, n: nat)
    ensures Run(vm, p, Stopped, n) == Stopped
  {
  }

  /** The machine reaches the end of the code in world `w1` exactly when the program ends in it. */
  lemma EndsAsMeant(vm: Vm, p: Program, s: Stmt, w: World, w1: World)
    requires IsProgram(p, s) && StmtCountsFit(s) && |p.consts| <= 256
    ensures (exists fuel :: Outcome(vm, s, w, fuel) == Done(w1, Normal)) <==> (exists n :: After(vm, p, w, n) == End(p, w1))
  {
    hide IsProgram, Outcome, After, StmtCountsFit;
    if fuel: nat :| Outcome(vm, s, w, fuel) == Done(w1, Normal) {
      var n := Outcomes(vm, p, s, w, fuel);
    }
    if n: nat :| After(vm, p, w, n) == End(p, w1) {
      var fuel := n + 1;
      var m := Outcomes(vm, p, s, w, fuel);
      match Outcome(vm, s, w, fuel)
      case Timeout =>
        StillRunning(vm, p, w, n + 1, m);
        StopsAfterEnd(vm, p, w, w1, n, n + 1);
        assert false;
      case Fault => FaultNeverEnds(vm, p, s, w, fuel, w1, n);
      case Done(w2, _) =>
        EndsOnce(vm, p, w, w1, w2, m, n);
        EndsNormal(vm, p, s, w, fuel);
    }
  }

  lemma EndsNormal(vm: Vm, p: Program, s: Stmt, w: World, fuel: nat)
    requires IsProgram(p, s)
    ensures Outcome(vm, s, w, fuel).Done? ==> Outcome(vm, s, w, fuel).signal == Normal
  {
    EndsNormally(vm, s, w, fuel);
  }

  lemma EndsOnce(vm: Vm, p: Program, w: World, w1: World, w2: World, m: nat, n: nat)
    requires After(vm, p, w, n) == End(p, w1) && After(vm, p, w, m) == End(p, w2)
    ensures w1 == w2
  {
    hide After;
    if m < n {
      StopsAfterEnd(vm, p, w, w2, m, n);
    } else if n < m {
      StopsAfterEnd(vm, p, w, w1, n, m);
    }
  }

  /** The machine runs forever exactly when no amount of fuel is enough. */
  lemma DivergesAsMeant(vm: Vm, p: Program, s: Stmt, w: World)
    requires IsProgram(p, s) && StmtCountsFit(s) && |p.consts| <= 256
    ensures (forall fuel :: Outcome(vm, s, w, fuel).Timeout?) <==> (forall n :: After(vm, p, w, n).Running?)
  {
    hide IsProgram, Outcome, After, StmtCountsFit;
    if forall fuel :: Outcome(vm, s, w, fuel).Timeout? {
      forall n
        ensures After(vm, p, w, n).Running?
      {
        var m := Outcomes(vm, p, s, w, n);
        StillRunning(vm, p, w, n, m);
      }
    } else {
      var fuel: nat :| !Outcome(vm, s, w, fuel).Timeout?;
      var n := Outcomes(vm, p, s, w, fuel);
      var o := Outcome(vm, s, w, fuel);
      if o.Done? {
        StopsAfterEnd(vm, p, w, o.w, n, n + 1);
        n := n + 1;
      }
      assert After(vm, p, w, n) == Stopped;
    }
  }

  /** The machine stops without reaching the end of the code exactly when the program fails. */
  lemma FailsAsMeant(vm: Vm, p: Program, s: Stmt, w: World)
    requires IsProgram(p, s) && StmtCountsFit(s) && |p.consts| <= 256
    ensures (exists fuel :: Outcome(vm, s, w, fuel) == Fault)
      <==> (exists n :: After(vm, p, w, n) == Stopped) && (forall n, w1 :: After(vm, p, w, n) != End(p, w1))
  {
    hide IsProgram, Outcome, After, StmtCountsFit;
    if fuel: nat :| Outcome(vm, s, w, fuel) == Fault {
      var n := Outcomes(vm, p, s, w, fuel);
      forall n, w1
        ensures After(vm, p, w, n) != End(p, w1)
      {
        FaultNeverEnds(vm, p, s, w, fuel, w1, n);
      }
    }
    if (exists n :: After(vm, p, w, n) == Stopped) && (forall n, w1 :: After(vm, p, w, n) != End(p, w1)) {
      var n: nat :| After(vm, p, w, n) == Stopped;
      var m := Outcomes(vm, p, s, w, n);
      var o := Outcome(vm, s, w, n);
      if o.Timeout? {
        StillRunning(vm, p, w, n, m);
        assert false;
      } else if o.Done? {
        assert false;
      }
      assert o == Fault;
    }
  }

  // ---- Compiling ----

  /** From `w`, the machine ends, fails or runs forever exactly as the program does. */
  ghost predicate RunsAsMeantFrom(vm: Vm, p: Program, s: Stmt, w: World) {
    && (forall w1 ::
      (exists fuel :: Outcome(vm, s, w, fuel) == Done(w1, Normal)) <==> (exists n :: After(vm, p, w, n) == End(p, w1)))
    && ((exists fuel :: Outcome(vm, s, w, fuel) == Fault)
      <==> (exists n :: After(vm, p, w, n) == Stopped) && (forall n, w1 :: After(vm, p, w, n) != End(p, w1)))
    && ((forall fuel :: Outcome(vm, s, w, fuel).Timeout?) <==> (forall n :: After(vm, p, w, n).Running?))
  }

  ghost predicate RunsAsMeant(p: Program, s: Stmt) {
    forall vm: Vm, w: World :: RunsAsMeantFrom(vm, p, s, w)
  }

  lemma RunIsMeaning(p: Program, s: Stmt)
    requires IsProgram(p, s) && StmtCountsFit(s) && |p.consts| <= 256
    ensures RunsAsMeant(p, s)
  {
    hide IsProgram, Outcome, After, StmtCountsFit;
    forall vm: Vm, w: World
      ensures RunsAsMeantFrom(vm, p, s, w)
    {
      forall w1
        ensures (exists fuel :: Outcome(vm, s, w, fuel) == Done(w1, Normal)) <==> (exists n :: After(vm, p, w, n) == End(p, w1))
      {
        EndsAsMeant(vm, p, s, w, w1);
      }
      FailsAsMeant(vm, p, s, w);
      DivergesAsMeant(vm, p, s, w);
    }
  }

  /**
   Compiles a program. An error is reported exactly when a limit is exceeded or a checked jump does not reach; the
   bytes are the program's code exactly when every loop is short enough, which is not checked. Then, as long as counts
   and constant indices fit a byte, running them is what the program means.
   */
  method Compile(s: Stmt) returns (ok: bool, p: Program)
    requires WellFormed(s)
    ensures ok <==> WithinLimits(s, 0, 0, 0) && JumpsReach(s)
    ensures ok ==> |p.code| == Len(s) && p.consts == Constants(s) && AllBytes(p.code)
    ensures ok ==> (Laid(p, s, 0, 0, Open) <==> LoopsFit(s))
    ensures ok && LoopsFit(s) ==> IsProgram(p, s)
    ensures ok && LoopsFit(s) && StmtCountsFit(s) && |p.consts| <= 256 ==> RunsAsMeant(p, s)
    ensures ok && s.While? ==> WhileAt(p, s, 0, 0)
  {
    hide Laid, LoopsFit, WithinLimits, JumpsReach, StmtCountsFit, WhileAt, RunsAsMeant;
    var emitter := new Emitter();
    ghost var a := emitter.Snap();
    emitter.Statement(s);
    ghost var b := emitter.Snap();
    ok, p := !emitter.hadError, Program(emitter.code, emitter.consts);
    if ok {
      assert [] + Constants(s) == Constants(s);
      if Laid(p, s, 0, 0, Open) {
        FitsIfLaid(p, s, 0, 0, Open);
      }
      if LoopsFit(s) {
        NoJumpsOutside(s, 0, 0);
        if StmtCountsFit(s) && |p.consts| <= 256 {
          RunIsMeaning(p, s);
        }
      }
    }
  }
}
