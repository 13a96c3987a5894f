/**
 Statements of the compiled fragment, their meaning, and the layout of their patched code. A loop of the
 fragment is a test, a body and a step, each of the first and last optional; `while` has only the test.
 */
module Statements {
  import opened Options
  import opened Machine
  import opened Syntax
  import opened ExprCode

  /** The increments of a `for` header that the emitter recognises, in the form of the code it emits for them. */
  type Increment = e: Expr | e.Compound? && e.e.Const? && e.e.v.Num? witness Compound(OpAdd, "", Const(Num(0.0)))

  /** `Discard` is an update statement, or the single expression of a loop body without braces. */
  datatype Stmt =
    | Skip
    | Seq(first: Stmt, second: Stmt)
    | Discard(e: Expr)
    | If(test: Expr, thn: Stmt, els: Stmt)
    | While(test: Expr, body: Stmt)
    | DoWhile(body: Stmt, test: Expr)
    | For(init: Option<Expr>, cond: Option<Expr>, inc: Option<Increment>, body: Stmt)
    | Break
    | Continue

  function StmtSize(s: Stmt): (n: nat)
    ensures n > 0
  {
    match s
    case Seq(a, b) => 1 + StmtSize(a) + StmtSize(b)
    case If(_, a, b) => 1 + StmtSize(a) + StmtSize(b)
    case While(_, b) => 1 + StmtSize(b)
    case DoWhile(b, _) => 1 + StmtSize(b)
    case For(_, _, _, b) => 1 + StmtSize(b)
    case _ => 1
  }

  predicate StmtCountsFit(s: Stmt) {
    match s
    case Seq(a, b) => StmtCountsFit(a) && StmtCountsFit(b)
    case Discard(e) => CountsFit(e)
    case If(e, a, b) => CountsFit(e) && StmtCountsFit(a) && StmtCountsFit(b)
    case While(e, b) => CountsFit(e) && StmtCountsFit(b)
    case DoWhile(b, e) => CountsFit(e) && StmtCountsFit(b)
    case For(init, cond, _, b) =>
      (init.Some? ==> CountsFit(init.value)) && (cond.Some? ==> CountsFit(cond.value)) && StmtCountsFit(b)
    case _ => true
  }

  // ---- Meaning ----

  datatype Signal = Normal | Broke | Continued

  datatype Outcome = Timeout | Fault | Done(w: World, signal: Signal)

  /** The meaning of a statement; the fuel bounds the rounds of loops. */
  function Exec(vm: Vm, s: Stmt, w: World, fuel: nat): Outcome
    decreases fuel, StmtSize(s), 0
  {
    match s
    case Skip => Done(w, Normal)
    case Seq(a, b) => (
      match Exec(vm, a, w, fuel)
      case Done(w1, Normal) => Exec(vm, b, w1, fuel)
      case other => other)
    case Discard(e) => Drop(Eval(vm, e, w))
    case If(e, a, b) => (
      match Eval(vm, e, w)
      case None => Fault
      case Some((v, w1)) => if vm.truthy(v) then Exec(vm, a, w1, fuel) else Exec(vm, b, w1, fuel))
    case While(e, b) => ExecLoop(vm, Some(e), None, b, w, fuel)
    case DoWhile(b, e) => ExecDo(vm, b, e, w, fuel)
    case For(init, cond, inc, b) => (
      match init
      case None => ExecLoop(vm, cond, inc, b, w, fuel)
      case Some(e) =>
        match Eval(vm, e, w)
        case None => Fault
        case Some((_, w1)) => ExecLoop(vm, cond, inc, b, w1, fuel))
    case Break => Done(w, Broke)
    case Continue => Done(w, Continued)
  }

  function Drop(r: Option<(Value, World)>): (o: Outcome)
    ensures !o.Timeout?
  {
    match r case None => Fault case Some((_, w)) => Done(w, Normal)
  }

  /** A missing test is true; its value is then irrelevant. */
  function Test(vm: Vm, cond: Option<Expr>, w: World): Option<(bool, World)> {
    match cond
    case None => Some((true, w))
    case Some(e) => match Eval(vm, e, w) case None => None case Some((v, w1)) => Some((vm.truthy(v), w1))
  }

  function Advance(vm: Vm, inc: Option<Increment>, w: World): (o: Outcome)
    ensures !o.Timeout?
  {
    match inc case None => Done(w, Normal) case Some(e) => Drop(Eval(vm, e, w))
  }

  /** `continue` goes on with the step, or with the test where there is no step. */
  function ExecLoop(vm: Vm, cond: Option<Expr>, inc: Option<Increment>, body: Stmt, w: World, fuel: nat): (o: Outcome)
    ensures o.Done? ==> o.signal == Normal
    decreases fuel, StmtSize(body), 1
  {
    if fuel == 0 then Timeout
    else
      match Test(vm, cond, w)
      case None => Fault
      case Some((false, w1)) => Done(w1, Normal)
      case Some((true, w1)) =>
        match Exec(vm, body, w1, fuel)
        case Done(w2, Broke) => Done(w2, Normal)
        case Done(w2, _) => (
          match Advance(vm, inc, w2)
          case Done(w3, _) => ExecLoop(vm, cond, inc, body, w3, fuel - 1)
          case other => other)
        case other => other
  }

  /** `continue` in a do-while loop starts the body again without testing the condition. */
  function ExecDo(vm: Vm, body: Stmt, test: Expr, w: World, fuel: nat): (o: Outcome)
    ensures o.Done? ==> o.signal == Normal
    decreases fuel, StmtSize(body), 1
  {
    if fuel == 0 then Timeout
    else
      match Exec(vm, body, w, fuel)
      case Done(w1, Broke) => Done(w1, Normal)
      case Done(w1, Continued) => ExecDo(vm, body, test, w1, fuel - 1)
      case Done(w1, Normal) => (
        match Eval(vm, test, w1)
        case None => Fault
        case Some((v, w2)) => if vm.truthy(v) then ExecDo(vm, body, test, w2, fuel - 1) else Done(w2, Normal))
      case other => other
  }

  // ---- Sizes and constants ----

  function Width(e: Expr): nat {
    match e
    case Const(_) => 2
    case Interpolated(_) => 3
    case Var(_) => 2
    case Assign(_, e1) => Width(e1) + 2
    case Compound(_, _, e1) => Width(e1) + 5
    case PostStep(_, _) => 10
    case PreStep(_, _) => 7
    case Binary(_, l, r) => Width(l) + Width(r) + 1
    case Neg(e1) => Width(e1) + 3
    case Not(e1) => Width(e1) + 1
    case Call(_, args) => WidthAll(args) + 4
    case Array(elems) => WidthAll(elems) + 2
    case Index(a, i) => Width(a) + Width(i) + 1
    case IndexSet(a, i, e1) => Width(a) + Width(i) + Width(e1) + 1
  }

  function WidthAll(es: Exprs): nat {
    match es case NoExprs => 0 case More(e, tail) => Width(e) + WidthAll(tail)
  }

  function TestLen(cond: Option<Expr>): nat {
    if cond.Some? then Width(cond.value) + 2 else 0
  }

  function DropLen(e: Option<Expr>): nat {
    if e.Some? then Width(e.value) + 1 else 0
  }

  function LoopLen(cond: Option<Expr>, inc: Option<Increment>, body: Stmt): nat
    decreases body, 1
  {
    TestLen(cond) + Len(body) + DropLen(inc) + 2
  }

  /** Bytes of code. */
  function Len(s: Stmt): nat
    decreases s, 0
  {
    match s
    case Seq(a, b) => Len(a) + Len(b)
    case Discard(e) => Width(e) + 1
    case If(e, a, b) => Width(e) + 2 + Len(a) + 2 + Len(b)
    case While(e, b) => LoopLen(Some(e), None, b)
    case DoWhile(b, e) => Len(b) + Width(e) + 4
    case For(init, cond, inc, b) => DropLen(init) + LoopLen(cond, inc, b)
    case Break => 2
    case Continue => 2
    case Skip => 0
  }

  function OptionConsts(e: Option<Expr>): seq<Value> {
    if e.Some? then Consts(e.value) else []
  }

  function LoopConsts(cond: Option<Expr>, inc: Option<Increment>, body: Stmt): seq<Value>
    decreases body, 1
  {
    OptionConsts(cond) + Constants(body) + OptionConsts(inc)
  }

  function Constants(s: Stmt): seq<Value>
    decreases s, 0
  {
    match s
    case Seq(a, b) => Constants(a) + Constants(b)
    case Discard(e) => Consts(e)
    case If(e, a, b) => Consts(e) + Constants(a) + Constants(b)
    case While(e, b) => LoopConsts(Some(e), None, b)
    case DoWhile(b, e) => Constants(b) + Consts(e)
    case For(init, cond, inc, b) => OptionConsts(init) + LoopConsts(cond, inc, b)
    case _ => []
  }

  // ---- Layout ----

  /**
   Where the jumps of a statement's own `break`s and `continue`s lead, the latter forwards as plain jumps or
   backwards; `Open` while they are not yet patched.
   */
  datatype Targets = Open | Closed(afterLoop: nat, next: nat, forwards: bool)

  /** A jump forwards at `at`: its operand counts from after the operand. */
  predicate Forward(p: Program, at: nat, op: nat, target: nat) {
    at + 1 < |p.code| && p.code[at] == op && at + 2 + p.code[at + 1] == target
  }

  /** A jump backwards, its operand counting from `from` bytes after the opcode. */
  predicate Backward(p: Program, at: nat, op: nat, from: nat, target: nat) {
    at + 1 < |p.code| && p.code[at] == op && target + p.code[at + 1] == at + from
  }

  predicate Hole(p: Program, at: nat, op: nat) {
    at + 1 < |p.code| && p.code[at] == op && p.code[at + 1] == 0
  }

  predicate BreakTo(p: Program, at: nat, t: Targets) {
    match t
    case Open => Hole(p, at, BREAK)
    case Closed(afterLoop, _, _) => Forward(p, at, BREAK, afterLoop)
  }

  predicate ContinueTo(p: Program, at: nat, t: Targets) {
    match t
    case Open => Hole(p, at, CONTINUE)
    case Closed(_, next, forwards) => if forwards then Forward(p, at, JUMP, next) else Backward(p, at, CONTINUE, 2, next)
  }

  ghost predicate DropAt(p: Program, e: Expr, pc: nat, k: nat) {
    ExprAt(p, e, pc, k) && pc + Width(e) < |p.code| && p.code[pc + Width(e)] == POP
  }

  ghost predicate TestAt(p: Program, cond: Option<Expr>, pc: nat, k: nat, exit: nat) {
    cond.Some? ==> ExprAt(p, cond.value, pc, k) && Forward(p, pc + Width(cond.value), JUMP_IF_FALSE, exit)
  }

  ghost predicate LoopAt(p: Program, cond: Option<Expr>, inc: Option<Increment>, body: Stmt, pc: nat, k: nat)
    decreases body, 1
  {
    var b, kb := pc + TestLen(cond), k + |OptionConsts(cond)|;
    var i, ki := b + Len(body), kb + |Constants(body)|;
    var back := i + DropLen(inc);
    && TestAt(p, cond, pc, k, back + 2)
    && Laid(p, body, b, kb, Closed(back + 2, if inc.Some? then i else pc, inc.Some?))
    && (inc.Some? ==> DropAt(p, inc.value, i, ki))
    && Backward(p, back, LOOP, 3, pc)
  }

  /** The patched code of `s` stands at `pc`, its constants at index `k`; its own jumps out lead to `t`. */
  ghost predicate Laid(p: Program, s: Stmt, pc: nat, k: nat, t: Targets)
    decreases s, 0
  {
    match s
    case Skip => true
    case Seq(a, b) => Laid(p, a, pc, k, t) && Laid(p, b, pc + Len(a), k + |Constants(a)|, t)
    case Discard(e) => DropAt(p, e, pc, k)
    case If(e, a, b) =>
      var thn, ka := pc + Width(e) + 2, k + |Consts(e)|;
      var els := thn + Len(a) + 2;
      && TestAt(p, Some(e), pc, k, els)
      && Laid(p, a, thn, ka, t)
      && Forward(p, els - 2, JUMP, els + Len(b))
      && Laid(p, b, els, ka + |Constants(a)|, t)
    case While(e, b) => LoopAt(p, Some(e), None, b, pc, k)
    case DoWhile(b, e) =>
      var test := pc + Len(b);
      var back := test + Width(e) + 2;
      && Laid(p, b, pc, k, Closed(back + 2, pc, false))
      && TestAt(p, Some(e), test, k + |Constants(b)|, back + 2)
      && Backward(p, back, LOOP, 3, pc)
    case For(init, cond, inc, b) =>
      && (init.Some? ==> DropAt(p, init.value, pc, k))
      && LoopAt(p, cond, inc, b, pc + DropLen(init), k + |OptionConsts(init)|)
    case Break => BreakTo(p, pc, t)
    case Continue => ContinueTo(p, pc, t)
  }

  // ---- Limits ----

  /** Every loop is short enough for its backward jump: at most 254 bytes. */
  predicate LoopsFit(s: Stmt) {
    match s
    case Seq(a, b) => LoopsFit(a) && LoopsFit(b)
    case If(_, a, b) => LoopsFit(a) && LoopsFit(b)
    case While(e, b) => LoopLen(Some(e), None, b) <= 254 && LoopsFit(b)
    case DoWhile(b, _) => Len(s) <= 254 && LoopsFit(b)
    case For(_, cond, inc, b) => LoopLen(cond, inc, b) <= 254 && LoopsFit(b)
    case _ => true
  }

  const MAX_LOOPS: nat := 8
  const MAX_JUMPS: nat := 16

  /** Own `break`s, then own `continue`s: operand positions in order. */
  function Breaks(s: Stmt, pc: nat): seq<nat> {
    match s
    case Seq(a, b) => Breaks(a, pc) + Breaks(b, pc + Len(a))
    case If(e, a, b) => Breaks(a, pc + Width(e) + 2) + Breaks(b, pc + Width(e) + 2 + Len(a) + 2)
    case Break => [pc + 1]
    case _ => []
  }

  function Continues(s: Stmt, pc: nat): seq<nat> {
    match s
    case Seq(a, b) => Continues(a, pc) + Continues(b, pc + Len(a))
    case If(e, a, b) => Continues(a, pc + Width(e) + 2) + Continues(b, pc + Width(e) + 2 + Len(a) + 2)
    case Continue => [pc + 1]
    case _ => []
  }

  function BreakCount(s: Stmt): nat {
    match s
    case Seq(a, b) => BreakCount(a) + BreakCount(b)
    case If(_, a, b) => BreakCount(a) + BreakCount(b)
    case Break => 1
    case _ => 0
  }

  function ContinueCount(s: Stmt): nat {
    match s
    case Seq(a, b) => ContinueCount(a) + ContinueCount(b)
    case If(_, a, b) => ContinueCount(a) + ContinueCount(b)
    case Continue => 1
    case _ => 0
  }

  predicate BackInReach(continues: seq<nat>, target: nat) {
    forall c :: c in continues ==> target <= c + 1 <= target + 255
  }

  predicate ForwardInReach(continues: seq<nat>, target: nat) {
    forall c :: c in continues ==> c < target <= c + 256
  }

  /**
   The checked jumps of a loop, but not of its body, span at most 255 bytes: the exit of a `while` and every
   `continue`. Positions count from the start of the test, of a do-while's body, or of the body of a loop with a step.
   */
  predicate LoopReaches(s: Stmt) {
    match s
    case While(e, b) => Len(b) + 2 <= 255 && BackInReach(Continues(b, TestLen(Some(e))), 0)
    case DoWhile(b, _) => BackInReach(Continues(b, 0), 0)
    case For(_, cond, inc, b) =>
      if inc.Some? then ForwardInReach(Continues(b, 0), Len(b)) else BackInReach(Continues(b, TestLen(cond)), 0)
    case _ => true
  }

  /** Every loop's checked jumps reach. */
  predicate JumpsReach(s: Stmt) {
    && LoopReaches(s)
    && match s
       case Seq(a, b) => JumpsReach(a) && JumpsReach(b)
       case If(_, a, b) => JumpsReach(a) && JumpsReach(b)
       case While(_, b) => JumpsReach(b)
       case DoWhile(b, _) => JumpsReach(b)
       case For(_, _, _, b) => JumpsReach(b)
       case _ => true
  }

  /** Inside `depth` loops, with `nb` breaks and `nc` continues of the innermost before it, `s` exceeds no limit. */
  predicate WithinLimits(s: Stmt, depth: nat, nb: nat, nc: nat) {
    match s
    case Seq(a, b) =>
      WithinLimits(a, depth, nb, nc) && WithinLimits(b, depth, nb + BreakCount(a), nc + ContinueCount(a))
    case If(_, a, b) =>
      && WithinLimits(a, depth, nb, nc) && WithinLimits(b, depth, nb + BreakCount(a), nc + ContinueCount(a))
      && Len(a) + 2 <= 255 && Len(b) <= 255
    case While(_, b) => depth < MAX_LOOPS && WithinLimits(b, depth + 1, 0, 0)
    case DoWhile(b, _) => depth < MAX_LOOPS && WithinLimits(b, depth + 1, 0, 0)
    case For(_, _, _, b) => depth < MAX_LOOPS && WithinLimits(b, depth + 1, 0, 0)
    case Break => depth > 0 && nb < MAX_JUMPS
    case Continue => depth > 0 && nc < MAX_JUMPS
    case _ => true
  }

  // ---- The limits, by counting ----

  function LoopDepth(s: Stmt): nat {
    match s
    case Seq(a, b) => if LoopDepth(a) < LoopDepth(b) then LoopDepth(b) else LoopDepth(a)
    case If(_, a, b) => if LoopDepth(a) < LoopDepth(b) then LoopDepth(b) else LoopDepth(a)
    case While(_, b) => LoopDepth(b) + 1
    case DoWhile(b, _) => LoopDepth(b) + 1
    case For(_, _, _, b) => LoopDepth(b) + 1
    case _ => 0
  }

  /** At most 16 own breaks and 16 own continues in a loop's body. */
  predicate BodyCounts(body: Stmt) {
    BreakCount(body) <= 16 && ContinueCount(body) <= 16
  }

  /** Each loop's body counts, and the jumps over both branches of every `if` reach. */
  predicate EachCounts(s: Stmt) {
    match s
    case Seq(a, b) => EachCounts(a) && EachCounts(b)
    case If(_, a, b) => Len(a) <= 253 && Len(b) <= 255 && EachCounts(a) && EachCounts(b)
    case While(_, b) => BodyCounts(b) && EachCounts(b)
    case DoWhile(b, _) => BodyCounts(b) && EachCounts(b)
    case For(_, _, _, b) => BodyCounts(b) && EachCounts(b)
    case _ => true
  }

  predicate Counted(s: Stmt, depth: nat, nb: nat, nc: nat) {
    && depth + LoopDepth(s) <= 8 && EachCounts(s)
    && nb + BreakCount(s) <= (if depth == 0 then 0 else 16)
    && nc + ContinueCount(s) <= (if depth == 0 then 0 else 16)
  }

  /** One statement behind another, or the branches of an `if`. */
  lemma CountedBoth(s: Stmt, a: Stmt, b: Stmt, depth: nat, nb: nat, nc: nat)
    requires s == Seq(a, b) || (s.If? && s.thn == a && s.els == b && Len(a) <= 253 && Len(b) <= 255)
    ensures Counted(s, depth, nb, nc) <==>
      Counted(a, depth, nb, nc) && Counted(b, depth, nb + BreakCount(a), nc + ContinueCount(a))
  {
    hide Len;
  }

  lemma WithinBoth(s: Stmt, a: Stmt, b: Stmt, depth: nat, nb: nat, nc: nat)
    requires s == Seq(a, b) || (s.If? && s.thn == a && s.els == b && Len(a) <= 253 && Len(b) <= 255)
    ensures WithinLimits(s, depth, nb, nc) <==>
      WithinLimits(a, depth, nb, nc) && WithinLimits(b, depth, nb + BreakCount(a), nc + ContinueCount(a))
  {
    hide Len;
  }

  lemma CountedLoop(s: Stmt, b: Stmt, depth: nat, nb: nat, nc: nat)
    requires (s.While? || s.DoWhile? || s.For?) && s.body == b && nb <= 16 && nc <= 16 && (depth == 0 ==> nb == nc == 0)
    ensures Counted(s, depth, nb, nc) <==> depth < 8 && Counted(b, depth + 1, 0, 0)
  {
    hide Len;
  }

  lemma {:induction false} LimitsInside(s: Stmt, depth: nat, nb: nat, nc: nat)
    requires depth <= 8 && nb <= 16 && nc <= 16 && (depth == 0 ==> nb == nc == 0)
    ensures WithinLimits(s, depth, nb, nc) <==> Counted(s, depth, nb, nc)
    decreases s
  {
    hide Len;
    match s
    case Seq(a, b) => LimitsOfBoth(s, a, b, depth, nb, nc);
    case If(_, a, b) =>
      if Len(a) <= 253 && Len(b) <= 255 {
        LimitsOfBoth(s, a, b, depth, nb, nc);
      }
    case While(_, b) => LimitsOfLoop(s, b, depth, nb, nc);
    case DoWhile(b, _) => LimitsOfLoop(s, b, depth, nb, nc);
    case For(_, _, _, b) => LimitsOfLoop(s, b, depth, nb, nc);
    case _ =>
  }

  lemma LimitsOfBoth(s: Stmt, a: Stmt, b: Stmt, depth: nat, nb: nat, nc: nat)
    requires s == Seq(a, b) || (s.If? && s.thn == a && s.els == b && Len(a) <= 253 && Len(b) <= 255)
    requires depth <= 8 && nb <= 16 && nc <= 16 && (depth == 0 ==> nb == nc == 0)
    ensures WithinLimits(s, depth, nb, nc) <==> Counted(s, depth, nb, nc)
    decreases s, 0
  {
    hide Len, WithinLimits, EachCounts, LoopDepth, BreakCount, ContinueCount;
    LimitsInside(a, depth, nb, nc);
    WithinBoth(s, a, b, depth, nb, nc);
    CountedBoth(s, a, b, depth, nb, nc);
    if Counted(a, depth, nb, nc) {
      LimitsInside(b, depth, nb + BreakCount(a), nc + ContinueCount(a));
    }
  }

  lemma LimitsOfLoop(s: Stmt, b: Stmt, depth: nat, nb: nat, nc: nat)
    requires (s.While? || s.DoWhile? || s.For?) && s.body == b
    requires depth <= 8 && nb <= 16 && nc <= 16 && (depth == 0 ==> nb == nc == 0)
    ensures WithinLimits(s, depth, nb, nc) <==> Counted(s, depth, nb, nc)
    decreases s, 0
  {
    hide Counted;
    CountedLoop(s, b, depth, nb, nc);
    if depth < 8 {
      LimitsInside(b, depth + 1, 0, 0);
    }
  }

  /**
   The limits a program is compiled within: loops nest at most eight deep, each has at most sixteen own breaks and as
   many continues, none stands outside a loop, and the branches of every `if` are short enough to be jumped over.
   */
  lemma Limits(s: Stmt)
    ensures WithinLimits(s, 0, 0, 0) <==> LoopDepth(s) <= 8 && BreakCount(s) == ContinueCount(s) == 0 && EachCounts(s)
  {
    hide WithinLimits, LoopDepth, EachCounts, BreakCount, ContinueCount;
    LimitsInside(s, 0, 0, 0);
  }
}
