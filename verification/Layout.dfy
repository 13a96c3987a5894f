/** What patching and appending do to laid-out code, and which statements can be laid out at all. */
module Layout {
  import opened Options
  import opened Machine
  import opened Syntax
  import opened ExprCode
  import opened Statements
  import opened StatementRuns

  /** Byte `i` belongs to a `break` or `continue` of `s` itself, not of a loop inside it. */
  predicate Jumping(s: Stmt, pc: nat, i: nat) {
    match s
    case Seq(a, b) => if i < pc + Len(a) then Jumping(a, pc, i) else Jumping(b, pc + Len(a), i)
    case If(e, a, b) =>
      var thn := pc + Width(e) + 2;
      var els := thn + Len(a) + 2;
      if i < els then i < els - 2 && Jumping(a, thn, i) else Jumping(b, els, i)
    case Break => pc <= i < pc + 2
    case Continue => pc <= i < pc + 2
    case _ => false
  }

  lemma {:induction false} JumpingInside(s: Stmt, pc: nat, i: nat)
    requires Jumping(s, pc, i)
    ensures pc <= i < pc + Len(s)
  {
    hide Width;
    match s
    case Seq(a, b) => if i < pc + Len(a) { JumpingInside(a, pc, i); } else { JumpingInside(b, pc + Len(a), i); }
    case If(e, a, b) =>
      var thn := pc + Width(e) + 2;
      if i < thn + Len(a) + 2 { JumpingInside(a, thn, i); } else { JumpingInside(b, thn + Len(a) + 2, i); }
    case _ =>
  }

  /** `b` is the operand of a jump of `s`. */
  predicate JumpOperand(s: Stmt, pc: nat, b: nat) {
    pc < b < pc + Len(s) && Jumping(s, pc, b) && Jumping(s, pc, b - 1)
  }

  lemma {:induction false} OperandInside(s: Stmt, pc: nat, b: nat)
    requires b in Breaks(s, pc) || b in Continues(s, pc)
    ensures JumpOperand(s, pc, b)
  {
    hide Width, Size, StmtSize;
    match s
    case Seq(x, y) =>
      if b in Breaks(x, pc) || b in Continues(x, pc) {
        OperandInside(x, pc, b);
      } else {
        OperandInside(y, pc + Len(x), b);
      }
    case If(e, x, y) =>
      var thn := pc + Width(e) + 2;
      if b in Breaks(x, thn) || b in Continues(x, thn) {
        OperandInside(x, thn, b);
      } else {
        OperandInside(y, thn + Len(x) + 2, b);
      }
    case _ =>
  }

  lemma OperandsInside(s: Stmt, pc: nat)
    ensures forall b :: b in Breaks(s, pc) || b in Continues(s, pc) ==> JumpOperand(s, pc, b)
  {
    forall b | b in Breaks(s, pc) || b in Continues(s, pc)
      ensures JumpOperand(s, pc, b)
    {
      OperandInside(s, pc, b);
    }
  }

  // ---- Reach ----

  function Moved(cs: seq<nat>, d: nat): seq<nat> {
    seq(|cs|, i requires 0 <= i < |cs| => cs[i] + d)
  }

  lemma MovedJoins(a: seq<nat>, b: seq<nat>, d: nat)
    ensures Moved(a + b, d) == Moved(a, d) + Moved(b, d)
  {
  }

  /** The operands of jumps move with the code. */
  lemma {:induction false} ContinuesMove(s: Stmt, pc: nat, d: nat)
    ensures Continues(s, pc + d) == Moved(Continues(s, pc), d)
  {
    hide Width, Len;
    match s
    case Seq(a, b) =>
      ContinuesMove(a, pc, d);
      ContinuesMove(b, pc + Len(a), d);
      assert pc + d + Len(a) == pc + Len(a) + d;
      MovedJoins(Continues(a, pc), Continues(b, pc + Len(a)), d);
    case If(e, a, b) =>
      var thn := pc + Width(e) + 2;
      var els := thn + Len(a) + 2;
      ContinuesMove(a, thn, d);
      ContinuesMove(b, els, d);
      assert pc + d + Width(e) + 2 == thn + d && thn + d + Len(a) + 2 == els + d;
      MovedJoins(Continues(a, thn), Continues(b, els), d);
    case _ =>
  }

  /** Whether jumps reach depends on distances only. */
  lemma ReachMoves(s: Stmt, pc: nat, target: nat, d: nat)
    ensures BackInReach(Continues(s, pc + d), target + d) <==> BackInReach(Continues(s, pc), target)
    ensures ForwardInReach(Continues(s, pc + d), target + d) <==> ForwardInReach(Continues(s, pc), target)
  {
    hide Continues;
    ContinuesMove(s, pc, d);
    var cs, ms := Continues(s, pc), Continues(s, pc + d);
    assert forall i :: 0 <= i < |cs| ==> cs[i] in cs && ms[i] in ms && ms[i] == cs[i] + d;
  }

  /** In a loop of at most 254 bytes every checked jump reaches. */
  lemma {:induction false} FittingReaches(s: Stmt)
    requires LoopsFit(s)
    ensures JumpsReach(s)
  {
    hide Width, Continues;
    match s
    case Seq(a, b) =>
      FittingReaches(a);
      FittingReaches(b);
    case If(_, a, b) =>
      FittingReaches(a);
      FittingReaches(b);
    case While(e, b) =>
      FittingReaches(b);
      OperandsInside(b, TestLen(Some(e)));
    case DoWhile(b, e) =>
      FittingReaches(b);
      OperandsInside(b, 0);
    case For(_, cond, inc, b) =>
      FittingReaches(b);
      OperandsInside(b, if inc.Some? then 0 else TestLen(cond));
    case _ =>
  }

  // ---- Programs that agree ----

  /** `q` has the bytes of `p` from `lo` to `hi`, and `p`'s constants before any new ones. */
  predicate Agree(p: Program, q: Program, lo: nat, hi: nat) {
    && p.consts <= q.consts && |p.code| <= |q.code|
    && forall i :: lo <= i < hi && i < |p.code| ==> q.code[i] == p.code[i]
  }

  lemma SameExpr(p: Program, q: Program, e: Expr, pc: nat, k: nat)
    requires ExprAt(p, e, pc, k) && Agree(p, q, pc, pc + Width(e))
    ensures ExprAt(q, e, pc, k)
  {
    hide Width, Bytes, Consts;
    BytesWidth(e, k);
    assert q.code[pc..pc + Width(e)] == p.code[pc..pc + Width(e)];
    var n := |Consts(e)|;
    assert q.consts[k..k + n] == p.consts[k..k + n];
  }

  lemma SameDrop(p: Program, q: Program, e: Expr, pc: nat, k: nat)
    requires DropAt(p, e, pc, k) && Agree(p, q, pc, pc + Width(e) + 1)
    ensures DropAt(q, e, pc, k)
  {
    hide Width, ExprAt;
    SameExpr(p, q, e, pc, k);
  }

  lemma SameTest(p: Program, q: Program, cond: Option<Expr>, pc: nat, k: nat, exit: nat)
    requires TestAt(p, cond, pc, k, exit) && Agree(p, q, pc, pc + TestLen(cond))
    ensures TestAt(q, cond, pc, k, exit)
  {
    hide Width, ExprAt;
    if cond.Some? {
      SameExpr(p, q, cond.value, pc, k);
    }
  }

  lemma Narrow(p: Program, q: Program, lo: nat, hi: nat, lo1: nat, hi1: nat)
    requires Agree(p, q, lo, hi) && lo <= lo1 && hi1 <= hi
    ensures Agree(p, q, lo1, hi1)
  {
  }

  lemma SameJump(p: Program, q: Program, at: nat, op: nat, from: nat, target: nat)
    requires Agree(p, q, at, at + 2)
    ensures Forward(p, at, op, target) ==> Forward(q, at, op, target)
    ensures Backward(p, at, op, from, target) ==> Backward(q, at, op, from, target)
  {
  }

  lemma {:induction false} SameLoop(p: Program, q: Program, cond: Option<Expr>, inc: Option<Increment>, body: Stmt,
                                    pc: nat, k: nat)
    requires LoopAt(p, cond, inc, body, pc, k) && Agree(p, q, pc, pc + LoopLen(cond, inc, body))
    ensures LoopAt(q, cond, inc, body, pc, k)
    decreases body, 2
  {
    hide Width, Laid, TestAt, DropAt, Consts, Constants, Agree, Backward, Len;
    var b, kb := pc + TestLen(cond), k + |OptionConsts(cond)|;
    var i := b + Len(body);
    var back := i + DropLen(inc);
    Narrow(p, q, pc, back + 2, pc, b);
    Narrow(p, q, pc, back + 2, b, i);
    Narrow(p, q, pc, back + 2, i, back);
    Narrow(p, q, pc, back + 2, back, back + 2);
    SameTest(p, q, cond, pc, k, back + 2);
    SameLaid(p, q, body, b, kb, Closed(back + 2, if inc.Some? then i else pc, inc.Some?));
    if inc.Some? {
      SameDrop(p, q, inc.value, i, kb + |Constants(body)|);
    }
    SameJump(p, q, back, LOOP, 3, pc);
  }

  lemma {:induction false} SameDo(p: Program, q: Program, s: Stmt, pc: nat, k: nat, t: Targets)
    requires s.DoWhile? && Laid(p, s, pc, k, t) && Agree(p, q, pc, pc + Len(s))
    ensures Laid(q, s, pc, k, t)
    decreases s, 0
  {
    hide Width, TestAt, Consts, Constants, Agree, Backward;
    var test := pc + Len(s.body);
    var back := test + Width(s.test) + 2;
    Narrow(p, q, pc, back + 2, pc, test);
    Narrow(p, q, pc, back + 2, test, back);
    Narrow(p, q, pc, back + 2, back, back + 2);
    SameLaid(p, q, s.body, pc, k, Closed(back + 2, pc, false));
    SameTest(p, q, Some(s.test), test, k + |Constants(s.body)|, back + 2);
    SameJump(p, q, back, LOOP, 3, pc);
  }

  lemma IfLen(s: Stmt)
    requires s.If?
    ensures Len(s) == Width(s.test) + 2 + Len(s.thn) + 2 + Len(s.els)
  {
  }

  lemma {:induction false} SameIf(p: Program, q: Program, s: Stmt, pc: nat, k: nat, t: Targets)
    requires s.If? && Laid(p, s, pc, k, t) && Agree(p, q, pc, pc + Len(s))
    ensures Laid(q, s, pc, k, t)
    decreases s, 0
  {
    hide Width, TestAt, Consts, Constants, Agree, Forward, Len;
    IfLen(s);
    var thn, ka, end := pc + Width(s.test) + 2, k + |Consts(s.test)|, pc + Len(s);
    var els := thn + Len(s.thn) + 2;
    Narrow(p, q, pc, end, pc, thn);
    Narrow(p, q, pc, end, thn, els - 2);
    Narrow(p, q, pc, end, els - 2, els);
    Narrow(p, q, pc, end, els, end);
    SameTest(p, q, Some(s.test), pc, k, els);
    SameLaid(p, q, s.thn, thn, ka, t);
    SameJump(p, q, els - 2, JUMP, 0, end);
    SameLaid(p, q, s.els, els, ka + |Constants(s.thn)|, t);
  }

  /** Laid-out code stays laid out while its bytes and constants stay. */
  lemma {:induction false} SameLaid(p: Program, q: Program, s: Stmt, pc: nat, k: nat, t: Targets)
    requires Laid(p, s, pc, k, t) && Agree(p, q, pc, pc + Len(s))
    ensures Laid(q, s, pc, k, t)
    decreases s, 1
  {
    hide Width, TestAt, DropAt, LoopAt, Consts, LoopLen, Constants, Agree, Forward, Backward;
    match s
    case Seq(a, b) =>
      Narrow(p, q, pc, pc + Len(s), pc, pc + Len(a));
      Narrow(p, q, pc, pc + Len(s), pc + Len(a), pc + Len(s));
      SameLaid(p, q, a, pc, k, t);
      SameLaid(p, q, b, pc + Len(a), k + |Constants(a)|, t);
    case Discard(e) => SameDrop(p, q, e, pc, k);
    case If(_, _, _) => SameIf(p, q, s, pc, k, t);
    case While(e, b) => SameLoop(p, q, Some(e), None, b, pc, k);
    case DoWhile(_, _) => SameDo(p, q, s, pc, k, t);
    case For(init, cond, inc, b) =>
      var at, end := pc + DropLen(init), pc + Len(s);
      Narrow(p, q, pc, end, pc, at);
      Narrow(p, q, pc, end, at, end);
      if init.Some? {
        SameDrop(p, q, init.value, pc, k);
      }
      SameLoop(p, q, cond, inc, b, at, k + |OptionConsts(init)|);
    case Break => SameHole(p, q, pc, t);
    case Continue => SameHole(p, q, pc, t);
    case Skip =>
  }

  lemma SameHole(p: Program, q: Program, at: nat, t: Targets)
    requires Agree(p, q, at, at + 2)
    ensures BreakTo(p, at, t) ==> BreakTo(q, at, t)
    ensures ContinueTo(p, at, t) ==> ContinueTo(q, at, t)
  {
  }

  // ---- Patching ----

  /** `q` differs from `p` within `s` only in the jumps of `s` itself, which now lead to `t`. */
  predicate Retargeted(p: Program, q: Program, s: Stmt, pc: nat, t: Targets) {
    && p.consts <= q.consts && |p.code| <= |q.code|
    && (forall i :: pc <= i < pc + Len(s) && i < |p.code| && !Jumping(s, pc, i) ==> q.code[i] == p.code[i])
    && (forall b :: b in Breaks(s, pc) ==> b > 0 && BreakTo(q, b - 1, t))
    && (forall c :: c in Continues(s, pc) ==> c > 0 && ContinueTo(q, c - 1, t))
  }

  /** A part of a statement, its own jumps being the whole's, is retargeted with the whole. */
  lemma RetargetPart(p: Program, q: Program, s: Stmt, pc: nat, part: Stmt, at: nat, t: Targets)
    requires Retargeted(p, q, s, pc, t) && pc <= at && at + Len(part) <= pc + Len(s)
    requires forall i :: at <= i < at + Len(part) && Jumping(s, pc, i) ==> Jumping(part, at, i)
    requires forall b :: b in Breaks(part, at) ==> b in Breaks(s, pc)
    requires forall c :: c in Continues(part, at) ==> c in Continues(s, pc)
    ensures Retargeted(p, q, part, at, t)
  {
    hide Breaks, Continues, Len, Jumping, BreakTo, ContinueTo;
  }

  lemma RetargetSeq(p: Program, q: Program, s: Stmt, pc: nat, t: Targets)
    requires s.Seq? && Retargeted(p, q, s, pc, t)
    ensures Retargeted(p, q, s.first, pc, t) && Retargeted(p, q, s.second, pc + Len(s.first), t)
  {
    hide Retargeted;
    RetargetPart(p, q, s, pc, s.first, pc, t);
    RetargetPart(p, q, s, pc, s.second, pc + Len(s.first), t);
  }

  lemma RetargetIf(p: Program, q: Program, s: Stmt, pc: nat, t: Targets)
    requires s.If? && Retargeted(p, q, s, pc, t)
    ensures var thn := pc + Width(s.test) + 2;
      var els := thn + Len(s.thn) + 2;
      && Retargeted(p, q, s.thn, thn, t) && Retargeted(p, q, s.els, els, t)
      && Agree(p, q, pc, thn) && Agree(p, q, els - 2, els)
  {
    hide Retargeted, Width;
    var thn := pc + Width(s.test) + 2;
    var els := thn + Len(s.thn) + 2;
    RetargetPart(p, q, s, pc, s.thn, thn, t);
    RetargetPart(p, q, s, pc, s.els, els, t);
    forall i | pc <= i < thn
      ensures !Jumping(s, pc, i)
    {
      if Jumping(s.thn, thn, i) {
        JumpingInside(s.thn, thn, i);
      }
    }
    Untouched(p, q, s, pc, t, pc, thn);
    Untouched(p, q, s, pc, t, els - 2, els);
  }

  lemma Untouched(p: Program, q: Program, s: Stmt, pc: nat, t: Targets, lo: nat, hi: nat)
    requires Retargeted(p, q, s, pc, t) && pc <= lo && hi <= pc + Len(s)
    requires forall i :: lo <= i < hi ==> !Jumping(s, pc, i)
    ensures Agree(p, q, lo, hi)
  {
    hide Breaks, Continues, Len, Jumping;
  }

  /** Patching the own jumps of laid-out code lays it out with the new targets. */
  lemma {:induction false} Relaid(p: Program, q: Program, s: Stmt, pc: nat, k: nat, t0: Targets, t: Targets)
    requires Laid(p, s, pc, k, t0) && Retargeted(p, q, s, pc, t)
    ensures Laid(q, s, pc, k, t)
  {
    hide Width, TestAt, DropAt, LoopAt, Consts, LoopLen, Constants, Forward, Backward, Agree, Retargeted;
    match s
    case Seq(a, b) =>
      RetargetSeq(p, q, s, pc, t);
      Relaid(p, q, a, pc, k, t0, t);
      Relaid(p, q, b, pc + Len(a), k + |Constants(a)|, t0, t);
    case If(e, a, b) =>
      var thn, ka := pc + Width(e) + 2, k + |Consts(e)|;
      var els := thn + Len(a) + 2;
      RetargetIf(p, q, s, pc, t);
      SameTest(p, q, Some(e), pc, k, els);
      Relaid(p, q, a, thn, ka, t0, t);
      SameJump(p, q, els - 2, JUMP, 0, els + Len(b));
      Relaid(p, q, b, els, ka + |Constants(a)|, t0, t);
    case Break => RetargetLeaf(p, q, s, pc, t);
    case Continue => RetargetLeaf(p, q, s, pc, t);
    case Skip =>
    case _ =>
      RetargetLeaf(p, q, s, pc, t);
      SameLaid(p, q, s, pc, k, t0);
  }

  lemma RetargetLeaf(p: Program, q: Program, s: Stmt, pc: nat, t: Targets)
    requires !s.Seq? && !s.If? && Retargeted(p, q, s, pc, t)
    ensures s.Break? ==> BreakTo(q, pc, t)
    ensures s.Continue? ==> ContinueTo(q, pc, t)
    ensures !s.Break? && !s.Continue? ==> Agree(p, q, pc, pc + Len(s))
  {
    hide Len;
    assert s.Break? ==> pc + 1 in Breaks(s, pc);
    assert s.Continue? ==> pc + 1 in Continues(s, pc);
  }

  /** Every own jump of laid-out code leads where the code's targets say; in open code its operand is still zero. */
  lemma {:induction false} OwnJumps(p: Program, s: Stmt, pc: nat, k: nat, t: Targets, x: nat)
    requires Laid(p, s, pc, k, t)
    ensures x in Breaks(s, pc) ==> x > 0 && BreakTo(p, x - 1, t)
    ensures x in Continues(s, pc) ==> x > 0 && ContinueTo(p, x - 1, t)
  {
    hide Width, TestAt, DropAt, LoopAt, Consts, LoopLen, Constants, Forward, Backward, Len, Hole;
    match s
    case Seq(a, b) =>
      OwnJumps(p, a, pc, k, t, x);
      OwnJumps(p, b, pc + Len(a), k + |Constants(a)|, t, x);
    case If(e, a, b) =>
      var thn, ka := pc + Width(e) + 2, k + |Consts(e)|;
      OwnJumps(p, a, thn, ka, t, x);
      OwnJumps(p, b, thn + Len(a) + 2, ka + |Constants(a)|, t, x);
    case _ =>
  }

  lemma OpenHoles(p: Program, s: Stmt, pc: nat, k: nat, x: nat)
    requires Laid(p, s, pc, k, Open)
    ensures x in Breaks(s, pc) ==> x > 0 && Hole(p, x - 1, BREAK)
    ensures x in Continues(s, pc) ==> x > 0 && Hole(p, x - 1, CONTINUE)
  {
    hide Laid;
    OwnJumps(p, s, pc, k, Open, x);
  }

  /**
   In a finished loop every `break` jumps to just past it; every `continue` jumps forwards to the step, with the
   opcode rewritten, or back to the test where there is no step.
   */
  lemma LoopJumps(p: Program, cond: Option<Expr>, inc: Option<Increment>, body: Stmt, pc: nat, k: nat, x: nat)
    requires LoopAt(p, cond, inc, body, pc, k)
    ensures var b := pc + TestLen(cond); x in Breaks(body, b) ==> x > 0 && Forward(p, x - 1, BREAK, pc + LoopLen(cond, inc, body))
    ensures var b := pc + TestLen(cond);
      x in Continues(body, b) && inc.Some? ==> x > 0 && Forward(p, x - 1, JUMP, b + Len(body))
    ensures var b := pc + TestLen(cond);
      x in Continues(body, b) && inc.None? ==> x > 0 && Backward(p, x - 1, CONTINUE, 2, pc)
  {
    hide Laid, TestAt, DropAt, Consts, Constants, Width, Len;
    var b, kb := pc + TestLen(cond), k + |OptionConsts(cond)|;
    var t := Closed(pc + LoopLen(cond, inc, body), if inc.Some? then b + Len(body) else pc, inc.Some?);
    OwnJumps(p, body, b, kb, t, x);
  }

  /** In a finished do-while loop `continue` jumps back to the start of the body. */
  lemma DoJumps(p: Program, s: Stmt, pc: nat, k: nat, t: Targets, x: nat)
    requires s.DoWhile? && Laid(p, s, pc, k, t)
    ensures x in Breaks(s.body, pc) ==> x > 0 && Forward(p, x - 1, BREAK, pc + Len(s))
    ensures x in Continues(s.body, pc) ==> x > 0 && Backward(p, x - 1, CONTINUE, 2, pc)
  {
    hide TestAt, Consts, Constants, Width;
    OwnJumps(p, s.body, pc, k, Closed(pc + Len(s), pc, false), x);
  }

  /** Every recorded `break` leads to the end of the code so far. */
  predicate BreaksPatched(before: seq<nat>, after: seq<nat>, breaks: seq<nat>) {
    && |after| == |before|
    && forall i :: 0 <= i < |before| ==> after[i] == if i in breaks then Byte(|before| - i - 1) else before[i]
  }

  /** Every recorded `continue` leads back to `target`. */
  predicate BackPatched(before: seq<nat>, after: seq<nat>, continues: seq<nat>, target: nat) {
    && |after| == |before|
    && forall i :: 0 <= i < |before| ==> after[i] == if i in continues && target <= i + 1 then i + 1 - target else before[i]
  }

  /** Every recorded `continue` has become a jump forwards to `target`. */
  predicate ForwardPatched(before: seq<nat>, after: seq<nat>, continues: seq<nat>, target: nat) {
    && |after| == |before|
    && forall i :: 0 <= i < |before| ==> after[i] == ForwardByte(before, continues, target, i)
  }

  function ForwardByte(before: seq<nat>, continues: seq<nat>, target: nat, i: nat): nat
    requires i < |before|
  {
    if i in continues && i < target then target - i - 1 else if i + 1 in continues then JUMP else before[i]
  }

  /** After both patches the open body of a loop is closed, and nothing outside it has changed. */
  lemma BodyCloses(p: Program, mid: seq<nat>, q: Program, body: Stmt, b: nat, k: nat, inc: bool, target: nat)
    requires Laid(p, body, b, k, Open) && q.consts == p.consts && b + Len(body) <= |p.code| <= b + 255
    requires BreaksPatched(p.code, mid, Breaks(body, b))
    requires inc ==> ForwardPatched(mid, q.code, Continues(body, b), target) && b + Len(body) <= target
    requires !inc ==> BackPatched(mid, q.code, Continues(body, b), target) && target <= b
    ensures Laid(q, body, b, k, Closed(|p.code|, target, inc))
    ensures Agree(p, q, 0, b) && Agree(p, q, b + Len(body), |p.code|)
  {
    hide Laid, Len, Breaks, Continues, Jumping, BreakTo, ContinueTo, BreaksPatched, ForwardPatched, BackPatched;
    assert |q.code| == |p.code| by { PatchSize(p.code, mid, q.code, Breaks(body, b), Continues(body, b), target); }
    var t := Closed(|p.code|, target, inc);
    forall i | 0 <= i < |p.code| && (i < b || b + Len(body) <= i || !Jumping(body, b, i))
      ensures q.code[i] == p.code[i]
    {
      Unpatched(p.code, mid, q.code, body, b, inc, target, i);
    }
    forall x | x in Breaks(body, b)
      ensures x > 0 && BreakTo(q, x - 1, t)
    {
      OpenHoles(p, body, b, k, x);
      BreakOperand(p, mid, q, body, b, k, inc, target, x);
      assert BreakTo(q, x - 1, t) by { ClosedTo(q, x - 1, |p.code|, target, inc); }
    }
    forall x | x in Continues(body, b)
      ensures x > 0 && ContinueTo(q, x - 1, t)
    {
      OpenHoles(p, body, b, k, x);
      ContinueOperand(p, mid, q, body, b, k, inc, target, x);
      assert ContinueTo(q, x - 1, t) by { ClosedTo(q, x - 1, |p.code|, target, inc); }
    }
    Relaid(p, q, body, b, k, Open, t);
  }

  lemma PatchSize(before: seq<nat>, mid: seq<nat>, after: seq<nat>, breaks: seq<nat>, continues: seq<nat>, target: nat)
    requires BreaksPatched(before, mid, breaks)
    requires ForwardPatched(mid, after, continues, target) || BackPatched(mid, after, continues, target)
    ensures |after| == |before|
  {
  }

  lemma Unpatched(before: seq<nat>, mid: seq<nat>, after: seq<nat>, body: Stmt, b: nat, inc: bool, target: nat, i: nat)
    requires BreaksPatched(before, mid, Breaks(body, b))
    requires inc ==> ForwardPatched(mid, after, Continues(body, b), target)
    requires !inc ==> BackPatched(mid, after, Continues(body, b), target)
    requires i < |before| && (i < b || b + Len(body) <= i || !Jumping(body, b, i))
    ensures after[i] == before[i]
  {
    hide Len, Breaks, Continues, Jumping;
    OperandsInside(body, b);
    assert !JumpOperand(body, b, i) && !JumpOperand(body, b, i + 1);
  }

  /** Neither patch touches anything before or after the body. */
  lemma PatchKeeps(p: Program, mid: seq<nat>, q: Program, body: Stmt, b: nat, inc: bool, target: nat)
    requires BreaksPatched(p.code, mid, Breaks(body, b)) && q.consts == p.consts
    requires inc ==> ForwardPatched(mid, q.code, Continues(body, b), target)
    requires !inc ==> BackPatched(mid, q.code, Continues(body, b), target)
    ensures Agree(p, q, 0, b) && Agree(p, q, b + Len(body), |p.code|) && |q.code| == |p.code|
  {
    hide Len, Breaks, Continues, Jumping, BreaksPatched, ForwardPatched, BackPatched;
    PatchSize(p.code, mid, q.code, Breaks(body, b), Continues(body, b), target);
    forall i | 0 <= i < |p.code| && (i < b || b + Len(body) <= i)
      ensures q.code[i] == p.code[i]
    {
      Unpatched(p.code, mid, q.code, body, b, inc, target, i);
    }
  }

  lemma ClosedTo(q: Program, at: nat, afterLoop: nat, next: nat, forwards: bool)
    ensures BreakTo(q, at, Closed(afterLoop, next, forwards)) <==> Forward(q, at, BREAK, afterLoop)
    ensures ContinueTo(q, at, Closed(afterLoop, next, forwards))
      <==> if forwards then Forward(q, at, JUMP, next) else Backward(q, at, CONTINUE, 2, next)
  {
  }

  lemma BreakOperand(p: Program, mid: seq<nat>, q: Program, body: Stmt, b: nat, k: nat, inc: bool, target: nat, x: nat)
    requires Laid(p, body, b, k, Open) && b + Len(body) <= |p.code| <= b + 255
    requires BreaksPatched(p.code, mid, Breaks(body, b))
    requires inc ==> ForwardPatched(mid, q.code, Continues(body, b), target) && b + Len(body) <= target
    requires !inc ==> BackPatched(mid, q.code, Continues(body, b), target) && target <= b
    requires x in Breaks(body, b)
    ensures x > 0 && Forward(q, x - 1, BREAK, |p.code|)
  {
    hide Laid, Len, Breaks, Continues, Jumping;
    OperandInside(body, b, x);
    OpenHoles(p, body, b, k, x);
    OpenHoles(p, body, b, k, x - 1);
    OpenHoles(p, body, b, k, x + 1);
    assert x - 1 !in Breaks(body, b) && x - 1 !in Continues(body, b) && x !in Continues(body, b) && x + 1 !in Continues(body, b);
  }

  lemma ContinueOperand(p: Program, mid: seq<nat>, q: Program, body: Stmt, b: nat, k: nat, inc: bool, target: nat, x: nat)
    requires Laid(p, body, b, k, Open) && b + Len(body) <= |p.code| <= b + 255
    requires BreaksPatched(p.code, mid, Breaks(body, b))
    requires inc ==> ForwardPatched(mid, q.code, Continues(body, b), target) && b + Len(body) <= target
    requires !inc ==> BackPatched(mid, q.code, Continues(body, b), target) && target <= b
    requires x in Continues(body, b)
    ensures x > 0 && if inc then Forward(q, x - 1, JUMP, target) else Backward(q, x - 1, CONTINUE, 2, target)
  {
    hide Laid, Len, Breaks, Continues, Jumping;
    OperandInside(body, b, x);
    OpenHoles(p, body, b, k, x);
    OpenHoles(p, body, b, k, x - 1);
    assert x !in Breaks(body, b) && x - 1 !in Breaks(body, b) && x - 1 !in Continues(body, b);
    var y := x - 1;
    assert y + 1 == x;
    if inc {
      assert q.code[y] == JUMP && q.code[x] == target - x - 1;
    } else {
      assert q.code[y] == mid[y] && q.code[x] == x + 1 - target;
    }
  }

  // ---- The range condition is exact ----

  predicate AllBytes(code: seq<nat>) {
    forall i :: 0 <= i < |code| ==> code[i] < 256
  }

  lemma {:induction false} LoopFitsIfLaid(p: Program, cond: Option<Expr>, inc: Option<Increment>, body: Stmt, pc: nat, k: nat)
    requires LoopAt(p, cond, inc, body, pc, k) && AllBytes(p.code)
    ensures LoopLen(cond, inc, body) <= 254 && LoopsFit(body)
    decreases body, 1
  {
    hide TestAt, DropAt, Consts, Constants, Width, Laid, LoopsFit, Len;
    var b, kb := pc + TestLen(cond), k + |OptionConsts(cond)|;
    var i := b + Len(body);
    var back := i + DropLen(inc);
    FitsIfLaid(p, body, b, kb, Closed(back + 2, if inc.Some? then i else pc, inc.Some?));
  }

  /** Bytes can only be laid out as the code of a statement whose loops all fit. */
  lemma {:induction false} FitsIfLaid(p: Program, s: Stmt, pc: nat, k: nat, t: Targets)
    requires Laid(p, s, pc, k, t) && AllBytes(p.code)
    ensures LoopsFit(s)
    decreases s, 0
  {
    hide TestAt, DropAt, LoopAt, LoopLen, Consts, Constants, Width;
    match s
    case Seq(a, b) =>
      FitsIfLaid(p, a, pc, k, t);
      FitsIfLaid(p, b, pc + Len(a), k + |Constants(a)|, t);
    case If(e, a, b) =>
      var thn, ka := pc + Width(e) + 2, k + |Consts(e)|;
      FitsIfLaid(p, a, thn, ka, t);
      FitsIfLaid(p, b, thn + Len(a) + 2, ka + |Constants(a)|, t);
    case While(e, b) => LoopFitsIfLaid(p, Some(e), None, b, pc, k);
    case DoWhile(b, e) => FitsIfLaid(p, b, pc, k, Closed(pc + Len(b) + Width(e) + 4, pc, false));
    case For(init, cond, inc, b) => LoopFitsIfLaid(p, cond, inc, b, pc + DropLen(init), k + |OptionConsts(init)|);
    case _ =>
  }
}
