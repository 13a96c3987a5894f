/** The statement compiler: it appends code, remembers the operands of jumps and patches them afterwards. */
module Emitters {
  import opened Options
  import opened Machine
  import opened Syntax
  import opened ExprCode
  import opened Statements
  import opened StatementRuns
  import opened Layout

  datatype LoopContext = LoopContext(breaks: seq<nat>, continues: seq<nat>, target: nat)

  datatype Snapshot = Snapshot(code: seq<nat>, consts: seq<Value>, loops: seq<LoopContext>, hadError: bool) {
    function Prog(): Program {
      Program(code, consts)
    }
  }

  function PendingBreaks(loops: seq<LoopContext>): nat {
    if loops == [] then 0 else |loops[|loops| - 1].breaks|
  }

  function PendingContinues(loops: seq<LoopContext>): nat {
    if loops == [] then 0 else |loops[|loops| - 1].continues|
  }

  /** The loop stack after `s` at `pc`: its own jumps are pending in the innermost context. */
  function Recorded(loops: seq<LoopContext>, s: Stmt, pc: nat): seq<LoopContext> {
    if loops == [] then []
    else
      var top := loops[|loops| - 1];
      loops[|loops| - 1 := top.(breaks := top.breaks + Breaks(s, pc), continues := top.continues + Continues(s, pc))]
  }

  /** Assignments and steps. */
  predicate IsUpdate(e: Expr) {
    e.Assign? || e.Compound? || e.PostStep? || e.PreStep? || e.IndexSet?
  }

  /** Expressions that write are statements; a loop body without braces is any expression. */
  predicate WellFormed(s: Stmt) {
    match s
    case Seq(a, b) => WellFormed(a) && WellFormed(b)
    case Discard(e) => Writes(e)
    case If(_, a, b) => WellFormed(a) && WellFormed(b)
    case While(_, b) => b.Discard? || WellFormed(b)
    case DoWhile(b, _) => b.Discard? || WellFormed(b)
    case For(_, _, _, b) => b.Discard? || WellFormed(b)
    case _ => true
  }

  /** What compiling `s` without error appends. */
  ghost predicate Appended(a: Snapshot, b: Snapshot, s: Stmt) {
    && Agree(a.Prog(), b.Prog(), 0, |a.code|)
    && |b.code| == |a.code| + Len(s) && b.consts == a.consts + Constants(s)
    && b.loops == Recorded(a.loops, s, |a.code|)
    && (LoopsFit(s) ==> Laid(b.Prog(), s, |a.code|, |a.consts|, Open))
    && (AllBytes(a.code) ==> AllBytes(b.code))
  }

  /** No limit is exceeded by `s` inside these loops, and its checked jumps reach. */
  predicate Accepts(s: Stmt, loops: seq<LoopContext>) {
    WithinLimits(s, |loops|, PendingBreaks(loops), PendingContinues(loops)) && JumpsReach(s)
  }

  /**
   Compiling `s` from `a` ends in `b`: without error it has appended `s`, and an error is reported exactly when a
   limit is exceeded or a checked jump does not reach.
   */
  ghost predicate Compiled(a: Snapshot, b: Snapshot, s: Stmt) {
    (!b.hadError ==> Appended(a, b, s)) && (b.hadError <==> !Accepts(s, a.loops))
  }

  lemma ReachExtends(cs: seq<nat>, c: nat, target: nat)
    ensures BackInReach(cs + [c], target) <==> BackInReach(cs, target) && target <= c + 1 <= target + 255
    ensures ForwardInReach(cs + [c], target) <==> ForwardInReach(cs, target) && c < target <= c + 256
  {
    assert c in cs + [c];
    assert forall x :: x in cs ==> x in cs + [c];
    assert forall x :: x in cs + [c] ==> x in cs || x == c;
  }

  lemma ForwardStep(start: seq<nat>, before: seq<nat>, after: seq<nat>, cs: seq<nat>, c: nat, target: nat)
    requires ForwardPatched(start, before, cs, target) && 0 < c < |before| && c < target <= c + 256
    requires forall x, y :: x in cs + [c] && y in cs + [c] ==> x != y + 1
    requires after == before[c - 1 := JUMP][c := target - c - 1]
    ensures ForwardPatched(start, after, cs + [c], target)
  {
    var more := cs + [c];
    assert c in more;
    forall i | 0 <= i < |start|
      ensures after[i] == ForwardByte(start, more, target, i)
    {
      assert before[i] == ForwardByte(start, cs, target, i);
      assert (i in more <==> i in cs || i == c) && (i + 1 in more <==> i + 1 in cs || i + 1 == c);
    }
  }

  // ---- Bookkeeping ----

  lemma {:induction false} CountsOperands(s: Stmt, pc: nat)
    ensures |Breaks(s, pc)| == BreakCount(s) && |Continues(s, pc)| == ContinueCount(s)
  {
    hide Width, Len;
    match s
    case Seq(a, b) =>
      CountsOperands(a, pc);
      CountsOperands(b, pc + Len(a));
    case If(e, a, b) =>
      CountsOperands(a, pc + Width(e) + 2);
      CountsOperands(b, pc + Width(e) + 2 + Len(a) + 2);
    case _ =>
  }

  /** Operands of two jumps are never neighbours. */
  lemma {:induction false} Spaced(s: Stmt, pc: nat, c: nat, d: nat)
    requires c in Continues(s, pc) && d in Continues(s, pc)
    ensures c != d + 1
    decreases StmtSize(s), 0
  {
    hide Width, Len, Jumping;
    OperandsInside(s, pc);
    match s
    case Seq(a, b) =>
      SpacedParts(a, pc, b, pc + Len(a), c, d);
    case If(e, a, b) =>
      SpacedParts(a, pc + Width(e) + 2, b, pc + Width(e) + 2 + Len(a) + 2, c, d);
    case _ =>
  }

  lemma {:induction false} SpacedParts(a: Stmt, pa: nat, b: Stmt, pb: nat, c: nat, d: nat)
    requires pa + Len(a) <= pb
    requires c in Continues(a, pa) || c in Continues(b, pb)
    requires d in Continues(a, pa) || d in Continues(b, pb)
    ensures c != d + 1
    decreases StmtSize(a) + StmtSize(b), 1
  {
    hide Width, Len, Jumping, Continues;
    OperandsInside(a, pa);
    OperandsInside(b, pb);
    if c in Continues(a, pa) && d in Continues(a, pa) {
      Spaced(a, pa, c, d);
    } else if c in Continues(b, pb) && d in Continues(b, pb) {
      Spaced(b, pb, c, d);
    }
  }

  /** Outside loops a statement within the limits has no jumps of its own. */
  lemma {:induction false} NoJumpsOutside(s: Stmt, nb: nat, nc: nat)
    requires WithinLimits(s, 0, nb, nc)
    ensures BreakCount(s) == 0 && ContinueCount(s) == 0
  {
    hide Len;
    match s
    case Seq(a, b) =>
      NoJumpsOutside(a, nb, nc);
      NoJumpsOutside(b, nb + BreakCount(a), nc + ContinueCount(a));
    case If(_, a, b) =>
      NoJumpsOutside(a, nb, nc);
      NoJumpsOutside(b, nb + BreakCount(a), nc + ContinueCount(a));
    case _ =>
  }

  /** Where a statement without own jumps leaves the loop stack. */
  lemma RecordedNone(loops: seq<LoopContext>, s: Stmt, pc: nat)
    requires Breaks(s, pc) == [] && Continues(s, pc) == []
    ensures Recorded(loops, s, pc) == loops
  {
    if loops != [] {
      var top := loops[|loops| - 1];
      assert top.breaks + [] == top.breaks && top.continues + [] == top.continues;
    }
  }

  lemma RecordedTwice(loops: seq<LoopContext>, s: Stmt, pc: nat, a: Stmt, pa: nat, b: Stmt, pb: nat)
    requires Breaks(s, pc) == Breaks(a, pa) + Breaks(b, pb) && Continues(s, pc) == Continues(a, pa) + Continues(b, pb)
    ensures Recorded(Recorded(loops, a, pa), b, pb) == Recorded(loops, s, pc)
  {
    hide Breaks, Continues;
    if loops != [] {
      var top := loops[|loops| - 1];
      assert top.breaks + Breaks(a, pa) + Breaks(b, pb) == top.breaks + Breaks(s, pc);
      assert top.continues + Continues(a, pa) + Continues(b, pb) == top.continues + Continues(s, pc);
    }
  }

  lemma RecordedCounts(loops: seq<LoopContext>, s: Stmt, pc: nat)
    requires loops != []
    ensures |Recorded(loops, s, pc)| == |loops|
    ensures PendingBreaks(Recorded(loops, s, pc)) == PendingBreaks(loops) + BreakCount(s)
    ensures PendingContinues(Recorded(loops, s, pc)) == PendingContinues(loops) + ContinueCount(s)
  {
    CountsOperands(s, pc);
  }

  /** The limits of a second part, counted from the first part's pending jumps. */
  lemma AcceptsThen(a: Stmt, b: Stmt, loops: seq<LoopContext>, pc: nat)
    requires Accepts(a, loops)
    ensures Accepts(b, Recorded(loops, a, pc)) <==>
      && JumpsReach(b)
      && WithinLimits(b, |loops|, PendingBreaks(loops) + BreakCount(a), PendingContinues(loops) + ContinueCount(a))
  {
    hide WithinLimits, JumpsReach, Breaks, Continues, BreakCount, ContinueCount;
    if loops == [] {
      NoJumpsOutside(a, 0, 0);
    } else {
      hide Recorded, PendingBreaks, PendingContinues;
      RecordedCounts(loops, a, pc);
    }
  }

  // ---- Sequences ----

  lemma SeqStops(a: Snapshot, b: Snapshot, s: Stmt)
    requires s.Seq? && Compiled(a, b, s.first) && b.hadError
    ensures Compiled(a, b, s)
  {
    hide Appended;
  }

  lemma SeqCompiles(a: Snapshot, b: Snapshot, c: Snapshot, s: Stmt)
    requires s.Seq? && Compiled(a, b, s.first) && !b.hadError && Compiled(b, c, s.second)
    ensures Compiled(a, c, s)
  {
    hide Appended, Recorded, PendingBreaks, PendingContinues, BreakCount, ContinueCount;
    AppendedLoops(a, b, s.first);
    AcceptsThen(s.first, s.second, a.loops, |a.code|);
    if !c.hadError {
      SeqAppends(a, b, c, s);
    }
  }

  lemma AppendedLoops(a: Snapshot, b: Snapshot, s: Stmt)
    requires Appended(a, b, s)
    ensures b.loops == Recorded(a.loops, s, |a.code|) && |b.loops| == |a.loops|
  {
  }

  lemma AgreeJoins(p: Program, q: Program, r: Program, lo: nat, hi: nat)
    requires Agree(p, q, lo, hi) && Agree(q, r, lo, hi)
    ensures Agree(p, r, lo, hi)
  {
  }

  lemma Updated(p: Program, q: Program, at: nat, v: nat)
    requires at < |p.code| && q == p.(code := p.code[at := v])
    ensures Agree(p, q, 0, at) && Agree(p, q, at + 1, |p.code|)
    ensures AllBytes(p.code) && v < 256 ==> AllBytes(q.code)
  {
  }

  lemma Extended(p: Program, q: Program, more: seq<nat>)
    requires q == p.(code := p.code + more)
    ensures Agree(p, q, 0, |p.code|)
    ensures AllBytes(p.code) && AllBytes(more) ==> AllBytes(q.code)
  {
  }

  lemma SeqAppends(a: Snapshot, b: Snapshot, c: Snapshot, s: Stmt)
    requires s.Seq? && Appended(a, b, s.first) && Appended(b, c, s.second)
    ensures Appended(a, c, s)
  {
    hide AllBytes, Recorded, Agree, Breaks, Continues, Laid, Len, Constants, LoopsFit;
    SeqShape(s, |a.code|);
    RecordedTwice(a.loops, s, |a.code|, s.first, |a.code|, s.second, |b.code|);
    Narrow(b.Prog(), c.Prog(), 0, |b.code|, 0, |a.code|);
    AgreeJoins(a.Prog(), b.Prog(), c.Prog(), 0, |a.code|);
    if LoopsFit(s) {
      Narrow(b.Prog(), c.Prog(), 0, |b.code|, |a.code|, |b.code|);
      SameLaid(b.Prog(), c.Prog(), s.first, |a.code|, |a.consts|, Open);
      SeqLays(c.Prog(), s, |a.code|, |a.consts|, Open);
    }
    assert (a.consts + Constants(s.first)) + Constants(s.second) == a.consts + Constants(s);
  }

  lemma SeqLays(p: Program, s: Stmt, pc: nat, k: nat, t: Targets)
    requires s.Seq? && Laid(p, s.first, pc, k, t)
    requires Laid(p, s.second, pc + Len(s.first), k + |Constants(s.first)|, t)
    ensures Laid(p, s, pc, k, t)
  {
    hide Len, Constants, LoopAt, DropAt, TestAt, Forward, Backward;
  }

  lemma SeqShape(s: Stmt, pc: nat)
    requires s.Seq?
    ensures Len(s) == Len(s.first) + Len(s.second) && Constants(s) == Constants(s.first) + Constants(s.second)
    ensures LoopsFit(s) <==> LoopsFit(s.first) && LoopsFit(s.second)
    ensures Breaks(s, pc) == Breaks(s.first, pc) + Breaks(s.second, pc + Len(s.first))
    ensures Continues(s, pc) == Continues(s.first, pc) + Continues(s.second, pc + Len(s.first))
  {
  }

  // ---- Expressions and branches ----

  lemma BytesAreBytes(e: Expr, k: nat)
    ensures AllBytes(Bytes(e, k))
  {
    hide Bytes;
  }

  /** `b` is `a` after an expression and then `more`. */
  ghost predicate Headed(a: Snapshot, b: Snapshot, e: Expr, more: seq<nat>) {
    b == a.(code := a.code + Bytes(e, |a.consts|) + more, consts := a.consts + Consts(e))
  }

  lemma HeadAppends(a: Snapshot, b: Snapshot, e: Expr, more: seq<nat>)
    requires Headed(a, b, e, more)
    ensures Agree(a.Prog(), b.Prog(), 0, |a.code|) && ExprAt(b.Prog(), e, |a.code|, |a.consts|)
    ensures |b.code| == |a.code| + Width(e) + |more| && |b.consts| == |a.consts| + |Consts(e)|
    ensures forall i :: 0 <= i < |more| ==> b.code[|a.code| + Width(e) + i] == more[i]
    ensures AllBytes(a.code) && AllBytes(more) ==> AllBytes(b.code)
  {
    hide Width, Bytes, Consts;
    BytesWidth(e, |a.consts|);
    BytesAreBytes(e, |a.consts|);
    var n, m := |a.code|, |a.code| + Width(e);
    assert b.code[n..m] == Bytes(e, |a.consts|);
    assert b.consts[|a.consts|..] == Consts(e);
  }

  /** A popped expression is a compiled `Discard`. */
  lemma DiscardCompiles(a: Snapshot, b: Snapshot, e: Expr)
    requires !a.hadError && Headed(a, b, e, [POP])
    ensures Compiled(a, b, Discard(e))
  {
    hide Width, Bytes, Consts, ExprAt, Agree, AllBytes;
    HeadAppends(a, b, e, [POP]);
    assert AllBytes([POP]) by { OneByte(POP); }
    RecordedNone(a.loops, Discard(e), |a.code|);
  }

  lemma OneByte(b: byte)
    ensures AllBytes([b]) && AllBytes([b, 0])
  {
  }

  /** The opcodes by which the statement compiler recognises an assignment, anywhere among the bytes. */
  predicate HasAssignment(bytes: seq<nat>) {
    SET_GLOBAL in bytes || ARRAY_SET in bytes
  }

  /** Some part of the expression writes: a variable, or an element of an array. */
  predicate Writes(e: Expr)
    decreases e, 0
  {
    IsUpdate(e) ||
    match e
    case Binary(_, l, r) => Writes(l) || Writes(r)
    case Neg(e1) => Writes(e1)
    case Not(e1) => Writes(e1)
    case Call(_, args) => AnyWrites(args)
    case Array(elems) => AnyWrites(elems)
    case Index(a, i) => Writes(a) || Writes(i)
    case _ => false
  }

  predicate AnyWrites(es: Exprs)
    decreases es, 1
  {
    match es case NoExprs => false case More(e, tail) => Writes(e) || AnyWrites(tail)
  }

  /** An operand byte that the scan takes for one of the two opcodes. */
  predicate Hits(n: nat) {
    Byte(n) == SET_GLOBAL || Byte(n) == ARRAY_SET
  }

  /** With the first constant at index `k`, some constant's index or some count of operands looks like an assignment. */
  predicate OperandHits(e: Expr, k: nat)
    decreases e, 0
  {
    match e
    case Const(_) => Hits(k)
    case Interpolated(_) => Hits(k)
    case Var(_) => Hits(k)
    case Assign(_, e1) => Hits(k) || OperandHits(e1, k + 1)
    case Compound(_, _, e1) => Hits(k) || OperandHits(e1, k + 1)
    case PostStep(_, _) => Hits(k) || Hits(k + 1)
    case PreStep(_, _) => Hits(k) || Hits(k + 1)
    case Binary(_, l, r) => OperandHits(l, k) || OperandHits(r, k + |Consts(l)|)
    case Neg(e1) => OperandHits(e1, k) || Hits(k + |Consts(e1)|)
    case Not(e1) => OperandHits(e1, k)
    case Call(_, args) => AnyOperandHits(args, k + 1) || Hits(k) || Hits(Count(args))
    case Array(elems) => AnyOperandHits(elems, k) || Hits(Count(elems))
    case Index(a, i) => OperandHits(a, k) || OperandHits(i, k + |Consts(a)|)
    case IndexSet(a, i, e1) =>
      OperandHits(a, k) || OperandHits(i, k + |Consts(a)|) || OperandHits(e1, k + |Consts(a)| + |Consts(i)|)
  }

  predicate AnyOperandHits(es: Exprs, k: nat)
    decreases es, 1
  {
    match es case NoExprs => false case More(e, tail) => OperandHits(e, k) || AnyOperandHits(tail, k + |Consts(e)|)
  }

  lemma FoundInEither(a: seq<nat>, b: seq<nat>)
    ensures HasAssignment(a + b) <==> HasAssignment(a) || HasAssignment(b)
  {
  }

  lemma NothingFound()
    ensures !HasAssignment([])
  {
  }

  lemma UpdateFound(e: Expr, k: nat)
    requires IsUpdate(e)
    ensures HasAssignment(Bytes(e, k))
  {
    match e
    case Assign(_, e1) => assert Bytes(e, k)[|Bytes(e1, k + 1)|] == SET_GLOBAL;
    case Compound(_, _, e1) => assert Bytes(e, k)[|Bytes(e1, k + 1)| + 3] == SET_GLOBAL;
    case PostStep(_, _) => assert Bytes(e, k)[7] == SET_GLOBAL;
    case PreStep(_, _) => assert Bytes(e, k)[5] == SET_GLOBAL;
    case IndexSet(x, i, e1) => assert Bytes(e, k)[|Bytes(e, k)| - 1] == ARRAY_SET;
  }

  /** An expression of two operands and one opcode. */
  predicate IsPair(e: Expr, l: Expr, r: Expr, op: nat) {
    || (e.Binary? && l == e.left && r == e.right && op == Opcode(e.op))
    || (e.Index? && l == e.a && r == e.i && op == ARRAY_GET)
  }

  lemma PairBytes(e: Expr, l: Expr, r: Expr, op: nat, k: nat)
    requires IsPair(e, l, r, op)
    ensures Bytes(e, k) == Bytes(l, k) + Bytes(r, k + |Consts(l)|) + [op] && !HasAssignment([op])
  {
    hide Consts, BytesAll;
  }

  lemma PairWrites(e: Expr, l: Expr, r: Expr, op: nat, k: nat)
    requires IsPair(e, l, r, op)
    ensures (Writes(e) <==> Writes(l) || Writes(r)) && Size(e) > Size(l) + Size(r)
    ensures OperandHits(e, k) <==> OperandHits(l, k) || OperandHits(r, k + |Consts(l)|)
  {
    hide Consts;
  }

  lemma {:induction false} ScanFindsPair(e: Expr, l: Expr, r: Expr, op: nat, k: nat)
    requires IsPair(e, l, r, op)
    ensures HasAssignment(Bytes(e, k)) <==> Writes(e) || OperandHits(e, k)
    decreases Size(l) + Size(r), 1
  {
    hide Consts, Bytes, Writes, OperandHits, HasAssignment, Size;
    PairBytes(e, l, r, op, k);
    PairWrites(e, l, r, op, k);
    var k1 := k + |Consts(l)|;
    FoundInEither(Bytes(l, k) + Bytes(r, k1), [op]);
    FoundInEither(Bytes(l, k), Bytes(r, k1));
    ScanFinds(l, k);
    ScanFinds(r, k1);
  }

  lemma {:induction false} ScanFindsUnder(e: Expr, k: nat, tail: seq<nat>)
    ensures HasAssignment(Bytes(e, k) + tail) <==> Writes(e) || OperandHits(e, k) || HasAssignment(tail)
    decreases Size(e), 1
  {
    hide Bytes, Writes, OperandHits, HasAssignment;
    ScanFinds(e, k);
    FoundInEither(Bytes(e, k), tail);
  }

  lemma {:induction false} ScanFindsAll(es: Exprs, k: nat, tail: seq<nat>)
    ensures HasAssignment(BytesAll(es, k) + tail) <==> AnyWrites(es) || AnyOperandHits(es, k) || HasAssignment(tail)
    decreases SizeAll(es)
  {
    hide Bytes, Writes, OperandHits, HasAssignment, Consts;
    FoundInEither(BytesAll(es, k), tail);
    match es
    case NoExprs => assert !HasAssignment([]) by { NothingFound(); }
    case More(e, rest) =>
      ScanFindsAll(rest, k + |Consts(e)|, []);
      ScanFindsUnder(e, k, BytesAll(rest, k + |Consts(e)|));
      assert BytesAll(rest, k + |Consts(e)|) + [] == BytesAll(rest, k + |Consts(e)|);
      assert !HasAssignment([]) by { NothingFound(); }
  }

  lemma LeafFound(e: Expr, k: nat)
    requires e.Const? || e.Interpolated? || e.Var?
    ensures HasAssignment(Bytes(e, k)) <==> Hits(k)
  {
  }

  lemma TailsFound(k: nat, n: nat)
    ensures !HasAssignment([NOT])
    ensures HasAssignment([PUSH_CONST, Byte(k), MUL]) <==> Hits(k)
    ensures HasAssignment([ARRAY_NEW, Byte(n)]) <==> Hits(n)
    ensures HasAssignment([GET_GLOBAL, Byte(k), CALL, Byte(n)]) <==> Hits(k) || Hits(n)
  {
  }

  /**
   When the scan finds an assignment: exactly when the expression writes somewhere, or an operand byte happens to
   look like a write.
   */
  lemma {:induction false} ScanFinds(e: Expr, k: nat)
    ensures HasAssignment(Bytes(e, k)) <==> Writes(e) || OperandHits(e, k)
    decreases Size(e), 0
  {
    hide Consts, Opcode, HasAssignment, Hits;
    if IsUpdate(e) {
      UpdateFound(e, k);
    } else {
      match e
      case Const(_) => LeafFound(e, k);
      case Interpolated(_) => LeafFound(e, k);
      case Var(_) => LeafFound(e, k);
      case Binary(op, l, r) => ScanFindsPair(e, l, r, Opcode(op), k);
      case Neg(e1) =>
        TailsFound(k + |Consts(e1)|, 0);
        ScanFindsUnder(e1, k, [PUSH_CONST, Byte(k + |Consts(e1)|), MUL]);
      case Not(e1) =>
        TailsFound(0, 0);
        ScanFindsUnder(e1, k, [NOT]);
      case Call(_, args) =>
        TailsFound(k, Count(args));
        ScanFindsAll(args, k + 1, [GET_GLOBAL, Byte(k), CALL, Byte(Count(args))]);
      case Array(elems) =>
        TailsFound(0, Count(elems));
        ScanFindsAll(elems, k, [ARRAY_NEW, Byte(Count(elems))]);
      case Index(a, i) => ScanFindsPair(e, a, i, ARRAY_GET, k);
    }
  }

  /** Every update is popped, and of the other expressions those that write deep inside. */
  lemma UpdatesArePopped(e: Expr, k: nat)
    requires Writes(e)
    ensures HasAssignment(Bytes(e, k))
  {
    ScanFinds(e, k);
  }

  /** A plain read of a variable is popped exactly when the index of its name hits. */
  lemma ReadsPopped(x: string, k: nat)
    ensures !Writes(Var(x)) && (HasAssignment(Bytes(Var(x), k)) <==> k % 256 == SET_GLOBAL || k % 256 == ARRAY_SET)
  {
  }

  // ---- Conditionals ----

  lemma IfLimits(a: Snapshot, c: Snapshot, d: Snapshot, e: Snapshot, s: Stmt)
    requires s.If? && Compiled(a, c, s.thn) && !c.hadError && Compiled(d, e, s.els) && d.loops == c.loops
    ensures Accepts(s, a.loops) <==> !e.hadError && Len(s.thn) + 2 <= 255 && Len(s.els) <= 255
  {
    hide Appended, Recorded, PendingBreaks, PendingContinues, BreakCount, ContinueCount, Len;
    AppendedLoops(a, c, s.thn);
    AcceptsThen(s.thn, s.els, a.loops, |a.code|);
  }

  /** The code of a conditional as it grows: head, then-branch, jump and first patch, else-branch, second patch. */
  ghost predicate IfSteps(a: Snapshot, b: Snapshot, c: Snapshot, d: Snapshot, e: Snapshot, f: Snapshot, s: Stmt)
    requires s.If?
  {
    && Headed(a, b, s.test, [JUMP_IF_FALSE, 0]) && Appended(b, c, s.thn)
    && |a.code| + Width(s.test) + 2 == |b.code| <= |c.code|
    && d == c.(code := (c.code + [JUMP, 0])[|b.code| - 1 := Byte(Len(s.thn) + 2)])
    && Appended(d, e, s.els) && |d.code| <= |e.code|
    && f == e.(code := e.code[|d.code| - 1 := Byte(Len(s.els))])
    && Len(s.thn) + 2 <= 255 && Len(s.els) <= 255
  }

  lemma IfAgrees(a: Snapshot, b: Snapshot, c: Snapshot, d: Snapshot, e: Snapshot, f: Snapshot, s: Stmt)
    requires s.If? && IfSteps(a, b, c, d, e, f, s)
    ensures Agree(a.Prog(), f.Prog(), 0, |a.code|) && Agree(b.Prog(), f.Prog(), 0, |b.code| - 1)
    ensures Agree(c.Prog(), f.Prog(), |b.code|, |c.code|) && Agree(e.Prog(), f.Prog(), |d.code|, |e.code|)
    ensures f.code[|b.code| - 1] == Len(s.thn) + 2 && f.code[|c.code|] == JUMP && f.code[|c.code| + 1] == Len(s.els)
    ensures AllBytes(a.code) ==> AllBytes(f.code)
  {
    hide Laid, Len, Width, Recorded, LoopsFit, Bytes, Consts, Constants, ExprAt;
    HeadAppends(a, b, s.test, [JUMP_IF_FALSE, 0]);
    OneByte(JUMP_IF_FALSE);
  }

  lemma IfLays(p: Program, s: Stmt, pc: nat, k: nat, t: Targets)
    requires s.If?
    requires var thn, ka := pc + Width(s.test) + 2, k + |Consts(s.test)|;
      var els := thn + Len(s.thn) + 2;
      && ExprAt(p, s.test, pc, k) && Forward(p, thn - 2, JUMP_IF_FALSE, els)
      && Laid(p, s.thn, thn, ka, t) && Forward(p, els - 2, JUMP, els + Len(s.els))
      && Laid(p, s.els, els, ka + |Constants(s.thn)|, t)
    ensures Laid(p, s, pc, k, t)
  {
    hide Len, Constants, Consts, LoopAt, DropAt, ExprAt, Forward, Backward, Width;
  }

  lemma IfShape(s: Stmt, pc: nat)
    requires s.If?
    ensures Len(s) == Width(s.test) + 2 + Len(s.thn) + 2 + Len(s.els)
    ensures Constants(s) == Consts(s.test) + Constants(s.thn) + Constants(s.els)
    ensures LoopsFit(s) <==> LoopsFit(s.thn) && LoopsFit(s.els)
    ensures var thn := pc + Width(s.test) + 2;
      var els := thn + Len(s.thn) + 2;
      && Breaks(s, pc) == Breaks(s.thn, thn) + Breaks(s.els, els)
      && Continues(s, pc) == Continues(s.thn, thn) + Continues(s.els, els)
  {
  }

  lemma IfAppends(a: Snapshot, b: Snapshot, c: Snapshot, d: Snapshot, e: Snapshot, f: Snapshot, s: Stmt)
    requires s.If? && IfSteps(a, b, c, d, e, f, s)
    ensures Appended(a, f, s)
  {
    hide Laid, Len, Width, Recorded, LoopsFit, Bytes, Consts, Constants, ExprAt, Agree, Breaks, Continues, AllBytes;
    IfAgrees(a, b, c, d, e, f, s);
    IfShape(s, |a.code|);
    HeadAppends(a, b, s.test, [JUMP_IF_FALSE, 0]);
    RecordedTwice(a.loops, s, |a.code|, s.thn, |b.code|, s.els, |d.code|);
    var k := |a.consts|;
    assert f.consts == a.consts + Constants(s);
    if LoopsFit(s) {
      var end := |a.code| + Width(s.test);
      Narrow(b.Prog(), f.Prog(), 0, end + 1, |a.code|, end);
      SameExpr(b.Prog(), f.Prog(), s.test, |a.code|, k);
      assert f.code[end] == JUMP_IF_FALSE by { AgreesAt(b.Prog(), f.Prog(), 0, end + 1, end); assert b.code[end + 0] == JUMP_IF_FALSE; }
      SameLaid(c.Prog(), f.Prog(), s.thn, |b.code|, |b.consts|, Open);
      SameLaid(e.Prog(), f.Prog(), s.els, |d.code|, |d.consts|, Open);
      IfLays(f.Prog(), s, |a.code|, k, Open);
    }
  }

  lemma AgreesAt(p: Program, q: Program, lo: nat, hi: nat, i: nat)
    requires Agree(p, q, lo, hi) && lo <= i < hi && i < |p.code|
    ensures i < |q.code| && q.code[i] == p.code[i]
  {
  }

  lemma IfStops(b: Snapshot, c: Snapshot, s: Stmt, a: Snapshot)
    requires s.If? && Compiled(b, c, s.thn) && c.hadError && b.loops == a.loops
    ensures Compiled(a, c, s)
  {
    hide Appended, Len;
  }

  /** The first jump is too long: the then-branch with its closing jump exceeds 255 bytes. */
  lemma IfTooLong(b: Snapshot, c: Snapshot, s: Stmt, a: Snapshot, r: Snapshot)
    requires s.If? && Compiled(b, c, s.thn) && !c.hadError && |c.code| - |b.code| + 2 > 255 && r.hadError
    ensures Compiled(a, r, s)
  {
    hide Len, Recorded, Laid, Agree, Constants;
  }

  lemma IfEnds(a: Snapshot, b: Snapshot, c: Snapshot, d: Snapshot, e: Snapshot, r: Snapshot, s: Stmt)
    requires s.If? && Compiled(b, c, s.thn) && !c.hadError && b.loops == a.loops
    requires Compiled(d, e, s.els) && d.loops == c.loops && r.hadError
    requires e.hadError || |e.code| - |d.code| > 255
    ensures Compiled(a, r, s)
  {
    hide Len, WithinLimits, LoopsFit, Recorded, Laid, Agree, Constants, PendingBreaks, PendingContinues;
    IfLimits(b, c, d, e, s);
  }

  lemma IfCompiles(a: Snapshot, b: Snapshot, c: Snapshot, d: Snapshot, e: Snapshot, f: Snapshot, s: Stmt)
    requires s.If? && IfSteps(a, b, c, d, e, f, s) && !f.hadError && !c.hadError && !e.hadError
    requires Compiled(b, c, s.thn) && Compiled(d, e, s.els)
    ensures Compiled(a, f, s)
  {
    hide Len, WithinLimits, LoopsFit, Appended, Agree, Constants, PendingBreaks, PendingContinues;
    IfLimits(b, c, d, e, s);
    IfAppends(a, b, c, d, e, f, s);
  }

  lemma CompiledSize(a: Snapshot, b: Snapshot, s: Stmt)
    requires Compiled(a, b, s) && !b.hadError
    ensures |b.code| == |a.code| + Len(s) && Appended(a, b, s)
  {
    hide WithinLimits, Laid, LoopsFit;
  }

  // ---- Loops ----

  /** `a` inside a new loop. */
  function Entered(a: Snapshot, target: nat): Snapshot {
    a.(loops := a.loops + [LoopContext([], [], target)])
  }

  ghost predicate TestHeaded(a: Snapshot, b: Snapshot, cond: Option<Expr>) {
    if cond.Some? then Headed(a, b, cond.value, [JUMP_IF_FALSE, 0]) else b == a
  }

  ghost predicate Dropped(a: Snapshot, b: Snapshot, e: Option<Expr>) {
    if e.Some? then Headed(a, b, e.value, [POP]) else b == a
  }

  /** The code of a loop as it grows: test, body, step and backward jump; then the exit patch. */
  ghost predicate LoopSteps(a: Snapshot, b: Snapshot, c: Snapshot, d: Snapshot, e: Snapshot, exited: seq<nat>,
                            cond: Option<Expr>, inc: Option<Increment>, body: Stmt)
  {
    && TestHeaded(a, b, cond) && |b.code| == |a.code| + TestLen(cond)
    && Appended(b, c, body) && Dropped(c, d, inc)
    && e == d.(code := d.code + [LOOP, Byte(LoopLen(cond, inc, body) + 1)])
    && (cond.Some? ==> |b.code| > 0 && |b.code| <= |e.code| && exited == e.code[|b.code| - 1 := Byte(|e.code| - |b.code|)])
    && (cond.None? ==> exited == e.code)
  }

  lemma TestAppends(a: Snapshot, b: Snapshot, cond: Option<Expr>)
    requires TestHeaded(a, b, cond)
    ensures Agree(a.Prog(), b.Prog(), 0, |a.code|) && |b.code| == |a.code| + TestLen(cond)
    ensures b.consts == a.consts + OptionConsts(cond) && b.loops == a.loops
    ensures cond.Some? ==> ExprAt(b.Prog(), cond.value, |a.code|, |a.consts|)
    ensures cond.Some? ==> |b.code| >= 2 && b.code[|b.code| - 2] == JUMP_IF_FALSE
    ensures AllBytes(a.code) ==> AllBytes(b.code)
  {
    hide Width, Bytes, Consts, ExprAt, AllBytes;
    if cond.Some? {
      HeadAppends(a, b, cond.value, [JUMP_IF_FALSE, 0]);
      assert b.code[|a.code| + Width(cond.value) + 0] == JUMP_IF_FALSE;
      OneByte(JUMP_IF_FALSE);
    } else {
      assert a.consts + [] == a.consts;
    }
  }

  lemma DropAppends(a: Snapshot, b: Snapshot, e: Option<Expr>)
    requires Dropped(a, b, e)
    ensures Agree(a.Prog(), b.Prog(), 0, |a.code|) && |b.code| == |a.code| + DropLen(e)
    ensures b.consts == a.consts + OptionConsts(e) && b.loops == a.loops
    ensures e.Some? ==> DropAt(b.Prog(), e.value, |a.code|, |a.consts|)
    ensures AllBytes(a.code) ==> AllBytes(b.code)
  {
    hide Width, Bytes, Consts, ExprAt, AllBytes;
    if e.Some? {
      HeadAppends(a, b, e.value, [POP]);
      assert b.code[|a.code| + Width(e.value) + 0] == POP;
      OneByte(POP);
    } else {
      assert a.consts + [] == a.consts;
    }
  }

  /** Before patching: sizes, constants, and what stands where. */
  lemma LoopGrows(a: Snapshot, b: Snapshot, c: Snapshot, d: Snapshot, e: Snapshot, exited: seq<nat>,
                  cond: Option<Expr>, inc: Option<Increment>, body: Stmt)
    requires LoopSteps(a, b, c, d, e, exited, cond, inc, body)
    ensures |e.code| == |exited| == |a.code| + LoopLen(cond, inc, body)
    ensures e.consts == a.consts + LoopConsts(cond, inc, body) && e.loops == Recorded(a.loops, body, |b.code|)
    ensures Agree(a.Prog(), e.Prog(), 0, |a.code|) && Agree(b.Prog(), e.Prog(), 0, |b.code|)
    ensures Agree(c.Prog(), e.Prog(), 0, |c.code|) && Agree(d.Prog(), e.Prog(), 0, |d.code|)
    ensures e.code[|d.code|] == LOOP && e.code[|d.code| + 1] == Byte(LoopLen(cond, inc, body) + 1)
    ensures AllBytes(a.code) ==> AllBytes(e.code)
  {
    hide Width, Laid, Recorded, LoopsFit, ExprAt, Consts, Constants, Len, DropAt, Agree, AllBytes, Headed;
    TestAppends(a, b, cond);
    DropAppends(c, d, inc);
    assert e.consts == a.consts + LoopConsts(cond, inc, body);
    var back := [LOOP, Byte(LoopLen(cond, inc, body) + 1)];
    Extended(d.Prog(), e.Prog(), back);
    assert AllBytes(back) by { TwoBytes(LOOP, Byte(LoopLen(cond, inc, body) + 1)); }
    Then(c, d, e);
    Then(b, c, e);
    Then(a, b, e);
  }

  lemma TwoBytes(x: byte, y: byte)
    ensures AllBytes([x, y])
  {
  }

  lemma Then(a: Snapshot, b: Snapshot, c: Snapshot)
    requires Agree(a.Prog(), b.Prog(), 0, |a.code|) && Agree(b.Prog(), c.Prog(), 0, |b.code|) && |a.code| <= |b.code|
    ensures Agree(a.Prog(), c.Prog(), 0, |a.code|)
  {
  }

  lemma LoopExits(a: Snapshot, b: Snapshot, c: Snapshot, d: Snapshot, e: Snapshot, exited: seq<nat>,
                  cond: Option<Expr>, inc: Option<Increment>, body: Stmt)
    requires LoopSteps(a, b, c, d, e, exited, cond, inc, body)
    ensures var p := Program(exited, e.consts);
      && Agree(a.Prog(), p, 0, |a.code|) && Agree(c.Prog(), p, |b.code|, |c.code|) && Agree(d.Prog(), p, |c.code|, |d.code|)
      && (cond.Some? ==> Agree(b.Prog(), p, 0, |b.code| - 1) && p.code[|b.code| - 1] == Byte(|e.code| - |b.code|))
      && p.code[|d.code|] == LOOP && p.code[|d.code| + 1] == Byte(LoopLen(cond, inc, body) + 1)
    ensures AllBytes(a.code) ==> AllBytes(exited)
  {
    hide Laid, LoopLen, Recorded, Appended, TestHeaded, Dropped, Len, Width, Constants, AllBytes, LoopConsts, Agree;
    LoopGrows(a, b, c, d, e, exited, cond, inc, body);
    LoopSizes(a, b, c, d, e, exited, cond, inc, body);
    var at, v := if cond.Some? then |b.code| - 1 else 0, Byte(|e.code| - |b.code|);
    ExitPatch(a.Prog(), e.Prog(), exited, cond.Some?, at, v, 0, |a.code|);
    ExitPatch(c.Prog(), e.Prog(), exited, cond.Some?, at, v, |b.code|, |c.code|);
    ExitPatch(d.Prog(), e.Prog(), exited, cond.Some?, at, v, |c.code|, |d.code|);
    if cond.Some? {
      Narrow(b.Prog(), e.Prog(), 0, |b.code|, 0, at);
      ExitPatch(b.Prog(), e.Prog(), exited, true, at, v, 0, at);
      Updated(e.Prog(), Program(exited, e.consts), at, v);
    }
  }

  lemma LoopSizes(a: Snapshot, b: Snapshot, c: Snapshot, d: Snapshot, e: Snapshot, exited: seq<nat>,
                  cond: Option<Expr>, inc: Option<Increment>, body: Stmt)
    requires LoopSteps(a, b, c, d, e, exited, cond, inc, body)
    ensures |b.code| == |a.code| + TestLen(cond) && |c.code| == |b.code| + Len(body)
    ensures |d.code| == |c.code| + DropLen(inc) && |e.code| == |d.code| + 2
    ensures |b.consts| == |a.consts| + |OptionConsts(cond)| && |c.consts| == |b.consts| + |Constants(body)|
    ensures cond.Some? ==> |a.code| + 2 <= |b.code|
  {
    hide Laid, Agree, Width, Bytes, Consts, Len, Recorded, LoopsFit;
    TestAppends(a, b, cond);
    DropAppends(c, d, inc);
  }

  lemma ExitPatch(p: Program, q: Program, exited: seq<nat>, patched: bool, at: nat, v: nat, lo: nat, hi: nat)
    requires Agree(p, q, 0, hi) && (patched ==> at < |q.code| && exited == q.code[at := v] && (at < lo || hi <= at))
    requires !patched ==> exited == q.code
    ensures Agree(p, Program(exited, q.consts), lo, hi)
  {
  }

  /** The patches that end a loop: breaks to the end, continues to the step or to the test. */
  predicate Patched(exited: seq<nat>, mid: seq<nat>, done: seq<nat>, body: Stmt, b: nat, inc: bool, target: nat) {
    && BreaksPatched(exited, mid, Breaks(body, b))
    && (inc ==> ForwardPatched(mid, done, Continues(body, b), target) && ForwardInReach(Continues(body, b), target))
    && (!inc ==> BackPatched(mid, done, Continues(body, b), target) && BackInReach(Continues(body, b), target))
  }

  lemma PatchedBytes(exited: seq<nat>, mid: seq<nat>, done: seq<nat>, body: Stmt, b: nat, inc: bool, target: nat)
    requires Patched(exited, mid, done, body, b, inc, target) && AllBytes(exited)
    ensures AllBytes(done)
  {
    hide Breaks, Continues;
    assert AllBytes(mid);
  }

  /** The code ends with the backward jump of a loop of `length` bytes, whose operand is not range-checked. */
  predicate EndsLoop(p: Program, length: nat) {
    var n := |p.code|;
    n >= 2 && p.code[n - 2] == LOOP && p.code[n - 1] == Byte(length + 1)
  }

  /** The patched code of a loop, whatever its backward jump does. */
  ghost predicate LoopButBack(p: Program, cond: Option<Expr>, inc: Option<Increment>, body: Stmt, pc: nat, k: nat) {
    var b, kb := pc + TestLen(cond), k + |OptionConsts(cond)|;
    var i, ki := b + Len(body), kb + |Constants(body)|;
    var back := i + DropLen(inc);
    && TestAt(p, cond, pc, k, back + 2)
    && Laid(p, body, b, kb, Closed(back + 2, if inc.Some? then i else pc, inc.Some?))
    && (inc.Some? ==> DropAt(p, inc.value, i, ki))
  }

  lemma LoopParts(p: Program, cond: Option<Expr>, inc: Option<Increment>, body: Stmt, pc: nat, k: nat)
    requires var b, kb := pc + TestLen(cond), k + |OptionConsts(cond)|;
      var i, ki := b + Len(body), kb + |Constants(body)|;
      var back := i + DropLen(inc);
      && TestAt(p, cond, pc, k, back + 2)
      && Laid(p, body, b, kb, Closed(back + 2, if inc.Some? then i else pc, inc.Some?))
      && (inc.Some? ==> DropAt(p, inc.value, i, ki))
    ensures LoopButBack(p, cond, inc, body, pc, k)
  {
  }

  /** A `while` ends with its backward jump, and when the loops inside it fit all its other code is right. */
  ghost predicate WhileAt(p: Program, s: Stmt, pc: nat, k: nat)
    requires s.While?
  {
    EndsLoop(p, Len(s)) && (LoopsFit(s.body) ==> LoopButBack(p, Some(s.test), None, s.body, pc, k))
  }

  /** The rest of the loop from the test on is short enough for the exits to reach. */
  predicate ExitsFit(inc: Option<Increment>, body: Stmt) {
    LoopsFit(body) && Len(body) + DropLen(inc) + 2 <= 255
  }

  lemma LoopLays(f: Snapshot, cond: Option<Expr>, inc: Option<Increment>, body: Stmt, pc: nat, k: nat)
    requires LoopButBack(f.Prog(), cond, inc, body, pc, k) && |f.code| == pc + LoopLen(cond, inc, body)
    requires EndsLoop(f.Prog(), LoopLen(cond, inc, body)) && LoopLen(cond, inc, body) <= 254
    ensures LoopAt(f.Prog(), cond, inc, body, pc, k)
  {
    hide TestAt, DropAt, Laid, Width, Consts, Constants, Len;
  }

  lemma LoopHolds(a: Snapshot, b: Snapshot, c: Snapshot, d: Snapshot, e: Snapshot, exited: seq<nat>,
                  cond: Option<Expr>, inc: Option<Increment>, body: Stmt)
    requires LoopSteps(a, b, c, d, e, exited, cond, inc, body) && LoopsFit(body)
    ensures Laid(c.Prog(), body, |b.code|, |b.consts|, Open)
    ensures cond.Some? ==> ExprAt(b.Prog(), cond.value, |a.code|, |a.consts|)
    ensures cond.Some? ==> |b.code| >= 2 && b.code[|b.code| - 2] == JUMP_IF_FALSE
    ensures inc.Some? ==> DropAt(d.Prog(), inc.value, |c.code|, |c.consts|)
  {
    hide Laid, Len, Width, Constants, Consts, Recorded, Agree, ExprAt, DropAt, Headed, AllBytes, LoopsFit;
    TestAppends(a, b, cond);
    DropAppends(c, d, inc);
  }

  /** The finished loop around its body: test and step. */
  lemma LoopFrame(a: Snapshot, b: Snapshot, c: Snapshot, d: Snapshot, e: Snapshot, exited: seq<nat>, f: Program,
                  cond: Option<Expr>, inc: Option<Increment>, body: Stmt)
    requires LoopSteps(a, b, c, d, e, exited, cond, inc, body) && ExitsFit(inc, body)
    requires Agree(Program(exited, e.consts), f, 0, |b.code|) && Agree(Program(exited, e.consts), f, |c.code|, |e.code|)
    ensures TestAt(f, cond, |a.code|, |a.consts|, |e.code|)
    ensures inc.Some? ==> DropAt(f, inc.value, |c.code|, |c.consts|)
  {
    hide LoopSteps, LoopLen, Laid, Len, Width, Constants, Consts, Recorded, Agree, ExprAt, Headed, AllBytes, LoopsFit, DropAt;
    var p := Program(exited, e.consts);
    LoopSizes(a, b, c, d, e, exited, cond, inc, body);
    LoopGrows(a, b, c, d, e, exited, cond, inc, body);
    LoopExits(a, b, c, d, e, exited, cond, inc, body);
    LoopHolds(a, b, c, d, e, exited, cond, inc, body);
    if cond.Some? {
      TestCloses(b, p, f, cond.value, |a.code|, |a.consts|, |e.code|);
    }
    if inc.Some? {
      Narrow(p, f, |c.code|, |e.code|, |c.code|, |d.code|);
      AgreeJoins(d.Prog(), p, f, |c.code|, |d.code|);
      SameDrop(d.Prog(), f, inc.value, |c.code|, |c.consts|);
    }
  }

  lemma LoopCloses(a: Snapshot, b: Snapshot, c: Snapshot, d: Snapshot, e: Snapshot, exited: seq<nat>, mid: seq<nat>,
                   f: Program, cond: Option<Expr>, inc: Option<Increment>, body: Stmt)
    requires LoopSteps(a, b, c, d, e, exited, cond, inc, body) && f.consts == e.consts
    requires Patched(exited, mid, f.code, body, |b.code|, inc.Some?, if inc.Some? then |c.code| else |a.code|)
    requires ExitsFit(inc, body)
    ensures LoopButBack(f, cond, inc, body, |a.code|, |a.consts|)
  {
    hide LoopSteps, LoopLen, Laid, Len, Width, Constants, Consts, Recorded, Agree, ExprAt, Headed, TestAt, DropAt, Backward;
    hide AllBytes, BreaksPatched, ForwardPatched, BackPatched, LoopButBack, LoopsFit, Breaks, Continues, BackInReach, ForwardInReach;
    var p, bc, target := Program(exited, e.consts), |b.code|, if inc.Some? then |c.code| else |a.code|;
    LoopSizes(a, b, c, d, e, exited, cond, inc, body);
    LoopGrows(a, b, c, d, e, exited, cond, inc, body);
    LoopExits(a, b, c, d, e, exited, cond, inc, body);
    LoopHolds(a, b, c, d, e, exited, cond, inc, body);
    SameLaid(c.Prog(), p, body, bc, |b.consts|, Open);
    BodyCloses(p, mid, f, body, bc, |b.consts|, inc.Some?, target);
    LoopFrame(a, b, c, d, e, exited, f, cond, inc, body);
    LoopParts(f, cond, inc, body, |a.code|, |a.consts|);
  }

  /** The head of a loop keeps its test, and its exit jump has been patched. */
  lemma TestCloses(b: Snapshot, p: Program, f: Program, test: Expr, pc: nat, k: nat, exit: nat)
    requires ExprAt(b.Prog(), test, pc, k) && |b.code| == pc + Width(test) + 2 <= |p.code|
    requires b.code[|b.code| - 2] == JUMP_IF_FALSE && Agree(b.Prog(), p, 0, |b.code| - 1) && Agree(p, f, 0, |b.code|)
    requires |b.code| <= exit <= |b.code| + 255 && p.code[|b.code| - 1] == Byte(exit - |b.code|)
    ensures TestAt(f, Some(test), pc, k, exit)
  {
    hide ExprAt, Width;
    SameExpr(b.Prog(), p, test, pc, k);
    SameExpr(p, f, test, pc, k);
  }

  /** What compiling a whole loop without error appends. */
  ghost predicate LoopAppended(a: Snapshot, f: Snapshot, cond: Option<Expr>, inc: Option<Increment>, body: Stmt) {
    && Agree(a.Prog(), f.Prog(), 0, |a.code|)
    && |f.code| == |a.code| + LoopLen(cond, inc, body) && f.consts == a.consts + LoopConsts(cond, inc, body)
    && f.loops == a.loops && EndsLoop(f.Prog(), LoopLen(cond, inc, body))
    && (LoopLen(cond, inc, body) <= 254 && LoopsFit(body) ==> LoopAt(f.Prog(), cond, inc, body, |a.code|, |a.consts|))
    && (AllBytes(a.code) ==> AllBytes(f.code))
  }

  /** What the finished loop is good for: all but the backward jump, and that too when the loop fits. */
  lemma LoopFinishes(a: Snapshot, b: Snapshot, c: Snapshot, d: Snapshot, e: Snapshot, exited: seq<nat>, mid: seq<nat>,
                     f: Snapshot, cond: Option<Expr>, inc: Option<Increment>, body: Stmt)
    requires LoopSteps(a, b, c, d, e, exited, cond, inc, body) && f.consts == e.consts
    requires Patched(exited, mid, f.code, body, |b.code|, inc.Some?, if inc.Some? then |c.code| else |a.code|)
    requires |f.code| == |a.code| + LoopLen(cond, inc, body) && EndsLoop(f.Prog(), LoopLen(cond, inc, body))
    ensures ExitsFit(inc, body) ==> LoopButBack(f.Prog(), cond, inc, body, |a.code|, |a.consts|)
    ensures LoopLen(cond, inc, body) <= 254 && LoopsFit(body) ==> LoopAt(f.Prog(), cond, inc, body, |a.code|, |a.consts|)
  {
    hide LoopSteps, LoopLen, Len, DropLen, TestLen, LoopAt, LoopButBack, EndsLoop, Patched, LoopsFit;
    LoopLenSum(cond, inc, body);
    if ExitsFit(inc, body) {
      LoopCloses(a, b, c, d, e, exited, mid, f.Prog(), cond, inc, body);
      if LoopLen(cond, inc, body) <= 254 {
        LoopLays(f, cond, inc, body, |a.code|, |a.consts|);
      }
    }
  }

  lemma LoopAppends(a: Snapshot, b: Snapshot, c: Snapshot, d: Snapshot, e: Snapshot, exited: seq<nat>, mid: seq<nat>,
                    f: Snapshot, target: nat, cond: Option<Expr>, inc: Option<Increment>, body: Stmt)
    requires LoopSteps(Entered(a, target), b, c, d, e, exited, cond, inc, body)
    requires f.consts == e.consts && f.loops == a.loops
    requires Patched(exited, mid, f.code, body, |b.code|, inc.Some?, if inc.Some? then |c.code| else |a.code|)
    ensures LoopAppended(a, f, cond, inc, body)
    ensures ExitsFit(inc, body) ==> LoopButBack(f.Prog(), cond, inc, body, |a.code|, |a.consts|)
  {
    hide LoopSteps, LoopLen, Laid, Len, Constants, Consts, Recorded, Agree, AllBytes;
    hide Breaks, Continues, LoopAt, LoopButBack, ExitsFit, LoopsFit, BreaksPatched, ForwardPatched, BackPatched, LoopConsts;
    var a1, p := Entered(a, target), Program(exited, e.consts);
    LoopSizes(a1, b, c, d, e, exited, cond, inc, body);
    LoopGrows(a1, b, c, d, e, exited, cond, inc, body);
    LoopExits(a1, b, c, d, e, exited, cond, inc, body);
    PatchKeeps(p, mid, f.Prog(), body, |b.code|, inc.Some?, if inc.Some? then |c.code| else |a.code|);
    Narrow(p, f.Prog(), 0, |b.code|, 0, |a.code|);
    AgreeJoins(a.Prog(), p, f.Prog(), 0, |a.code|);
    AgreesAt(p, f.Prog(), |c.code|, |e.code|, |d.code|);
    AgreesAt(p, f.Prog(), |c.code|, |e.code|, |d.code| + 1);
    if AllBytes(a.code) {
      PatchedBytes(exited, mid, f.code, body, |b.code|, inc.Some?, if inc.Some? then |c.code| else |a.code|);
    }
    LoopFinishes(a1, b, c, d, e, exited, mid, f, cond, inc, body);
  }

  lemma WhileAppends(a: Snapshot, f: Snapshot, s: Stmt)
    requires s.While? && LoopAppended(a, f, Some(s.test), None, s.body) && Len(s.body) + 2 <= 255
    requires ExitsFit(None, s.body) ==> LoopButBack(f.Prog(), Some(s.test), None, s.body, |a.code|, |a.consts|)
    ensures Appended(a, f, s) && WhileAt(f.Prog(), s, |a.code|, |a.consts|)
  {
    hide LoopAt, LoopLen, Agree, AllBytes, LoopConsts, LoopButBack, EndsLoop;
    RecordedNone(a.loops, s, |a.code|);
  }

  lemma ForAppends(a: Snapshot, b: Snapshot, f: Snapshot, s: Stmt)
    requires s.For? && Dropped(a, b, s.init) && LoopAppended(b, f, s.cond, s.inc, s.body)
    ensures Appended(a, f, s) && EndsLoop(f.Prog(), LoopLen(s.cond, s.inc, s.body))
  {
    hide LoopAt, LoopLen, Agree, AllBytes, LoopConsts, DropAt, Consts, Bytes, Width;
    DropAppends(a, b, s.init);
    RecordedNone(a.loops, s, |a.code|);
    Then(a, b, f);
    if LoopsFit(s) && s.init.Some? {
      var end := |a.code| + DropLen(s.init);
      Narrow(b.Prog(), f.Prog(), 0, |b.code|, |a.code|, end);
      SameDrop(b.Prog(), f.Prog(), s.init.value, |a.code|, |a.consts|);
    }
    assert a.consts + OptionConsts(s.init) + LoopConsts(s.cond, s.inc, s.body) == a.consts + Constants(s);
  }

  /** A `for` loop is its initializer followed by the loop without one. */
  lemma ForCompiles(start: Snapshot, a: Snapshot, f: Snapshot, s: Stmt)
    requires s.For? && Dropped(start, a, s.init) && Compiled(a, f, For(None, s.cond, s.inc, s.body))
    requires !f.hadError ==> EndsLoop(f.Prog(), LoopLen(s.cond, s.inc, s.body))
    ensures Compiled(start, f, s)
  {
    hide Appended;
    DropAppends(start, a, s.init);
    if !f.hadError {
      ForUnwraps(a, f, s);
      ForAppends(start, a, f, s);
    }
  }

  lemma ForUnwraps(a: Snapshot, f: Snapshot, s: Stmt)
    requires s.For? && Appended(a, f, For(None, s.cond, s.inc, s.body)) && EndsLoop(f.Prog(), LoopLen(s.cond, s.inc, s.body))
    ensures LoopAppended(a, f, s.cond, s.inc, s.body)
  {
    hide LoopAt, LoopLen, Agree, AllBytes;
    RecordedNone(a.loops, For(None, s.cond, s.inc, s.body), |a.code|);
    assert [] + LoopConsts(s.cond, s.inc, s.body) == LoopConsts(s.cond, s.inc, s.body);
  }

  /** The context of a loop once its body is compiled. */
  lemma ContextHolds(outer: seq<LoopContext>, target: nat, b: Snapshot, c: Snapshot, body: Stmt)
    requires Appended(b, c, body) && b.loops == outer + [LoopContext([], [], target)]
    ensures var n := |outer|;
      |c.loops| == n + 1 && c.loops[..n] == outer
      && c.loops[n] == LoopContext(Breaks(body, |b.code|), Continues(body, |b.code|), target)
  {
    hide Laid, Breaks, Continues, LoopsFit;
    assert [] + Breaks(body, |b.code|) == Breaks(body, |b.code|) && [] + Continues(body, |b.code|) == Continues(body, |b.code|);
  }

  predicate IsLoop(s: Stmt, body: Stmt) {
    (s.While? || s.DoWhile? || s.For?) && s.body == body
  }

  /** In a loop not nested too deeply an error comes from the body or from the loop's own jumps. */
  lemma LoopLimits(a: Snapshot, target: nat, b: Snapshot, c: Snapshot, body: Stmt, s: Stmt)
    requires IsLoop(s, body) && |a.loops| < MAX_LOOPS && b.loops == a.loops + [LoopContext([], [], target)]
    requires Compiled(b, c, body)
    ensures Accepts(s, a.loops) <==> !c.hadError && LoopReaches(s)
  {
    hide Appended, Len, LoopReaches;
  }

  lemma TooDeep(a: Snapshot, f: Snapshot, body: Stmt, s: Stmt)
    requires IsLoop(s, body) && |a.loops| >= MAX_LOOPS && f.hadError
    ensures Compiled(a, f, s)
  {
    hide Appended, JumpsReach;
  }

  /** Once the body is compiled, `f` ends the loop: with an error exactly when one of the loop's own jumps does not reach. */
  lemma LoopCompiles(a: Snapshot, target: nat, b: Snapshot, c: Snapshot, f: Snapshot, body: Stmt, s: Stmt)
    requires IsLoop(s, body) && |a.loops| < MAX_LOOPS && b.loops == a.loops + [LoopContext([], [], target)]
    requires Compiled(b, c, body)
    requires if c.hadError then f.hadError else f.hadError <==> !LoopReaches(s)
    requires !f.hadError ==> Appended(a, f, s)
    ensures Compiled(a, f, s)
  {
    hide Appended, LoopReaches, Accepts, Len;
    LoopLimits(a, target, b, c, body, s);
  }

  /** The conditions on a loop's own jumps, where the loop stands. */
  lemma WhileReaches(test: Expr, body: Stmt, at: nat)
    ensures LoopReaches(While(test, body))
      <==> Len(body) + 2 <= 255 && BackInReach(Continues(body, at + TestLen(Some(test))), at)
  {
    hide Width, Len, Continues, BackInReach;
    ReachMoves(body, TestLen(Some(test)), 0, at);
    assert TestLen(Some(test)) + at == at + TestLen(Some(test));
  }

  lemma DoReaches(s: Stmt, at: nat)
    requires s.DoWhile?
    ensures LoopReaches(s) <==> BackInReach(Continues(s.body, at), at)
  {
    hide Width, Len, Continues, BackInReach;
    ReachMoves(s.body, 0, 0, at);
  }

  lemma ForReaches(s: Stmt, at: nat)
    requires s.For?
    ensures var b := at + TestLen(s.cond);
      LoopReaches(s) <==> if s.inc.Some? then ForwardInReach(Continues(s.body, b), b + Len(s.body)) else BackInReach(Continues(s.body, b), at)
  {
    hide Width, Len, Continues, BackInReach, ForwardInReach;
    var b := at + TestLen(s.cond);
    ReachMoves(s.body, 0, Len(s.body), b);
    ReachMoves(s.body, TestLen(s.cond), 0, at);
    assert Len(s.body) + b == b + Len(s.body) && TestLen(s.cond) + at == b;
  }

  lemma DoLen(s: Stmt)
    requires s.DoWhile?
    ensures Len(s) == Len(s.body) + Width(s.test) + 4
  {
  }

  lemma ContinuesApart(body: Stmt, b: nat)
    ensures forall c, d :: c in Continues(body, b) && d in Continues(body, b) ==> c != d + 1
  {
    forall c, d | c in Continues(body, b) && d in Continues(body, b)
      ensures c != d + 1
    {
      Spaced(body, b, c, d);
    }
  }

  lemma IncrementCode(inc: Increment, k: nat)
    ensures Bytes(inc, k) == [GET_GLOBAL, Byte(k), PUSH_CONST, Byte(k + 1), Opcode(inc.cop), SET_GLOBAL, Byte(k)]
    ensures Consts(inc) == [Str(inc.x), inc.e.v]
  {
  }

  lemma NothingDropped(a: Snapshot)
    ensures Dropped(a, a, None)
  {
  }

  lemma LoopLenSum(cond: Option<Expr>, inc: Option<Increment>, body: Stmt)
    ensures LoopLen(cond, inc, body) == TestLen(cond) + Len(body) + DropLen(inc) + 2
  {
  }

  /** The code of a do-while loop as it grows: body, test and backward jump; then the exit patch. */
  ghost predicate DoSteps(a: Snapshot, c: Snapshot, d: Snapshot, e: Snapshot, exited: seq<nat>, s: Stmt)
    requires s.DoWhile?
  {
    && Appended(a, c, s.body) && TestHeaded(c, d, Some(s.test))
    && e == d.(code := d.code + [LOOP, Byte(Len(s) + 1)])
    && 0 < |d.code| < |e.code| && exited == e.code[|d.code| - 1 := 2]
  }

  lemma DoGrows(a: Snapshot, c: Snapshot, d: Snapshot, e: Snapshot, exited: seq<nat>, s: Stmt)
    requires s.DoWhile? && DoSteps(a, c, d, e, exited, s)
    ensures |c.code| == |a.code| + Len(s.body) && |d.code| == |c.code| + Width(s.test) + 2 && |e.code| == |d.code| + 2
    ensures |exited| == |e.code| == |a.code| + Len(s) && e.consts == a.consts + Constants(s) && e.loops == Recorded(a.loops, s.body, |a.code|)
    ensures |c.consts| == |a.consts| + |Constants(s.body)|
    ensures var p := Program(exited, e.consts);
      && Agree(a.Prog(), p, 0, |a.code|) && Agree(c.Prog(), p, 0, |c.code|) && Agree(d.Prog(), p, 0, |d.code| - 1)
      && p.code[|d.code| - 1] == 2 && p.code[|d.code|] == LOOP && p.code[|d.code| + 1] == Byte(Len(s) + 1)
    ensures AllBytes(a.code) ==> AllBytes(exited)
    ensures ExprAt(d.Prog(), s.test, |c.code|, |c.consts|) && d.code[|d.code| - 2] == JUMP_IF_FALSE
    ensures LoopsFit(s.body) ==> Laid(c.Prog(), s.body, |a.code|, |a.consts|, Open)
  {
    hide Width, Laid, Recorded, LoopsFit, ExprAt, Consts, Headed, Bytes, Agree, AllBytes;
    TestAppends(c, d, Some(s.test));
    assert e.consts == a.consts + Constants(s);
    var p, back := Program(exited, e.consts), [LOOP, Byte(Len(s) + 1)];
    Extended(d.Prog(), e.Prog(), back);
    assert AllBytes(back) by { TwoBytes(LOOP, Byte(Len(s) + 1)); }
    Then(c, d, e);
    Then(a, c, e);
    Updated(e.Prog(), p, |d.code| - 1, 2);
    ExitPatch(a.Prog(), e.Prog(), exited, true, |d.code| - 1, 2, 0, |a.code|);
    ExitPatch(c.Prog(), e.Prog(), exited, true, |d.code| - 1, 2, 0, |c.code|);
    Narrow(d.Prog(), e.Prog(), 0, |d.code|, 0, |d.code| - 1);
    ExitPatch(d.Prog(), e.Prog(), exited, true, |d.code| - 1, 2, 0, |d.code| - 1);
  }

  lemma DoLays(p: Program, s: Stmt, pc: nat, k: nat, t: Targets)
    requires s.DoWhile?
    requires var test := pc + Len(s.body);
      var back := test + Width(s.test) + 2;
      && Laid(p, s.body, pc, k, Closed(back + 2, pc, false))
      && TestAt(p, Some(s.test), test, k + |Constants(s.body)|, back + 2)
      && Backward(p, back, LOOP, 3, pc)
    ensures Laid(p, s, pc, k, t)
  {
    hide TestAt, Width, Constants, Backward;
  }

  lemma DoAppends(a: Snapshot, target: nat, c: Snapshot, d: Snapshot, e: Snapshot, exited: seq<nat>, mid: seq<nat>,
                  f: Snapshot, s: Stmt)
    requires s.DoWhile? && DoSteps(Entered(a, target), c, d, e, exited, s)
    requires f.consts == e.consts && f.loops == a.loops
    requires Patched(exited, mid, f.code, s.body, |a.code|, false, |a.code|)
    ensures Appended(a, f, s) && EndsLoop(f.Prog(), Len(s))
  {
    hide DoSteps, Laid, Len, Constants, Consts, Recorded, Agree, AllBytes;
    hide LoopsFit, BreaksPatched, BackPatched, ForwardPatched, BackInReach, ForwardInReach, Width, ExprAt;
    var a1, p, pc := Entered(a, target), Program(exited, e.consts), |a.code|;
    DoGrows(a1, c, d, e, exited, s);
    RecordedNone(a.loops, s, pc);
    PatchKeeps(p, mid, f.Prog(), s.body, pc, false, pc);
    AgreeJoins(a.Prog(), p, f.Prog(), 0, pc);
    AgreesAt(p, f.Prog(), |c.code|, |e.code|, |d.code|);
    AgreesAt(p, f.Prog(), |c.code|, |e.code|, |d.code| + 1);
    if AllBytes(a.code) {
      PatchedBytes(exited, mid, f.code, s.body, pc, false, pc);
    }
    if LoopsFit(s) {
      DoFits(s);
      Narrow(c.Prog(), p, 0, |c.code|, pc, |c.code|);
      SameLaid(c.Prog(), p, s.body, pc, |a.consts|, Open);
      BodyCloses(p, mid, f.Prog(), s.body, pc, |a.consts|, false, pc);
      DoTestCloses(d, p, f.Prog(), s.test, |c.code|, |c.consts|);
      DoLays(f.Prog(), s, pc, |a.consts|, Open);
    }
  }

  lemma DoFits(s: Stmt)
    requires s.DoWhile? && LoopsFit(s)
    ensures Len(s) <= 254 && LoopsFit(s.body) && Len(s.body) <= Len(s)
  {
  }

  lemma DoTestCloses(d: Snapshot, p: Program, f: Program, test: Expr, pc: nat, k: nat)
    requires ExprAt(d.Prog(), test, pc, k) && |d.code| == pc + Width(test) + 2 <= |p.code|
    requires d.code[|d.code| - 2] == JUMP_IF_FALSE && Agree(d.Prog(), p, 0, |d.code| - 1) && Agree(p, f, pc, |p.code|)
    requires p.code[|d.code| - 1] == 2
    ensures TestAt(f, Some(test), pc, k, |d.code| + 2)
  {
    hide ExprAt, Width;
    SameExpr(d.Prog(), p, test, pc, k);
    SameExpr(p, f, test, pc, k);
  }

  lemma SkipCompiles(a: Snapshot)
    requires !a.hadError
    ensures Compiled(a, a, Skip)
  {
    RecordedNone(a.loops, Skip, |a.code|);
    assert a.consts + [] == a.consts;
  }

  lemma UpdateHeaded(a: Snapshot, b: Snapshot, e: Expr)
    requires b == a.(code := a.code + Bytes(e, |a.consts|) + [POP], consts := a.consts + Consts(e))
    ensures Headed(a, b, e, [POP])
  {
  }

  // ---- Jumps ----

  lemma NoLoop(a: Snapshot, f: Snapshot, s: Stmt)
    requires (s.Break? || s.Continue?) && a.loops == [] && f.hadError
    ensures Compiled(a, f, s)
  {
    hide Appended;
  }

  lemma JumpCompiles(a: Snapshot, f: Snapshot, s: Stmt)
    requires (s.Break? || s.Continue?) && a.loops != [] && !a.hadError
    requires f.code == a.code + [if s.Break? then BREAK else CONTINUE, 0] && f.consts == a.consts
    requires var n, pending := |a.loops| - 1, if s.Break? then PendingBreaks(a.loops) else PendingContinues(a.loops);
      if pending < MAX_JUMPS then !f.hadError && f.loops == Recorded(a.loops, s, |a.code|) else f.hadError
    ensures Compiled(a, f, s)
  {
    assert a.consts + [] == a.consts;
  }

  class Emitter {
    var code: seq<nat>
    var consts: seq<Value>
    var loops: seq<LoopContext>
    var hadError: bool

    constructor ()
      ensures Snap() == Snapshot([], [], [], false)
    {
      code, consts, loops, hadError := [], [], [], false;
    }

    ghost function Snap(): Snapshot
      reads this
    {
      Snapshot(code, consts, loops, hadError)
    }

    method Emit(b: nat)
      modifies `code
      ensures code == old(code) + [Byte(b)]
    {
      code := code + [Byte(b)];
    }

    /** A jump with a hole for its operand. */
    method EmitJump(op: nat) returns (at: nat)
      requires op < 256
      modifies `code
      ensures code == old(code) + [op, 0] && at == |old(code)| + 1
    {
      Emit(op);
      at := |code|;
      Emit(0);
    }

    method Patch(at: nat, offset: nat)
      requires at < |code|
      modifies `code
      ensures code == old(code)[at := Byte(offset)]
    {
      code := code[at := Byte(offset)];
    }

    /** The expression compiler's effect on the chunk. */
    method Expression(e: Expr)
      modifies `code, `consts
      ensures code == old(code) + Bytes(e, |old(consts)|) && consts == old(consts) + Consts(e)
    {
      code := code + Bytes(e, |consts|);
      consts := consts + Consts(e);
    }

    /** Every `break` recorded for the loop jumps to the end of the code so far. */
    method PatchBreaks(breaks: seq<nat>)
      requires forall b :: b in breaks ==> b < |code|
      modifies `code
      ensures BreaksPatched(old(code), code, breaks)
    {
      var i := 0;
      while i < |breaks|
        invariant 0 <= i <= |breaks|
        invariant BreaksPatched(old(code), code, breaks[..i])
      {
        var at := breaks[i];
        assert at in breaks;
        assert breaks[..i + 1] == breaks[..i] + [at];
        Patch(at, |code| - at - 1);
        i := i + 1;
      }
      assert breaks[..i] == breaks;
    }

    /** Every `continue` recorded for the loop jumps back to `target`, which must be within reach of a byte. */
    method PatchContinuesBack(continues: seq<nat>, target: nat)
      requires forall c :: c in continues ==> c < |code|
      modifies `code, `hadError
      ensures hadError <==> old(hadError) || !BackInReach(continues, target)
      ensures !hadError ==> BackPatched(old(code), code, continues, target)
    {
      var i := 0;
      while i < |continues|
        invariant 0 <= i <= |continues| && |code| == |old(code)|
        invariant hadError <==> old(hadError) || !BackInReach(continues[..i], target)
        invariant !hadError ==> BackPatched(old(code), code, continues[..i], target)
      {
        var at := continues[i];
        assert at in continues;
        assert continues[..i + 1] == continues[..i] + [at];
        ReachExtends(continues[..i], at, target);
        var offset := at + 1 - target;
        if offset < 0 || offset > 255 {
          hadError := true;
        } else {
          Patch(at, offset);
        }
        i := i + 1;
      }
      assert continues[..i] == continues;
    }

    /** Every `continue` recorded for the loop is rewritten into a jump forwards to `target`. */
    method PatchContinuesForward(continues: seq<nat>, target: nat)
      requires forall c :: c in continues ==> 0 < c < |code|
      requires forall c, d :: c in continues && d in continues ==> c != d + 1
      modifies `code, `hadError
      ensures hadError <==> old(hadError) || !ForwardInReach(continues, target)
      ensures !hadError ==> ForwardPatched(old(code), code, continues, target)
    {
      var i := 0;
      while i < |continues|
        invariant 0 <= i <= |continues| && |code| == |old(code)|
        invariant hadError <==> old(hadError) || !ForwardInReach(continues[..i], target)
        invariant !hadError ==> ForwardPatched(old(code), code, continues[..i], target)
      {
        var at := continues[i];
        assert at in continues;
        assert continues[..i + 1] == continues[..i] + [at];
        ReachExtends(continues[..i], at, target);
        ghost var before := code;
        Patch(at - 1, JUMP);
        var offset := target - at - 1;
        if offset < 0 || offset > 255 {
          hadError := true;
        } else {
          Patch(at, offset);
          if !hadError {
            assert forall x :: x in continues[..i] + [at] ==> x in continues;
            ForwardStep(old(code), before, code, continues[..i], at, target);
          }
        }
        i := i + 1;
      }
      assert continues[..i] == continues;
    }

    /** A condition and the jump taken when it is false, its operand still open. */
    method EmitTest(test: Expr) returns (at: nat)
      modifies `code, `consts
      ensures Headed(old(Snap()), Snap(), test, [JUMP_IF_FALSE, 0])
      ensures at + 1 == |code| == |old(code)| + Width(test) + 2
    {
      hide Bytes, Consts, Width;
      Expression(test);
      at := EmitJump(JUMP_IF_FALSE);
      BytesWidth(test, |old(consts)|);
      assert code == old(code) + Bytes(test, |old(consts)|) + [JUMP_IF_FALSE, 0];
    }

    method EmitDropped(e: Expr)
      modifies `code, `consts
      ensures Headed(old(Snap()), Snap(), e, [POP])
    {
      hide Bytes, Consts;
      Expression(e);
      Emit(POP);
    }

    /** An expression statement; its value is popped when the scan finds an assignment. */
    method ExpressionStatement(e: Expr)
      modifies `code, `consts
      ensures consts == old(consts) + Consts(e)
      ensures var bytes := Bytes(e, |old(consts)|);
        code == old(code) + bytes + if HasAssignment(bytes) then [POP] else []
    {
      hide Bytes, Consts;
      var startCount := |code|;
      Expression(e);
      var hasAssignment, i := false, startCount;
      ghost var bytes := Bytes(e, |old(consts)|);
      assert code[startCount..] == bytes;
      while i < |code|
        invariant startCount <= i <= |code|
        invariant !hasAssignment ==> !HasAssignment(code[startCount..i])
        invariant hasAssignment ==> HasAssignment(bytes)
      {
        assert code[startCount..i + 1] == code[startCount..i] + [code[i]];
        if code[i] == SET_GLOBAL || code[i] == ARRAY_SET {
          assert bytes[i - startCount] == code[i];
          hasAssignment := true;
          break;
        }
        i := i + 1;
      }
      assert !hasAssignment ==> code[startCount..i] == bytes;
      if hasAssignment {
        Emit(POP);
      }
    }

    method IfStatement(test: Expr, thn: Stmt, els: Stmt)
      requires !hadError && WellFormed(thn) && WellFormed(els)
      modifies this
      ensures Compiled(old(Snap()), Snap(), If(test, thn, els))
      decreases StmtSize(thn) + StmtSize(els), 1
    {
      hide Appended, Compiled, WithinLimits, LoopsFit, Len, Width, Headed;
      ghost var s, a := If(test, thn, els), Snap();
      var thenJump := EmitTest(test);
      ghost var b := Snap();
      assert b.loops == a.loops;
      Statement(thn);
      ghost var c := Snap();
      if hadError {
        IfStops(b, c, s, a);
        return;
      }
      CompiledSize(b, c, thn);
      var elseJump := EmitJump(JUMP);
      var thenOffset := |code| - thenJump - 1;
      if thenOffset > 255 {
        hadError := true;
        IfTooLong(b, c, s, a, Snap());
        return;
      }
      Patch(thenJump, thenOffset);
      ghost var d := Snap();
      Statement(els);
      ghost var e := Snap();
      if hadError {
        IfEnds(a, b, c, d, e, e, s);
        return;
      }
      CompiledSize(d, e, els);
      var elseOffset := |code| - elseJump - 1;
      if elseOffset > 255 {
        hadError := true;
        IfEnds(a, b, c, d, e, Snap(), s);
        return;
      }
      Patch(elseJump, elseOffset);
      IfCompiles(a, b, c, d, e, Snap(), s);
    }

    method LoopBody(body: Stmt)
      requires !hadError && (body.Discard? || WellFormed(body))
      modifies this
      ensures Compiled(old(Snap()), Snap(), body)
      decreases StmtSize(body), 2
    {
      hide Compiled, Headed;
      ghost var a := Snap();
      if body.Discard? {
        EmitDropped(body.e);
        DiscardCompiles(a, Snap(), body.e);
      } else {
        Statement(body);
      }
    }

    method WhileStatement(test: Expr, body: Stmt)
      requires !hadError && (body.Discard? || WellFormed(body))
      modifies this
      ensures Compiled(old(Snap()), Snap(), While(test, body))
      ensures !hadError ==> WhileAt(Snap().Prog(), While(test, body), |old(code)|, |old(consts)|)
      decreases StmtSize(body), 3
    {
      hide Compiled, Appended, LoopAppended, LoopButBack, ExitsFit, WhileAt, Len, LoopLen, Width, Headed;
      hide LoopsFit, BreaksPatched, BackPatched, Breaks, Continues, WithinLimits, BackInReach;
      ghost var s, a := While(test, body), Snap();
      if |loops| >= MAX_LOOPS {
        hadError := true;
        TooDeep(a, Snap(), body, s);
        return;
      }
      var loopStart := |code|;
      loops := loops + [LoopContext([], [], loopStart)];
      var exitJump := EmitTest(test);
      ghost var b := Snap();
      LoopBody(body);
      ghost var c := Snap();
      if hadError {
        LoopCompiles(a, loopStart, b, c, c, body, s);
        return;
      }
      CompiledSize(b, c, body);
      ContextHolds(a.loops, loopStart, b, c, body);
      var context := loops[|loops| - 1];
      Emit(LOOP);
      Emit(|code| - loopStart + 2);
      ghost var e := Snap();
      LoopLenSum(Some(test), None, body);
      WhileReaches(test, body, loopStart);
      var exitOffset := |code| - exitJump - 1;
      if exitOffset > 255 {
        hadError := true;
        LoopCompiles(a, loopStart, b, c, Snap(), body, s);
        return;
      }
      Patch(exitJump, exitOffset);
      ghost var exited := code;
      OperandsInside(body, |b.code|);
      PatchBreaks(context.breaks);
      ghost var mid := code;
      PatchContinuesBack(context.continues, context.target);
      loops := loops[..|loops| - 1];
      if !hadError {
        LoopAppends(a, b, c, c, e, exited, mid, Snap(), loopStart, Some(test), None, body);
        WhileAppends(a, Snap(), s);
      }
      LoopCompiles(a, loopStart, b, c, Snap(), body, s);
    }

    method DoWhileStatement(body: Stmt, test: Expr)
      requires !hadError && (body.Discard? || WellFormed(body))
      modifies this
      ensures Compiled(old(Snap()), Snap(), DoWhile(body, test))
      ensures !hadError ==> EndsLoop(Snap().Prog(), Len(DoWhile(body, test)))
      decreases StmtSize(body), 3
    {
      hide Compiled, Appended, Len, Width, Headed, LoopsFit;
      hide BreaksPatched, BackPatched, Breaks, Continues, WithinLimits, BackInReach;
      ghost var s, a := DoWhile(body, test), Snap();
      if |loops| >= MAX_LOOPS {
        hadError := true;
        TooDeep(a, Snap(), body, s);
        return;
      }
      var loopStart := |code|;
      loops := loops + [LoopContext([], [], loopStart)];
      ghost var b := Snap();
      LoopBody(body);
      ghost var c := Snap();
      if hadError {
        LoopCompiles(a, loopStart, b, c, c, body, s);
        return;
      }
      CompiledSize(b, c, body);
      ContextHolds(a.loops, loopStart, b, c, body);
      var exitJump := EmitTest(test);
      ghost var d := Snap();
      var context := loops[|loops| - 1];
      Emit(LOOP);
      Emit(|code| - loopStart + 2);
      ghost var e := Snap();
      DoLen(s);
      DoReaches(s, loopStart);
      // The exit jump skips exactly the backward jump, so it is always in range.
      assert |code| - exitJump - 1 == 2;
      Patch(exitJump, |code| - exitJump - 1);
      ghost var exited := code;
      OperandsInside(body, |b.code|);
      PatchBreaks(context.breaks);
      ghost var mid := code;
      PatchContinuesBack(context.continues, context.target);
      loops := loops[..|loops| - 1];
      if !hadError {
        DoAppends(a, loopStart, c, d, e, exited, mid, Snap(), s);
      }
      LoopCompiles(a, loopStart, b, c, Snap(), body, s);
    }

    method ForStatement(init: Option<Expr>, cond: Option<Expr>, inc: Option<Increment>, body: Stmt)
      requires !hadError && (body.Discard? || WellFormed(body))
      modifies this
      ensures Compiled(old(Snap()), Snap(), For(init, cond, inc, body))
      ensures !hadError ==> EndsLoop(Snap().Prog(), LoopLen(cond, inc, body))
      decreases StmtSize(body), 4
    {
      hide Compiled, Headed;
      ghost var start := Snap();
      if init.Some? {
        EmitDropped(init.value);
      }
      ghost var a := Snap();
      ForLoop(cond, inc, body);
      ForCompiles(start, a, Snap(), For(init, cond, inc, body));
    }

    /** The loop after its initializer: `continue` jumps forwards to the increment, or back to the test without one. */
    method ForLoop(cond: Option<Expr>, inc: Option<Increment>, body: Stmt)
      requires !hadError && (body.Discard? || WellFormed(body))
      modifies this
      ensures Compiled(old(Snap()), Snap(), For(None, cond, inc, body))
      ensures !hadError ==> EndsLoop(Snap().Prog(), LoopLen(cond, inc, body))
      decreases StmtSize(body), 3
    {
      hide Compiled, Appended, LoopAppended, Len, LoopLen, Width, TestHeaded;
      hide Dropped, DropLen, LoopsFit, Breaks, Continues, WithinLimits, Patched;
      ghost var s, a := For(None, cond, inc, body), Snap();
      if |loops| >= MAX_LOOPS {
        hadError := true;
        TooDeep(a, Snap(), body, s);
        return;
      }
      var loopStart := |code|;
      loops := loops + [LoopContext([], [], loopStart)];
      var exitJump := EmitLoopTest(cond);
      ghost var b := Snap();
      LoopBody(body);
      ghost var c := Snap();
      if hadError {
        LoopCompiles(a, loopStart, b, c, c, body, s);
        return;
      }
      CompiledSize(b, c, body);
      FinishFor(cond, inc, loopStart, exitJump, a, b, body);
      LoopCompiles(a, loopStart, b, c, Snap(), body, s);
    }

    /** After the body: increment, backward jump, and the patches. */
    method FinishFor(cond: Option<Expr>, inc: Option<Increment>, loopStart: nat, exitJump: nat,
                     ghost a: Snapshot, ghost b: Snapshot, ghost body: Stmt)
      requires !hadError && loopStart == |a.code| && TestHeaded(Entered(a, loopStart), b, cond)
      requires |b.code| == |a.code| + TestLen(cond) && (cond.Some? ==> exitJump + 1 == |b.code|)
      requires Appended(b, Snap(), body) && b.loops == a.loops + [LoopContext([], [], loopStart)]
      modifies this
      ensures hadError <==> !LoopReaches(For(None, cond, inc, body))
      ensures !hadError ==> Appended(a, Snap(), For(None, cond, inc, body)) && EndsLoop(Snap().Prog(), LoopLen(cond, inc, body))
    {
      hide LoopAppended, Len, LoopLen, Width, TestHeaded, Dropped, DropLen, LoopsFit;
      hide Breaks, Continues, Patched, Recorded, Laid, Agree, AllBytes, Constants;
      ghost var s, c := For(None, cond, inc, body), Snap();
      ContextHolds(a.loops, loopStart, b, c, body);
      var context := loops[|loops| - 1];
      var incrementStart := |code|;
      EmitStep(inc);
      ghost var d := Snap();
      Emit(LOOP);
      Emit(|code| - loopStart + 2);
      ghost var e := Snap();
      LoopLenSum(cond, inc, body);
      if cond.Some? {
        Patch(exitJump, |code| - exitJump - 1);
      }
      ghost var exited := code;
      ForReaches(s, loopStart);
      ghost var mid := PatchFor(context, inc.Some?, if inc.Some? then incrementStart else loopStart, body, |b.code|);
      loops := loops[..|loops| - 1];
      if !hadError {
        LoopAppends(a, b, c, d, e, exited, mid, Snap(), loopStart, cond, inc, body);
        NothingDropped(a);
        ForAppends(a, a, Snap(), s);
      }
    }

    method EmitLoopTest(cond: Option<Expr>) returns (exitJump: nat)
      modifies `code, `consts
      ensures TestHeaded(old(Snap()), Snap(), cond) && |code| == |old(code)| + TestLen(cond)
      ensures cond.Some? ==> exitJump + 1 == |code|
    {
      hide Headed, Width;
      exitJump := 0;
      if cond.Some? {
        exitJump := EmitTest(cond.value);
      }
    }

    method EmitStep(inc: Option<Increment>)
      modifies `code, `consts
      ensures Dropped(old(Snap()), Snap(), inc) && |code| == |old(code)| + DropLen(inc)
    {
      hide Headed, Width;
      ghost var a := Snap();
      if inc.Some? {
        EmitIncrement(inc.value);
      }
      DropAppends(a, Snap(), inc);
    }

    /** The patches at the end of a `for` loop. */
    method PatchFor(context: LoopContext, hasIncrement: bool, target: nat, ghost body: Stmt, ghost b: nat)
      returns (ghost mid: seq<nat>)
      requires !hadError && b + Len(body) <= |code|
      requires context.breaks == Breaks(body, b) && context.continues == Continues(body, b)
      modifies `code, `hadError
      ensures !hadError ==> Patched(old(code), mid, code, body, b, hasIncrement, target)
      ensures hadError <==>
        !(if hasIncrement then ForwardInReach(context.continues, target) else BackInReach(context.continues, target))
    {
      hide Breaks, Continues, Len, BreaksPatched, ForwardPatched, BackPatched, BackInReach, ForwardInReach;
      OperandsInside(body, b);
      PatchBreaks(context.breaks);
      mid := code;
      if hasIncrement {
        ContinuesApart(body, b);
        PatchContinuesForward(context.continues, target);
      } else {
        PatchContinuesBack(context.continues, target);
      }
    }

    /** The increments emitted directly: load, operand, operator, store and pop. */
    method EmitIncrement(inc: Increment)
      modifies `code, `consts
      ensures Headed(old(Snap()), Snap(), inc, [POP])
    {
      hide Bytes, Consts, Opcode;
      var nameIndex := |consts|;
      consts := consts + [Str(inc.x)];
      Emit(GET_GLOBAL);
      Emit(nameIndex);
      var operandIndex := |consts|;
      consts := consts + [inc.e.v];
      Emit(PUSH_CONST);
      Emit(operandIndex);
      Emit(Opcode(inc.cop));
      Emit(SET_GLOBAL);
      Emit(nameIndex);
      Emit(POP);
      IncrementCode(inc, nameIndex);
    }

    /** The operand is left open and remembered in the innermost loop. */
    method BreakStatement()
      requires !hadError
      modifies this
      ensures Compiled(old(Snap()), Snap(), Break)
    {
      hide Compiled;
      ghost var a := Snap();
      if |loops| == 0 {
        hadError := true;
        NoLoop(a, Snap(), Break);
        return;
      }
      var at := EmitJump(BREAK);
      var top := loops[|loops| - 1];
      if |top.breaks| < MAX_JUMPS {
        assert top.continues + [] == top.continues;
        loops := loops[|loops| - 1 := top.(breaks := top.breaks + [at])];
      } else {
        hadError := true;
      }
      JumpCompiles(a, Snap(), Break);
    }

    method ContinueStatement()
      requires !hadError
      modifies this
      ensures Compiled(old(Snap()), Snap(), Continue)
    {
      hide Compiled;
      ghost var a := Snap();
      if |loops| == 0 {
        hadError := true;
        NoLoop(a, Snap(), Continue);
        return;
      }
      var at := EmitJump(CONTINUE);
      var top := loops[|loops| - 1];
      if |top.continues| < MAX_JUMPS {
        assert top.breaks + [] == top.breaks;
        loops := loops[|loops| - 1 := top.(continues := top.continues + [at])];
      } else {
        hadError := true;
      }
      JumpCompiles(a, Snap(), Continue);
    }

    method Statement(s: Stmt)
      requires !hadError && WellFormed(s)
      modifies this
      ensures Compiled(old(Snap()), Snap(), s)
      ensures !hadError && s.While? ==> WhileAt(Snap().Prog(), s, |old(code)|, |old(consts)|)
      decreases StmtSize(s), 1
    {
      hide Compiled, Headed, Bytes, Consts, WhileAt;
      ghost var start := Snap();
      match s {
        case Skip => SkipCompiles(start);
        case Seq(a, b) =>
          Statement(a);
          if hadError {
            SeqStops(start, Snap(), s);
            return;
          }
          ghost var mid := Snap();
          Statement(b);
          SeqCompiles(start, mid, Snap(), s);
        case Discard(e) =>
          ExpressionStatement(e);
          UpdatesArePopped(e, |start.consts|);
          assert Headed(start, Snap(), e, [POP]) by { UpdateHeaded(start, Snap(), e); }
          DiscardCompiles(start, Snap(), e);
        case If(e, a, b) => IfStatement(e, a, b);
        case While(e, b) => WhileStatement(e, b);
        case DoWhile(b, e) => DoWhileStatement(b, e);
        case For(init, cond, inc, b) => ForStatement(init, cond, inc, b);
        case Break => BreakStatement();
        case Continue => ContinueStatement();
      }
    }
  }
}
