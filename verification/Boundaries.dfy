/** Where the jumps of compiled programs lead: always to an instruction, and out of loops as the statements say. */
module Boundaries {
  import opened Options
  import opened Machine
  import opened Syntax
  import opened ExprCode
  import opened Statements
  import opened StatementRuns
  import opened Layout
  import opened Emitters
  import opened Programs

  // ---- Decoding ----

  function Length(op: nat): (n: nat)
    ensures 1 <= n <= 2
  {
    if HasOperand(op) then 2 else 1
  }

  predicate IsJump(op: nat) {
    op == JUMP || op == JUMP_IF_FALSE || op == LOOP || op == BREAK || op == CONTINUE
  }

  /** Where the jump at `i` leads when it is taken. */
  function Target(code: seq<nat>, i: nat): int
    requires i + 1 < |code|
  {
    if code[i] == CONTINUE then i + 2 - code[i + 1]
    else if code[i] == LOOP then i + 3 - code[i + 1]
    else i + 2 + code[i + 1]
  }

  /** Decoding the code instruction by instruction from `lo` comes to `i`. */
  predicate Reaches(code: seq<nat>, lo: nat, i: nat)
    decreases if lo < i then i - lo else 0
  {
    lo == i || (lo < i && lo < |code| && Reaches(code, lo + Length(code[lo]), i))
  }

  /** `i` is where an instruction of the whole code starts, or its end. */
  predicate Starts(code: seq<nat>, i: nat) {
    i <= |code| && Reaches(code, 0, i)
  }

  lemma {:induction false} ReachesJoins(code: seq<nat>, a: nat, b: nat, c: nat)
    requires Reaches(code, a, b) && Reaches(code, b, c)
    ensures Reaches(code, a, c) && a <= b <= c
    decreases if a < b then b - a else 0
  {
    if a < b {
      ReachesJoins(code, a + Length(code[a]), b, c);
    } else {
      ReachesUp(code, b, c);
    }
  }

  lemma ReachesUp(code: seq<nat>, a: nat, b: nat)
    requires Reaches(code, a, b)
    ensures a <= b && (a < b ==> a < |code| && a + Length(code[a]) <= b)
  {
  }

  lemma {:induction false} ReachesSplits(code: seq<nat>, a: nat, b: nat, c: nat)
    requires Reaches(code, a, b) && Reaches(code, a, c) && b <= c
    ensures Reaches(code, b, c)
    decreases if a < b then b - a else 0
  {
    if a < b {
      ReachesSplits(code, a + Length(code[a]), b, c);
    }
  }

  // ---- Code without jumps ----

  /** Whole instructions, none of them a jump. */
  predicate Straight(bs: seq<nat>)
    decreases |bs|
  {
    bs == [] || (!IsJump(bs[0]) && Length(bs[0]) <= |bs| && Straight(bs[Length(bs[0])..]))
  }

  lemma {:induction false} StraightJoins(a: seq<nat>, b: seq<nat>)
    requires Straight(a) && Straight(b)
    ensures Straight(a + b)
    decreases |a|
  {
    if a == [] {
      assert a + b == b;
    } else {
      var n := Length(a[0]);
      StraightJoins(a[n..], b);
      assert (a + b)[n..] == a[n..] + b;
    }
  }

  lemma StraightOne(op: nat)
    requires !HasOperand(op)
    ensures Straight([op])
  {
  }

  /** Two instructions in a row, as they close or make up an expression's code. */
  lemma Tails(k: nat, n: nat, op: nat)
    requires !HasOperand(op)
    ensures Straight([GET_GLOBAL, Byte(k)]) && Straight([SET_GLOBAL, Byte(k)]) && Straight([PUSH_CONST, Byte(k)])
    ensures Straight([]) && Straight([op]) && Straight([ARRAY_NEW, Byte(n)])
    ensures Straight([PUSH_CONST, Byte(k), op]) && Straight([op, SET_GLOBAL, Byte(k)])
    ensures Straight([GET_GLOBAL, Byte(k), CALL, Byte(n)])
  {
  }

  /** The code of an expression has no jumps. */
  lemma {:induction false} ExprStraight(e: Expr, k: nat)
    ensures Straight(Bytes(e, k))
    decreases Size(e), 0
  {
    hide Straight, Consts, Opcode, Bytes;
    match e
    case Const(_) => LeafStraight(e, k);
    case Interpolated(_) => LeafStraight(e, k);
    case Var(_) => LeafStraight(e, k);
    case Assign(_, _) => UnaryStraight(e, k);
    case Compound(_, _, _) => CompoundStraight(e, k);
    case PreStep(_, _) => StepStraight(e, k);
    case PostStep(_, _) => StepStraight(e, k);
    case Binary(op, l, r) => PairStraight(e, l, r, Opcode(op), k);
    case Neg(_) => UnaryStraight(e, k);
    case Not(_) => UnaryStraight(e, k);
    case Call(_, args) => ListStraight(e, args, k);
    case Array(elems) => ListStraight(e, elems, k);
    case Index(a, i) => PairStraight(e, a, i, ARRAY_GET, k);
    case IndexSet(_, _, _) => IndexSetStraight(e, k);
  }

  lemma LeafStraight(e: Expr, k: nat)
    requires e.Const? || e.Interpolated? || e.Var?
    ensures Straight(Bytes(e, k))
  {
    hide Straight;
    Tails(k, 0, INTERPOLATE);
  }

  lemma {:induction false} UnaryStraight(e: Expr, k: nat)
    requires e.Assign? || e.Neg? || e.Not?
    ensures Straight(Bytes(e, k))
    decreases Size(e.e), 1
  {
    hide Straight, Consts, BytesAll;
    var k1 := if e.Assign? then k + 1 else k;
    var n := k + |Consts(e.e)|;
    var tail := if e.Assign? then [SET_GLOBAL, Byte(k)] else if e.Neg? then [PUSH_CONST, Byte(n), MUL] else [NOT];
    assert Bytes(e, k) == Bytes(e.e, k1) + tail;
    hide Bytes;
    Tails(k, 0, NOT);
    Tails(n, 0, MUL);
    ExprStraight(e.e, k1);
    StraightJoins(Bytes(e.e, k1), tail);
  }

  lemma {:induction false} ListStraight(e: Expr, es: Exprs, k: nat)
    requires (e.Call? && es == e.args) || (e.Array? && es == e.elems)
    ensures Straight(Bytes(e, k))
    decreases SizeAll(es), 2
  {
    hide Straight, Consts;
    var k1, n := if e.Call? then k + 1 else k, Count(es);
    var tail := if e.Call? then [GET_GLOBAL, Byte(k), CALL, Byte(n)] else [ARRAY_NEW, Byte(n)];
    assert Bytes(e, k) == BytesAll(es, k1) + tail;
    hide Bytes;
    Tails(k, n, POP);
    AllStraight(es, k1, tail);
  }

  lemma {:induction false} CompoundStraight(e: Expr, k: nat)
    requires e.Compound?
    ensures Straight(Bytes(e, k))
    decreases Size(e.e), 1
  {
    hide Straight, Consts, Opcode;
    Tails(k, 0, Opcode(e.cop));
    ExprStraight(e.e, k + 1);
    StraightJoins([GET_GLOBAL, Byte(k)], Bytes(e.e, k + 1));
    StraightJoins([GET_GLOBAL, Byte(k)] + Bytes(e.e, k + 1), [Opcode(e.cop), SET_GLOBAL, Byte(k)]);
  }

  lemma {:induction false} PairStraight(e: Expr, l: Expr, r: Expr, op: nat, k: nat)
    requires IsPair(e, l, r, op)
    ensures Straight(Bytes(e, k))
    decreases Size(l) + Size(r), 2
  {
    hide Straight, Consts, Bytes;
    PairBytes(e, l, r, op, k);
    StraightOne(op);
    BothStraight(l, r, k, [op]);
  }

  lemma {:induction false} IndexSetStraight(e: Expr, k: nat)
    requires e.IndexSet?
    ensures Straight(Bytes(e, k))
    decreases Size(e.a) + Size(e.i) + Size(e.e), 2
  {
    hide Straight, Consts, Bytes;
    IndexSetBytes(e, k);
    var k2 := k + |Consts(e.a)| + |Consts(e.i)|;
    Tails(k, 0, ARRAY_SET);
    BothStraight(e.a, e.i, k, []);
    ExprStraight(e.e, k2);
    var head := Bytes(e.a, k) + Bytes(e.i, k + |Consts(e.a)|);
    assert head + [] == head;
    StraightJoins(head, Bytes(e.e, k2));
    StraightJoins(head + Bytes(e.e, k2), [ARRAY_SET]);
  }

  /** A prefix step is a compound assignment; a postfix one loads the name before it and pops the new value. */
  lemma {:induction false} StepStraight(e: Expr, k: nat)
    requires e.PreStep? || e.PostStep?
    ensures Straight(Bytes(e, k))
    decreases 2, 0
  {
    hide Straight;
    var head, c := [GET_GLOBAL, Byte(k)], Compound(if e.up then OpAdd else OpSub, e.x, Const(Num(1.0)));
    assert e.PreStep? ==> Bytes(c, k) == Bytes(e, k);
    assert e.PostStep? ==> Bytes(e, k) == head + Bytes(c, k) + [POP];
    assert Size(c.e) == 1;
    hide Bytes;
    CompoundStraight(c, k);
    Tails(k, 0, POP);
    StraightJoins(head, Bytes(c, k));
    StraightJoins(head + Bytes(c, k), [POP]);
  }

  lemma {:induction false} BothStraight(l: Expr, r: Expr, k: nat, tail: seq<nat>)
    requires Straight(tail)
    ensures Straight(Bytes(l, k) + Bytes(r, k + |Consts(l)|) + tail)
    decreases Size(l) + Size(r), 1
  {
    hide Straight, Consts, Bytes;
    ExprStraight(l, k);
    ExprStraight(r, k + |Consts(l)|);
    StraightJoins(Bytes(l, k), Bytes(r, k + |Consts(l)|));
    StraightJoins(Bytes(l, k) + Bytes(r, k + |Consts(l)|), tail);
  }

  lemma {:induction false} AllStraight(es: Exprs, k: nat, tail: seq<nat>)
    requires Straight(tail)
    ensures Straight(BytesAll(es, k) + tail)
    decreases SizeAll(es), 1
  {
    hide Straight, Consts, Bytes;
    match es
    case NoExprs => assert BytesAll(es, k) + tail == tail;
    case More(e, rest) =>
      var k1 := k + |Consts(e)|;
      ExprStraight(e, k);
      AllStraight(rest, k1, tail);
      StraightJoins(Bytes(e, k), BytesAll(rest, k1) + tail);
      assert BytesAll(es, k) + tail == Bytes(e, k) + (BytesAll(rest, k1) + tail);
  }

  /** Decoding comes through straight code and meets no jump in it. */
  lemma {:induction false} StraightAt(code: seq<nat>, pc: nat, bs: seq<nat>, i: nat)
    requires At(code, pc, bs) && Straight(bs)
    ensures Reaches(code, pc, pc + |bs|)
    ensures Reaches(code, pc, i) && i < pc + |bs| ==> i < |code| && !IsJump(code[i])
    decreases |bs|
  {
    if bs != [] {
      assert code[pc..pc + |bs|][0] == code[pc];
      var n := Length(bs[0]);
      assert code[pc + n..pc + |bs|] == bs[n..];
      StraightAt(code, pc + n, bs[n..], i);
    }
  }

  // ---- Parts of statements ----

  lemma ExprCovers(p: Program, e: Expr, pc: nat, k: nat, i: nat)
    requires ExprAt(p, e, pc, k)
    ensures Reaches(p.code, pc, pc + Width(e))
    ensures Reaches(p.code, pc, i) && i < pc + Width(e) ==> i < |p.code| && !IsJump(p.code[i])
  {
    hide Width, Bytes, Consts, Straight, Reaches;
    ExprStraight(e, k);
    BytesWidth(e, k);
    StraightAt(p.code, pc, Bytes(e, k), i);
  }

  lemma DropCovers(p: Program, e: Expr, pc: nat, k: nat, i: nat)
    requires DropAt(p, e, pc, k)
    ensures Reaches(p.code, pc, pc + Width(e) + 1)
    ensures Reaches(p.code, pc, i) && i < pc + Width(e) + 1 ==> i < |p.code| && !IsJump(p.code[i])
  {
    hide Width, ExprAt;
    ExprCovers(p, e, pc, k, i);
    assert Reaches(p.code, pc + Width(e), pc + Width(e) + 1);
    ReachesJoins(p.code, pc, pc + Width(e), pc + Width(e) + 1);
  }

  /** A jump covers its two bytes, and decoding does not stop between them. */
  lemma JumpCovers(code: seq<nat>, at: nat, i: nat)
    requires at + 1 < |code| && IsJump(code[at])
    ensures Reaches(code, at, at + 2)
    ensures Reaches(code, at, i) && i < at + 2 ==> i == at
  {
    assert Length(code[at]) == 2 && !Reaches(code, at + 2, at + 1);
  }

  lemma TestCovers(p: Program, e: Expr, pc: nat, k: nat, exit: nat, i: nat)
    requires TestAt(p, Some(e), pc, k, exit)
    ensures Reaches(p.code, pc, pc + Width(e) + 2)
    ensures Reaches(p.code, pc, i) && i < pc + Width(e) + 2 && i < |p.code| && IsJump(p.code[i]) ==>
      i + 1 < |p.code| && p.code[i] == JUMP_IF_FALSE && Target(p.code, i) == exit
  {
    hide Width, ExprAt, Reaches;
    var end := pc + Width(e);
    ExprCovers(p, e, pc, k, i);
    JumpCovers(p.code, end, i);
    ReachesJoins(p.code, pc, end, end + 2);
    if Reaches(p.code, pc, i) && i >= end {
      ReachesSplits(p.code, pc, end, i);
    }
  }

  // ---- Statements ----

  /** What the jumps of the body of a loop at `pc` are to do. */
  function Inside(cond: Option<Expr>, inc: Option<Increment>, body: Stmt, pc: nat): Targets {
    Closed(pc + LoopLen(cond, inc, body), if inc.Some? then pc + TestLen(cond) + Len(body) else pc, inc.Some?)
  }

  /**
   The `break` or `continue` that stands at `i` in the code of `s`, and where the innermost loop around it wants it to
   lead; `t` is what the loop around `s` wants.
   */
  function JumpAt(s: Stmt, pc: nat, t: Targets, i: nat): Option<(Stmt, Targets)> {
    match s
    case Seq(a, b) => if i < pc + Len(a) then JumpAt(a, pc, t, i) else JumpAt(b, pc + Len(a), t, i)
    case If(e, a, b) =>
      var thn := pc + Width(e) + 2;
      var els := thn + Len(a) + 2;
      if i < els - 2 then JumpAt(a, thn, t, i) else JumpAt(b, els, t, i)
    case While(e, b) => JumpAt(b, pc + TestLen(Some(e)), Inside(Some(e), None, b, pc), i)
    case DoWhile(b, _) => JumpAt(b, pc, Closed(pc + Len(s), pc, false), i)
    case For(init, cond, inc, b) =>
      var start := pc + DropLen(init);
      JumpAt(b, start + TestLen(cond), Inside(cond, inc, b, start), i)
    case Break => if i == pc then Some((s, t)) else None
    case Continue => if i == pc then Some((s, t)) else None
    case _ => None
  }

  /** Decoding the code of a loop comes to its body, its step, its backward jump and its end. */
  lemma {:induction false} LoopCovers(p: Program, cond: Option<Expr>, inc: Option<Increment>, body: Stmt, pc: nat, k: nat)
    requires LoopAt(p, cond, inc, body, pc, k)
    ensures var b := pc + TestLen(cond);
      var i := b + Len(body);
      && Reaches(p.code, pc, b) && Reaches(p.code, b, i) && Reaches(p.code, pc, i)
      && Reaches(p.code, i, i + DropLen(inc)) && Reaches(p.code, pc, i + DropLen(inc))
      && Reaches(p.code, pc, pc + LoopLen(cond, inc, body))
    decreases body, 2
  {
    hide Laid, TestAt, DropAt, Width, Len, Reaches, Constants, Consts;
    var b, kb := pc + TestLen(cond), k + |OptionConsts(cond)|;
    var i := b + Len(body);
    var back := i + DropLen(inc);
    StartsHere(p.code, pc);
    StartsHere(p.code, i);
    if cond.Some? {
      TestCovers(p, cond.value, pc, k, back + 2, pc);
    }
    StmtCovers(p, body, b, kb, Closed(back + 2, if inc.Some? then i else pc, inc.Some?));
    if inc.Some? {
      DropCovers(p, inc.value, i, kb + |Constants(body)|, i);
    }
    JumpCovers(p.code, back, back);
    ReachesJoins(p.code, pc, b, i);
    ReachesJoins(p.code, pc, i, back);
    ReachesJoins(p.code, pc, back, back + 2);
  }

  lemma StartsHere(code: seq<nat>, pc: nat)
    ensures Reaches(code, pc, pc)
  {
  }

  /** Decoding the code of a statement comes to its end. */
  lemma {:induction false} StmtCovers(p: Program, s: Stmt, pc: nat, k: nat, t: Targets)
    requires Laid(p, s, pc, k, t)
    ensures Reaches(p.code, pc, pc + Len(s))
    decreases s, 1
  {
    hide TestAt, DropAt, LoopAt, LoopLen, Width, Reaches, Constants, Consts;
    match s
    case Skip => StartsHere(p.code, pc);
    case Seq(a, b) =>
      StmtCovers(p, a, pc, k, t);
      StmtCovers(p, b, pc + Len(a), k + |Constants(a)|, t);
      ReachesJoins(p.code, pc, pc + Len(a), pc + Len(s));
    case Discard(e) => DropCovers(p, e, pc, k, pc);
    case If(e, a, b) => IfCovers(p, s, pc, k, t);
    case While(e, b) => LoopCovers(p, Some(e), None, b, pc, k);
    case DoWhile(b, e) => DoCovers(p, s, pc, k, t);
    case For(init, cond, inc, b) =>
      var start := pc + DropLen(init);
      StartsHere(p.code, pc);
      if init.Some? {
        DropCovers(p, init.value, pc, k, pc);
      }
      LoopCovers(p, cond, inc, b, start, k + |OptionConsts(init)|);
      ReachesJoins(p.code, pc, start, pc + Len(s));
    case Break => JumpCovers(p.code, pc, pc);
    case Continue => JumpCovers(p.code, pc, pc);
  }

  lemma {:induction false} IfCovers(p: Program, s: Stmt, pc: nat, k: nat, t: Targets)
    requires s.If? && Laid(p, s, pc, k, t)
    ensures var thn := pc + Width(s.test) + 2;
      var els := thn + Len(s.thn) + 2;
      && Reaches(p.code, pc, thn) && Reaches(p.code, thn, els - 2) && Reaches(p.code, pc, els - 2)
      && Reaches(p.code, els - 2, els) && Reaches(p.code, pc, els)
      && Reaches(p.code, els, pc + Len(s)) && Reaches(p.code, pc, pc + Len(s))
    decreases s, 0
  {
    hide TestAt, Width, Reaches, Constants, Consts, LoopAt, DropAt, Backward, LoopLen, BreakTo, ContinueTo, Length;
    var thn, ka := pc + Width(s.test) + 2, k + |Consts(s.test)|;
    var els := thn + Len(s.thn) + 2;
    TestCovers(p, s.test, pc, k, els, pc);
    StmtCovers(p, s.thn, thn, ka, t);
    StmtCovers(p, s.els, els, ka + |Constants(s.thn)|, t);
    JumpCovers(p.code, els - 2, els - 2);
    ReachesJoins(p.code, pc, thn, els - 2);
    ReachesJoins(p.code, pc, els - 2, els);
    ReachesJoins(p.code, pc, els, pc + Len(s));
  }

  lemma {:induction false} DoCovers(p: Program, s: Stmt, pc: nat, k: nat, t: Targets)
    requires s.DoWhile? && Laid(p, s, pc, k, t)
    ensures var test := pc + Len(s.body);
      var back := test + Width(s.test) + 2;
      && Reaches(p.code, pc, test) && Reaches(p.code, pc, back) && Reaches(p.code, pc, pc + Len(s))
    decreases s, 0
  {
    hide TestAt, Width, Reaches, Constants, Consts, LoopAt, DropAt, LoopLen, BreakTo, ContinueTo, Length;
    var test := pc + Len(s.body);
    var back := test + Width(s.test) + 2;
    StmtCovers(p, s.body, pc, k, Closed(back + 2, pc, false));
    TestCovers(p, s.test, test, k + |Constants(s.body)|, back + 2, test);
    JumpCovers(p.code, back, back);
    ReachesJoins(p.code, pc, test, back);
    ReachesJoins(p.code, pc, back, back + 2);
  }

  // ---- From the statements to the code ----

  /** Every `break` and `continue` of a nest is an instruction that leads where its innermost loop wants it. */
  lemma {:induction false} JumpHolds(p: Program, s: Stmt, pc: nat, k: nat, t: Targets, i: nat)
    requires Laid(p, s, pc, k, t) && JumpAt(s, pc, t, i).Some?
    ensures var (j, u) := JumpAt(s, pc, t, i).value;
      && ((j.Break? && BreakTo(p, i, u)) || (j.Continue? && ContinueTo(p, i, u)))
      && (u.Closed? || (u == t && BreakCount(s) + ContinueCount(s) > 0))
    ensures Reaches(p.code, pc, i)
    decreases s, 1
  {
    hide TestAt, DropAt, Width, Reaches, Constants, Consts, LoopAt, LoopLen, Forward, Backward, Hole;
    match s
    case Seq(a, b) =>
      if i < pc + Len(a) {
        JumpHolds(p, a, pc, k, t, i);
      } else {
        JumpHolds(p, b, pc + Len(a), k + |Constants(a)|, t, i);
        StmtCovers(p, a, pc, k, t);
        ReachesJoins(p.code, pc, pc + Len(a), i);
      }
    case If(_, _, _) => IfJumpHolds(p, s, pc, k, t, i);
    case While(e, b) => LoopJumpHolds(p, Some(e), None, b, pc, k, i);
    case DoWhile(b, e) => JumpHolds(p, b, pc, k, Closed(pc + Len(s), pc, false), i);
    case For(init, cond, inc, b) =>
      var start := pc + DropLen(init);
      LoopJumpHolds(p, cond, inc, b, start, k + |OptionConsts(init)|, i);
      StartsHere(p.code, pc);
      if init.Some? {
        DropCovers(p, init.value, pc, k, pc);
      }
      ReachesJoins(p.code, pc, start, i);
    case Break => StartsHere(p.code, pc);
    case Continue => StartsHere(p.code, pc);
  }

  lemma {:induction false} IfJumpHolds(p: Program, s: Stmt, pc: nat, k: nat, t: Targets, i: nat)
    requires s.If? && Laid(p, s, pc, k, t) && JumpAt(s, pc, t, i).Some?
    ensures var (j, u) := JumpAt(s, pc, t, i).value;
      && ((j.Break? && BreakTo(p, i, u)) || (j.Continue? && ContinueTo(p, i, u)))
      && (u.Closed? || (u == t && BreakCount(s) + ContinueCount(s) > 0))
    ensures Reaches(p.code, pc, i)
    decreases s, 0
  {
    hide TestAt, DropAt, Width, Reaches, Constants, Consts, LoopAt, Forward, Backward, Hole;
    var thn, ka := pc + Width(s.test) + 2, k + |Consts(s.test)|;
    var els := thn + Len(s.thn) + 2;
    IfCovers(p, s, pc, k, t);
    if i < els - 2 {
      JumpHolds(p, s.thn, thn, ka, t, i);
      ReachesJoins(p.code, pc, thn, i);
    } else {
      JumpHolds(p, s.els, els, ka + |Constants(s.thn)|, t, i);
      ReachesJoins(p.code, pc, els, i);
    }
  }

  lemma {:induction false} LoopJumpHolds(p: Program, cond: Option<Expr>, inc: Option<Increment>, body: Stmt,
                                         pc: nat, k: nat, i: nat)
    requires LoopAt(p, cond, inc, body, pc, k)
    requires JumpAt(body, pc + TestLen(cond), Inside(cond, inc, body, pc), i).Some?
    ensures var (j, u) := JumpAt(body, pc + TestLen(cond), Inside(cond, inc, body, pc), i).value;
      ((j.Break? && BreakTo(p, i, u)) || (j.Continue? && ContinueTo(p, i, u))) && u.Closed?
    ensures Reaches(p.code, pc, i)
    decreases body, 2
  {
    hide TestAt, DropAt, Width, Reaches, Constants, Consts, Laid, Len, Forward, Backward, Hole;
    var b := pc + TestLen(cond);
    LoopCovers(p, cond, inc, body, pc, k);
    JumpHolds(p, body, b, k + |OptionConsts(cond)|, Inside(cond, inc, body, pc), i);
    ReachesJoins(p.code, pc, b, i);
  }

  // ---- From the code to the statements ----

  /** The jump at `i` leads to an instruction between `lo` and `hi`, or out of the code to one of its targets. */
  predicate Lands(code: seq<nat>, lo: nat, hi: nat, t: Targets, i: nat) {
    i + 1 < |code| &&
    var g := Target(code, i);
    || (lo <= g <= hi && Reaches(code, lo, g))
    || (t.Closed? && (g == t.afterLoop || g == t.next))
  }

  /** An instruction BREAK or CONTINUE is one that a statement of that name stands for. */
  predicate Named(code: seq<nat>, i: nat, o: Option<(Stmt, Targets)>)
    requires i < |code|
  {
    && (code[i] == BREAK ==> o.Some? && o.value.0.Break?)
    && (code[i] == CONTINUE ==> o.Some? && o.value.0.Continue?)
  }

  /** A landing inside a part is one inside the whole. */
  lemma LandsWider(code: seq<nat>, lo: nat, a: nat, b: nat, hi: nat, t: Targets, i: nat)
    requires Lands(code, a, b, t, i) && Reaches(code, lo, a) && b <= hi
    ensures Lands(code, lo, hi, t, i)
  {
    hide Reaches;
    var g := Target(code, i);
    if a <= g <= b && Reaches(code, a, g) {
      ReachesJoins(code, lo, a, g);
    }
  }

  /** The body's jumps out of it land in the loop. */
  lemma LandsInLoop(code: seq<nat>, lo: nat, a: nat, b: nat, hi: nat, u: Targets, t: Targets, i: nat)
    requires Lands(code, a, b, u, i) && Reaches(code, lo, a) && b <= hi && u.Closed?
    requires Reaches(code, lo, u.next) && Reaches(code, lo, u.afterLoop) && u.next <= hi && u.afterLoop <= hi
    ensures Lands(code, lo, hi, t, i)
  {
    hide Reaches;
    var g := Target(code, i);
    if a <= g <= b && Reaches(code, a, g) {
      ReachesJoins(code, lo, a, g);
    }
    ReachesUp(code, lo, u.next);
    ReachesUp(code, lo, u.afterLoop);
  }

  /** A jump instruction of a loop outside its body: the exit of the test, or the backward jump. */
  lemma LoopFrameLands(p: Program, cond: Option<Expr>, inc: Option<Increment>, body: Stmt, pc: nat, k: nat, t: Targets, i: nat)
    requires LoopAt(p, cond, inc, body, pc, k)
    requires Reaches(p.code, pc, i) && i < pc + LoopLen(cond, inc, body) && i < |p.code| && IsJump(p.code[i])
    requires i < pc + TestLen(cond) || pc + TestLen(cond) + Len(body) <= i
    ensures i + 1 < |p.code| && p.code[i] != BREAK && p.code[i] != CONTINUE
    ensures Target(p.code, i) == pc || Target(p.code, i) == pc + LoopLen(cond, inc, body)
  {
    hide Laid, TestAt, DropAt, Width, Len, Reaches, Constants, Consts, Length;
    var b, kb := pc + TestLen(cond), k + |OptionConsts(cond)|;
    var j := b + Len(body);
    var back := j + DropLen(inc);
    LoopCovers(p, cond, inc, body, pc, k);
    ReachesUp(p.code, pc, i);
    if i < b {
      TestCovers(p, cond.value, pc, k, back + 2, i);
    } else if i < back {
      ReachesSplits(p.code, pc, j, i);
      DropCovers(p, inc.value, j, kb + |Constants(body)|, i);
    } else {
      ReachesSplits(p.code, pc, back, i);
      JumpCovers(p.code, back, i);
    }
  }

  /** The body of a loop, and where its jumps out of it lead. */
  lemma LoopInside(p: Program, cond: Option<Expr>, inc: Option<Increment>, body: Stmt, pc: nat, k: nat)
    requires LoopAt(p, cond, inc, body, pc, k)
    ensures var u, b, end := Inside(cond, inc, body, pc), pc + TestLen(cond), pc + LoopLen(cond, inc, body);
      && Laid(p, body, b, k + |OptionConsts(cond)|, u) && u.Closed? && b + Len(body) <= end
      && Reaches(p.code, pc, b) && Reaches(p.code, pc, u.next) && Reaches(p.code, pc, u.afterLoop)
      && u.next <= end && u.afterLoop <= end && Reaches(p.code, pc, pc)
  {
    hide Laid, TestAt, DropAt, Width, Len, Reaches, Constants, Consts, Backward;
    LoopCovers(p, cond, inc, body, pc, k);
    StartsHere(p.code, pc);
  }

  /** A jump instruction within the code of a loop. */
  lemma {:induction false} LoopLands(p: Program, cond: Option<Expr>, inc: Option<Increment>, body: Stmt,
                                     pc: nat, k: nat, t: Targets, i: nat)
    requires LoopAt(p, cond, inc, body, pc, k)
    requires Reaches(p.code, pc, i) && i < pc + LoopLen(cond, inc, body) && i < |p.code| && IsJump(p.code[i])
    ensures Lands(p.code, pc, pc + LoopLen(cond, inc, body), t, i)
    ensures Named(p.code, i, JumpAt(body, pc + TestLen(cond), Inside(cond, inc, body, pc), i))
    decreases body, 2
  {
    hide LoopAt, LoopLen, Inside, Laid, Width, Len, TestLen, Reaches, Consts, JumpAt, IsJump;
    var b, end := pc + TestLen(cond), pc + LoopLen(cond, inc, body);
    LoopInside(p, cond, inc, body, pc, k);
    if b <= i < b + Len(body) {
      hide Lands, Named;
      var u := Inside(cond, inc, body, pc);
      ReachesSplits(p.code, pc, b, i);
      StmtLands(p, body, b, k + |OptionConsts(cond)|, u, i);
      LandsInLoop(p.code, pc, b, b + Len(body), end, u, t, i);
    } else {
      LoopFrameLands(p, cond, inc, body, pc, k, t, i);
      assert Reaches(p.code, pc, end) by { LoopCovers(p, cond, inc, body, pc, k); }
    }
  }

  /** A jump instruction within the code of a statement: it lands on an instruction or outside where it should. */
  lemma {:induction false} StmtLands(p: Program, s: Stmt, pc: nat, k: nat, t: Targets, i: nat)
    requires Laid(p, s, pc, k, t) && (t.Open? ==> BreakCount(s) + ContinueCount(s) == 0)
    requires Reaches(p.code, pc, i) && i < pc + Len(s) && i < |p.code| && IsJump(p.code[i])
    ensures Lands(p.code, pc, pc + Len(s), t, i) && Named(p.code, i, JumpAt(s, pc, t, i))
    decreases s, 1
  {
    hide TestAt, DropAt, Width, Reaches, Constants, Consts, LoopAt, LoopLen, Lands, Named, IsJump;
    match s
    case Skip => ReachesUp(p.code, pc, i);
    case Seq(_, _) => SeqLands(p, s, pc, k, t, i);
    case Discard(e) => DropCovers(p, e, pc, k, i);
    case If(_, _, _) => IfLands(p, s, pc, k, t, i);
    case While(e, b) => LoopLands(p, Some(e), None, b, pc, k, t, i);
    case DoWhile(_, _) => DoLands(p, s, pc, k, t, i);
    case For(init, cond, inc, b) => ForLands(p, s, pc, k, t, i);
    case Break => OwnLands(p, s, pc, k, t, i);
    case Continue => OwnLands(p, s, pc, k, t, i);
  }

  lemma {:induction false} SeqLands(p: Program, s: Stmt, pc: nat, k: nat, t: Targets, i: nat)
    requires s.Seq? && Laid(p, s, pc, k, t) && (t.Open? ==> BreakCount(s) + ContinueCount(s) == 0)
    requires Reaches(p.code, pc, i) && i < pc + Len(s) && i < |p.code| && IsJump(p.code[i])
    ensures Lands(p.code, pc, pc + Len(s), t, i) && Named(p.code, i, JumpAt(s, pc, t, i))
    decreases s, 0
  {
    hide TestAt, DropAt, Width, Reaches, Constants, Consts, LoopAt, LoopLen, Lands, Named, IsJump, BreakTo, ContinueTo;
    var mid := pc + Len(s.first);
    StmtCovers(p, s.first, pc, k, t);
    StartsHere(p.code, pc);
    if i < mid {
      StmtLands(p, s.first, pc, k, t, i);
      LandsWider(p.code, pc, pc, mid, pc + Len(s), t, i);
    } else {
      ReachesSplits(p.code, pc, mid, i);
      StmtLands(p, s.second, mid, k + |Constants(s.first)|, t, i);
      LandsWider(p.code, pc, mid, pc + Len(s), pc + Len(s), t, i);
    }
  }

  lemma OwnLands(p: Program, s: Stmt, pc: nat, k: nat, t: Targets, i: nat)
    requires (s.Break? || s.Continue?) && Laid(p, s, pc, k, t) && t.Closed? && Reaches(p.code, pc, i) && i < pc + 2
    ensures Lands(p.code, pc, pc + 2, t, i) && Named(p.code, i, JumpAt(s, pc, t, i))
  {
    JumpCovers(p.code, pc, i);
  }

  lemma {:induction false} IfLands(p: Program, s: Stmt, pc: nat, k: nat, t: Targets, i: nat)
    requires s.If? && Laid(p, s, pc, k, t) && (t.Open? ==> BreakCount(s) + ContinueCount(s) == 0)
    requires Reaches(p.code, pc, i) && i < pc + Len(s) && i < |p.code| && IsJump(p.code[i])
    ensures Lands(p.code, pc, pc + Len(s), t, i) && Named(p.code, i, JumpAt(s, pc, t, i))
    decreases s, 0
  {
    hide TestAt, DropAt, Width, Reaches, Constants, Consts, LoopAt, LoopLen, IsJump, Length, Backward, BreakTo, ContinueTo;
    var thn, ka := pc + Width(s.test) + 2, k + |Consts(s.test)|;
    var els := thn + Len(s.thn) + 2;
    IfCovers(p, s, pc, k, t);
    if i < thn {
      TestCovers(p, s.test, pc, k, els, i);
    } else if i < els - 2 {
      hide Lands, Named;
      ReachesSplits(p.code, pc, thn, i);
      StmtLands(p, s.thn, thn, ka, t, i);
      LandsWider(p.code, pc, thn, els - 2, pc + Len(s), t, i);
    } else if i < els {
      ReachesSplits(p.code, pc, els - 2, i);
      JumpCovers(p.code, els - 2, i);
    } else {
      hide Lands, Named;
      ReachesSplits(p.code, pc, els, i);
      StmtLands(p, s.els, els, ka + |Constants(s.thn)|, t, i);
      LandsWider(p.code, pc, els, pc + Len(s), pc + Len(s), t, i);
    }
  }

  lemma {:induction false} DoLands(p: Program, s: Stmt, pc: nat, k: nat, t: Targets, i: nat)
    requires s.DoWhile? && Laid(p, s, pc, k, t)
    requires Reaches(p.code, pc, i) && i < pc + Len(s) && i < |p.code| && IsJump(p.code[i])
    ensures Lands(p.code, pc, pc + Len(s), t, i) && Named(p.code, i, JumpAt(s, pc, t, i))
    decreases s, 0
  {
    hide TestAt, DropAt, Width, Reaches, Constants, Consts, LoopAt, LoopLen, IsJump, Length, BreakTo, ContinueTo;
    var test := pc + Len(s.body);
    var back := test + Width(s.test) + 2;
    DoCovers(p, s, pc, k, t);
    StartsHere(p.code, pc);
    if i < test {
      hide Named;
      StmtLands(p, s.body, pc, k, Closed(back + 2, pc, false), i);
      LandsInLoop(p.code, pc, pc, test, back + 2, Closed(back + 2, pc, false), t, i);
    } else if i < back {
      ReachesSplits(p.code, pc, test, i);
      TestCovers(p, s.test, test, k + |Constants(s.body)|, back + 2, i);
    } else {
      ReachesSplits(p.code, pc, back, i);
      JumpCovers(p.code, back, i);
    }
  }

  lemma {:induction false} ForLands(p: Program, s: Stmt, pc: nat, k: nat, t: Targets, i: nat)
    requires s.For? && Laid(p, s, pc, k, t)
    requires Reaches(p.code, pc, i) && i < pc + Len(s) && i < |p.code| && IsJump(p.code[i])
    ensures Lands(p.code, pc, pc + Len(s), t, i) && Named(p.code, i, JumpAt(s, pc, t, i))
    decreases s, 0
  {
    hide TestAt, DropAt, Width, Reaches, Constants, Consts, LoopAt, LoopLen, Lands, Named, IsJump;
    var start := pc + DropLen(s.init);
    StartsHere(p.code, pc);
    ReachesUp(p.code, pc, i);
    if s.init.Some? {
      DropCovers(p, s.init.value, pc, k, i);
    }
    ReachesSplits(p.code, pc, start, i);
    LoopLands(p, s.cond, s.inc, s.body, start, k + |OptionConsts(s.init)|, t, i);
    LandsWider(p.code, pc, start, pc + Len(s), pc + Len(s), t, i);
  }

  // ---- Programs ----

  /** In a compiled program every jump leads to the start of an instruction or to the end of the code. */
  lemma JumpsLand(p: Program, s: Stmt, i: nat)
    requires IsProgram(p, s) && Starts(p.code, i) && i < |p.code| && IsJump(p.code[i])
    ensures i + 1 < |p.code| && 0 <= Target(p.code, i) && Starts(p.code, Target(p.code, i))
  {
    hide Laid, Reaches, JumpAt, Named, IsJump, Len;
    StmtLands(p, s, 0, 0, Open, i);
  }

  /** In a compiled program every BREAK and CONTINUE comes from a statement of that name. */
  lemma JumpsAreNamed(p: Program, s: Stmt, i: nat)
    requires IsProgram(p, s) && Starts(p.code, i) && i < |p.code|
    ensures Named(p.code, i, JumpAt(s, 0, Open, i))
  {
    hide Laid, Reaches, JumpAt;
    if p.code[i] == BREAK || p.code[i] == CONTINUE {
      StmtLands(p, s, 0, 0, Open, i);
    }
  }

  /**
   In a compiled program every `break` and `continue` of the nest is an instruction that leads where its innermost loop
   wants it: a `break` just past the loop, a `continue` back to the test, or to the body of a do-while, or forward to
   the step, the instruction then being a plain JUMP.
   */
  lemma JumpsLeadOut(p: Program, s: Stmt, i: nat)
    requires IsProgram(p, s) && JumpAt(s, 0, Open, i).Some?
    ensures var (j, u) := JumpAt(s, 0, Open, i).value;
      && Starts(p.code, i) && i + 1 < |p.code| && u.Closed?
      && (j.Break? ==> p.code[i] == BREAK && Target(p.code, i) == u.afterLoop)
      && (!j.Break? ==> p.code[i] == (if u.forwards then JUMP else CONTINUE) && Target(p.code, i) == u.next)
  {
    hide Laid, Reaches, JumpAt;
    JumpHolds(p, s, 0, 0, Open, i);
  }
}
