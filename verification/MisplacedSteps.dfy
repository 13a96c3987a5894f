/** Where `++` and `--` may stand behind an expression: the rules table has no infix rule for them. */
module MisplacedSteps {
  import opened Machine
  import opened Syntax
  import opened Pratt
  import opened PrattRoundTrip

  /** The last token of the tree printed at level `q` is a name that is read. */
  predicate EndsInRead(e: Expr, q: nat) {
    Level(e) >= q &&
    match e
    case Var(_) => true
    case Assign(_, e1) => EndsInRead(e1, P_ASSIGNMENT)
    case Compound(_, _, e1) => EndsInRead(e1, P_ASSIGNMENT)
    case Binary(op, _, r) => EndsInRead(r, OpPrec(op) + 1)
    case Neg(e1) => EndsInRead(e1, P_UNARY)
    case Not(e1) => EndsInRead(e1, P_UNARY)
    case IndexSet(_, _, e1) => EndsInRead(e1, P_ASSIGNMENT)
    case _ => false
  }

  /** The tree with a step of that name instead of the read. */
  function WithStep(e: Expr, q: nat, up: bool): Expr
    requires EndsInRead(e, q)
  {
    match e
    case Var(x) => PostStep(x, up)
    case Assign(x, e1) => Assign(x, WithStep(e1, P_ASSIGNMENT, up))
    case Compound(op, x, e1) => Compound(op, x, WithStep(e1, P_ASSIGNMENT, up))
    case Binary(op, l, r) => Binary(op, l, WithStep(r, OpPrec(op) + 1, up))
    case Neg(e1) => Neg(WithStep(e1, P_UNARY, up))
    case Not(e1) => Not(WithStep(e1, P_UNARY, up))
    case IndexSet(a, i, e1) => IndexSet(a, i, WithStep(e1, P_ASSIGNMENT, up))
  }

  /** A step behind a name that is read belongs to it. */
  lemma {:induction false} PrintWithStep(e: Expr, q: nat, up: bool)
    requires Printable(e) && EndsInRead(e, q)
    ensures Printable(WithStep(e, q, up)) && Level(WithStep(e, q, up)) == Level(e)
    ensures Print(WithStep(e, q, up), q) == Print(e, q) + [StepToken(up)]
  {
    match e
    case Var(_) =>
    case Assign(_, e1) => PrintWithStep(e1, P_ASSIGNMENT, up);
    case Compound(_, _, e1) => PrintWithStep(e1, P_ASSIGNMENT, up);
    case Binary(op, _, r) => PrintWithStep(r, OpPrec(op) + 1, up);
    case Neg(e1) => PrintWithStep(e1, P_UNARY, up);
    case Not(e1) => PrintWithStep(e1, P_UNARY, up);
    case IndexSet(_, _, e1) => PrintWithStep(e1, P_ASSIGNMENT, up);
  }

  lemma LoopCrashes(p: nat, s: Parse, t: Token, rest: seq<Token>, c: Chunk)
    requires P_ASSIGNMENT <= p <= P_UNARY && IsStep(t)
    ensures InfixLoop(p, Ready(s, [t] + rest, c)).crashed
  {
  }

  lemma AssignCrashes(p: nat, e: Expr, s: Parse, t: Token, rest: seq<Token>, c: Chunk)
    requires P_ASSIGNMENT <= p && Printable(e) && IsStep(t) && (e.Assign? || e.Compound?)
    requires !EndsInRead(e.e, P_ASSIGNMENT)
    ensures ParsePrec(p, Ready(s, Bare(e) + ([t] + rest), c)).crashed
    decreases e, 0
  {
    hide ParsePrec, InfixLoop, Print, Bare, Gen, Prefix, EndsInRead;
    AssignParts(e, c);
    var op, c1 := if e.Assign? then TEqual else TOpEqual(e.cop), AddConst(c, Str(e.x));
    var value := Print(e.e, P_ASSIGNMENT) + ([t] + rest);
    assert Bare(e) + ([t] + rest) == [TIdent(e.x)] + ([op] + value);
    PrefixStarts(p, s, TIdent(e.x), [op] + value, c);
    AssignPrefix(e.x, op, s, value, c);
    StepCrashes(P_ASSIGNMENT, e.e, P_ASSIGNMENT, s, t, rest, if e.Assign? then c1 else GetGlobal(c1, |c.consts|));
  }

  lemma BinaryCrashes(p: nat, e: Expr, s: Parse, t: Token, rest: seq<Token>, c: Chunk)
    requires P_ASSIGNMENT <= p <= Level(e) && Printable(e) && IsStep(t) && e.Binary?
    requires !EndsInRead(e.right, OpPrec(e.op) + 1)
    ensures ParsePrec(p, Ready(s, Bare(e) + ([t] + rest), c)).crashed
    decreases e, 0
  {
    hide ParsePrec, InfixLoop, Print, Gen, EndsInRead;
    var pr, op := OpPrec(e.op), TOp(e.op);
    var right := Print(e.right, pr + 1) + ([t] + rest);
    assert Bare(e) + ([t] + rest) == Print(e.left, pr) + ([op] + right);
    PrintParses(p, e.left, pr, s, [op] + right, c);
    LoopContinues(p, s, op, right, Gen(e.left, c));
    StepCrashes(pr + 1, e.right, pr + 1, s, t, rest, Gen(e.left, c));
  }

  lemma UnaryCrashes(p: nat, e: Expr, s: Parse, t: Token, rest: seq<Token>, c: Chunk)
    requires P_ASSIGNMENT <= p && Printable(e) && IsStep(t) && (e.Neg? || e.Not?) && !EndsInRead(e.e, P_UNARY)
    ensures ParsePrec(p, Ready(s, Bare(e) + ([t] + rest), c)).crashed
    decreases e, 0
  {
    hide ParsePrec, InfixLoop, Print, EndsInRead;
    var op := if e.Neg? then TOp(OpSub) else TNot;
    var operand := Print(e.e, P_UNARY) + ([t] + rest);
    assert Bare(e) + ([t] + rest) == [op] + operand;
    PrefixStarts(p, s, op, operand, c);
    StepCrashes(P_UNARY, e.e, P_UNARY, s, t, rest, c);
  }

  lemma IndexSetCrashes(p: nat, e: Expr, s: Parse, t: Token, rest: seq<Token>, c: Chunk)
    requires P_ASSIGNMENT <= p <= P_CALL && Printable(e) && IsStep(t) && e.IndexSet? && !EndsInRead(e.e, P_ASSIGNMENT)
    ensures ParsePrec(p, Ready(s, Bare(e) + ([t] + rest), c)).crashed
    decreases e, 0
  {
    hide ParsePrec, InfixLoop, Print, Bare, Gen, Infix, EndsInRead;
    IndexParts(e, c);
    var value, c1 := Print(e.e, P_ASSIGNMENT) + ([t] + rest), Gen(e.i, Gen(e.a, c));
    var index := Print(e.i, P_ASSIGNMENT) + ([TRBracket] + ([TEqual] + value));
    assert Bare(e) + ([t] + rest) == Print(e.a, P_CALL) + ([TLBracket] + index);
    IndexedParses(p, e.a, e.i, s, [TEqual] + value, c);
    BracketRule(Ready(s, index, Gen(e.a, c)));
    assert ([TEqual] + value)[1..] == value;
    StepCrashes(P_ASSIGNMENT, e.e, P_ASSIGNMENT, s, t, rest, c1);
  }

  /** Behind any other token of a printed tree a step reaches the empty infix rule. */
  lemma {:induction false} StepCrashes(p: nat, e: Expr, q: nat, s: Parse, t: Token, rest: seq<Token>, c: Chunk)
    requires P_ASSIGNMENT <= p <= q <= P_UNARY && Printable(e) && IsStep(t) && !EndsInRead(e, q)
    ensures ParsePrec(p, Ready(s, Print(e, q) + ([t] + rest), c)).crashed
    decreases e, 1
  {
    hide ParsePrec, InfixLoop, Print, Bare;
    if IsClosed(e, q) {
      PrintParses(p, e, q, s, [t] + rest, c);
      LoopCrashes(p, s, t, rest, Gen(e, c));
    } else {
      PrintBare(e, q);
      if e.Assign? || e.Compound? {
        AssignCrashes(p, e, s, t, rest, c);
      } else if e.Binary? {
        BinaryCrashes(p, e, s, t, rest, c);
      } else if e.Neg? || e.Not? {
        UnaryCrashes(p, e, s, t, rest, c);
      } else {
        IndexSetCrashes(p, e, s, t, rest, c);
      }
    }
  }

  /**
   A `++` or `--` behind an expression calls the empty infix rule exactly when the token before it is not a name that
   is read: `1++`, `a[0]++`, `f()++` and `x++ ++` do, `-x++` does not.
   */
  lemma StepBehind(e: Expr, up: bool, s: Parse, rest: seq<Token>)
    requires Printable(e) && !s.crashed && Follows(First(rest), P_ASSIGNMENT)
    requires s.rest == Print(e, P_ASSIGNMENT) + ([StepToken(up)] + rest)
    ensures ParsePrec(P_ASSIGNMENT, s).crashed <==> !EndsInRead(e, P_ASSIGNMENT)
  {
    hide ParsePrec, Print;
    if EndsInRead(e, P_ASSIGNMENT) {
      PrintWithStep(e, P_ASSIGNMENT, up);
      assert s.rest == Print(WithStep(e, P_ASSIGNMENT, up), P_ASSIGNMENT) + rest;
      ExpressionReadsPrint(WithStep(e, P_ASSIGNMENT, up), s, rest);
    } else {
      StepCrashes(P_ASSIGNMENT, e, P_ASSIGNMENT, s, StepToken(up), rest, s.out);
    }
  }

  /** The shortest such input. */
  lemma NumberStepped(n: real)
    ensures ParsePrec(P_ASSIGNMENT, Parse([TNumber(n), TPlusPlus], Chunk([], []), false, false)).crashed
  {
  }
}
