/** How the parser groups operators, said on the tokens themselves: which operator binds tighter than which. */
module Grouping {
  import opened Machine
  import opened Syntax
  import opened Pratt
  import opened PrattRoundTrip

  // ---- The levels of the language, tightest first ----

  predicate IsFactor(op: BinOp) {
    op.OpMul? || op.OpDiv? || op.OpMod?
  }

  predicate IsTerm(op: BinOp) {
    op.OpAdd? || op.OpSub?
  }

  predicate IsComparison(op: BinOp) {
    op.OpLess? || op.OpLessEqual? || op.OpGreater? || op.OpGreaterEqual?
  }

  predicate IsEquality(op: BinOp) {
    op.OpEqual? || op.OpNotEqual?
  }

  predicate IsAnd(op: BinOp) {
    op.OpAndWord? || op.OpAndSign?
  }

  predicate IsOr(op: BinOp) {
    op.OpOrWord? || op.OpOrSign?
  }

  predicate Tighter(x: BinOp, y: BinOp) {
    || (IsFactor(x) && !IsFactor(y))
    || (IsTerm(x) && (IsComparison(y) || IsEquality(y) || IsAnd(y) || IsOr(y)))
    || (IsComparison(x) && (IsEquality(y) || IsAnd(y) || IsOr(y)))
    || (IsEquality(x) && (IsAnd(y) || IsOr(y)))
    || (IsAnd(x) && IsOr(y))
  }

  /** Numbers and names. */
  predicate IsOperand(e: Expr) {
    e.Var? || (e.Const? && e.v.Num?)
  }

  function TokenOf(e: Expr): Token
    requires IsOperand(e)
  {
    if e.Var? then TIdent(e.x) else TNumber(e.v.n)
  }

  /** From any parser state `expression` reads exactly these tokens, reports no error and emits the code of `e`. */
  ghost predicate Reads(ts: seq<Token>, e: Expr) {
    forall s: Parse :: s.rest == ts ==>
      ParsePrec(P_ASSIGNMENT, s)
      == s.(rest := [], out := Chunk(s.out.bytes + Bytes(e, |s.out.consts|), s.out.consts + Consts(e)))
  }

  lemma ReadsPrint(ts: seq<Token>, e: Expr)
    requires Printable(e) && Print(e, P_ASSIGNMENT) == ts
    ensures Reads(ts, e)
  {
    hide ParsePrec, Print, Bytes, Consts;
    forall s: Parse | s.rest == ts
      ensures ParsePrec(P_ASSIGNMENT, s)
        == s.(rest := [], out := Chunk(s.out.bytes + Bytes(e, |s.out.consts|), s.out.consts + Consts(e)))
    {
      assert ts == Print(e, P_ASSIGNMENT) + [];
      ExpressionReadsPrint(e, s, []);
    }
  }

  lemma OperandPrint(e: Expr, q: nat)
    requires IsOperand(e) && q <= P_PRIMARY
    ensures Printable(e) && Print(e, q) == [TokenOf(e)]
  {
  }

  // ---- Binary operators ----

  /** Two operands and an operator, printed where the operator's level is enough. */
  lemma PairPrint(op: BinOp, a: Expr, b: Expr, q: nat)
    requires IsOperand(a) && IsOperand(b) && q <= OpPrec(op)
    ensures Printable(Binary(op, a, b)) && Print(Binary(op, a, b), q) == [TokenOf(a), TOp(op), TokenOf(b)]
  {
    hide Print, OpPrec;
    OperandPrint(a, OpPrec(op));
    OperandPrint(b, OpPrec(op) + 1);
    PrintBinary(op, a, b, q);
  }

  lemma TighterIsHigher(x: BinOp, y: BinOp)
    ensures Tighter(x, y) <==> OpPrec(x) > OpPrec(y)
  {
  }

  /** The operator that binds tighter takes its operands first, on either side. */
  lemma TighterFirst(loose: BinOp, tight: BinOp, a: Expr, b: Expr, c: Expr)
    requires IsOperand(a) && IsOperand(b) && IsOperand(c) && Tighter(tight, loose)
    ensures Reads([TokenOf(a), TOp(loose), TokenOf(b), TOp(tight), TokenOf(c)], Binary(loose, a, Binary(tight, b, c)))
    ensures Reads([TokenOf(a), TOp(tight), TokenOf(b), TOp(loose), TokenOf(c)], Binary(loose, Binary(tight, a, b), c))
  {
    hide Reads, Print, OpPrec, Tighter;
    TighterIsHigher(tight, loose);
    OperandPrint(a, OpPrec(loose));
    PairPrint(tight, b, c, OpPrec(loose) + 1);
    PrintBinary(loose, a, Binary(tight, b, c), P_ASSIGNMENT);
    ReadsPrint([TokenOf(a), TOp(loose), TokenOf(b), TOp(tight), TokenOf(c)], Binary(loose, a, Binary(tight, b, c)));
    OperandPrint(c, OpPrec(loose) + 1);
    PairPrint(tight, a, b, OpPrec(loose));
    PrintBinary(loose, Binary(tight, a, b), c, P_ASSIGNMENT);
    ReadsPrint([TokenOf(a), TOp(tight), TokenOf(b), TOp(loose), TokenOf(c)], Binary(loose, Binary(tight, a, b), c));
  }

  /** Operators of which neither binds tighter group to the left. */
  lemma EqualsLeft(first: BinOp, second: BinOp, a: Expr, b: Expr, c: Expr)
    requires IsOperand(a) && IsOperand(b) && IsOperand(c) && !Tighter(first, second) && !Tighter(second, first)
    ensures Reads([TokenOf(a), TOp(first), TokenOf(b), TOp(second), TokenOf(c)], Binary(second, Binary(first, a, b), c))
  {
    hide Reads, Print, OpPrec, Tighter;
    TighterIsHigher(first, second);
    TighterIsHigher(second, first);
    OperandPrint(c, OpPrec(second) + 1);
    PairPrint(first, a, b, OpPrec(second));
    PrintBinary(second, Binary(first, a, b), c, P_ASSIGNMENT);
    ReadsPrint([TokenOf(a), TOp(first), TokenOf(b), TOp(second), TokenOf(c)], Binary(second, Binary(first, a, b), c));
  }

  /** Parentheses override every level. */
  lemma ParenthesesFirst(outer: BinOp, inner: BinOp, a: Expr, b: Expr, c: Expr)
    requires IsOperand(a) && IsOperand(b) && IsOperand(c) && Tighter(outer, inner)
    ensures Reads([TokenOf(a), TOp(outer), TLParen, TokenOf(b), TOp(inner), TokenOf(c), TRParen],
                  Binary(outer, a, Binary(inner, b, c)))
    ensures Reads([TLParen, TokenOf(a), TOp(inner), TokenOf(b), TRParen, TOp(outer), TokenOf(c)],
                  Binary(outer, Binary(inner, a, b), c))
  {
    hide Reads, OpPrec, Tighter;
    TighterIsHigher(outer, inner);
    Parenthesized(inner, b, c, OpPrec(outer) + 1);
    Parenthesized(inner, a, b, OpPrec(outer));
    hide Print;
    OperandPrint(a, OpPrec(outer));
    PrintBinary(outer, a, Binary(inner, b, c), P_ASSIGNMENT);
    ReadsPrint([TokenOf(a), TOp(outer), TLParen, TokenOf(b), TOp(inner), TokenOf(c), TRParen],
               Binary(outer, a, Binary(inner, b, c)));
    OperandPrint(c, OpPrec(outer) + 1);
    PrintBinary(outer, Binary(inner, a, b), c, P_ASSIGNMENT);
    ReadsPrint([TLParen, TokenOf(a), TOp(inner), TokenOf(b), TRParen, TOp(outer), TokenOf(c)],
               Binary(outer, Binary(inner, a, b), c));
  }

  lemma Parenthesized(op: BinOp, a: Expr, b: Expr, q: nat)
    requires IsOperand(a) && IsOperand(b) && OpPrec(op) < q
    ensures Printable(Binary(op, a, b))
    ensures Print(Binary(op, a, b), q) == [TLParen, TokenOf(a), TOp(op), TokenOf(b), TRParen]
  {
    PairPrint(op, a, b, OpPrec(op));
    assert Print(Binary(op, a, b), OpPrec(op)) == Bare(Binary(op, a, b));
  }

  // ---- Signs, assignment, brackets ----

  /** A sign takes only the operand behind it, whichever operator follows or precedes. */
  lemma SignsFirst(op: BinOp, a: Expr, b: Expr)
    requires IsOperand(a) && IsOperand(b)
    ensures Reads([TOp(OpSub), TokenOf(a), TOp(op), TokenOf(b)], Binary(op, Neg(a), b))
    ensures Reads([TNot, TokenOf(a), TOp(op), TokenOf(b)], Binary(op, Not(a), b))
    ensures Reads([TokenOf(a), TOp(op), TOp(OpSub), TokenOf(b)], Binary(op, a, Neg(b)))
    ensures Reads([TokenOf(a), TOp(op), TNot, TokenOf(b)], Binary(op, a, Not(b)))
  {
    hide Reads, OpPrec;
    SignPrint(a, OpPrec(op));
    SignPrint(b, OpPrec(op) + 1);
    hide Print;
    OperandPrint(a, OpPrec(op));
    OperandPrint(b, OpPrec(op) + 1);
    PrintBinary(op, Neg(a), b, P_ASSIGNMENT);
    PrintBinary(op, Not(a), b, P_ASSIGNMENT);
    PrintBinary(op, a, Neg(b), P_ASSIGNMENT);
    PrintBinary(op, a, Not(b), P_ASSIGNMENT);
    ReadsPrint([TOp(OpSub), TokenOf(a), TOp(op), TokenOf(b)], Binary(op, Neg(a), b));
    ReadsPrint([TNot, TokenOf(a), TOp(op), TokenOf(b)], Binary(op, Not(a), b));
    ReadsPrint([TokenOf(a), TOp(op), TOp(OpSub), TokenOf(b)], Binary(op, a, Neg(b)));
    ReadsPrint([TokenOf(a), TOp(op), TNot, TokenOf(b)], Binary(op, a, Not(b)));
  }

  lemma SignPrint(e: Expr, q: nat)
    requires IsOperand(e) && q <= P_UNARY
    ensures Printable(Neg(e)) && Print(Neg(e), q) == [TOp(OpSub), TokenOf(e)]
    ensures Printable(Not(e)) && Print(Not(e), q) == [TNot, TokenOf(e)]
  {
    OperandPrint(e, P_UNARY);
  }

  /** Assignment takes everything behind it, and an assignment there comes first. */
  lemma AssignmentLast(x: string, cop: CompoundOp, op: BinOp, a: Expr, b: Expr)
    requires IsOperand(a) && IsOperand(b)
    ensures Reads([TIdent(x), TEqual, TokenOf(a), TOp(op), TokenOf(b)], Assign(x, Binary(op, a, b)))
    ensures Reads([TIdent(x), TOpEqual(cop), TokenOf(a), TOp(op), TokenOf(b)], Compound(cop, x, Binary(op, a, b)))
    ensures forall y :: Reads([TIdent(x), TEqual, TIdent(y), TEqual, TokenOf(a)], Assign(x, Assign(y, a)))
  {
    hide Reads, OpPrec;
    PairPrint(op, a, b, P_ASSIGNMENT);
    ReadsPrint([TIdent(x), TEqual, TokenOf(a), TOp(op), TokenOf(b)], Assign(x, Binary(op, a, b)));
    ReadsPrint([TIdent(x), TOpEqual(cop), TokenOf(a), TOp(op), TokenOf(b)], Compound(cop, x, Binary(op, a, b)));
    forall y
      ensures Reads([TIdent(x), TEqual, TIdent(y), TEqual, TokenOf(a)], Assign(x, Assign(y, a)))
    {
      OperandPrint(a, P_ASSIGNMENT);
      assert Print(Assign(y, a), P_ASSIGNMENT) == [TIdent(y), TEqual] + [TokenOf(a)];
      ReadsPrint([TIdent(x), TEqual, TIdent(y), TEqual, TokenOf(a)], Assign(x, Assign(y, a)));
    }
  }

  /** A bracket belongs to the operand before it, behind signs and operators too. */
  lemma BracketsFirst(op: BinOp, a: Expr, b: Expr, i: Expr)
    requires IsOperand(a) && IsOperand(b) && IsOperand(i)
    ensures Reads([TokenOf(a), TOp(op), TokenOf(b), TLBracket, TokenOf(i), TRBracket], Binary(op, a, Index(b, i)))
    ensures Reads([TOp(OpSub), TokenOf(b), TLBracket, TokenOf(i), TRBracket], Neg(Index(b, i)))
  {
    hide Reads, OpPrec;
    IndexPrint(b, i, OpPrec(op) + 1);
    IndexPrint(b, i, P_UNARY);
    assert Print(Neg(Index(b, i)), P_ASSIGNMENT) == [TOp(OpSub)] + Print(Index(b, i), P_UNARY);
    hide Print;
    OperandPrint(a, OpPrec(op));
    PrintBinary(op, a, Index(b, i), P_ASSIGNMENT);
    ReadsPrint([TokenOf(a), TOp(op), TokenOf(b), TLBracket, TokenOf(i), TRBracket], Binary(op, a, Index(b, i)));
    ReadsPrint([TOp(OpSub), TokenOf(b), TLBracket, TokenOf(i), TRBracket], Neg(Index(b, i)));
  }

  lemma IndexPrint(b: Expr, i: Expr, q: nat)
    requires IsOperand(b) && IsOperand(i) && q <= P_CALL
    ensures Printable(Index(b, i)) && Print(Index(b, i), q) == [TokenOf(b), TLBracket, TokenOf(i), TRBracket]
  {
    OperandPrint(b, P_CALL);
    OperandPrint(i, P_ASSIGNMENT);
  }
}
