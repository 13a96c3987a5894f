/** The expression parser as a function on tokens, and the printer it inverts. */
module Pratt {
  import opened Machine
  import opened Syntax

  /** Tokens an expression can meet; `TOther` has neither a prefix nor an infix rule. */
  datatype Token =
    | TNumber(n: real) | TString(s: string) | TInterpolated(s: string) | TTrue | TFalse | TIdent(x: string)
    | TOp(op: BinOp) | TNot | TPlusPlus | TMinusMinus
    | TEqual | TOpEqual(cop: CompoundOp)
    | TLParen | TRParen | TLBracket | TRBracket | TComma | TNewline | TEof
    | TOther(kind: nat)

  const P_NONE: nat := 0
  const P_ASSIGNMENT: nat := 1
  const P_OR: nat := 2
  const P_AND: nat := 3
  const P_EQUALITY: nat := 4
  const P_COMPARISON: nat := 5
  const P_TERM: nat := 6
  const P_FACTOR: nat := 7
  const P_UNARY: nat := 8
  const P_CALL: nat := 9
  const P_PRIMARY: nat := 10

  function OpPrec(op: BinOp): (p: nat)
    ensures P_OR <= p <= P_FACTOR
  {
    match op
    case OpAdd => P_TERM
    case OpSub => P_TERM
    case OpMul => P_FACTOR
    case OpDiv => P_FACTOR
    case OpMod => P_FACTOR
    case OpEqual => P_EQUALITY
    case OpNotEqual => P_EQUALITY
    case OpAndWord => P_AND
    case OpAndSign => P_AND
    case OpOrWord => P_OR
    case OpOrSign => P_OR
    case _ => P_COMPARISON
  }

  /** The precedence column of the rules table. */
  function Prec(t: Token): (p: nat)
    ensures p != P_ASSIGNMENT && p <= P_CALL
  {
    match t
    case TOp(op) => OpPrec(op)
    case TPlusPlus => P_UNARY
    case TMinusMinus => P_UNARY
    case TLParen => P_CALL
    case TLBracket => P_CALL
    case _ => P_NONE
  }

  /** The prefix column: tokens that can start an expression. */
  predicate HasPrefix(t: Token) {
    match t
    case TNumber(_) => true
    case TString(_) => true
    case TInterpolated(_) => true
    case TTrue => true
    case TFalse => true
    case TIdent(_) => true
    case TOp(op) => op.OpSub?
    case TNot => true
    case TPlusPlus => true
    case TMinusMinus => true
    case TLParen => true
    case TLBracket => true
    case _ => false
  }

  // ---- Emission ----

  datatype Chunk = Chunk(bytes: seq<nat>, consts: seq<Value>)

  function Put(c: Chunk, b: nat): Chunk {
    c.(bytes := c.bytes + [Byte(b)])
  }

  function AddConst(c: Chunk, v: Value): Chunk {
    c.(consts := c.consts + [v])
  }

  function PushConst(c: Chunk, v: Value): Chunk {
    Put(Put(AddConst(c, v), PUSH_CONST), |c.consts|)
  }

  function GetGlobal(c: Chunk, k: nat): Chunk {
    Put(Put(c, GET_GLOBAL), k)
  }

  function SetGlobal(c: Chunk, k: nat): Chunk {
    Put(Put(c, SET_GLOBAL), k)
  }

  // ---- Parser states ----

  /** The tokens not yet consumed, the code so far, and whether an error was reported or a rule was missing. */
  datatype Parse = Parse(rest: seq<Token>, out: Chunk, hadError: bool, crashed: bool)

  function Peek(s: Parse): Token {
    if s.rest == [] then TEof else s.rest[0]
  }

  function Advance(s: Parse): Parse {
    if s.rest == [] then s else s.(rest := s.rest[1..])
  }

  function Consume(s: Parse, t: Token): Parse {
    if Peek(s) == t then Advance(s) else s.(hadError := true)
  }

  function SkipNewlines(s: Parse): (r: Parse)
    ensures |r.rest| <= |s.rest| && (s.crashed ==> r.crashed)
    decreases |s.rest|
  {
    if s.rest != [] && s.rest[0] == TNewline then SkipNewlines(Advance(s)) else s
  }

  function ParsePrec(prec: nat, s: Parse): (r: Parse)
    requires prec >= P_ASSIGNMENT
    ensures |r.rest| <= |s.rest| && (s.crashed ==> r.crashed)
    decreases |s.rest|, 1
  {
    if !HasPrefix(Peek(s)) then Advance(s).(hadError := true)
    else InfixLoop(prec, Prefix(Peek(s), Advance(s)))
  }

  /** Infix rules as long as the next token binds at least as tightly as `prec`. */
  function InfixLoop(prec: nat, s: Parse): (r: Parse)
    requires prec >= P_ASSIGNMENT
    ensures |r.rest| <= |s.rest| && (s.crashed ==> r.crashed)
    decreases |s.rest|, 0
  {
    if prec > Prec(Peek(s)) then s
    else if Peek(s) == TPlusPlus || Peek(s) == TMinusMinus then s.(crashed := true)
    else InfixLoop(prec, Infix(Peek(s), Advance(s)))
  }

  function Prefix(t: Token, s: Parse): (r: Parse)
    requires HasPrefix(t)
    ensures |r.rest| <= |s.rest| && (s.crashed ==> r.crashed)
    decreases |s.rest|, 4
  {
    match t
    case TNumber(n) => s.(out := PushConst(s.out, Num(n)))
    case TString(text) => s.(out := PushConst(s.out, Str(text)))
    case TInterpolated(text) => s.(out := Put(PushConst(s.out, Str(text)), INTERPOLATE))
    case TTrue => s.(out := PushConst(s.out, Bool(true)))
    case TFalse => s.(out := PushConst(s.out, Bool(false)))
    case TIdent(x) => Variable(|s.out.consts|, s.(out := AddConst(s.out, Str(x))))
    case TLParen => Consume(ParsePrec(P_ASSIGNMENT, s), TRParen)
    case TOp(_) =>
      var s1 := ParsePrec(P_UNARY, s);
      s1.(out := Put(PushConst(s1.out, Num(-1.0)), MUL))
    case TNot =>
      var s1 := ParsePrec(P_UNARY, s);
      s1.(out := Put(s1.out, NOT))
    case TPlusPlus => PrefixStep(s, true)
    case TMinusMinus => PrefixStep(s, false)
    case TLBracket => ArrayLiteral(s)
  }

  /** After an identifier whose name is constant `k`. */
  function Variable(k: nat, s: Parse): (r: Parse)
    ensures |r.rest| <= |s.rest| && (s.crashed ==> r.crashed)
    decreases |s.rest|, 2
  {
    match Peek(s)
    case TEqual =>
      var s1 := ParsePrec(P_ASSIGNMENT, Advance(s));
      s1.(out := SetGlobal(s1.out, k))
    case TOpEqual(op) =>
      var s1 := ParsePrec(P_ASSIGNMENT, Advance(s).(out := GetGlobal(s.out, k)));
      s1.(out := SetGlobal(Put(s1.out, Opcode(op)), k))
    case TPlusPlus => PostfixStep(k, Advance(s), true)
    case TMinusMinus => PostfixStep(k, Advance(s), false)
    case TLParen =>
      var (n, s1) := Arguments(Advance(s));
      var s2 := Consume(s1, TRParen);
      s2.(out := Put(Put(GetGlobal(s2.out, k), CALL), n))
    case _ => s.(out := GetGlobal(s.out, k))
  }

  function PostfixStep(k: nat, s: Parse, up: bool): (r: Parse)
    ensures r.rest == s.rest && (s.crashed <==> r.crashed)
  {
    s.(out := Put(SetGlobal(Put(PushConst(GetGlobal(GetGlobal(s.out, k), k), Num(1.0)), StepOp(up)), k), POP))
  }

  /** The name is the next token's; without an identifier the error is reported and the operator's own text is taken. */
  function PrefixStep(s: Parse, up: bool): (r: Parse)
    ensures |r.rest| <= |s.rest| && (s.crashed <==> r.crashed)
  {
    var x := if Peek(s).TIdent? then Peek(s).x else if up then "++" else "--";
    var s1 := if Peek(s).TIdent? then Advance(s) else s.(hadError := true);
    var k := |s.out.consts|;
    s1.(out := SetGlobal(Put(PushConst(GetGlobal(AddConst(s.out, Str(x)), k), Num(1.0)), StepOp(up)), k))
  }

  function Arguments(s: Parse): (r: (nat, Parse))
    ensures |r.1.rest| <= |s.rest| && (s.crashed ==> r.1.crashed)
    decreases |s.rest|, 3
  {
    if Peek(s) == TRParen then (0, s) else ArgumentList(s)
  }

  /** Expressions separated by commas, at least one. */
  function ArgumentList(s: Parse): (r: (nat, Parse))
    ensures |r.1.rest| <= |s.rest| && (s.crashed ==> r.1.crashed)
    decreases |s.rest|, 2
  {
    var s1 := ParsePrec(P_ASSIGNMENT, s);
    if s1.rest != [] && s1.rest[0] == TComma then
      var (n, s2) := ArgumentList(Advance(s1));
      (n + 1, s2)
    else (1, s1)
  }

  function ArrayLiteral(s: Parse): (r: Parse)
    ensures |r.rest| <= |s.rest| && (s.crashed ==> r.crashed)
    decreases |s.rest|, 3
  {
    var s0 := SkipNewlines(s);
    var (n, s1) := if Peek(s0) == TRBracket then (0, s0) else Elements(s0);
    var s2 := Consume(SkipNewlines(s1), TRBracket);
    s2.(out := Put(Put(s2.out, ARRAY_NEW), n))
  }

  function Elements(s: Parse): (r: (nat, Parse))
    ensures |r.1.rest| <= |s.rest| && (s.crashed ==> r.1.crashed)
    decreases |s.rest|, 2
  {
    var s1 := SkipNewlines(ParsePrec(P_ASSIGNMENT, SkipNewlines(s)));
    if s1.rest != [] && s1.rest[0] == TComma then
      var (n, s2) := Elements(Advance(s1));
      (n + 1, s2)
    else (1, s1)
  }

  function Infix(t: Token, s: Parse): (r: Parse)
    requires Prec(t) >= P_ASSIGNMENT && t != TPlusPlus && t != TMinusMinus
    ensures |r.rest| <= |s.rest| && (s.crashed ==> r.crashed)
    decreases |s.rest|, 4
  {
    match t
    case TOp(op) =>
      var s1 := ParsePrec(OpPrec(op) + 1, s);
      s1.(out := Put(s1.out, Opcode(op)))
    case TLBracket =>
      var s1 := Consume(ParsePrec(P_ASSIGNMENT, s), TRBracket);
      if Peek(s1) == TEqual then
        var s2 := ParsePrec(P_ASSIGNMENT, Advance(s1));
        s2.(out := Put(s2.out, ARRAY_SET))
      else s1.(out := Put(s1.out, ARRAY_GET))
    case TLParen =>
      var (n, s1) := Arguments(s);
      var s2 := Consume(s1, TRParen);
      s2.(out := Put(Put(s2.out, CALL), n))
  }

  // ---- Printing ----

  /** How tightly a tree holds together when printed without parentheses. */
  function Level(e: Expr): (p: nat)
    ensures P_ASSIGNMENT <= p <= P_PRIMARY
  {
    match e
    case Assign(_, _) => P_ASSIGNMENT
    case Compound(_, _, _) => P_ASSIGNMENT
    case IndexSet(_, _, _) => P_ASSIGNMENT
    case Binary(op, _, _) => OpPrec(op)
    case Neg(_) => P_UNARY
    case Not(_) => P_UNARY
    case Index(_, _) => P_CALL
    case _ => P_PRIMARY
  }

  /** Trees that have tokens: their constants are numbers, strings and booleans. */
  predicate Printable(e: Expr) {
    match e
    case Const(v) => v.Num? || v.Str? || v.Bool?
    case Assign(_, e1) => Printable(e1)
    case Compound(_, _, e1) => Printable(e1)
    case Binary(_, l, r) => Printable(l) && Printable(r)
    case Neg(e1) => Printable(e1)
    case Not(e1) => Printable(e1)
    case Call(_, args) => AllPrintable(args)
    case Array(elems) => AllPrintable(elems)
    case Index(a, i) => Printable(a) && Printable(i)
    case IndexSet(a, i, e1) => Printable(a) && Printable(i) && Printable(e1)
    case _ => true
  }

  predicate AllPrintable(es: Exprs) {
    match es case NoExprs => true case More(e, tail) => Printable(e) && AllPrintable(tail)
  }

  function Literal(v: Value): Token
    requires v.Num? || v.Str? || v.Bool?
  {
    match v
    case Num(n) => TNumber(n)
    case Str(s) => TString(s)
    case Bool(b) => if b then TTrue else TFalse
  }

  /** Tokens of a tree where at least level `q` is needed: parentheses only around looser trees. */
  function Print(e: Expr, q: nat): seq<Token>
    requires Printable(e)
    decreases e, 1
  {
    if Level(e) < q then [TLParen] + Bare(e) + [TRParen] else Bare(e)
  }

  function Bare(e: Expr): seq<Token>
    requires Printable(e)
    decreases e, 0
  {
    match e
    case Const(v) => [Literal(v)]
    case Interpolated(text) => [TInterpolated(text)]
    case Var(x) => [TIdent(x)]
    case Assign(x, e1) => [TIdent(x), TEqual] + Print(e1, P_ASSIGNMENT)
    case Compound(op, x, e1) => [TIdent(x), TOpEqual(op)] + Print(e1, P_ASSIGNMENT)
    case PostStep(x, up) => [TIdent(x), StepToken(up)]
    case PreStep(x, up) => [StepToken(up), TIdent(x)]
    case Binary(op, l, r) => Print(l, OpPrec(op)) + [TOp(op)] + Print(r, OpPrec(op) + 1)
    case Neg(e1) => [TOp(OpSub)] + Print(e1, P_UNARY)
    case Not(e1) => [TNot] + Print(e1, P_UNARY)
    case Call(f, args) => [TIdent(f), TLParen] + PrintAll(args) + [TRParen]
    case Array(elems) => [TLBracket] + PrintAll(elems) + [TRBracket]
    case Index(a, i) => Print(a, P_CALL) + [TLBracket] + Print(i, P_ASSIGNMENT) + [TRBracket]
    case IndexSet(a, i, e1) =>
      Print(a, P_CALL) + [TLBracket] + Print(i, P_ASSIGNMENT) + [TRBracket, TEqual] + Print(e1, P_ASSIGNMENT)
  }

  function StepToken(up: bool): Token {
    if up then TPlusPlus else TMinusMinus
  }

  function PrintAll(es: Exprs): seq<Token>
    requires AllPrintable(es)
    decreases es, 1
  {
    match es
    case NoExprs => []
    case More(e, NoExprs) => Print(e, P_ASSIGNMENT)
    case More(e, tail) => Print(e, P_ASSIGNMENT) + [TComma] + PrintAll(tail)
  }

  // ---- The code of a tree, emitted onto a chunk ----

  function Gen(e: Expr, c: Chunk): Chunk {
    match e
    case Const(v) => PushConst(c, v)
    case Interpolated(text) => Put(PushConst(c, Str(text)), INTERPOLATE)
    case Var(x) => GetGlobal(AddConst(c, Str(x)), |c.consts|)
    case Assign(x, e1) => SetGlobal(Gen(e1, AddConst(c, Str(x))), |c.consts|)
    case Compound(op, x, e1) =>
      SetGlobal(Put(Gen(e1, GetGlobal(AddConst(c, Str(x)), |c.consts|)), Opcode(op)), |c.consts|)
    case PostStep(x, up) =>
      var k := |c.consts|;
      Put(SetGlobal(Put(PushConst(GetGlobal(GetGlobal(AddConst(c, Str(x)), k), k), Num(1.0)), StepOp(up)), k), POP)
    case PreStep(x, up) =>
      var k := |c.consts|;
      SetGlobal(Put(PushConst(GetGlobal(AddConst(c, Str(x)), k), Num(1.0)), StepOp(up)), k)
    case Binary(op, l, r) => Put(Gen(r, Gen(l, c)), Opcode(op))
    case Neg(e1) => Put(PushConst(Gen(e1, c), Num(-1.0)), MUL)
    case Not(e1) => Put(Gen(e1, c), NOT)
    case Call(f, args) => Put(Put(GetGlobal(GenAll(args, AddConst(c, Str(f))), |c.consts|), CALL), Count(args))
    case Array(elems) => Put(Put(GenAll(elems, c), ARRAY_NEW), Count(elems))
    case Index(a, i) => Put(Gen(i, Gen(a, c)), ARRAY_GET)
    case IndexSet(a, i, e1) => Put(Gen(e1, Gen(i, Gen(a, c))), ARRAY_SET)
  }

  function GenAll(es: Exprs, c: Chunk): Chunk {
    match es case NoExprs => c case More(e, tail) => GenAll(tail, Gen(e, c))
  }
}
