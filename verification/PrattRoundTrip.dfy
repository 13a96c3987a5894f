/** Parsing what the printer wrote consumes it and emits the code of the printed tree. */
module PrattRoundTrip {
  import opened Machine
  import opened Syntax
  import opened Pratt

  /** A parser like `s` with `ts` ahead and `c` emitted. */
  function Ready(s: Parse, ts: seq<Token>, c: Chunk): Parse {
    s.(rest := ts, out := c)
  }

  function First(ts: seq<Token>): Token {
    if ts == [] then TEof else ts[0]
  }

  /** After a tree printed at level `q`, `t` binds no tighter than `q` and does not extend an identifier or an index. */
  predicate Follows(t: Token, q: nat) {
    Prec(t) <= q && t != TPlusPlus && t != TMinusMinus && t != TEqual && !t.TOpEqual? && t != TLParen
  }

  predicate IsStep(t: Token) {
    t == TPlusPlus || t == TMinusMinus
  }

  /** Printed at level `q`, the tree is complete whatever follows, except for what continues every expression. */
  predicate IsClosed(e: Expr, q: nat) {
    Level(e) < q || e.Const? || e.Interpolated? || e.PostStep? || e.PreStep? || e.Call? || e.Array? || e.Index?
  }

  predicate MayFollow(e: Expr, q: nat, t: Token) {
    Follows(t, q) || (IsStep(t) && IsClosed(e, q))
  }

  // ---- One step of the parser ----

  lemma PrefixStarts(p: nat, s: Parse, t: Token, ts: seq<Token>, c: Chunk)
    requires p >= P_ASSIGNMENT && HasPrefix(t)
    ensures ParsePrec(p, Ready(s, [t] + ts, c)) == InfixLoop(p, Prefix(t, Ready(s, ts, c)))
  {
    hide InfixLoop, Prefix;
    assert ([t] + ts)[1..] == ts;
  }

  lemma LoopStops(p: nat, s: Parse)
    requires p >= P_ASSIGNMENT && Prec(Peek(s)) < p
    ensures InfixLoop(p, s) == s
  {
  }

  lemma LoopContinues(p: nat, s: Parse, t: Token, ts: seq<Token>, c: Chunk)
    requires P_ASSIGNMENT <= p <= Prec(t) && t != TPlusPlus && t != TMinusMinus
    ensures InfixLoop(p, Ready(s, [t] + ts, c)) == InfixLoop(p, Infix(t, Ready(s, ts, c)))
  {
    hide Infix;
    assert ([t] + ts)[1..] == ts;
  }

  /** Every printed tree starts with a token that has a prefix rule. */
  lemma {:induction false} StartsExpression(e: Expr, q: nat)
    requires Printable(e) && q <= P_CALL
    ensures Print(e, q) != [] && HasPrefix(Print(e, q)[0])
    decreases Size(e)
  {
    match e
    case Binary(op, l, r) => StartsExpression(l, OpPrec(op));
    case Index(a, i) => StartsExpression(a, P_CALL);
    case IndexSet(a, i, e1) => StartsExpression(a, P_CALL);
    case _ =>
  }

  lemma AllStartExpression(es: Exprs)
    requires AllPrintable(es) && es.More?
    ensures PrintAll(es) != [] && HasPrefix(PrintAll(es)[0])
  {
    StartsExpression(es.head, P_ASSIGNMENT);
  }

  // ---- The trees, by kind ----

  lemma ParenParses(p: nat, e: Expr, q: nat, s: Parse, rest: seq<Token>, c: Chunk)
    requires P_ASSIGNMENT <= p <= q <= P_CALL && Printable(e) && MayFollow(e, q, First(rest)) && Level(e) < q
    ensures ParsePrec(p, Ready(s, Print(e, q) + rest, c)) == InfixLoop(p, Ready(s, rest, Gen(e, c)))
    decreases Size(e), q, 0
  {
    hide ParsePrec, InfixLoop, Bare, Gen;
    var closing := [TRParen] + rest;
    assert Print(e, q) + rest == [TLParen] + (Print(e, P_ASSIGNMENT) + closing);
    PrefixStarts(p, s, TLParen, Print(e, P_ASSIGNMENT) + closing, c);
    PrintParses(P_ASSIGNMENT, e, P_ASSIGNMENT, s, closing, c);
    LoopStops(P_ASSIGNMENT, Ready(s, closing, Gen(e, c)));
    assert closing[1..] == rest;
  }

  lemma BinaryParses(p: nat, e: Expr, q: nat, s: Parse, rest: seq<Token>, c: Chunk)
    requires P_ASSIGNMENT <= p <= q <= P_CALL && Printable(e) && Follows(First(rest), q) && q <= Level(e) && e.Binary?
    ensures ParsePrec(p, Ready(s, Print(e, q) + rest, c)) == InfixLoop(p, Ready(s, rest, Gen(e, c)))
    decreases Size(e), q, 0
  {
    hide ParsePrec, InfixLoop, Print;
    var pr, t := OpPrec(e.op), TOp(e.op);
    var right := Print(e.right, pr + 1) + rest;
    assert Bare(e) + rest == Print(e.left, pr) + ([t] + right);
    assert Print(e, q) == Bare(e) by { PrintBare(e, q); }
    PrintParses(p, e.left, pr, s, [t] + right, c);
    LoopContinues(p, s, t, right, Gen(e.left, c));
    PrintParses(pr + 1, e.right, pr + 1, s, rest, Gen(e.left, c));
    LoopStops(pr + 1, Ready(s, rest, Gen(e.right, Gen(e.left, c))));
  }

  lemma PrintBare(e: Expr, q: nat)
    requires Printable(e) && q <= Level(e)
    ensures Print(e, q) == Bare(e)
  {
  }

  lemma NegParses(p: nat, e: Expr, q: nat, s: Parse, rest: seq<Token>, c: Chunk)
    requires P_ASSIGNMENT <= p <= q <= P_CALL && Printable(e) && Follows(First(rest), q) && q <= Level(e)
    requires e.Neg? || e.Not?
    ensures ParsePrec(p, Ready(s, Print(e, q) + rest, c)) == InfixLoop(p, Ready(s, rest, Gen(e, c)))
    decreases Size(e), q, 0
  {
    hide ParsePrec, InfixLoop, Print;
    var t := if e.Neg? then TOp(OpSub) else TNot;
    PrintBare(e, q);
    assert Bare(e) + rest == [t] + (Print(e.e, P_UNARY) + rest);
    PrefixStarts(p, s, t, Print(e.e, P_UNARY) + rest, c);
    PrintParses(P_UNARY, e.e, P_UNARY, s, rest, c);
    LoopStops(P_UNARY, Ready(s, rest, Gen(e.e, c)));
  }

  lemma LiteralPrefix(e: Expr, s: Parse, rest: seq<Token>, c: Chunk)
    requires Printable(e) && (e.Const? || e.Interpolated?)
    ensures |Bare(e)| == 1 && HasPrefix(Bare(e)[0]) && Prefix(Bare(e)[0], Ready(s, rest, c)) == Ready(s, rest, Gen(e, c))
  {
  }

  lemma NamePrefix(e: Expr, s: Parse, rest: seq<Token>, c: Chunk)
    requires e.PostStep? || (e.Var? && Follows(First(rest), P_CALL))
    ensures var ts := Bare(e)[1..] + rest;
      HasPrefix(Bare(e)[0]) && Prefix(Bare(e)[0], Ready(s, ts, c)) == Ready(s, rest, Gen(e, c))
  {
    var ts := Bare(e)[1..] + rest;
    if e.PostStep? {
      assert ts[1..] == rest;
    } else {
      assert ts == rest;
    }
  }

  lemma PreStepPrefix(e: Expr, s: Parse, rest: seq<Token>, c: Chunk)
    requires e.PreStep?
    ensures var ts := Bare(e)[1..] + rest;
      HasPrefix(Bare(e)[0]) && Prefix(Bare(e)[0], Ready(s, ts, c)) == Ready(s, rest, Gen(e, c))
  {
    hide ParsePrec;
    var ts := Bare(e)[1..] + rest;
    assert ts == [TIdent(e.x)] + rest && ts[1..] == rest;
  }

  /** Trees of one or two tokens. */
  lemma LeafParses(p: nat, e: Expr, q: nat, s: Parse, rest: seq<Token>, c: Chunk)
    requires P_ASSIGNMENT <= p <= q <= P_CALL && Printable(e) && MayFollow(e, q, First(rest)) && q <= Level(e)
    requires e.Const? || e.Interpolated? || e.Var? || e.PostStep? || e.PreStep?
    ensures ParsePrec(p, Ready(s, Print(e, q) + rest, c)) == InfixLoop(p, Ready(s, rest, Gen(e, c)))
  {
    hide ParsePrec, InfixLoop, Print, Bare, Gen, Prefix;
    PrintBare(e, q);
    NotEmpty(e);
    var tail := Bare(e)[1..] + rest;
    if e.Const? || e.Interpolated? {
      LiteralPrefix(e, s, rest, c);
      assert tail == rest;
    } else if e.PreStep? {
      PreStepPrefix(e, s, rest, c);
    } else {
      NamePrefix(e, s, rest, c);
    }
    assert Bare(e) + rest == [Bare(e)[0]] + tail;
    PrefixStarts(p, s, Bare(e)[0], tail, c);
  }

  lemma NotEmpty(e: Expr)
    requires Printable(e)
    ensures Bare(e) != []
  {
  }

  lemma AssignParts(e: Expr, c: Chunk)
    requires Printable(e) && (e.Assign? || e.Compound?)
    ensures Printable(e.e)
    ensures Bare(e) == [TIdent(e.x), if e.Assign? then TEqual else TOpEqual(e.cop)] + Print(e.e, P_ASSIGNMENT)
    ensures e.Assign? ==> Gen(e, c) == SetGlobal(Gen(e.e, AddConst(c, Str(e.x))), |c.consts|)
    ensures e.Compound? ==>
      Gen(e, c) == SetGlobal(Put(Gen(e.e, GetGlobal(AddConst(c, Str(e.x)), |c.consts|)), Opcode(e.cop)), |c.consts|)
  {
  }

  /** An identifier followed by an assignment operator. */
  lemma AssignPrefix(x: string, t: Token, s: Parse, ts: seq<Token>, c: Chunk)
    requires t == TEqual || t.TOpEqual?
    ensures var k, c1 := |c.consts|, AddConst(c, Str(x));
      var s1 := ParsePrec(P_ASSIGNMENT, Ready(s, ts, if t == TEqual then c1 else GetGlobal(c1, k)));
      Prefix(TIdent(x), Ready(s, [t] + ts, c))
      == s1.(out := SetGlobal(if t == TEqual then s1.out else Put(s1.out, Opcode(t.cop)), k))
  {
    hide ParsePrec;
    assert ([t] + ts)[1..] == ts;
  }

  lemma AssignParses(p: nat, e: Expr, q: nat, s: Parse, rest: seq<Token>, c: Chunk)
    requires P_ASSIGNMENT <= p <= q <= P_CALL && Printable(e) && Follows(First(rest), q) && q <= Level(e)
    requires e.Assign? || e.Compound?
    ensures ParsePrec(p, Ready(s, Print(e, q) + rest, c)) == InfixLoop(p, Ready(s, rest, Gen(e, c)))
    decreases Size(e), q, 0
  {
    hide ParsePrec, InfixLoop, Print, Bare, Gen, Prefix;
    PrintBare(e, q);
    AssignParts(e, c);
    var t, c1 := if e.Assign? then TEqual else TOpEqual(e.cop), AddConst(c, Str(e.x));
    var value := Print(e.e, P_ASSIGNMENT) + rest;
    assert Bare(e) + rest == [TIdent(e.x)] + ([t] + value);
    PrefixStarts(p, s, TIdent(e.x), [t] + value, c);
    AssignPrefix(e.x, t, s, value, c);
    c1 := if e.Assign? then c1 else GetGlobal(c1, |c.consts|);
    PrintParses(P_ASSIGNMENT, e.e, P_ASSIGNMENT, s, rest, c1);
    LoopStops(P_ASSIGNMENT, Ready(s, rest, Gen(e.e, c1)));
  }

  /** What stands after the first expression of a printed list. */
  function AfterHead(es: Exprs, rest: seq<Token>): seq<Token>
    requires AllPrintable(es) && es.More?
  {
    if es.tail == NoExprs then rest else [TComma] + (PrintAll(es.tail) + rest)
  }

  lemma HeadParses(es: Exprs, s: Parse, rest: seq<Token>, c: Chunk)
    requires AllPrintable(es) && es.More? && (First(rest) == TRParen || First(rest) == TRBracket)
    ensures ParsePrec(P_ASSIGNMENT, Ready(s, PrintAll(es) + rest, c)) == Ready(s, AfterHead(es, rest), Gen(es.head, c))
    ensures PrintAll(es) != [] && HasPrefix(PrintAll(es)[0])
    decreases SizeAll(es), 0, 0
  {
    hide ParsePrec, InfixLoop, Print, Gen;
    AllStartExpression(es);
    if es.tail != NoExprs {
      assert PrintAll(es) + rest == Print(es.head, P_ASSIGNMENT) + AfterHead(es, rest);
    }
    PrintParses(P_ASSIGNMENT, es.head, P_ASSIGNMENT, s, AfterHead(es, rest), c);
    LoopStops(P_ASSIGNMENT, Ready(s, AfterHead(es, rest), Gen(es.head, c)));
  }

  lemma {:induction false} ArgumentListParses(es: Exprs, s: Parse, rest: seq<Token>, c: Chunk)
    requires AllPrintable(es) && es.More? && First(rest) == TRParen
    ensures ArgumentList(Ready(s, PrintAll(es) + rest, c)) == (Count(es), Ready(s, rest, GenAll(es, c)))
    decreases SizeAll(es), 0, 1
  {
    hide ParsePrec, PrintAll, Gen;
    HeadParses(es, s, rest, c);
    if es.tail != NoExprs {
      assert AfterHead(es, rest)[1..] == PrintAll(es.tail) + rest;
      ArgumentListParses(es.tail, s, rest, Gen(es.head, c));
    }
  }

  lemma {:induction false} ElementsParse(es: Exprs, s: Parse, rest: seq<Token>, c: Chunk)
    requires AllPrintable(es) && es.More? && First(rest) == TRBracket
    ensures Elements(Ready(s, PrintAll(es) + rest, c)) == (Count(es), Ready(s, rest, GenAll(es, c)))
    decreases SizeAll(es), 0, 1
  {
    hide ParsePrec, PrintAll, Gen;
    HeadParses(es, s, rest, c);
    if es.tail != NoExprs {
      assert AfterHead(es, rest)[1..] == PrintAll(es.tail) + rest;
      ElementsParse(es.tail, s, rest, Gen(es.head, c));
    }
  }

  lemma PrintNone()
    ensures PrintAll(NoExprs) == []
  {
  }

  lemma ArgumentsParse(es: Exprs, s: Parse, rest: seq<Token>, c: Chunk)
    requires AllPrintable(es)
    ensures Arguments(Ready(s, PrintAll(es) + ([TRParen] + rest), c))
      == (Count(es), Ready(s, [TRParen] + rest, GenAll(es, c)))
    decreases SizeAll(es), 0, 2
  {
    hide ArgumentList, PrintAll;
    var closing := [TRParen] + rest;
    if es.More? {
      HeadParses(es, s, closing, c);
      ArgumentListParses(es, s, closing, c);
    } else {
      PrintNone();
      assert PrintAll(es) + closing == closing;
    }
  }

  lemma ArrayLiteralParses(es: Exprs, s: Parse, rest: seq<Token>, c: Chunk)
    requires AllPrintable(es)
    ensures ArrayLiteral(Ready(s, PrintAll(es) + ([TRBracket] + rest), c))
      == Ready(s, rest, Put(Put(GenAll(es, c), ARRAY_NEW), Count(es)))
    decreases SizeAll(es), 0, 2
  {
    hide Elements, PrintAll, GenAll;
    var closing := [TRBracket] + rest;
    assert closing[1..] == rest;
    if es.More? {
      HeadParses(es, s, closing, c);
      ElementsParse(es, s, closing, c);
    } else {
      PrintNone();
      assert GenAll(es, c) == c by { GenNone(c); }
      assert PrintAll(es) + closing == closing;
    }
  }

  lemma GenNone(c: Chunk)
    ensures GenAll(NoExprs, c) == c
  {
  }

  lemma CallParts(e: Expr, c: Chunk)
    requires e.Call? && Printable(e)
    ensures AllPrintable(e.args)
    ensures Bare(e) == [TIdent(e.f), TLParen] + PrintAll(e.args) + [TRParen]
    ensures Gen(e, c) == Put(Put(GetGlobal(GenAll(e.args, AddConst(c, Str(e.f))), |c.consts|), CALL), Count(e.args))
  {
  }

  lemma NamedCall(x: string, s: Parse, ts: seq<Token>, c: Chunk)
    ensures var (n, s1) := Arguments(Ready(s, ts, AddConst(c, Str(x))));
      var s2 := Consume(s1, TRParen);
      Prefix(TIdent(x), Ready(s, [TLParen] + ts, c)) == s2.(out := Put(Put(GetGlobal(s2.out, |c.consts|), CALL), n))
  {
    hide Arguments;
    assert ([TLParen] + ts)[1..] == ts;
  }

  lemma CallParses(p: nat, e: Expr, q: nat, s: Parse, rest: seq<Token>, c: Chunk)
    requires P_ASSIGNMENT <= p <= q <= P_CALL && Printable(e) && MayFollow(e, q, First(rest)) && e.Call?
    ensures ParsePrec(p, Ready(s, Print(e, q) + rest, c)) == InfixLoop(p, Ready(s, rest, Gen(e, c)))
    decreases Size(e), q, 0
  {
    hide ParsePrec, InfixLoop, Print, PrintAll, Arguments, Bare, Gen, Prefix, Variable, GenAll;
    PrintBare(e, q);
    CallParts(e, c);
    var closing := [TRParen] + rest;
    var args := PrintAll(e.args) + closing;
    assert Bare(e) + rest == [TIdent(e.f)] + ([TLParen] + args);
    PrefixStarts(p, s, TIdent(e.f), [TLParen] + args, c);
    NamedCall(e.f, s, args, c);
    ArgumentsParse(e.args, s, rest, AddConst(c, Str(e.f)));
    assert closing[1..] == rest;
  }

  lemma ArrayParts(e: Expr, c: Chunk)
    requires e.Array? && Printable(e)
    ensures AllPrintable(e.elems) && Bare(e) == [TLBracket] + PrintAll(e.elems) + [TRBracket]
    ensures Gen(e, c) == Put(Put(GenAll(e.elems, c), ARRAY_NEW), Count(e.elems))
  {
  }

  lemma ArrayParses(p: nat, e: Expr, q: nat, s: Parse, rest: seq<Token>, c: Chunk)
    requires P_ASSIGNMENT <= p <= q <= P_CALL && Printable(e) && MayFollow(e, q, First(rest)) && e.Array?
    ensures ParsePrec(p, Ready(s, Print(e, q) + rest, c)) == InfixLoop(p, Ready(s, rest, Gen(e, c)))
    decreases Size(e), q, 0
  {
    hide ParsePrec, InfixLoop, Print, PrintAll, ArrayLiteral, Bare, Gen, GenAll;
    PrintBare(e, q);
    ArrayParts(e, c);
    var elems := PrintAll(e.elems) + ([TRBracket] + rest);
    assert Bare(e) + rest == [TLBracket] + elems;
    PrefixStarts(p, s, TLBracket, elems, c);
    ArrayLiteralParses(e.elems, s, rest, c);
  }

  /** The index up to what follows the closing bracket. */
  lemma InsideParses(i: Expr, s: Parse, rest: seq<Token>, c: Chunk)
    requires Printable(i)
    ensures Consume(ParsePrec(P_ASSIGNMENT, Ready(s, Print(i, P_ASSIGNMENT) + ([TRBracket] + rest), c)), TRBracket)
      == Ready(s, rest, Gen(i, c))
    decreases Size(i), P_CALL, 2
  {
    hide ParsePrec, Print, Gen;
    var closing := [TRBracket] + rest;
    PrintParses(P_ASSIGNMENT, i, P_ASSIGNMENT, s, closing, c);
    LoopStops(P_ASSIGNMENT, Ready(s, closing, Gen(i, c)));
    assert closing[1..] == rest;
  }

  /** The bracketed index after a container, up to what follows the closing bracket. */
  lemma IndexedParses(p: nat, a: Expr, i: Expr, s: Parse, rest: seq<Token>, c: Chunk)
    requires P_ASSIGNMENT <= p <= P_CALL && Printable(a) && Printable(i)
    ensures var tokens := Print(a, P_CALL) + ([TLBracket] + (Print(i, P_ASSIGNMENT) + ([TRBracket] + rest)));
      ParsePrec(p, Ready(s, tokens, c))
      == InfixLoop(p, Infix(TLBracket, Ready(s, Print(i, P_ASSIGNMENT) + ([TRBracket] + rest), Gen(a, c))))
    ensures Consume(ParsePrec(P_ASSIGNMENT, Ready(s, Print(i, P_ASSIGNMENT) + ([TRBracket] + rest), Gen(a, c))), TRBracket)
      == Ready(s, rest, Gen(i, Gen(a, c)))
    decreases Size(a) + Size(i), P_CALL, 2
  {
    hide ParsePrec, InfixLoop, Print, Gen, Infix, Consume;
    var index := Print(i, P_ASSIGNMENT) + ([TRBracket] + rest);
    PrintParses(p, a, P_CALL, s, [TLBracket] + index, c);
    LoopContinues(p, s, TLBracket, index, Gen(a, c));
    InsideParses(i, s, rest, Gen(a, c));
  }

  lemma IndexParts(e: Expr, c: Chunk)
    requires Printable(e) && (e.Index? || e.IndexSet?)
    ensures Printable(e.a) && Printable(e.i)
    ensures e.Index? ==> Bare(e) == Print(e.a, P_CALL) + [TLBracket] + Print(e.i, P_ASSIGNMENT) + [TRBracket]
    ensures e.Index? ==> Gen(e, c) == Put(Gen(e.i, Gen(e.a, c)), ARRAY_GET)
    ensures e.IndexSet? ==> Printable(e.e)
    ensures e.IndexSet? ==>
      Bare(e) == Print(e.a, P_CALL) + [TLBracket] + Print(e.i, P_ASSIGNMENT) + [TRBracket, TEqual] + Print(e.e, P_ASSIGNMENT)
    ensures e.IndexSet? ==> Gen(e, c) == Put(Gen(e.e, Gen(e.i, Gen(e.a, c))), ARRAY_SET)
  {
  }

  /** A bracket after an expression: an access, or an assignment when `=` follows. */
  lemma BracketRule(s: Parse)
    ensures var s1 := Consume(ParsePrec(P_ASSIGNMENT, s), TRBracket);
      Infix(TLBracket, s) ==
        if Peek(s1) == TEqual then
          var s2 := ParsePrec(P_ASSIGNMENT, Advance(s1));
          s2.(out := Put(s2.out, ARRAY_SET))
        else s1.(out := Put(s1.out, ARRAY_GET))
  {
    hide ParsePrec;
  }

  lemma IndexParses(p: nat, e: Expr, q: nat, s: Parse, rest: seq<Token>, c: Chunk)
    requires P_ASSIGNMENT <= p <= q <= P_CALL && Printable(e) && MayFollow(e, q, First(rest)) && e.Index?
    ensures ParsePrec(p, Ready(s, Print(e, q) + rest, c)) == InfixLoop(p, Ready(s, rest, Gen(e, c)))
    decreases Size(e), q, 0
  {
    hide ParsePrec, InfixLoop, Print, Bare, Gen, Infix;
    PrintBare(e, q);
    IndexParts(e, c);
    var index := Print(e.i, P_ASSIGNMENT) + ([TRBracket] + rest);
    assert Bare(e) + rest == Print(e.a, P_CALL) + ([TLBracket] + index);
    IndexedParses(p, e.a, e.i, s, rest, c);
    BracketRule(Ready(s, index, Gen(e.a, c)));
  }

  lemma IndexSetParses(p: nat, e: Expr, q: nat, s: Parse, rest: seq<Token>, c: Chunk)
    requires P_ASSIGNMENT <= p <= q <= P_ASSIGNMENT && Printable(e) && Follows(First(rest), q) && e.IndexSet?
    ensures ParsePrec(p, Ready(s, Print(e, q) + rest, c)) == InfixLoop(p, Ready(s, rest, Gen(e, c)))
    decreases Size(e), q, 0
  {
    hide ParsePrec, InfixLoop, Print, Bare, Gen, Infix;
    PrintBare(e, q);
    IndexParts(e, c);
    var value := Print(e.e, P_ASSIGNMENT) + rest;
    var index := Print(e.i, P_ASSIGNMENT) + ([TRBracket] + ([TEqual] + value));
    assert Bare(e) + rest == Print(e.a, P_CALL) + ([TLBracket] + index);
    IndexedParses(p, e.a, e.i, s, [TEqual] + value, c);
    BracketRule(Ready(s, index, Gen(e.a, c)));
    assert ([TEqual] + value)[1..] == value;
    var c1 := Gen(e.i, Gen(e.a, c));
    PrintParses(P_ASSIGNMENT, e.e, P_ASSIGNMENT, s, rest, c1);
    LoopStops(P_ASSIGNMENT, Ready(s, rest, Gen(e.e, c1)));
  }

  lemma {:induction false} PrintParses(p: nat, e: Expr, q: nat, s: Parse, rest: seq<Token>, c: Chunk)
    requires P_ASSIGNMENT <= p <= q <= P_CALL && Printable(e) && MayFollow(e, q, First(rest))
    ensures ParsePrec(p, Ready(s, Print(e, q) + rest, c)) == InfixLoop(p, Ready(s, rest, Gen(e, c)))
    decreases Size(e), q, 1
  {
    hide ParsePrec, InfixLoop, Print;
    if Level(e) < q {
      ParenParses(p, e, q, s, rest, c);
    } else {
      match e
      case Assign(_, _) => AssignParses(p, e, q, s, rest, c);
      case Compound(_, _, _) => AssignParses(p, e, q, s, rest, c);
      case Binary(_, _, _) => BinaryParses(p, e, q, s, rest, c);
      case Neg(_) => NegParses(p, e, q, s, rest, c);
      case Not(_) => NegParses(p, e, q, s, rest, c);
      case Call(_, _) => CallParses(p, e, q, s, rest, c);
      case Array(_) => ArrayParses(p, e, q, s, rest, c);
      case Index(_, _) => IndexParses(p, e, q, s, rest, c);
      case IndexSet(_, _, _) => IndexSetParses(p, e, q, s, rest, c);
      case _ => LeafParses(p, e, q, s, rest, c);
    }
  }

  // ---- Postorder ----

  function Emit(c: Chunk, bytes: seq<nat>, consts: seq<Value>): Chunk {
    Chunk(c.bytes + bytes, c.consts + consts)
  }

  lemma EmitJoins(c: Chunk, b1: seq<nat>, v1: seq<Value>, b2: seq<nat>, v2: seq<Value>)
    ensures Emit(Emit(c, b1, v1), b2, v2) == Emit(c, b1 + b2, v1 + v2)
  {
    assert c.bytes + b1 + b2 == c.bytes + (b1 + b2);
    assert c.consts + v1 + v2 == c.consts + (v1 + v2);
  }

  lemma EmitSize(c: Chunk, b: seq<nat>, v: seq<Value>)
    ensures |Emit(c, b, v).consts| == |c.consts| + |v|
    ensures Emit(c, [], []) == c
  {
    assert c.bytes + [] == c.bytes && c.consts + [] == c.consts;
  }

  lemma ThenPut(c: Chunk, b: seq<nat>, v: seq<Value>, x: nat)
    ensures Put(Emit(c, b, v), x) == Emit(c, b + [Byte(x)], v)
  {
    assert c.bytes + b + [Byte(x)] == c.bytes + (b + [Byte(x)]);
  }

  lemma ThenPut2(c: Chunk, b: seq<nat>, v: seq<Value>, x: nat, y: nat)
    ensures Put(Put(Emit(c, b, v), x), y) == Emit(c, b + [Byte(x), Byte(y)], v)
  {
    assert c.bytes + b + [Byte(x)] + [Byte(y)] == c.bytes + (b + [Byte(x), Byte(y)]);
  }

  lemma ThenName(c: Chunk, b: seq<nat>, v: seq<Value>, x: Value)
    ensures AddConst(Emit(c, b, v), x) == Emit(c, b, v + [x])
  {
    assert c.consts + v + [x] == c.consts + (v + [x]);
  }

  lemma ThenPush(c: Chunk, b: seq<nat>, v: seq<Value>, x: Value)
    ensures PushConst(Emit(c, b, v), x) == Emit(c, b + [PUSH_CONST, Byte(|c.consts| + |v|)], v + [x])
  {
    ThenName(c, b, v, x);
    ThenPut2(c, b, v + [x], PUSH_CONST, |c.consts| + |v|);
  }

  lemma Opcodes(op: BinOp)
    ensures Byte(Opcode(op)) == Opcode(op)
  {
  }

  lemma NameFirst(c: Chunk, x: Value)
    ensures AddConst(c, x) == Emit(c, [], [x])
  {
    EmitSize(c, [], []);
    ThenName(c, [], [], x);
  }

  lemma StepParts(e: Expr, c: Chunk)
    requires e.PostStep? || e.PreStep?
    ensures var k := |c.consts|;
      var got := if e.PreStep? then [GET_GLOBAL, Byte(k)] else [GET_GLOBAL, Byte(k)] + [GET_GLOBAL, Byte(k)];
      var b := got + [PUSH_CONST, Byte(k + 1)] + [StepOp(e.up)] + [SET_GLOBAL, Byte(k)];
      && Bytes(e, k) == (if e.PreStep? then b else b + [POP]) && Consts(e) == [Str(e.x)] + [Num(1.0)]
    ensures var k := |c.consts|;
      var c1 := GetGlobal(AddConst(c, Str(e.x)), k);
      var c2 := SetGlobal(Put(PushConst(if e.PreStep? then c1 else GetGlobal(c1, k), Num(1.0)), StepOp(e.up)), k);
      Gen(e, c) == if e.PreStep? then c2 else Put(c2, POP)
  {
  }

  lemma StepAppends(e: Expr, c: Chunk)
    requires e.PostStep? || e.PreStep?
    ensures Gen(e, c) == Emit(c, Bytes(e, |c.consts|), Consts(e))
  {
    hide Emit, Gen, Bytes, Consts;
    StepParts(e, c);
    var k, name, b := |c.consts|, [Str(e.x)], [GET_GLOBAL, Byte(|c.consts|)];
    NameFirst(c, Str(e.x));
    ThenPut2(c, [], name, GET_GLOBAL, k);
    assert [] + b == b;
    if e.PostStep? {
      ThenPut2(c, b, name, GET_GLOBAL, k);
      b := b + [GET_GLOBAL, Byte(k)];
    }
    ThenPush(c, b, name, Num(1.0));
    b := b + [PUSH_CONST, Byte(k + 1)];
    ThenPut(c, b, name + [Num(1.0)], StepOp(e.up));
    b := b + [StepOp(e.up)];
    ThenPut2(c, b, name + [Num(1.0)], SET_GLOBAL, k);
    ThenPut(c, b + [SET_GLOBAL, Byte(k)], name + [Num(1.0)], POP);
  }

  lemma StorePart(e: Expr, c: Chunk)
    requires e.Assign? || e.Compound?
    ensures Consts(e) == [Str(e.x)] + Consts(e.e) && Size(e.e) < Size(e)
    ensures var k := |c.consts|;
      var got := if e.Assign? then [] else [GET_GLOBAL, Byte(k)];
      var op := if e.Assign? then [] else [Opcode(e.cop)];
      Bytes(e, k) == got + Bytes(e.e, k + 1) + op + [SET_GLOBAL, Byte(k)]
    ensures var k, c0 := |c.consts|, AddConst(c, Str(e.x));
      Gen(e, c) ==
        if e.Assign? then SetGlobal(Gen(e.e, c0), k) else SetGlobal(Put(Gen(e.e, GetGlobal(c0, k)), Opcode(e.cop)), k)
  {
    assert e.Assign? ==> [] + Bytes(e.e, |c.consts| + 1) + [] == Bytes(e.e, |c.consts| + 1);
  }

  lemma AssignAppends(e: Expr, c: Chunk)
    requires e.Assign? || e.Compound?
    ensures Gen(e, c) == Emit(c, Bytes(e, |c.consts|), Consts(e))
    decreases Size(e), 0
  {
    hide Emit, Gen, Bytes, Consts, Size, Opcode, StepOp;
    StorePart(e, c);
    var k, name := |c.consts|, [Str(e.x)];
    var got := if e.Assign? then [] else [GET_GLOBAL, Byte(k)];
    NameFirst(c, Str(e.x));
    ThenPut2(c, [], name, GET_GLOBAL, k);
    assert [] + [GET_GLOBAL, Byte(k)] == [GET_GLOBAL, Byte(k)];
    EmitSize(c, got, name);
    GenAppends(e.e, Emit(c, got, name));
    var b := got + Bytes(e.e, k + 1);
    EmitJoins(c, got, name, Bytes(e.e, k + 1), Consts(e.e));
    if e.Assign? {
      assert b + [] == b;
    } else {
      Opcodes(e.cop);
      ThenPut(c, b, Consts(e), Opcode(e.cop));
      b := b + [Opcode(e.cop)];
    }
    ThenPut2(c, b, Consts(e), SET_GLOBAL, k);
  }

  lemma PairAppends(l: Expr, r: Expr, c: Chunk)
    ensures Gen(r, Gen(l, c))
      == Emit(c, Bytes(l, |c.consts|) + Bytes(r, |c.consts| + |Consts(l)|), Consts(l) + Consts(r))
    decreases Size(l) + Size(r), 2
  {
    hide Bytes, Consts, Gen, Emit;
    GenAppends(l, c);
    EmitSize(c, Bytes(l, |c.consts|), Consts(l));
    GenAppends(r, Gen(l, c));
    EmitJoins(c, Bytes(l, |c.consts|), Consts(l), Bytes(r, |c.consts| + |Consts(l)|), Consts(r));
  }

  lemma BinaryBytes(e: Expr, k: nat)
    requires e.Binary?
    ensures Bytes(e, k) == Bytes(e.left, k) + Bytes(e.right, k + |Consts(e.left)|) + [Opcode(e.op)]
  {
    hide Consts, Opcode;
  }

  lemma BinaryParts(e: Expr, c: Chunk)
    requires e.Binary?
    ensures Consts(e) == Consts(e.left) + Consts(e.right)
    ensures Gen(e, c) == Put(Gen(e.right, Gen(e.left, c)), Opcode(e.op))
    ensures Size(e.left) + Size(e.right) < Size(e)
  {
    hide Bytes, Opcode;
  }

  lemma IndexCode(e: Expr, c: Chunk)
    requires e.Index?
    ensures Bytes(e, |c.consts|) == Bytes(e.a, |c.consts|) + Bytes(e.i, |c.consts| + |Consts(e.a)|) + [ARRAY_GET]
    ensures Consts(e) == Consts(e.a) + Consts(e.i)
    ensures Gen(e, c) == Put(Gen(e.i, Gen(e.a, c)), ARRAY_GET)
    ensures Size(e.a) + Size(e.i) < Size(e)
  {
  }

  lemma NestedAppends(e: Expr, c: Chunk)
    requires e.Binary? || e.Index?
    ensures Gen(e, c) == Emit(c, Bytes(e, |c.consts|), Consts(e))
    decreases Size(e), 0
  {
    hide Emit, Gen, Bytes, Consts, Size, Opcode;
    var l, r, op := if e.Binary? then e.left else e.a, if e.Binary? then e.right else e.i,
      if e.Binary? then Opcode(e.op) else ARRAY_GET;
    if e.Binary? {
      BinaryBytes(e, |c.consts|);
      BinaryParts(e, c);
      Opcodes(e.op);
    } else {
      IndexCode(e, c);
    }
    PairAppends(l, r, c);
    ThenPut(c, Bytes(l, |c.consts|) + Bytes(r, |c.consts| + |Consts(l)|), Consts(l) + Consts(r), op);
  }

  lemma IndexSetAppends(e: Expr, c: Chunk)
    requires e.IndexSet?
    ensures Gen(e, c) == Emit(c, Bytes(e, |c.consts|), Consts(e))
    decreases Size(e), 0
  {
    hide Emit, Gen, Bytes, Consts, Size;
    IndexSetParts(e, c);
    var k1 := |c.consts| + |Consts(e.a)|;
    var k2, b, v := k1 + |Consts(e.i)|, Bytes(e.a, |c.consts|) + Bytes(e.i, k1), Consts(e.a) + Consts(e.i);
    PairAppends(e.a, e.i, c);
    EmitSize(c, b, v);
    GenAppends(e.e, Emit(c, b, v));
    EmitJoins(c, b, v, Bytes(e.e, k2), Consts(e.e));
    ThenPut(c, b + Bytes(e.e, k2), v + Consts(e.e), ARRAY_SET);
  }

  lemma IndexSetParts(e: Expr, c: Chunk)
    requires e.IndexSet?
    ensures var k1 := |c.consts| + |Consts(e.a)|;
      Bytes(e, |c.consts|) == Bytes(e.a, |c.consts|) + Bytes(e.i, k1) + Bytes(e.e, k1 + |Consts(e.i)|) + [ARRAY_SET]
    ensures Consts(e) == Consts(e.a) + Consts(e.i) + Consts(e.e)
    ensures Gen(e, c) == Put(Gen(e.e, Gen(e.i, Gen(e.a, c))), ARRAY_SET)
    ensures Size(e.a) + Size(e.i) < Size(e) && Size(e.e) < Size(e)
  {
    hide Bytes, Gen, Consts, Size;
    IndexSetBytes(e, |c.consts|);
    IndexSetGen(e, c);
  }

  lemma IndexSetGen(e: Expr, c: Chunk)
    requires e.IndexSet?
    ensures Consts(e) == Consts(e.a) + Consts(e.i) + Consts(e.e)
    ensures Gen(e, c) == Put(Gen(e.e, Gen(e.i, Gen(e.a, c))), ARRAY_SET)
    ensures Size(e.a) + Size(e.i) < Size(e) && Size(e.e) < Size(e)
  {
    hide Bytes, GenAll, ConstsAll, SizeAll;
  }

  lemma NotParts(e: Expr, c: Chunk)
    requires e.Not?
    ensures Size(e.e) < Size(e) && Bytes(e, |c.consts|) == Bytes(e.e, |c.consts|) + [NOT]
    ensures Consts(e) == Consts(e.e) && Gen(e, c) == Put(Gen(e.e, c), NOT)
  {
  }

  lemma NegParts(e: Expr, c: Chunk)
    requires e.Neg?
    ensures var k := |c.consts| + |Consts(e.e)|;
      Bytes(e, |c.consts|) == Bytes(e.e, |c.consts|) + [PUSH_CONST, Byte(k)] + [MUL]
    ensures Consts(e) == Consts(e.e) + [Num(-1.0)] && Size(e.e) < Size(e)
    ensures Gen(e, c) == Put(PushConst(Gen(e.e, c), Num(-1.0)), MUL)
  {
    NegBytes(e, |c.consts|);
    hide Bytes;
  }

  lemma NegBytes(e: Expr, k: nat)
    requires e.Neg?
    ensures Bytes(e, k) == Bytes(e.e, k) + [PUSH_CONST, Byte(k + |Consts(e.e)|)] + [MUL]
  {
    hide Consts;
  }

  lemma UnaryAppends(e: Expr, c: Chunk)
    requires e.Neg? || e.Not?
    ensures Gen(e, c) == Emit(c, Bytes(e, |c.consts|), Consts(e))
    decreases Size(e), 0
  {
    hide Emit, Gen, Bytes, Consts, Size;
    var b, v := Bytes(e.e, |c.consts|), Consts(e.e);
    if e.Not? {
      NotParts(e, c);
    } else {
      NegParts(e, c);
    }
    GenAppends(e.e, c);
    if e.Not? {
      ThenPut(c, b, v, NOT);
    } else {
      ThenPush(c, b, v, Num(-1.0));
      ThenPut(c, b + [PUSH_CONST, Byte(|c.consts| + |v|)], Consts(e), MUL);
    }
  }

  lemma ArrayAppends(e: Expr, c: Chunk)
    requires e.Array?
    ensures Gen(e, c) == Emit(c, Bytes(e, |c.consts|), Consts(e))
    decreases Size(e), 0
  {
    GenAllAppends(e.elems, c);
    ThenPut2(c, BytesAll(e.elems, |c.consts|), ConstsAll(e.elems), ARRAY_NEW, Count(e.elems));
  }

  lemma CallAppends(e: Expr, c: Chunk)
    requires e.Call?
    ensures Gen(e, c) == Emit(c, Bytes(e, |c.consts|), Consts(e))
    decreases Size(e), 0
  {
    CallCode(e, c);
    hide Emit, Gen, Bytes, Consts, Size, GenAll, BytesAll, ConstsAll, Count;
    var k, n := |c.consts|, Count(e.args);
    NameFirst(c, Str(e.f));
    EmitSize(c, [], [Str(e.f)]);
    GenAllAppends(e.args, AddConst(c, Str(e.f)));
    var b := BytesAll(e.args, k + 1);
    EmitJoins(c, [], [Str(e.f)], b, ConstsAll(e.args));
    assert [] + b == b;
    ThenPut2(c, b, Consts(e), GET_GLOBAL, k);
    ThenPut2(c, b + [GET_GLOBAL, Byte(k)], Consts(e), CALL, n);
  }

  lemma CallCode(e: Expr, c: Chunk)
    requires e.Call?
    ensures var k := |c.consts|;
      Bytes(e, k) == BytesAll(e.args, k + 1) + [GET_GLOBAL, Byte(k)] + [CALL, Byte(Count(e.args))]
    ensures Consts(e) == [Str(e.f)] + ConstsAll(e.args) && SizeAll(e.args) < Size(e)
    ensures Gen(e, c) == Put(Put(GetGlobal(GenAll(e.args, AddConst(c, Str(e.f))), |c.consts|), CALL), Count(e.args))
  {
  }

  lemma LeafAppends(e: Expr, c: Chunk)
    requires e.Const? || e.Interpolated? || e.Var?
    ensures Gen(e, c) == Emit(c, Bytes(e, |c.consts|), Consts(e))
  {
    hide Emit;
    var k, v := |c.consts|, Consts(e);
    EmitSize(c, [], []);
    assert [] + v == v && [] + [PUSH_CONST, Byte(k)] == [PUSH_CONST, Byte(k)];
    if e.Var? {
      ThenName(c, [], [], v[0]);
      ThenPut2(c, [], v, GET_GLOBAL, k);
      assert [] + [GET_GLOBAL, Byte(k)] == [GET_GLOBAL, Byte(k)];
    } else {
      ThenPush(c, [], [], v[0]);
      ThenPut(c, [PUSH_CONST, Byte(k)], v, INTERPOLATE);
      assert [PUSH_CONST, Byte(k)] + [INTERPOLATE] == [PUSH_CONST, Byte(k), INTERPOLATE];
    }
  }

  /** Emission appends the postorder bytes and constants of the tree. */
  lemma {:induction false} GenAppends(e: Expr, c: Chunk)
    ensures Gen(e, c) == Emit(c, Bytes(e, |c.consts|), Consts(e))
    decreases Size(e), 1
  {
    hide Gen, Bytes, Consts, Emit;
    match e
    case Assign(_, _) => AssignAppends(e, c);
    case Compound(_, _, _) => AssignAppends(e, c);
    case PostStep(_, _) => StepAppends(e, c);
    case PreStep(_, _) => StepAppends(e, c);
    case Binary(_, _, _) => NestedAppends(e, c);
    case Index(_, _) => NestedAppends(e, c);
    case IndexSet(_, _, _) => IndexSetAppends(e, c);
    case Neg(_) => UnaryAppends(e, c);
    case Not(_) => UnaryAppends(e, c);
    case Call(_, _) => CallAppends(e, c);
    case Array(_) => ArrayAppends(e, c);
    case _ => LeafAppends(e, c);
  }

  lemma {:induction false} GenAllAppends(es: Exprs, c: Chunk)
    ensures GenAll(es, c) == Emit(c, BytesAll(es, |c.consts|), ConstsAll(es))
    decreases SizeAll(es), 2
  {
    hide Gen, Bytes, Consts;
    if es.More? {
      GenAppends(es.head, c);
      var c1 := Gen(es.head, c);
      GenAllAppends(es.tail, c1);
      EmitJoins(c, Bytes(es.head, |c.consts|), Consts(es.head), BytesAll(es.tail, |c1.consts|), ConstsAll(es.tail));
    }
  }

  // ---- Main result ----

  /**
   `expression` on a printed tree, before a token that cannot continue an expression, consumes exactly
   the tree's tokens, reports no error and appends the tree's postorder code and constants.
   */
  lemma ExpressionReadsPrint(e: Expr, s: Parse, rest: seq<Token>)
    requires Printable(e) && Follows(First(rest), P_ASSIGNMENT) && s.rest == Print(e, P_ASSIGNMENT) + rest
    ensures ParsePrec(P_ASSIGNMENT, s) == s.(rest := rest, out := Chunk(
      s.out.bytes + Bytes(e, |s.out.consts|), s.out.consts + Consts(e)))
  {
    hide ParsePrec, Print, Gen, Bytes, Consts;
    PrintParses(P_ASSIGNMENT, e, P_ASSIGNMENT, s, rest, s.out);
    LoopStops(P_ASSIGNMENT, Ready(s, rest, Gen(e, s.out)));
    GenAppends(e, s.out);
  }

  lemma PrintBinary(op: BinOp, l: Expr, r: Expr, q: nat)
    requires Printable(l) && Printable(r) && q <= OpPrec(op)
    ensures Printable(Binary(op, l, r))
    ensures Print(Binary(op, l, r), q) == Print(l, OpPrec(op)) + [TOp(op)] + Print(r, OpPrec(op) + 1)
  {
    PrintBare(Binary(op, l, r), q);
  }

  /** A chain of two operators of one precedence groups to the left without parentheses. */
  lemma GroupsLeft(op1: BinOp, op2: BinOp, a: Expr, b: Expr, c: Expr, s: Parse, rest: seq<Token>)
    requires Printable(a) && Printable(b) && Printable(c) && OpPrec(op1) == OpPrec(op2)
    requires Follows(First(rest), P_ASSIGNMENT)
    requires var p := OpPrec(op1);
      s.rest == Print(a, p) + [TOp(op1)] + Print(b, p + 1) + [TOp(op2)] + Print(c, p + 1) + rest
    ensures var tree := Binary(op2, Binary(op1, a, b), c);
      ParsePrec(P_ASSIGNMENT, s) == s.(rest := rest, out := Chunk(
        s.out.bytes + Bytes(tree, |s.out.consts|), s.out.consts + Consts(tree)))
  {
    hide ParsePrec, Bytes, Consts, Print, Bare;
    PrintBinary(op1, a, b, OpPrec(op1));
    PrintBinary(op2, Binary(op1, a, b), c, P_ASSIGNMENT);
    ExpressionReadsPrint(Binary(op2, Binary(op1, a, b), c), s, rest);
  }
}
