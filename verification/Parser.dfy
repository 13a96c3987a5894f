/** The expression parser as the recursive procedures that advance one shared state and emit into one chunk. */
module Parsers {
  import opened Machine
  import opened Syntax
  import opened Pratt

  class Parser {
    var rest: seq<Token>
    var code: seq<nat>
    var consts: seq<Value>
    var hadError: bool
    var crashed: bool

    constructor (tokens: seq<Token>)
      ensures State() == Parse(tokens, Chunk([], []), false, false)
    {
      rest, code, consts, hadError, crashed := tokens, [], [], false, false;
    }

    ghost function State(): Parse
      reads this
    {
      Parse(rest, Chunk(code, consts), hadError, crashed)
    }

    function Current(): (t: Token)
      reads this
      ensures t == Peek(State())
    {
      if rest == [] then TEof else rest[0]
    }

    method AdvanceParser()
      modifies this
      ensures State() == Advance(old(State()))
    {
      if rest != [] {
        rest := rest[1..];
      }
    }

    method Match(t: Token) returns (matched: bool)
      requires t != TEof
      modifies this
      ensures matched == (Peek(old(State())) == t)
      ensures State() == if matched then Advance(old(State())) else old(State())
    {
      matched := Current() == t;
      if matched {
        AdvanceParser();
      }
    }

    method Expect(t: Token)
      requires t != TEof
      modifies this
      ensures State() == Consume(old(State()), t)
    {
      if Current() == t {
        AdvanceParser();
      } else {
        hadError := true;
      }
    }

    method WriteChunk(b: nat)
      modifies this
      ensures var s := old(State()); State() == s.(out := Put(s.out, b))
    {
      code := code + [Byte(b)];
    }

    method AddConstant(v: Value) returns (k: nat)
      modifies this
      ensures var s := old(State()); State() == s.(out := AddConst(s.out, v)) && k == |s.out.consts|
    {
      k := |consts|;
      consts := consts + [v];
    }

    method PushLiteral(v: Value)
      modifies this
      ensures var s := old(State()); State() == s.(out := PushConst(s.out, v))
    {
      var k := AddConstant(v);
      WriteChunk(PUSH_CONST);
      WriteChunk(k);
    }

    method Operand(op: nat, k: nat)
      modifies this
      ensures var s := old(State()); State() == s.(out := Put(Put(s.out, op), k))
    {
      WriteChunk(op);
      WriteChunk(k);
    }

    method SkipNewlineTokens()
      modifies this
      ensures State() == SkipNewlines(old(State()))
    {
      while rest != [] && rest[0] == TNewline
        invariant SkipNewlines(State()) == SkipNewlines(old(State()))
        decreases |rest|
      {
        AdvanceParser();
      }
    }

    method Expression()
      modifies this
      ensures State() == ParsePrec(P_ASSIGNMENT, old(State()))
      decreases |rest|, 2
    {
      ParsePrecedence(P_ASSIGNMENT);
    }

    method ParsePrecedence(prec: nat)
      requires prec >= P_ASSIGNMENT
      modifies this
      ensures State() == ParsePrec(prec, old(State()))
      decreases |rest|, 1
    {
      hide Prefix, Infix;
      var t := Current();
      if !HasPrefix(t) {
        AdvanceParser();
        hadError := true;
        return;
      }
      AdvanceParser();
      PrefixRule(t);
      while prec <= Prec(Current())
        invariant InfixLoop(prec, State()) == ParsePrec(prec, old(State()))
        invariant |rest| < |old(rest)|
        decreases |rest|
      {
        var op := Current();
        if op == TPlusPlus || op == TMinusMinus {
          crashed := true;
          return;
        }
        AdvanceParser();
        InfixRule(op);
      }
    }

    method PrefixRule(t: Token)
      requires HasPrefix(t)
      modifies this
      ensures State() == Prefix(t, old(State()))
      decreases |rest|, 4
    {
      hide ParsePrec, Variable, ArrayLiteral;
      match t {
        case TNumber(n) => PushLiteral(Num(n));
        case TString(text) => PushLiteral(Str(text));
        case TInterpolated(text) =>
          PushLiteral(Str(text));
          WriteChunk(INTERPOLATE);
        case TTrue => PushLiteral(Bool(true));
        case TFalse => PushLiteral(Bool(false));
        case TIdent(x) => VariableRule(x);
        case TLParen =>
          Expression();
          Expect(TRParen);
        case TOp(_) =>
          ParsePrecedence(P_UNARY);
          PushLiteral(Num(-1.0));
          WriteChunk(MUL);
        case TNot =>
          ParsePrecedence(P_UNARY);
          WriteChunk(NOT);
        case TPlusPlus => PrefixStepRule(true);
        case TMinusMinus => PrefixStepRule(false);
        case TLBracket => ArrayRule();
      }
    }

    method VariableRule(x: string)
      modifies this
      ensures var s := old(State()); State() == Variable(|s.out.consts|, s.(out := AddConst(s.out, Str(x))))
      decreases |rest|, 3
    {
      var k := AddConstant(Str(x));
      match Current() {
        case TEqual => AssignRule(k);
        case TOpEqual(_) => AssignRule(k);
        case TPlusPlus =>
          AdvanceParser();
          PostfixStepRule(k, true);
        case TMinusMinus =>
          AdvanceParser();
          PostfixStepRule(k, false);
        case TLParen => NamedCallRule(k);
        case _ => Operand(GET_GLOBAL, k);
      }
    }

    /** `=` stores the value; the compound operators load the variable before the value is parsed. */
    method AssignRule(k: nat)
      requires Current() == TEqual || Current().TOpEqual?
      modifies this
      ensures State() == Variable(k, old(State()))
      decreases |rest|, 2
    {
      hide ParsePrec;
      var t := Current();
      AdvanceParser();
      if t == TEqual {
        Expression();
      } else {
        Operand(GET_GLOBAL, k);
        Expression();
        WriteChunk(Opcode(t.cop));
      }
      Operand(SET_GLOBAL, k);
    }

    method NamedCallRule(k: nat)
      requires Current() == TLParen
      modifies this
      ensures State() == Variable(k, old(State()))
      decreases |rest|, 2
    {
      hide Arguments;
      AdvanceParser();
      var n := ParseArguments();
      Expect(TRParen);
      Operand(GET_GLOBAL, k);
      Operand(CALL, n);
    }

    method PostfixStepRule(k: nat, up: bool)
      modifies this
      ensures State() == PostfixStep(k, old(State()), up)
    {
      Operand(GET_GLOBAL, k);
      Operand(GET_GLOBAL, k);
      PushLiteral(Num(1.0));
      WriteChunk(StepOp(up));
      Operand(SET_GLOBAL, k);
      WriteChunk(POP);
    }

    method PrefixStepRule(up: bool)
      modifies this
      ensures State() == PrefixStep(old(State()), up)
    {
      var name := if up then "++" else "--";
      if Current().TIdent? {
        name := Current().x;
        AdvanceParser();
      } else {
        hadError := true;
      }
      var k := AddConstant(Str(name));
      Operand(GET_GLOBAL, k);
      PushLiteral(Num(1.0));
      WriteChunk(StepOp(up));
      Operand(SET_GLOBAL, k);
    }

    /** Expressions separated by commas, up to the closing parenthesis. */
    method ParseArguments() returns (argCount: nat)
      modifies this
      ensures (argCount, State()) == Arguments(old(State()))
      decreases |rest|, 3
    {
      hide ParsePrec;
      argCount := 0;
      if Current() == TRParen {
        return;
      }
      var more := true;
      while more
        invariant var (n, s) := ArgumentList(old(State()));
          if more then var (m, s1) := ArgumentList(State()); (n, s) == (argCount + m, s1) else (n, s) == (argCount, State())
        invariant |rest| <= |old(rest)|
        decreases |rest|, more
      {
        Expression();
        argCount := argCount + 1;
        more := Match(TComma);
      }
    }

    method ArrayRule()
      modifies this
      ensures State() == ArrayLiteral(old(State()))
      decreases |rest|, 3
    {
      hide ParsePrec, SkipNewlines;
      var elementCount := 0;
      SkipNewlineTokens();
      ghost var afterBracket := State();
      if Current() != TRBracket {
        var more := true;
        while more
          invariant var (n, s) := Elements(afterBracket);
            if more then var (m, s1) := Elements(State()); (n, s) == (elementCount + m, s1) else (n, s) == (elementCount, State())
          invariant |rest| <= |old(rest)|
          decreases |rest|, more
        {
          SkipNewlineTokens();
          Expression();
          elementCount := elementCount + 1;
          SkipNewlineTokens();
          more := Match(TComma);
        }
      }
      SkipNewlineTokens();
      Expect(TRBracket);
      Operand(ARRAY_NEW, elementCount);
    }

    method InfixRule(t: Token)
      requires Prec(t) >= P_ASSIGNMENT && t != TPlusPlus && t != TMinusMinus
      modifies this
      ensures State() == Infix(t, old(State()))
      decreases |rest|, 4
    {
      hide ParsePrec, ArgumentList;
      match t {
        case TOp(op) =>
          ParsePrecedence(OpPrec(op) + 1);
          WriteChunk(Opcode(op));
        case TLBracket =>
          Expression();
          Expect(TRBracket);
          var isSet := Match(TEqual);
          if isSet {
            Expression();
            WriteChunk(ARRAY_SET);
          } else {
            WriteChunk(ARRAY_GET);
          }
        case TLParen =>
          var n := ParseArguments();
          Expect(TRParen);
          Operand(CALL, n);
      }
    }
  }
}
