/** The scanner as a cursor that its loops move over the source. */
module Scanners {
  import opened Lexers
  import opened Texts

  /** Sources as the scanner gets them: the terminating NUL is not part of them. */
  predicate IsSource(s: string) {
    forall i :: 0 <= i < |s| ==> s[i] != '\0'
  }

  class Scanner {
    const source: string
    var start: nat
    var current: nat

    ghost predicate Valid()
      reads this
    {
      IsSource(source) && start <= current <= |source|
    }

    constructor (text: string)
      requires IsSource(text)
      ensures Valid() && source == text && current == 0
    {
      source, start, current := text, 0, 0;
    }

    function PeekChar(): (c: char)
      requires Valid()
      reads this
      ensures c == '\0' <==> current == |source|
      ensures current < |source| ==> c == source[current]
    {
      if current < |source| then source[current] else '\0'
    }

    function PeekNextChar(): char
      requires Valid()
      reads this
    {
      Peek(source, current + 1)
    }

    method Advance()
      requires Valid() && current < |source|
      modifies `current
      ensures current == old(current) + 1
    {
      current := current + 1;
    }

    method SkipLine()
      requires Valid()
      modifies `current
      ensures Valid() && current == RunEnd(source, old(current), NotNewline)
    {
      while current < |source| && source[current] != '\n'
        invariant Valid() && RunEnd(source, current, NotNewline) == RunEnd(source, old(current), NotNewline)
        decreases |source| - current
      {
        Advance();
      }
    }

    method SkipWhitespace()
      requires Valid()
      modifies `current
      ensures Valid() && current == SkipEnd(source, old(current))
    {
      hide RunEnd;
      while true
        invariant Valid() && SkipEnd(source, current) == SkipEnd(source, old(current))
        decreases |source| - current
      {
        var c := PeekChar();
        if c == ' ' || c == '\r' || c == '\t' {
          Advance();
        } else if c == '#' {
          Advance();
          SkipLine();
        } else if c == '/' && PeekNextChar() == '/' {
          Advance();
          Advance();
          SkipLine();
        } else {
          return;
        }
      }
    }

    method SkipDigits()
      requires Valid()
      modifies `current
      ensures Valid() && current == RunEnd(source, old(current), IsDigit)
    {
      while current < |source| && IsDigit(source[current])
        invariant Valid() && RunEnd(source, current, IsDigit) == RunEnd(source, old(current), IsDigit)
        decreases |source| - current
      {
        Advance();
      }
    }

    method NumberToken() returns (t: Token)
      requires Valid()
      modifies `current
      ensures Valid() && current == NumberEnd(source, old(current)) && t == Token(Number, start, current)
    {
      hide RunEnd;
      SkipDigits();
      if PeekChar() == '.' && IsDigit(PeekNextChar()) {
        Advance();
        SkipDigits();
      }
      t := Token(Number, start, current);
    }

    method IdentifierToken() returns (t: Token)
      requires Valid() && start < current
      modifies `current
      ensures Valid() && current == RunEnd(source, old(current), IsNameChar)
      ensures t == Token(IdentifierType(source[start..current]), start, current)
    {
      while current < |source| && IsNameChar(source[current])
        invariant Valid()
        invariant start < current && RunEnd(source, current, IsNameChar) == RunEnd(source, old(current), IsNameChar)
        decreases |source| - current
      {
        Advance();
      }
      t := Token(IdentifierType(source[start..current]), start, current);
    }

    /**
     The rest of a quoted string within an interpolation; a backslash takes the next character along. Where that would
     be the terminator the cursor leaves the source: scanning ends there, and the model with it.
     */
    method SkipQuoted() returns (overran: bool)
      requires Valid()
      modifies `current
      ensures Valid() && (overran <==> QuoteOverruns(source, old(current)))
      ensures !overran ==> current == QuoteEnd(source, old(current))
    {
      while current < |source| && source[current] != '"'
        invariant Valid() && QuoteEnd(source, current) == QuoteEnd(source, old(current))
        invariant QuoteOverruns(source, current) == QuoteOverruns(source, old(current))
        decreases |source| - current
      {
        if source[current] == '\\' {
          Advance();
          if current == |source| {
            return true;
          }
        }
        Advance();
      }
      return false;
    }

    method SkipInterpolation() returns (overran: bool)
      requires Valid()
      modifies `current
      ensures Valid() && (overran <==> BracesOverrun(source, old(current), 1))
      ensures !overran ==> current == BracesEnd(source, old(current), 1)
    {
      var braceCount := 1;
      while braceCount > 0 && current < |source|
        invariant Valid() && BracesEnd(source, current, braceCount) == BracesEnd(source, old(current), 1)
        invariant BracesOverrun(source, current, braceCount) == BracesOverrun(source, old(current), 1)
        decreases |source| - current
      {
        var c := source[current];
        Advance();
        if c == '"' {
          overran := SkipQuoted();
          if overran {
            return;
          }
          if current < |source| {
            Advance();
          }
        } else if c == '{' {
          braceCount := braceCount + 1;
        } else if c == '}' {
          braceCount := braceCount - 1;
        }
      }
      return false;
    }

    /** Whether an interpolation opens before the closing quote. */
    method FindInterpolation() returns (found: bool)
      requires Valid()
      ensures found == HasInterpolation(source, current)
    {
      var i := current;
      while i < |source| && source[i] != '"'
        invariant current <= i <= |source| && HasInterpolation(source, i) == HasInterpolation(source, current)
      {
        if OpensInterpolation(source, i) {
          return true;
        }
        i := i + 1;
      }
      return false;
    }

    method StringToken() returns (t: Token, overran: bool)
      requires Valid()
      modifies `current
      ensures Valid() && (overran <==> StringOverruns(source, old(current)))
      ensures !overran ==>
        var end := StringEnd(source, old(current));
        var kind := if HasInterpolation(source, old(current)) then InterpolatedString else String;
        current == t.end && t == if end == |source| then Token(Error, start, end) else Token(kind, start, end + 1)
    {
      hide BracesEnd, BracesOverrun;
      var hasInterpolation := FindInterpolation();
      while current < |source| && source[current] != '"'
        invariant Valid() && StringEnd(source, current) == StringEnd(source, old(current))
        invariant StringOverruns(source, current) == StringOverruns(source, old(current))
        decreases |source| - current
      {
        if source[current] == '$' && PeekNextChar() == '{' {
          Advance();
          Advance();
          overran := SkipInterpolation();
          if overran {
            return Token(Error, start, current), true;
          }
        } else {
          Advance();
        }
      }
      if current == |source| {
        return Token(Error, start, current), false;
      }
      Advance();
      return Token(if hasInterpolation then InterpolatedString else String, start, current), false;
    }

    /** A second character that makes the symbol longer is taken. */
    method MatchChar(c: char) returns (matched: bool)
      requires Valid() && c != '\0'
      modifies `current
      ensures Valid() && matched == (Peek(source, old(current)) == c)
      ensures current == old(current) + if matched then 1 else 0
    {
      matched := PeekChar() == c;
      if matched {
        Advance();
      }
    }

    method SymbolToken(c: char) returns (kind: Kind)
      requires Valid()
      modifies `current
      ensures Valid()
      ensures var next := Peek(source, old(current));
        (kind, 1 + current - old(current)) == SymbolKind(c, next)
    {
      var more := false;
      match c {
        case '(' => return LParen;
        case ')' => return RParen;
        case '{' => return LBrace;
        case '}' => return RBrace;
        case '[' => return LBracket;
        case ']' => return RBracket;
        case ',' => return Comma;
        case '+' =>
          more := MatchChar('+');
          if more { return PlusPlus; }
          more := MatchChar('=');
          return if more then PlusEqual else Plus;
        case '-' =>
          more := MatchChar('-');
          if more { return MinusMinus; }
          more := MatchChar('=');
          return if more then MinusEqual else Minus;
        case '*' =>
          more := MatchChar('=');
          return if more then MultiplyEqual else Multiply;
        case '/' =>
          more := MatchChar('=');
          return if more then DivideEqual else Divide;
        case '%' => return Modulo;
        case '=' =>
          more := MatchChar('=');
          return if more then EqualEqual else Equal;
        case '!' =>
          more := MatchChar('=');
          return if more then NotEqual else Not;
        case '<' =>
          more := MatchChar('=');
          return if more then LessEqual else Less;
        case '>' =>
          more := MatchChar('=');
          return if more then GreaterEqual else Greater;
        case ':' => return Colon;
        case '@' => return At;
        case ';' => return Semicolon;
        case '.' => return Dot;
        case '&' =>
          more := MatchChar('&');
          return if more then AndAnd else Error;
        case '|' =>
          more := MatchChar('|');
          return if more then OrOr else Error;
        case '\n' => return Newline;
        case _ => return Error;
      }
    }

    /** The token at the cursor, or that scanning it reads past the end of the source. */
    method ScanToken() returns (t: Token, overran: bool)
      requires Valid()
      modifies this
      ensures Valid() && (overran <==> Overruns(source, old(current)))
      ensures !overran ==> t == Scan(source, old(current)) && start == t.start && current == t.end
    {
      hide SkipEnd, RunEnd, NumberEnd, StringEnd, StringOverruns, HasInterpolation, IdentifierType, SymbolKind;
      SkipWhitespace();
      start := current;
      overran := false;
      if current == |source| {
        return Token(Eof, start, current), false;
      }
      var c := PeekChar();
      Advance();
      if IsDigit(c) {
        t := NumberToken();
      } else if IsAlpha(c) || c == '_' {
        t := IdentifierToken();
      } else if c == '"' {
        t, overran := StringToken();
      } else {
        var kind := SymbolToken(c);
        t := Token(kind, start, current);
      }
    }
  }
}
