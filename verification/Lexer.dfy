/** The scanner: what it skips, what it takes as a token, and that it reads back what is written with spaces. */
module Lexers {
  import opened Texts

  datatype Kind =
    | Number | String | InterpolatedString | Plus | Minus | Multiply | Divide | Modulo | PlusPlus | MinusMinus
    | PlusEqual | MinusEqual | MultiplyEqual | DivideEqual | LParen | RParen | Equal | EqualEqual | NotEqual
    | Less | LessEqual | Greater | GreaterEqual | If | Else | While | Do | For | Fn | Function | Return | Import
    | Break | Continue | LBrace | RBrace | Comma | Colon | At | And | Or | Not | AndAnd | OrOr | True | False
    | Identifier | Semicolon | Newline | LBracket | RBracket | Try | Catch | Finally | Throw | Class | Extends | New
    | This | Super | Dot | Async | Await | Yield | Switch | Case | Default | Export | From | As | Require | Eof | Error

  /** A token: its kind and its lexeme's bounds in the source. */
  datatype Token = Token(kind: Kind, start: nat, end: nat)

  // ---- Character classes ----

  predicate IsAlpha(c: char) {
    'a' <= c <= 'z' || 'A' <= c <= 'Z'
  }

  predicate IsNameChar(c: char) {
    IsAlpha(c) || IsDigit(c) || c == '_'
  }

  predicate IsBlank(c: char) {
    c == ' ' || c == '\r' || c == '\t'
  }

  predicate NotNewline(c: char) {
    c != '\n'
  }

  // ---- Extents ----

  /** Blanks, then comments to the end of their lines. */
  function SkipEnd(s: string, i: nat): (end: nat)
    requires i <= |s|
    ensures i <= end <= |s|
    decreases |s| - i
  {
    if i == |s| then i
    else if IsBlank(s[i]) then SkipEnd(s, i + 1)
    else if s[i] == '#' then SkipEnd(s, RunEnd(s, i + 1, NotNewline))
    else if s[i] == '/' && i + 1 < |s| && s[i + 1] == '/' then SkipEnd(s, RunEnd(s, i + 2, NotNewline))
    else i
  }

  function NumberEnd(s: string, i: nat): (end: nat)
    requires i <= |s|
    ensures i <= end <= |s|
  {
    var whole := RunEnd(s, i, IsDigit);
    if whole + 1 < |s| && s[whole] == '.' && IsDigit(s[whole + 1]) then RunEnd(s, whole + 1, IsDigit) else whole
  }

  /**
   From inside a quoted string within an interpolation: its closing quote, or the end. A backslash takes the next
   character along.
   */
  function QuoteEnd(s: string, i: nat): (end: nat)
    requires i <= |s|
    ensures i <= end <= |s|
    decreases |s| - i
  {
    if i == |s| || s[i] == '"' then i
    else if s[i] == '\\' then if i + 2 <= |s| then QuoteEnd(s, i + 2) else |s|
    else QuoteEnd(s, i + 1)
  }

  /** From inside `depth` braces of an interpolation: just after the brace that closes them, or the end. */
  function BracesEnd(s: string, i: nat, depth: nat): (end: nat)
    requires i <= |s|
    ensures i <= end <= |s|
    decreases |s| - i
  {
    if depth == 0 || i == |s| then i
    else if s[i] == '"' then
      var quote := QuoteEnd(s, i + 1);
      BracesEnd(s, if quote < |s| then quote + 1 else quote, depth)
    else if s[i] == '{' then BracesEnd(s, i + 1, depth + 1)
    else if s[i] == '}' then BracesEnd(s, i + 1, depth - 1)
    else BracesEnd(s, i + 1, depth)
  }

  predicate OpensInterpolation(s: string, i: nat) {
    i + 1 < |s| && s[i] == '$' && s[i + 1] == '{'
  }

  /** The closing quote of a string whose body starts at `i`, or the end. */
  function StringEnd(s: string, i: nat): (end: nat)
    requires i <= |s|
    ensures i <= end <= |s|
    decreases |s| - i
  {
    if i == |s| || s[i] == '"' then i
    else if OpensInterpolation(s, i) then StringEnd(s, BracesEnd(s, i + 2, 1))
    else StringEnd(s, i + 1)
  }

  /** An interpolation opens before the first quote. */
  predicate HasInterpolation(s: string, i: nat)
    requires i <= |s|
    decreases |s| - i
  {
    i < |s| && s[i] != '"' && (OpensInterpolation(s, i) || HasInterpolation(s, i + 1))
  }

  // ---- Reading past the end ----

  /**
   Skipping a quoted string within an interpolation from `i` reads past the end of the source: its last character is a
   backslash that takes the next one along.
   */
  predicate QuoteOverruns(s: string, i: nat)
    requires i <= |s|
    decreases |s| - i
  {
    i < |s| && s[i] != '"' &&
    if s[i] == '\\' then i + 1 == |s| || QuoteOverruns(s, i + 2) else QuoteOverruns(s, i + 1)
  }

  predicate BracesOverrun(s: string, i: nat, depth: nat)
    requires i <= |s|
    decreases |s| - i
  {
    depth > 0 && i < |s| &&
    if s[i] == '"' then
      var quote := QuoteEnd(s, i + 1);
      QuoteOverruns(s, i + 1) || BracesOverrun(s, if quote < |s| then quote + 1 else quote, depth)
    else BracesOverrun(s, i + 1, if s[i] == '{' then depth + 1 else if s[i] == '}' then depth - 1 else depth)
  }

  predicate StringOverruns(s: string, i: nat)
    requires i <= |s|
    decreases |s| - i
  {
    i < |s| && s[i] != '"' &&
    if OpensInterpolation(s, i) then BracesOverrun(s, i + 2, 1) || StringOverruns(s, BracesEnd(s, i + 2, 1))
    else StringOverruns(s, i + 1)
  }

  /** Scanning the token from `i` reads past the end of the source. */
  predicate Overruns(s: string, i: nat)
    requires i <= |s|
  {
    var start := SkipEnd(s, i);
    start < |s| && s[start] == '"' && StringOverruns(s, start + 1)
  }

  lemma {:induction false} QuoteOverrunsAtBackslash(s: string, i: nat)
    requires i <= |s| && QuoteOverruns(s, i)
    ensures s[|s| - 1] == '\\'
    decreases |s| - i
  {
    if s[i] != '\\' {
      QuoteOverrunsAtBackslash(s, i + 1);
    } else if i + 1 < |s| {
      QuoteOverrunsAtBackslash(s, i + 2);
    }
  }

  lemma {:induction false} BracesOverrunAtBackslash(s: string, i: nat, depth: nat)
    requires i <= |s| && BracesOverrun(s, i, depth)
    ensures s[|s| - 1] == '\\'
    decreases |s| - i
  {
    if s[i] != '"' {
      BracesOverrunAtBackslash(s, i + 1, if s[i] == '{' then depth + 1 else if s[i] == '}' then depth - 1 else depth);
    } else if QuoteOverruns(s, i + 1) {
      QuoteOverrunsAtBackslash(s, i + 1);
    } else {
      var quote := QuoteEnd(s, i + 1);
      BracesOverrunAtBackslash(s, if quote < |s| then quote + 1 else quote, depth);
    }
  }

  lemma {:induction false} StringOverrunsAtBackslash(s: string, i: nat)
    requires i <= |s| && StringOverruns(s, i)
    ensures s[|s| - 1] == '\\'
    decreases |s| - i
  {
    if !OpensInterpolation(s, i) {
      StringOverrunsAtBackslash(s, i + 1);
    } else if BracesOverrun(s, i + 2, 1) {
      BracesOverrunAtBackslash(s, i + 2, 1);
    } else {
      StringOverrunsAtBackslash(s, BracesEnd(s, i + 2, 1));
    }
  }

  /** Only sources that end in a backslash can be overrun. */
  lemma OverrunsAtBackslash(s: string, i: nat)
    requires i <= |s| && Overruns(s, i)
    ensures s[|s| - 1] == '\\'
  {
    StringOverrunsAtBackslash(s, SkipEnd(s, i) + 1);
  }

  lemma {:induction false} PlainOverruns(s: string, i: nat)
    requires i < |s| && s[|s| - 1] == '\\' && forall j :: i <= j < |s| - 1 ==> s[j] != '"' && s[j] != '\\'
    ensures QuoteOverruns(s, i)
    decreases |s| - i
  {
    if i < |s| - 1 {
      PlainOverruns(s, i + 1);
    }
  }

  /** Such sources exist: a string that opens an interpolation, in it a quoted text, and then a backslash. */
  lemma OverrunningSources(text: string)
    requires forall j :: 0 <= j < |text| ==> text[j] != '"' && text[j] != '\\'
    ensures Overruns("\"${\"" + text + "\\", 0)
  {
    var s := "\"${\"" + text + "\\";
    assert s[0] == '"' && s[1] == '$' && s[2] == '{' && s[3] == '"';
    assert forall j :: 4 <= j < |s| - 1 ==> s[j] == text[j - 4];
    PlainOverruns(s, 4);
    assert BracesOverrun(s, 3, 1) && StringOverruns(s, 1) && SkipEnd(s, 0) == 0;
  }

  // ---- Symbols and keywords ----

  /** The keyword of a kind; empty for kinds without one. */
  function Word(k: Kind): (w: string)
    ensures forall i :: 0 <= i < |w| ==> 'a' <= w[i] <= 'z'
  {
    match k
    case And => "and" case Async => "async" case Await => "await" case As => "as" case Break => "break"
    case Continue => "continue" case Catch => "catch" case Class => "class" case Case => "case" case Do => "do"
    case Default => "default" case Else => "else" case Extends => "extends" case Export => "export" case Fn => "fn"
    case For => "for" case False => "false" case Finally => "finally" case Function => "function"
    case From => "from" case If => "if" case Import => "import" case Not => "not" case New => "new" case Or => "or"
    case Return => "return" case Require => "require" case Super => "super" case Switch => "switch"
    case True => "true" case Try => "try" case Throw => "throw" case This => "this" case While => "while"
    case Yield => "yield"
    case _ => ""
  }

  /** The symbol of a kind; empty for kinds without one. `!` is the symbol of the kind whose keyword is `not`. */
  function Symbol(k: Kind): (symbol: string)
    ensures IsFound(k, symbol)
  {
    match k
    case LParen => "(" case RParen => ")" case LBrace => "{" case RBrace => "}" case LBracket => "["
    case RBracket => "]" case Comma => "," case Plus => "+" case PlusPlus => "++" case PlusEqual => "+="
    case Minus => "-" case MinusMinus => "--" case MinusEqual => "-=" case Multiply => "*"
    case MultiplyEqual => "*=" case Divide => "/" case DivideEqual => "/=" case Modulo => "%" case Equal => "="
    case EqualEqual => "==" case Not => "!" case NotEqual => "!=" case Less => "<" case LessEqual => "<="
    case Greater => ">" case GreaterEqual => ">=" case Colon => ":" case At => "@" case Semicolon => ";"
    case Dot => "." case AndAnd => "&&" case OrOr => "||" case Newline => "\n"
    case _ => ""
  }

  /** The keywords tried for a first letter, in order. */
  function Candidates(c: char): seq<Kind> {
    match c
    case 'a' => [And, Async, Await, As]
    case 'b' => [Break]
    case 'c' => [Continue, Catch, Class, Case]
    case 'd' => [Do, Default]
    case 'e' => [Else, Extends, Export]
    case 'f' => [Fn, For, False, Finally, Function, From]
    case 'i' => [If, Import]
    case 'n' => [Not, New]
    case 'o' => [Or]
    case 'r' => [Return, Require]
    case 's' => [Super, Switch]
    case 't' => [True, Try, Throw, This]
    case 'w' => [While]
    case 'y' => [Yield]
    case _ => []
  }

  function FirstSpelled(text: string, kinds: seq<Kind>): Kind {
    if kinds == [] then Identifier else if text == Word(kinds[0]) then kinds[0] else FirstSpelled(text, kinds[1..])
  }

  lemma NoWords()
    ensures Word(Identifier) == Word(Eof) == Word(Error) == Symbol(Error) == ""
  {
  }

  lemma {:induction false} OnlySpelledFound(text: string, kinds: seq<Kind>)
    ensures FirstSpelled(text, kinds) == Identifier || text == Word(FirstSpelled(text, kinds))
    ensures text != "" ==> FirstSpelled(text, kinds) != Eof && FirstSpelled(text, kinds) != Error
    decreases |kinds|
  {
    hide Word;
    NoWords();
    if kinds != [] {
      OnlySpelledFound(text, kinds[1..]);
    }
  }

  function IdentifierType(text: string): (k: Kind)
    requires text != ""
    ensures k != Eof && k != Error
  {
    hide Word, Candidates;
    OnlySpelledFound(text, Candidates(text[0]));
    FirstSpelled(text, Candidates(text[0]))
  }

  lemma {:induction false} SpelledFound(k: Kind, kinds: seq<Kind>)
    requires Word(k) != "" && k in kinds
    ensures FirstSpelled(Word(k), kinds) == k
    decreases |kinds|
  {
    if Word(k) == Word(kinds[0]) {
      WordsDiffer(k, kinds[0]);
    } else {
      assert k in kinds[1..];
      SpelledFound(k, kinds[1..]);
    }
  }

  /** Two first letters and the length already tell the keywords apart. */
  function KindOfShape(first: char, second: char, length: nat): Kind {
    match first
    case 'a' => if second == 'n' then And else if length == 2 then As else if second == 's' then Async else Await
    case 'b' => Break
    case 'c' =>
      if second == 'o' then Continue else if length == 4 then Case else if second == 'a' then Catch else Class
    case 'd' => if length == 2 then Do else Default
    case 'e' => if length == 4 then Else else if length == 7 then Extends else Export
    case 'f' =>
      if length == 2 then Fn else if length == 3 then For else if length == 5 then False
      else if length == 7 then Finally else if length == 8 then Function else From
    case 'i' => if length == 2 then If else Import
    case 'n' => if second == 'o' then Not else New
    case 'o' => Or
    case 'r' => if length == 6 then Return else Require
    case 's' => if length == 5 then Super else Switch
    case 't' => if length == 3 then Try else if length == 5 then Throw else if second == 'r' then True else This
    case 'w' => While
    case _ => Yield
  }

  lemma ShapeOfWord(k: Kind)
    requires Word(k) != ""
    ensures |Word(k)| >= 2 && KindOfShape(Word(k)[0], Word(k)[1], |Word(k)|) == k
  {
  }

  lemma WordAmongCandidates(k: Kind)
    requires Word(k) != ""
    ensures k in Candidates(Word(k)[0])
  {
  }

  lemma WordsDiffer(k: Kind, l: Kind)
    requires Word(k) == Word(l) != ""
    ensures k == l
  {
    hide Word, KindOfShape;
    ShapeOfWord(k);
    ShapeOfWord(l);
  }

  /** The switch on the first letter finds exactly the keywords. */
  lemma KeywordsFound(text: string, k: Kind)
    requires text != "" && k != Identifier
    ensures IdentifierType(text) == k ==> text == Word(k)
    ensures text == Word(k) ==> IdentifierType(text) == k
  {
    hide Word, Candidates;
    OnlySpelledFound(text, Candidates(text[0]));
    if text == Word(k) {
      WordAmongCandidates(k);
      SpelledFound(k, Candidates(text[0]));
    }
  }

  /**
   The symbol that `c` starts, with how many characters it takes, when `next` follows; `Error` where there is none.
   */
  function SymbolKind(c: char, next: char): (r: (Kind, nat))
    ensures r.0 != Eof && r.0 != Identifier && 1 <= r.1 <= 2 && (r.1 == 2 ==> next != '\0')
  {
    match c
    case '(' => (LParen, 1)
    case ')' => (RParen, 1)
    case '{' => (LBrace, 1)
    case '}' => (RBrace, 1)
    case '[' => (LBracket, 1)
    case ']' => (RBracket, 1)
    case ',' => (Comma, 1)
    case '+' => if next == '+' then (PlusPlus, 2) else if next == '=' then (PlusEqual, 2) else (Plus, 1)
    case '-' => if next == '-' then (MinusMinus, 2) else if next == '=' then (MinusEqual, 2) else (Minus, 1)
    case '*' => if next == '=' then (MultiplyEqual, 2) else (Multiply, 1)
    case '/' => if next == '=' then (DivideEqual, 2) else (Divide, 1)
    case '%' => (Modulo, 1)
    case '=' => if next == '=' then (EqualEqual, 2) else (Equal, 1)
    case '!' => if next == '=' then (NotEqual, 2) else (Not, 1)
    case '<' => if next == '=' then (LessEqual, 2) else (Less, 1)
    case '>' => if next == '=' then (GreaterEqual, 2) else (Greater, 1)
    case ':' => (Colon, 1)
    case '@' => (At, 1)
    case ';' => (Semicolon, 1)
    case '.' => (Dot, 1)
    case '&' => if next == '&' then (AndAnd, 2) else (Error, 1)
    case '|' => if next == '|' then (OrOr, 2) else (Error, 1)
    case '\n' => (Newline, 1)
    case _ => (Error, 1)
  }

  predicate ContinuesSymbol(c: char) {
    c == '+' || c == '-' || c == '=' || c == '&' || c == '|'
  }

  /** The characters that start neither blanks, comments, names, numbers nor strings. */
  predicate StartsSymbol(c: char) {
    !IsBlank(c) && c != '#' && !IsDigit(c) && !IsAlpha(c) && c != '_' && c != '"'
  }

  lemma KindStarts(c: char, next: char)
    requires SymbolKind(c, next).0 != Error
    ensures StartsSymbol(c) && (SymbolKind(c, next).1 == 2 ==> next != '/')
  {
  }

  /** The scanner finds the symbol where it stands: one character unless the next one makes it longer, or two. */
  ghost predicate IsFound(k: Kind, symbol: string) {
    && |symbol| <= 2
    && (|symbol| == 1 ==> forall next :: !ContinuesSymbol(next) ==> SymbolKind(symbol[0], next) == (k, 1))
    && (|symbol| == 2 ==> SymbolKind(symbol[0], symbol[1]) == (k, 2))
  }

  /** A symbol of one character is found unless the next one makes it longer. */
  lemma SymbolsFound(k: Kind, next: char)
    requires |Symbol(k)| == 1 && !ContinuesSymbol(next)
    ensures SymbolKind(Symbol(k)[0], next) == (k, 1) && StartsSymbol(Symbol(k)[0])
  {
    hide Symbol, SymbolKind, StartsSymbol;
    NoWords();
    KindStarts(Symbol(k)[0], next);
  }

  lemma LongSymbolsFound(k: Kind)
    requires |Symbol(k)| > 1
    ensures |Symbol(k)| == 2 && SymbolKind(Symbol(k)[0], Symbol(k)[1]) == (k, 2)
    ensures StartsSymbol(Symbol(k)[0]) && Symbol(k)[1] != '/'
  {
    hide Symbol, SymbolKind, StartsSymbol;
    NoWords();
    KindStarts(Symbol(k)[0], Symbol(k)[1]);
  }

  // ---- Scanning ----

  function Peek(s: string, i: nat): char {
    if i < |s| then s[i] else '\0'
  }

  /** The token scanned from `i`. */
  function Scan(s: string, i: nat): (t: Token)
    requires i <= |s|
    ensures i <= t.start <= t.end <= |s|
    ensures t.kind == Eof <==> t.start == |s|
    ensures t.kind != Eof ==> t.start < t.end
  {
    var start := SkipEnd(s, i);
    if start == |s| then Token(Eof, start, start)
    else
      var c := s[start];
      if IsDigit(c) then Token(Number, start, NumberEnd(s, start + 1))
      else if IsAlpha(c) || c == '_' then
        var end := RunEnd(s, start + 1, IsNameChar);
        Token(IdentifierType(s[start..end]), start, end)
      else if c == '"' then
        var end := StringEnd(s, start + 1);
        if end == |s| then Token(Error, start, end)
        else Token(if HasInterpolation(s, start + 1) then InterpolatedString else String, start, end + 1)
      else
        var (kind, n) := SymbolKind(c, Peek(s, start + 1));
        Token(kind, start, start + n)
  }

  // ---- Tiling ----

  /** Blanks, and then possibly one comment that reaches the end of its line. */
  predicate IsSkipped(s: string, i: nat, end: nat)
    requires i <= end <= |s|
  {
    var blanks := RunEnd(s[..end], i, IsBlank);
    blanks == end || (StartsComment(s, blanks) && RunEnd(s, blanks, NotNewline) == end)
  }

  predicate StartsComment(s: string, i: nat) {
    i < |s| && (s[i] == '#' || (s[i] == '/' && i + 1 < |s| && s[i + 1] == '/'))
  }

  /** The text before a token is skippable, and what starts the token is not. */
  lemma {:induction false} SkipsExactly(s: string, i: nat)
    requires i <= |s|
    ensures var end := SkipEnd(s, i);
      IsSkipped(s, i, end) && (end < |s| ==> !IsBlank(s[end]) && !StartsComment(s, end))
    decreases |s| - i
  {
    if i < |s| {
      var end := SkipEnd(s, i);
      if IsBlank(s[i]) {
        SkipsExactly(s, i + 1);
        assert s[..end][i] == s[i];
      } else if StartsComment(s, i) {
        var line := RunEnd(s, i, NotNewline);
        assert s[i] == '/' ==> line == RunEnd(s, i + 1, NotNewline) == RunEnd(s, i + 2, NotNewline);
        assert end == SkipEnd(s, line) == line;
        assert s[..end][i] == s[i];
      }
    }
  }

  /** All tokens from `i`, up to and with the end of the source. */
  function ScanAll(s: string, i: nat): (ts: seq<Token>)
    requires i <= |s|
    ensures |ts| > 0
    decreases |s| - i
  {
    var t := Scan(s, i);
    if t.kind == Eof then [t] else [t] + ScanAll(s, t.end)
  }

  /** From `i`, before each token stands skippable text. */
  predicate Covers(s: string, i: nat, ts: seq<Token>)
    requires i <= |s|
    decreases |ts|
  {
    ts == [] || (i <= ts[0].start <= ts[0].end <= |s| && IsSkipped(s, i, ts[0].start) && Covers(s, ts[0].end, ts[1..]))
  }

  /** The source again from the tokens: before each lexeme the text skipped to reach it. */
  function Tiles(s: string, i: nat, ts: seq<Token>): string
    requires i <= |s| && Covers(s, i, ts)
    decreases |ts|
  {
    if ts == [] then "" else s[i..ts[0].start] + s[ts[0].start..ts[0].end] + Tiles(s, ts[0].end, ts[1..])
  }

  /** Skipped text and lexemes tile the source, and each skipped text is skippable. */
  lemma {:induction false} TokensTile(s: string, i: nat)
    requires i <= |s|
    ensures Covers(s, i, ScanAll(s, i)) && Tiles(s, i, ScanAll(s, i)) == s[i..]
    decreases |s| - i
  {
    hide IsSkipped, Scan;
    var t, ts := Scan(s, i), ScanAll(s, i);
    ScanSkips(s, i);
    if t.kind != Eof {
      TokensTile(s, t.end);
      assert ts[1..] == ScanAll(s, t.end);
    } else {
      assert ts[1..] == [];
    }
  }

  lemma ScanSkips(s: string, i: nat)
    requires i <= |s|
    ensures IsSkipped(s, i, Scan(s, i).start) && (Scan(s, i).kind == Eof ==> Scan(s, i).end == |s|)
  {
    hide IsSkipped, IdentifierType, SymbolKind;
    SkipsExactly(s, i);
  }
}
