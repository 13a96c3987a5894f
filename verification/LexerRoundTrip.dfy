/** Well-formed lexemes written with single spaces between them are scanned back as written. */
module LexerRoundTrip {
  import opened Lexers
  import opened Texts

  datatype Lexeme = Lexeme(kind: Kind, text: string)

  predicate AllDigits(text: string) {
    text != "" && forall j :: 0 <= j < |text| ==> IsDigit(text[j])
  }

  ghost predicate IsNumber(text: string) {
    AllDigits(text)
    || exists k :: 0 <= k < |text| && text[k] == '.' && AllDigits(text[..k]) && AllDigits(text[k + 1..])
  }

  /** Quoted, without a quote or `${` inside. */
  predicate IsPlainString(text: string) {
    && |text| >= 2 && text[0] == '"' && text[|text| - 1] == '"'
    && forall j :: 1 <= j < |text| - 1 ==> text[j] != '"' && !OpensInterpolation(text, j)
  }

  /** A quoted text within an interpolation; a backslash takes the next character along. */
  datatype Quoted = Closed | Letter(c: char, rest: Quoted) | Escaped(c: char, rest: Quoted)

  /** What stands between `${` and its `}`: braces that match, and quoted texts with any braces. */
  datatype Code = Done | Other(c: char, rest: Code) | Quote(quoted: Quoted, rest: Code) | Block(inner: Code, rest: Code)

  /** What stands between the quotes of a string. */
  datatype Body = End | Plain(c: char, rest: Body) | Interpolation(code: Code, rest: Body)

  function QuotedText(q: Quoted): string {
    match q
    case Closed => ""
    case Letter(c, rest) => [c] + QuotedText(rest)
    case Escaped(c, rest) => ['\\', c] + QuotedText(rest)
  }

  predicate IsQuoted(q: Quoted) {
    match q
    case Closed => true
    case Letter(c, rest) => c != '"' && c != '\\' && IsQuoted(rest)
    case Escaped(_, rest) => IsQuoted(rest)
  }

  function CodeText(code: Code): string {
    match code
    case Done => ""
    case Other(c, rest) => [c] + CodeText(rest)
    case Quote(q, rest) => ['"'] + (QuotedText(q) + (['"'] + CodeText(rest)))
    case Block(inner, rest) => ['{'] + (CodeText(inner) + (['}'] + CodeText(rest)))
  }

  predicate IsBalanced(code: Code) {
    match code
    case Done => true
    case Other(c, rest) => c != '"' && c != '{' && c != '}' && IsBalanced(rest)
    case Quote(q, rest) => IsQuoted(q) && IsBalanced(rest)
    case Block(inner, rest) => IsBalanced(inner) && IsBalanced(rest)
  }

  function BodyText(body: Body): string {
    match body
    case End => ""
    case Plain(c, rest) => [c] + BodyText(rest)
    case Interpolation(code, rest) => ['$', '{'] + (CodeText(code) + (['}'] + BodyText(rest)))
  }

  predicate IsBody(body: Body) {
    match body
    case End => true
    case Plain(c, rest) => c != '"' && !OpensInterpolation([c] + BodyText(rest), 0) && IsBody(rest)
    case Interpolation(code, rest) => IsBalanced(code) && IsBody(rest)
  }

  predicate Interpolates(body: Body) {
    match body
    case End => false
    case Plain(_, rest) => Interpolates(rest)
    case Interpolation(_, _) => true
  }

  /** Quoted plain text around balanced interpolations. */
  ghost predicate IsInterpolated(text: string) {
    exists body :: IsBody(body) && Interpolates(body) && text == ['"'] + (BodyText(body) + ['"'])
  }

  predicate IsName(text: string) {
    && text != "" && !('0' <= text[0] <= '9')
    && forall j :: 0 <= j < |text| ==>
      'a' <= text[j] <= 'z' || 'A' <= text[j] <= 'Z' || text[j] == '_' || '0' <= text[j] <= '9'
  }

  /** `text` is a lexeme of kind `k`. */
  ghost predicate Spelled(k: Kind, text: string) {
    match k
    case Number => IsNumber(text)
    case String => IsPlainString(text)
    case Identifier => IsName(text) && forall w :: Word(w) != text
    case InterpolatedString => IsInterpolated(text)
    case Eof => false
    case Error => false
    case _ => text != "" && (text == Word(k) || text == Symbol(k))
  }

  /** Lexemes with one space between them. */
  function Render(ls: seq<Lexeme>): string {
    if |ls| == 0 then "" else if |ls| == 1 then ls[0].text else ls[0].text + " " + Render(ls[1..])
  }

  function Read(s: string, t: Token): Lexeme
    requires t.start <= t.end <= |s|
  {
    Lexeme(t.kind, s[t.start..t.end])
  }

  /** `text` stands at `i`, and then a space or the end. */
  predicate Placed(s: string, i: nat, text: string) {
    i + |text| <= |s| && s[i..i + |text|] == text && (i + |text| < |s| ==> s[i + |text|] == ' ')
  }

  lemma PlacedChars(s: string, i: nat, text: string)
    requires Placed(s, i, text)
    ensures forall j :: 0 <= j < |text| ==> s[i + j] == text[j]
  {
    forall j | 0 <= j < |text|
      ensures s[i + j] == text[j]
    {
      assert s[i..i + |text|][j] == s[i + j];
    }
  }

  // ---- The branches of the scanner ----

  lemma NothingSkipped(s: string, i: nat)
    requires i < |s| && !IsBlank(s[i]) && s[i] != '#' && !(s[i] == '/' && i + 1 < |s| && s[i + 1] == '/')
    ensures SkipEnd(s, i) == i
  {
  }

  lemma ScanNumber(s: string, i: nat)
    requires i < |s| && IsDigit(s[i])
    ensures Scan(s, i) == Token(Number, i, NumberEnd(s, i + 1))
  {
    hide SkipEnd, NumberEnd, IdentifierType, SymbolKind, RunEnd, StringEnd, HasInterpolation;
    NothingSkipped(s, i);
  }

  lemma ScanName(s: string, i: nat)
    requires i < |s| && (IsAlpha(s[i]) || s[i] == '_')
    ensures var end := RunEnd(s, i + 1, IsNameChar);
      Scan(s, i) == Token(IdentifierType(s[i..end]), i, end)
  {
    hide SkipEnd, NumberEnd, IdentifierType, SymbolKind, RunEnd, StringEnd, HasInterpolation;
    NothingSkipped(s, i);
  }

  lemma ScanString(s: string, i: nat)
    requires i < |s| && s[i] == '"' && StringEnd(s, i + 1) < |s|
    ensures Scan(s, i) ==
      Token(if HasInterpolation(s, i + 1) then InterpolatedString else String, i, StringEnd(s, i + 1) + 1)
  {
    hide SkipEnd, NumberEnd, IdentifierType, SymbolKind, RunEnd, StringEnd, HasInterpolation;
    NothingSkipped(s, i);
  }

  lemma ScanSymbol(s: string, i: nat)
    requires i < |s| && StartsSymbol(s[i]) && !(s[i] == '/' && i + 1 < |s| && s[i + 1] == '/')
    ensures var (kind, n) := SymbolKind(s[i], Peek(s, i + 1));
      Scan(s, i) == Token(kind, i, i + n)
  {
    hide SkipEnd, NumberEnd, IdentifierType, SymbolKind, RunEnd, StringEnd, HasInterpolation;
    NothingSkipped(s, i);
  }

  lemma RunIs(s: string, i: nat, end: nat, p: char -> bool)
    requires i <= end <= |s| && (forall j :: i <= j < end ==> p(s[j])) && (end < |s| ==> !p(s[end]))
    ensures RunEnd(s, i, p) == end
  {
    hide RunEnd;
  }

  // ---- Lexemes by kind ----

  lemma WholeScanned(s: string, i: nat, text: string)
    requires Placed(s, i, text) && AllDigits(text)
    ensures Scan(s, i) == Token(Number, i, i + |text|)
  {
    hide Scan, RunEnd, AllDigits;
    PlacedChars(s, i, text);
    DigitChars(text);
    assert forall j :: i <= j < i + |text| ==> s[j] == text[j - i];
    ScanNumber(s, i);
    RunIs(s, i + 1, i + |text|, IsDigit);
  }

  lemma DecimalScanned(s: string, i: nat, text: string, k: nat)
    requires Placed(s, i, text) && k < |text| && text[k] == '.' && AllDigits(text[..k]) && AllDigits(text[k + 1..])
    ensures Scan(s, i) == Token(Number, i, i + |text|)
  {
    hide Scan, RunEnd, AllDigits;
    var end := i + |text|;
    PlacedChars(s, i, text);
    DigitChars(text[..k]);
    DigitChars(text[k + 1..]);
    assert forall j :: i <= j < i + k ==> s[j] == text[..k][j - i];
    assert forall j :: i + k + 1 <= j < end ==> s[j] == text[k + 1..][j - i - k - 1];
    ScanNumber(s, i);
    RunIs(s, i + 1, i + k, IsDigit);
    RunIs(s, i + k + 1, end, IsDigit);
  }

  lemma NumberScanned(s: string, i: nat, text: string)
    requires Placed(s, i, text) && IsNumber(text)
    ensures Scan(s, i) == Token(Number, i, i + |text|)
  {
    hide Scan, AllDigits, Placed;
    if AllDigits(text) {
      WholeScanned(s, i, text);
    } else {
      var k :| 0 <= k < |text| && text[k] == '.' && AllDigits(text[..k]) && AllDigits(text[k + 1..]);
      DecimalScanned(s, i, text, k);
    }
  }

  lemma DigitChars(text: string)
    requires AllDigits(text)
    ensures text != "" && forall j :: 0 <= j < |text| ==> IsDigit(text[j])
  {
  }

  lemma StringScanned(s: string, i: nat, text: string)
    requires Placed(s, i, text) && IsPlainString(text)
    ensures Scan(s, i) == Token(String, i, i + |text|)
  {
    hide Scan;
    PlacedChars(s, i, text);
    assert forall j :: i <= j < i + |text| ==> s[j] == text[j - i];
    PlainBody(s, i + 1, i + |text| - 1);
    ScanString(s, i);
  }

  lemma {:induction false} PlainBody(s: string, i: nat, end: nat)
    requires i <= end < |s| && s[end] == '"'
    requires forall j :: i <= j < end ==> s[j] != '"' && !OpensInterpolation(s, j)
    ensures StringEnd(s, i) == end && !HasInterpolation(s, i)
    decreases end - i
  {
    if i < end {
      PlainBody(s, i + 1, end);
    }
  }

  // ---- Interpolated strings ----

  predicate StandsAt(s: string, i: nat, text: string) {
    i + |text| <= |s| && s[i..i + |text|] == text
  }

  lemma Split(s: string, i: nat, text: string, more: string)
    requires StandsAt(s, i, text + more)
    ensures i + |text| + |more| <= |s| && StandsAt(s, i, text) && StandsAt(s, i + |text|, more)
    ensures text != "" ==> s[i] == text[0]
    ensures |text| == 2 ==> s[i + 1] == text[1]
  {
    var all := s[i..i + |text + more|];
    assert all[..|text|] == text && all[|text|..] == more;
    assert all[..|text|] == s[i..i + |text|] && all[|text|..] == s[i + |text|..i + |text| + |more|];
    assert forall j :: 0 <= j < |text| ==> all[j] == s[i + j];
  }

  lemma SecondAt(s: string, i: nat, text: string)
    requires StandsAt(s, i, text)
    ensures |text| > 1 ==> i + 1 < |s| && s[i + 1] == text[1]
  {
    if |text| > 1 {
      assert s[i + 1] == s[i..i + |text|][1];
    }
  }

  lemma {:induction false} QuotePassed(s: string, i: nat, q: Quoted)
    requires IsQuoted(q) && StandsAt(s, i, QuotedText(q)) && i + |QuotedText(q)| < |s| && s[i + |QuotedText(q)|] == '"'
    ensures QuoteEnd(s, i) == i + |QuotedText(q)|
    decreases q
  {
    match q
    case Closed =>
    case Letter(c, rest) =>
      Split(s, i, [c], QuotedText(rest));
      QuotePassed(s, i + 1, rest);
    case Escaped(c, rest) =>
      Split(s, i, ['\\', c], QuotedText(rest));
      QuotePassed(s, i + 2, rest);
  }

  /** An enclosed text and what follows it. */
  lemma Enclosed(s: string, i: nat, open: char, inner: string, close: char, more: string)
    requires StandsAt(s, i, [open] + (inner + ([close] + more)))
    ensures var end := i + 1 + |inner|;
      && end + 1 + |more| <= |s| && s[i] == open && StandsAt(s, i + 1, inner)
      && s[end] == close && StandsAt(s, end + 1, more)
  {
    hide StandsAt;
    Split(s, i, [open], inner + ([close] + more));
    Split(s, i + 1, inner, [close] + more);
    Split(s, i + 1 + |inner|, [close], more);
  }

  /** How one character, or one quoted text, changes the number of open braces. */
  lemma BracesStep(s: string, i: nat, depth: nat)
    requires i < |s| && depth > 0
    ensures s[i] == '"' && QuoteEnd(s, i + 1) < |s| ==>
      BracesEnd(s, i, depth) == BracesEnd(s, QuoteEnd(s, i + 1) + 1, depth)
    ensures s[i] == '{' ==> BracesEnd(s, i, depth) == BracesEnd(s, i + 1, depth + 1)
    ensures s[i] == '}' ==> BracesEnd(s, i, depth) == BracesEnd(s, i + 1, depth - 1)
    ensures s[i] != '"' && s[i] != '{' && s[i] != '}' ==> BracesEnd(s, i, depth) == BracesEnd(s, i + 1, depth)
  {
  }

  /** Balanced code leaves the number of open braces as it was. */
  lemma {:induction false} CodePassed(s: string, i: nat, code: Code, depth: nat)
    requires IsBalanced(code) && StandsAt(s, i, CodeText(code)) && depth > 0
    ensures BracesEnd(s, i, depth) == BracesEnd(s, i + |CodeText(code)|, depth)
    decreases code
  {
    hide StandsAt, BracesEnd, QuoteEnd, QuotedText, IsQuoted;
    match code
    case Done =>
    case Other(c, rest) =>
      Split(s, i, [c], CodeText(rest));
      BracesStep(s, i, depth);
      CodePassed(s, i + 1, rest, depth);
    case Quote(q, rest) =>
      var quote := i + 1 + |QuotedText(q)|;
      Enclosed(s, i, '"', QuotedText(q), '"', CodeText(rest));
      QuotePassed(s, i + 1, q);
      BracesStep(s, i, depth);
      CodePassed(s, quote + 1, rest, depth);
    case Block(inner, rest) =>
      var brace := i + 1 + |CodeText(inner)|;
      Enclosed(s, i, '{', CodeText(inner), '}', CodeText(rest));
      BracesStep(s, i, depth);
      CodePassed(s, i + 1, inner, depth + 1);
      BracesStep(s, brace, depth + 1);
      CodePassed(s, brace + 1, rest, depth);
  }

  lemma ClosedBraces(s: string, i: nat)
    requires i <= |s|
    ensures BracesEnd(s, i, 0) == i
  {
  }

  lemma StringStep(s: string, i: nat)
    requires i < |s| && s[i] != '"'
    ensures OpensInterpolation(s, i) ==>
      StringEnd(s, i) == StringEnd(s, BracesEnd(s, i + 2, 1)) && HasInterpolation(s, i)
    ensures !OpensInterpolation(s, i) ==>
      StringEnd(s, i) == StringEnd(s, i + 1) && HasInterpolation(s, i) == HasInterpolation(s, i + 1)
  {
  }

  lemma StringClosed(s: string, i: nat)
    requires i < |s| && s[i] == '"'
    ensures StringEnd(s, i) == i && !HasInterpolation(s, i)
  {
  }

  lemma InterpolationPassed(s: string, i: nat, code: Code, more: string)
    requires IsBalanced(code) && StandsAt(s, i, ['$', '{'] + (CodeText(code) + (['}'] + more)))
    ensures var end := i + |CodeText(code)| + 3;
      && end + |more| <= |s| && OpensInterpolation(s, i) && BracesEnd(s, i + 2, 1) == end && StandsAt(s, end, more)
  {
    hide StandsAt, BracesEnd, CodeText, IsBalanced;
    var brace := i + 2 + |CodeText(code)|;
    Split(s, i, ['$', '{'], CodeText(code) + (['}'] + more));
    Split(s, i + 2, CodeText(code), ['}'] + more);
    Split(s, brace, ['}'], more);
    CodePassed(s, i + 2, code, 1);
    BracesStep(s, brace, 1);
    ClosedBraces(s, brace + 1);
  }

  lemma {:induction false} BodyPassed(s: string, i: nat, body: Body)
    requires IsBody(body) && StandsAt(s, i, BodyText(body))
    requires i + |BodyText(body)| < |s| && s[i + |BodyText(body)|] == '"'
    ensures StringEnd(s, i) == i + |BodyText(body)| && HasInterpolation(s, i) == Interpolates(body)
    decreases body
  {
    hide StandsAt, BracesEnd, StringEnd, HasInterpolation, CodeText, IsBalanced;
    match body
    case End =>
      StringClosed(s, i);
    case Plain(c, rest) =>
      var text := [c] + BodyText(rest);
      Split(s, i, [c], BodyText(rest));
      SecondAt(s, i, text);
      StringStep(s, i);
      BodyPassed(s, i + 1, rest);
    case Interpolation(code, rest) =>
      var brace := i + 2 + |CodeText(code)|;
      InterpolationPassed(s, i, code, BodyText(rest));
      StringStep(s, i);
      BodyPassed(s, brace + 1, rest);
  }

  /** Plain text around balanced interpolations is one token that ends at the closing quote. */
  lemma InterpolatedScanned(s: string, i: nat, body: Body)
    requires IsBody(body) && StandsAt(s, i, ['"'] + (BodyText(body) + ['"']))
    ensures Scan(s, i) ==
      Token(if Interpolates(body) then InterpolatedString else String, i, i + |BodyText(body)| + 2)
  {
    hide Scan, StringEnd, HasInterpolation, StandsAt;
    Split(s, i, ['"'], BodyText(body) + ['"']);
    Split(s, i + 1, BodyText(body), ['"']);
    QuoteAt(s, i + 1 + |BodyText(body)|);
    BodyPassed(s, i + 1, body);
    ScanString(s, i);
  }

  lemma QuoteAt(s: string, i: nat)
    requires StandsAt(s, i, ['"'])
    ensures i < |s| && s[i] == '"'
  {
    assert s[i] == s[i..i + 1][0];
  }

  lemma NameScanned(s: string, i: nat, text: string)
    requires Placed(s, i, text) && IsName(text)
    ensures Scan(s, i) == Token(IdentifierType(text), i, i + |text|)
  {
    hide Scan, RunEnd, IdentifierType;
    PlacedChars(s, i, text);
    assert forall j :: i <= j < i + |text| ==> s[j] == text[j - i];
    ScanName(s, i);
    RunIs(s, i + 1, i + |text|, IsNameChar);
  }

  lemma SymbolScanned(s: string, i: nat, k: Kind)
    requires Symbol(k) != "" && Placed(s, i, Symbol(k))
    ensures Scan(s, i) == Token(k, i, i + |Symbol(k)|)
  {
    hide Scan, Symbol, SymbolKind, StartsSymbol, IsFound;
    PlacedChars(s, i, Symbol(k));
    if |Symbol(k)| == 1 {
      SymbolsFound(k, Peek(s, i + 1));
      ScanSymbol(s, i);
    } else {
      LongSymbolsFound(k);
      assert s[i + 1] == Symbol(k)[1];
      ScanSymbol(s, i);
    }
  }

  lemma WordIsName(k: Kind)
    requires Word(k) != ""
    ensures IsName(Word(k))
  {
  }

  lemma LexemeScanned(s: string, i: nat, l: Lexeme)
    requires Spelled(l.kind, l.text) && Placed(s, i, l.text)
    ensures Scan(s, i) == Token(l.kind, i, i + |l.text|)
  {
    hide Scan, Word, Symbol, IdentifierType, IsNumber, IsPlainString, IsInterpolated, IsName, Placed;
    if l.kind == Number {
      NumberScanned(s, i, l.text);
    } else if l.kind == String {
      StringScanned(s, i, l.text);
    } else if l.kind == InterpolatedString {
      InterpolatedPlaced(s, i, l.text);
    } else if l.kind == Identifier {
      NameNotEmpty(l.text);
      NameScanned(s, i, l.text);
      KeywordsFoundUnless(l.text);
    } else if l.text == Word(l.kind) {
      WordIsName(l.kind);
      NameScanned(s, i, l.text);
      KeywordsFound(l.text, l.kind);
    } else {
      SymbolScanned(s, i, l.kind);
    }
  }

  lemma InterpolatedPlaced(s: string, i: nat, text: string)
    requires Placed(s, i, text) && IsInterpolated(text)
    ensures Scan(s, i) == Token(InterpolatedString, i, i + |text|)
  {
    hide Scan, BodyText, IsBody, Interpolates;
    var body :| IsBody(body) && Interpolates(body) && text == ['"'] + (BodyText(body) + ['"']);
    InterpolatedScanned(s, i, body);
  }

  lemma NameNotEmpty(text: string)
    requires IsName(text)
    ensures text != ""
  {
  }

  lemma KeywordsFoundUnless(text: string)
    requires text != "" && forall w :: Word(w) != text
    ensures IdentifierType(text) == Identifier
  {
    hide Word, IdentifierType;
    if IdentifierType(text) != Identifier {
      KeywordsFound(text, IdentifierType(text));
    }
  }

  // ---- Sequences of lexemes ----

  /** Blanks, tabs and carriage returns before a token change nothing. */
  lemma BlankSkipped(s: string, i: nat)
    requires i < |s| && (s[i] == ' ' || s[i] == '\t' || s[i] == '\r')
    ensures ScanAll(s, i) == ScanAll(s, i + 1)
  {
    hide Scan;
    BlankAdds(s, i);
    SameScan(s, i, i + 1);
  }

  lemma BlankAdds(s: string, i: nat)
    requires i < |s| && IsBlank(s[i])
    ensures SkipEnd(s, i) == SkipEnd(s, i + 1)
  {
    hide RunEnd;
  }

  /** A comment before a token changes nothing, up to the end of its line or of the source. */
  lemma CommentSkipped(s: string, i: nat, end: nat)
    requires i < end <= |s| && (s[i] == '#' || (end > i + 1 && s[i] == s[i + 1] == '/'))
    requires (forall j :: i <= j < end ==> s[j] != '\n') && (end < |s| ==> s[end] == '\n')
    ensures ScanAll(s, i) == ScanAll(s, end)
  {
    hide Scan;
    CommentAdds(s, i, end);
    SameScan(s, i, end);
  }

  lemma CommentAdds(s: string, i: nat, end: nat)
    requires i < end <= |s| && (s[i] == '#' || (end > i + 1 && s[i] == s[i + 1] == '/'))
    requires (forall j :: i <= j < end ==> s[j] != '\n') && (end < |s| ==> s[end] == '\n')
    ensures SkipEnd(s, i) == SkipEnd(s, end)
  {
    hide RunEnd;
    RunIs(s, if s[i] == '#' then i + 1 else i + 2, end, NotNewline);
  }

  lemma SameScan(s: string, i: nat, j: nat)
    requires i <= |s| && j <= |s| && SkipEnd(s, i) == SkipEnd(s, j)
    ensures Scan(s, i) == Scan(s, j)
  {
    hide RunEnd, SkipEnd, NumberEnd, IdentifierType, SymbolKind, StringEnd, HasInterpolation;
  }

  /** What follows the first lexeme. */
  function AfterFirst(ls: seq<Lexeme>): string
    requires ls != []
  {
    if |ls| == 1 then "" else " " + Render(ls[1..])
  }

  lemma FirstPlaced(ls: seq<Lexeme>, s: string, i: nat)
    requires ls != [] && i <= |s| && s[i..] == Render(ls)
    ensures Placed(s, i, ls[0].text) && s[i + |ls[0].text|..] == AfterFirst(ls)
    ensures |ls| > 1 ==> i + |ls[0].text| < |s| && s[i + |ls[0].text|] == ' ' && s[i + |ls[0].text| + 1..] == Render(ls[1..])
  {
    var text := ls[0].text;
    assert s[i..] == text + AfterFirst(ls);
    assert s[i..i + |text|] == s[i..][..|text|] && s[i + |text|..] == s[i..][|text|..];
    if |ls| > 1 {
      assert s[i + |text|] == s[i + |text|..][0] && s[i + |text| + 1..] == s[i + |text|..][1..];
    }
  }

  lemma ScanAllUnfolds(s: string, i: nat, t: Token)
    requires i <= |s| && Scan(s, i) == t
    ensures t.kind == Eof ==> ScanAll(s, i) == [t]
    ensures t.kind != Eof ==> ScanAll(s, i) == [t] + ScanAll(s, t.end)
  {
    hide Scan;
  }

  /** `ts` are the tokens of `ls` and the end of the source. */
  predicate ReadsAs(s: string, ts: seq<Token>, ls: seq<Lexeme>) {
    && |ts| == |ls| + 1 && ts[|ls|] == Token(Eof, |s|, |s|)
    && forall j :: 0 <= j < |ls| ==> ts[j].start <= ts[j].end <= |s| && Read(s, ts[j]) == ls[j]
  }

  lemma ReadsOneMore(s: string, t: Token, ts: seq<Token>, ls: seq<Lexeme>)
    requires ls != [] && t.start <= t.end <= |s| && Read(s, t) == ls[0] && ReadsAs(s, ts, ls[1..])
    ensures ReadsAs(s, [t] + ts, ls)
  {
    forall j | 0 <= j < |ls|
      ensures var u := ([t] + ts)[j]; u.start <= u.end <= |s| && Read(s, u) == ls[j]
    {
      if j > 0 {
        assert ls[1..][j - 1] == ls[j];
      }
    }
  }

  /** Scanning what was rendered returns the kinds and lexemes, and then the end. */
  lemma {:induction false} ScanReadsRender(ls: seq<Lexeme>, s: string, i: nat)
    requires forall l :: l in ls ==> Spelled(l.kind, l.text)
    requires i <= |s| && s[i..] == Render(ls)
    ensures ReadsAs(s, ScanAll(s, i), ls)
    decreases |ls|
  {
    hide Scan, Spelled, ScanAll, Render, AfterFirst;
    if |ls| == 0 {
      EmptyRender();
      EndScanned(s);
      ScanAllUnfolds(s, i, Token(Eof, |s|, |s|));
    } else {
      hide ReadsAs;
      var l, end := ls[0], i + |ls[0].text|;
      var t := Token(l.kind, i, end);
      FirstPlaced(ls, s, i);
      LexemeScanned(s, i, l);
      SpelledKind(l);
      ScanAllUnfolds(s, i, t);
      if |ls| == 1 {
        LastRender(ls);
        ScanReadsRender([], s, end);
        assert ls[1..] == [];
      } else {
        BlankSkipped(s, end);
        ScanReadsRender(ls[1..], s, end + 1);
      }
      ReadsOneMore(s, t, ScanAll(s, end), ls);
    }
  }

  lemma EmptyRender()
    ensures Render([]) == ""
  {
  }

  lemma LastRender(ls: seq<Lexeme>)
    requires |ls| == 1
    ensures AfterFirst(ls) == Render([])
  {
  }

  lemma EndScanned(s: string)
    ensures Scan(s, |s|) == Token(Eof, |s|, |s|)
  {
  }

  lemma SpelledKind(l: Lexeme)
    requires Spelled(l.kind, l.text)
    ensures l.kind != Eof
  {
  }

  /** The whole scan of a rendering. */
  lemma RenderedScansBack(ls: seq<Lexeme>)
    requires forall l :: l in ls ==> Spelled(l.kind, l.text)
    ensures ReadsAs(Render(ls), ScanAll(Render(ls), 0), ls)
  {
    hide ScanAll, Render, Spelled;
    assert Render(ls)[0..] == Render(ls);
    ScanReadsRender(ls, Render(ls), 0);
  }

  // ---- Keywords and symbols, as they are written ----

  /** The text by itself is one token of kind `k`. */
  predicate ReadsAlone(text: string, k: Kind) {
    Scan(text, 0) == Token(k, 0, |text|)
  }

  lemma WordAlone(k: Kind)
    requires Word(k) != ""
    ensures ReadsAlone(Word(k), k)
  {
    hide Scan, Word, Symbol, IdentifierType, IsName;
    NoWords();
    assert Word(k)[0..|Word(k)|] == Word(k);
    WordIsName(k);
    NameScanned(Word(k), 0, Word(k));
    KeywordsFound(Word(k), k);
  }

  lemma SymbolAlone(k: Kind)
    requires Symbol(k) != ""
    ensures ReadsAlone(Symbol(k), k)
  {
    hide Scan, Symbol;
    assert Symbol(k)[0..|Symbol(k)|] == Symbol(k);
    SymbolScanned(Symbol(k), 0, k);
  }

  /** Every keyword by itself is the token named after it. */
  lemma KeywordsRead(k: Kind)
    ensures match k
      case And => ReadsAlone("and", k) case As => ReadsAlone("as", k) case Async => ReadsAlone("async", k)
      case Await => ReadsAlone("await", k) case Break => ReadsAlone("break", k) case Case => ReadsAlone("case", k)
      case Catch => ReadsAlone("catch", k) case Class => ReadsAlone("class", k)
      case Continue => ReadsAlone("continue", k) case Default => ReadsAlone("default", k)
      case Do => ReadsAlone("do", k) case Else => ReadsAlone("else", k) case Export => ReadsAlone("export", k)
      case Extends => ReadsAlone("extends", k) case False => ReadsAlone("false", k)
      case Finally => ReadsAlone("finally", k) case Fn => ReadsAlone("fn", k) case For => ReadsAlone("for", k)
      case From => ReadsAlone("from", k) case Function => ReadsAlone("function", k) case If => ReadsAlone("if", k)
      case Import => ReadsAlone("import", k) case New => ReadsAlone("new", k) case Not => ReadsAlone("not", k)
      case Or => ReadsAlone("or", k) case Require => ReadsAlone("require", k) case Return => ReadsAlone("return", k)
      case Super => ReadsAlone("super", k) case Switch => ReadsAlone("switch", k) case This => ReadsAlone("this", k)
      case Throw => ReadsAlone("throw", k) case True => ReadsAlone("true", k) case Try => ReadsAlone("try", k)
      case While => ReadsAlone("while", k) case Yield => ReadsAlone("yield", k)
      case _ => true
  {
    hide ReadsAlone;
    if Word(k) != "" {
      WordAlone(k);
    }
  }

  /** Every symbol by itself is its token; `!` is the same token as the keyword `not`. */
  lemma SymbolsRead(k: Kind)
    ensures match k
      case LParen => ReadsAlone("(", k) case RParen => ReadsAlone(")", k) case LBrace => ReadsAlone("{", k)
      case RBrace => ReadsAlone("}", k) case LBracket => ReadsAlone("[", k) case RBracket => ReadsAlone("]", k)
      case Comma => ReadsAlone(",", k) case Plus => ReadsAlone("+", k) case PlusPlus => ReadsAlone("++", k)
      case PlusEqual => ReadsAlone("+=", k) case Minus => ReadsAlone("-", k) case MinusMinus => ReadsAlone("--", k)
      case MinusEqual => ReadsAlone("-=", k) case Multiply => ReadsAlone("*", k)
      case MultiplyEqual => ReadsAlone("*=", k) case Divide => ReadsAlone("/", k)
      case DivideEqual => ReadsAlone("/=", k) case Modulo => ReadsAlone("%", k) case Equal => ReadsAlone("=", k)
      case EqualEqual => ReadsAlone("==", k) case Not => ReadsAlone("!", k) case NotEqual => ReadsAlone("!=", k)
      case Less => ReadsAlone("<", k) case LessEqual => ReadsAlone("<=", k) case Greater => ReadsAlone(">", k)
      case GreaterEqual => ReadsAlone(">=", k) case Colon => ReadsAlone(":", k) case At => ReadsAlone("@", k)
      case Semicolon => ReadsAlone(";", k) case Dot => ReadsAlone(".", k) case AndAnd => ReadsAlone("&&", k)
      case OrOr => ReadsAlone("||", k) case Newline => ReadsAlone("\n", k)
      case _ => true
  {
    hide ReadsAlone;
    if Symbol(k) != "" {
      SymbolAlone(k);
    }
  }
}
