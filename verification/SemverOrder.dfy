/** Precedence of versions and the constraints built on it. */
module SemverOrder {
  import opened Options
  import opened Semver
  import opened Texts

  /** `strcmp`, of which only the sign is used. */
  function StrCmp(a: string, b: string): (r: int)
    ensures -1 <= r <= 1
  {
    if a == "" && b == "" then 0
    else if a == "" then -1
    else if b == "" then 1
    else if a[0] != b[0] then (if a[0] < b[0] then -1 else 1)
    else StrCmp(a[1..], b[1..])
  }

  function Sign(a: int, b: int): (r: int)
    ensures -1 <= r <= 1
  {
    if a > b then 1 else if a < b then -1 else 0
  }

  /** Numbers first; then no pre-release is above any, and pre-releases compare as text. Build metadata is ignored. */
  function CompareParsed(a: Version, b: Version): (r: int)
    ensures -1 <= r <= 1
  {
    if a.major != b.major then Sign(a.major, b.major)
    else if a.minor != b.minor then Sign(a.minor, b.minor)
    else if a.patch != b.patch then Sign(a.patch, b.patch)
    else if a.pre == "" && b.pre != "" then 1
    else if a.pre != "" && b.pre == "" then -1
    else if a.pre != "" && b.pre != "" then StrCmp(a.pre, b.pre)
    else 0
  }

  /** Equal texts are equal; texts that are not versions compare as text. */
  function Compare(v1: string, v2: string): int {
    if v1 == v2 then 0
    else
      match (Parse(v1), Parse(v2))
      case (Some(a), Some(b)) => CompareParsed(a, b)
      case _ => StrCmp(v1, v2)
  }

  /** The text before the first `x`, or the first `X`, without a dot at its end. */
  function WildcardPrefix(c: string): string {
    var i := if FirstIndex(c, 'x') < |c| then FirstIndex(c, 'x') else FirstIndex(c, 'X');
    if i > 0 && c[i - 1] == '.' then c[..i - 1] else c[..i]
  }

  predicate Satisfies(version: string, constraint: string) {
    if constraint == "*" || constraint == "latest" || version == constraint then true
    else if Parse(version).None? then false
    else
      var v := Parse(version).value;
      if constraint != "" && constraint[0] == '^' then
        match Parse(constraint[1..])
        case None => false
        case Some(c) => v.major == c.major && (v.minor > c.minor || (v.minor == c.minor && v.patch >= c.patch))
      else if constraint != "" && constraint[0] == '~' then
        match Parse(constraint[1..])
        case None => false
        case Some(c) => v.major == c.major && v.minor == c.minor && v.patch >= c.patch
      else if ">=" <= constraint then Parse(constraint[2..]).Some? && Compare(version, constraint[2..]) >= 0
      else if "<=" <= constraint then Parse(constraint[2..]).Some? && Compare(version, constraint[2..]) <= 0
      else if ">" <= constraint then Parse(constraint[1..]).Some? && Compare(version, constraint[1..]) > 0
      else if "<" <= constraint then Parse(constraint[1..]).Some? && Compare(version, constraint[1..]) < 0
      else if 'x' in constraint || 'X' in constraint then
        match Parse(WildcardPrefix(constraint))
        case None => false
        case Some(c) => (c.major < 0 || v.major == c.major) && (c.minor < 0 || v.minor == c.minor)
      else
        match Parse(constraint)
        case None => false
        case Some(c) => v.major == c.major && v.minor == c.minor && v.patch == c.patch
  }

  // ---- A total preorder ----

  lemma {:induction false} StrCmpOpposite(a: string, b: string)
    ensures StrCmp(b, a) == -StrCmp(a, b) && (StrCmp(a, b) == 0 <==> a == b)
    decreases |a|
  {
    if a != "" && b != "" && a[0] == b[0] {
      StrCmpOpposite(a[1..], b[1..]);
      assert a == [a[0]] + a[1..] && b == [b[0]] + b[1..];
    }
  }

  lemma {:induction false} StrCmpTransitive(a: string, b: string, c: string)
    requires StrCmp(a, b) <= 0 && StrCmp(b, c) <= 0
    ensures StrCmp(a, c) <= 0 && (StrCmp(a, c) == 0 ==> StrCmp(a, b) == 0 && StrCmp(b, c) == 0)
    decreases |a|
  {
    if a != "" && b != "" && c != "" && a[0] == b[0] == c[0] {
      StrCmpTransitive(a[1..], b[1..], c[1..]);
    }
  }

  lemma Opposite(v1: string, v2: string)
    requires Parse(v1).Some? && Parse(v2).Some?
    ensures Compare(v2, v1) == -Compare(v1, v2)
  {
    hide Parse;
    StrCmpOpposite(Parse(v1).value.pre, Parse(v2).value.pre);
  }

  lemma ParsedTransitive(a: Version, b: Version, c: Version)
    requires CompareParsed(a, b) <= 0 && CompareParsed(b, c) <= 0
    ensures CompareParsed(a, c) <= 0 && (CompareParsed(a, c) == 0 ==> CompareParsed(a, b) == 0 && CompareParsed(b, c) == 0)
  {
    if a.pre != "" && b.pre != "" && c.pre != "" && StrCmp(a.pre, b.pre) <= 0 && StrCmp(b.pre, c.pre) <= 0 {
      StrCmpTransitive(a.pre, b.pre, c.pre);
    }
  }

  /** Comparing texts of versions is comparing the versions: the shortcut for equal texts agrees. */
  lemma CompareIsParsed(v1: string, v2: string)
    requires Parse(v1).Some? && Parse(v2).Some?
    ensures Compare(v1, v2) == CompareParsed(Parse(v1).value, Parse(v2).value)
  {
    hide Parse;
    StrCmpOpposite(Parse(v1).value.pre, Parse(v2).value.pre);
  }

  /** Precedence is transitive, and strictly so unless both steps are equal. */
  lemma Transitive(v1: string, v2: string, v3: string)
    requires Parse(v1).Some? && Parse(v2).Some? && Parse(v3).Some?
    requires Compare(v1, v2) <= 0 && Compare(v2, v3) <= 0
    ensures Compare(v1, v3) <= 0 && (Compare(v1, v3) == 0 ==> Compare(v1, v2) == 0 && Compare(v2, v3) == 0)
  {
    hide Parse, CompareParsed;
    CompareIsParsed(v1, v2);
    CompareIsParsed(v2, v3);
    CompareIsParsed(v1, v3);
    ParsedTransitive(Parse(v1).value, Parse(v2).value, Parse(v3).value);
  }

  /**
   Printed versions: precedence is by major, minor and patch numbers, a pre-release is below its release, and
   versions are equal exactly when all but the build metadata agree (sections 10, 11.2 and 11.3 of Semantic Versioning 2.0.0).
   */
  lemma Precedence(a: Version, b: Version)
    requires IsPrintable(a) && IsPrintable(b)
    ensures a.major < b.major ==> Compare(Print(a), Print(b)) < 0
    ensures a.major == b.major && a.minor < b.minor ==> Compare(Print(a), Print(b)) < 0
    ensures a.major == b.major && a.minor == b.minor && a.patch < b.patch ==> Compare(Print(a), Print(b)) < 0
    ensures a == b.(pre := a.pre, build := a.build) && a.pre != "" && b.pre == "" ==> Compare(Print(a), Print(b)) < 0
    ensures Compare(Print(a), Print(b)) == 0 <==> a == b.(build := a.build)
  {
    hide Parse, Print;
    ParsePrint(a);
    ParsePrint(b);
    CompareIsParsed(Print(a), Print(b));
    StrCmpOpposite(a.pre, b.pre);
  }

  // ---- Constraints on core versions ----

  function Core(major: nat, minor: nat, patch: nat): Version {
    Version(major, minor, patch, "", "")
  }

  function Text(v: Version): string
    requires IsPrintable(v)
  {
    PrintCore(v)
  }

  /** `a` comes before `b` by numbers. */
  predicate Before(a: Version, b: Version) {
    a.major < b.major || (a.major == b.major && (a.minor < b.minor || (a.minor == b.minor && a.patch < b.patch)))
  }

  predicate Within(low: Version, v: Version, high: Version) {
    !Before(v, low) && Before(v, high)
  }

  lemma CoreText(v: Version)
    requires IsPrintable(v) && v.pre == "" && v.build == ""
    ensures Print(v) == Text(v) && Parse(Text(v)) == Some(v) && Text(v) != "" && IsDigit(Text(v)[0])
  {
    hide Parse, PrintCore;
    ParsePrint(v);
    CoreChars(v);
    assert PrintCore(v) + "" + "" == PrintCore(v);
  }

  /** A caret accepts exactly the versions from its own up to the next major one. */
  lemma CaretInterval(v: Version, c: Version)
    requires IsPrintable(v) && v.pre == v.build == "" && IsPrintable(c) && c.pre == c.build == ""
    ensures Satisfies(Text(v), "^" + Text(c)) <==> Within(c, v, Core(c.major + 1, 0, 0))
  {
    hide Parse, Text, Print;
    CoreText(v);
    CoreText(c);
    assert ("^" + Text(c))[1..] == Text(c);
    assert ("^" + Text(c))[0] == '^';
  }

  /** A tilde accepts exactly the versions from its own up to the next minor one. */
  lemma TildeInterval(v: Version, c: Version)
    requires IsPrintable(v) && v.pre == v.build == "" && IsPrintable(c) && c.pre == c.build == ""
    ensures Satisfies(Text(v), "~" + Text(c)) <==> Within(c, v, Core(c.major, c.minor + 1, 0))
  {
    hide Parse, Text, Print;
    CoreText(v);
    CoreText(c);
    assert ("~" + Text(c))[1..] == Text(c);
    assert ("~" + Text(c))[0] == '~';
  }

  lemma TildeImpliesCaret(v: Version, c: Version)
    requires IsPrintable(v) && v.pre == v.build == "" && IsPrintable(c) && c.pre == c.build == ""
    ensures Satisfies(Text(v), "~" + Text(c)) ==> Satisfies(Text(v), "^" + Text(c))
  {
    hide Satisfies, Text;
    CaretInterval(v, c);
    TildeInterval(v, c);
  }

  /** Both texts are versions and compare as `holds` says. */
  ghost predicate Compares(version: string, bound: string, holds: int -> bool) {
    Parse(version).Some? && Parse(bound).Some? && holds(Compare(version, bound))
  }

  /** A text that starts with a comparison sign is no version. */
  lemma SignsNeverParse(text: string)
    requires text != "" && (text[0] == '<' || text[0] == '>' || text[0] == '=')
    ensures Parse(text).None?
  {
    hide FirstIndex, RunEnd;
    var plus := FirstIndex(text, '+');
    var minus := FirstIndex(text[..plus], '-');
    assert text[..minus][0] == text[0];
  }

  /**
   The four comparisons, on any two texts: accepted is the constraint itself, which is no version, and otherwise exactly
   what is a version and compares so with a bound that is one. Behind a strict sign the bound must not start with `=`,
   which would belong to the sign.
   */
  lemma Comparisons(version: string, bound: string)
    ensures Satisfies(version, ">=" + bound) <==> version == ">=" + bound || Compares(version, bound, c => c >= 0)
    ensures Satisfies(version, "<=" + bound) <==> version == "<=" + bound || Compares(version, bound, c => c <= 0)
    ensures bound == "" || bound[0] != '=' ==>
      (Satisfies(version, ">" + bound) <==> version == ">" + bound || Compares(version, bound, c => c > 0))
    ensures bound == "" || bound[0] != '=' ==>
      (Satisfies(version, "<" + bound) <==> version == "<" + bound || Compares(version, bound, c => c < 0))
  {
    hide Parse, Compare;
    assert (">=" + bound)[2..] == bound && ("<=" + bound)[2..] == bound && (">" + bound)[1..] == bound && ("<" + bound)[1..] == bound;
    assert (">=" + bound)[0] == '>' && ("<=" + bound)[0] == '<' && (">" + bound)[0] == '>' && ("<" + bound)[0] == '<';
    assert bound != "" ==> (">" + bound)[1] == bound[0] && ("<" + bound)[1] == bound[0];
  }

  /** On core versions the comparisons cut where the numbers say, and below is the complement of at least. */
  lemma BelowIsNotAtLeast(v: Version, c: Version)
    requires IsPrintable(v) && v.pre == v.build == "" && IsPrintable(c) && c.pre == c.build == ""
    ensures Satisfies(Text(v), "<" + Text(c)) <==> Before(v, c)
    ensures Satisfies(Text(v), ">=" + Text(c)) <==> !Satisfies(Text(v), "<" + Text(c))
  {
    hide Parse, Text, Print, Satisfies, Compare;
    CoreText(v);
    CoreText(c);
    SignsNeverParse("<" + Text(c));
    SignsNeverParse(">=" + Text(c));
    Comparisons(Text(v), Text(c));
    CompareIsParsed(Text(v), Text(c));
  }

  // ---- Wildcards ----

  /** A text of digits and dots is read as its numbers. */
  lemma CoreParsed(core: string)
    requires core != "" && IsDigit(core[0]) && forall j :: 0 <= j < |core| ==> IsDigit(core[j]) || core[j] == '.'
    ensures Parse(core) == match ScanCore(core) case None => None case Some((a, b, c)) => Some(Version(a, b, c, "", ""))
  {
    hide ScanCore, FirstIndex;
    Cuts(core, "", "");
    assert core + "" + "" == core && core[..|core|] == core;
  }

  /** One number, or two with a dot between them. */
  lemma MajorRead(n: nat)
    ensures Parse(Decimal(n)) == Some(Core(n, 0, 0))
  {
    hide Parse, ScanNumber, Decimal;
    ReadDecimal(n);
    CoreParsed(Decimal(n));
    assert Decimal(n)[0..|Decimal(n)|] == Decimal(n);
    NumberRead(Decimal(n), 0, n);
  }

  lemma MinorRead(n: nat, m: nat)
    ensures Parse(Decimal(n) + "." + Decimal(m)) == Some(Core(n, m, 0))
  {
    hide Parse, ScanNumber, Decimal;
    var s, i := Decimal(n) + "." + Decimal(m), |Decimal(n)|;
    ReadDecimal(n);
    ReadDecimal(m);
    assert s[0] == Decimal(n)[0];
    CoreParsed(s);
    assert s[0..i] == Decimal(n) && s[i] == '.';
    NumberRead(s, 0, n);
    assert s[i + 1..|s|] == Decimal(m);
    NumberRead(s, i + 1, m);
  }

  lemma WildcardCut(core: string, x: char)
    requires (x == 'x' || x == 'X') && forall j :: 0 <= j < |core| ==> IsDigit(core[j]) || core[j] == '.'
    ensures WildcardPrefix(core + "." + [x]) == core
  {
    hide FirstIndex;
    var s := core + "." + [x];
    assert s[|core| + 1] == x && s[..|core|] == core;
    FirstIndexAt(s, x, |core| + 1);
    if x == 'X' {
      FirstIndexAt(s, 'x', |s|);
    }
  }

  /** A wildcard constraint compares the major and the minor numbers with those before the wildcard. */
  lemma WildcardMeans(v: Version, core: string, c: Version, x: char)
    requires IsPrintable(v) && v.pre == v.build == "" && (x == 'x' || x == 'X')
    requires core != "" && IsDigit(core[0]) && forall j :: 0 <= j < |core| ==> IsDigit(core[j]) || core[j] == '.'
    requires Parse(core) == Some(c) && c.major >= 0 && c.minor >= 0
    ensures Satisfies(Text(v), core + "." + [x]) <==> v.major == c.major && v.minor == c.minor
  {
    hide Parse, PrintCore, Print, WildcardPrefix;
    CoreText(v);
    CoreChars(v);
    WildcardCut(core, x);
    var s := core + "." + [x];
    assert s[0] == core[0] && s[|s| - 1] == x && x in s;
    assert |Text(v)| == |s| ==> IsDigit(Text(v)[|s| - 1]) || Text(v)[|s| - 1] == '.';
  }

  /** A wildcard right after the major number also compares the minor number, with zero. */
  lemma WildcardPinsMinor(v: Version, n: nat, x: char)
    requires IsPrintable(v) && v.pre == v.build == "" && (x == 'x' || x == 'X')
    ensures Satisfies(Text(v), Decimal(n) + "." + [x]) <==> v.major == n && v.minor == 0
  {
    hide Parse, Satisfies, Decimal;
    ReadDecimal(n);
    MajorRead(n);
    WildcardMeans(v, Decimal(n), Core(n, 0, 0), x);
  }

  /** A wildcard after the minor number accepts exactly the patches of that minor version. */
  lemma WildcardPatches(v: Version, n: nat, m: nat, x: char)
    requires IsPrintable(v) && v.pre == v.build == "" && (x == 'x' || x == 'X')
    ensures Satisfies(Text(v), Decimal(n) + "." + Decimal(m) + "." + [x]) <==> v.major == n && v.minor == m
  {
    hide Parse, Satisfies, Decimal;
    ReadDecimal(n);
    ReadDecimal(m);
    MinorRead(n, m);
    assert (Decimal(n) + "." + Decimal(m))[0] == Decimal(n)[0];
    WildcardMeans(v, Decimal(n) + "." + Decimal(m), Core(n, m, 0), x);
  }

  // ---- Pre-releases ----

  /** Texts are ordered by the first character in which they differ, and a text comes after what it extends. */
  lemma {:induction false} StrCmpFirst(common: string, a: string, b: string)
    requires a != "" && (b == "" || a[0] > b[0])
    ensures StrCmp(common + a, common + b) > 0 && StrCmp(common + b, common + a) < 0
    decreases |common|
  {
    if common == "" {
      assert common + a == a && common + b == b;
    } else {
      assert (common + a)[1..] == common[1..] + a && (common + b)[1..] == common[1..] + b;
      StrCmpFirst(common[1..], a, b);
    }
  }

  /** Of two versions that differ in their pre-release only, the one with the later text is higher. */
  lemma PreReleases(v: Version, common: string, a: string, b: string)
    requires a != "" && (b == "" || a[0] > b[0]) && common + b != ""
    requires IsPrintable(v.(pre := common + a)) && IsPrintable(v.(pre := common + b))
    ensures Compare(Print(v.(pre := common + a)), Print(v.(pre := common + b))) > 0
    ensures Compare(Print(v.(pre := common + b)), Print(v.(pre := common + a))) < 0
  {
    hide Parse, Print, StrCmp;
    var high, low := v.(pre := common + a), v.(pre := common + b);
    ParsePrint(high);
    ParsePrint(low);
    StrCmpFirst(common, a, b);
    CompareIsParsed(Print(high), Print(low));
    CompareIsParsed(Print(low), Print(high));
  }

  // ---- The other constraints ----

  /** `*` and `latest` accept every text, and every text accepts itself. */
  lemma AlwaysSatisfied(version: string)
    ensures Satisfies(version, "*") && Satisfies(version, "latest") && Satisfies(version, version)
  {
  }

  /** A version as constraint accepts the versions with its three numbers, whatever their pre-release and build. */
  lemma BareVersion(v: Version, c: Version)
    requires IsPrintable(v) && IsPrintable(c) && c.pre == c.build == ""
    ensures Satisfies(Print(v), Text(c)) <==> v.major == c.major && v.minor == c.minor && v.patch == c.patch
  {
    hide Parse, Print, PrintCore;
    ParsePrint(v);
    CoreText(c);
    CoreChars(c);
    assert 'x' !in Text(c) && 'X' !in Text(c);
  }

  predicate AreBlanks(blanks: string) {
    forall i :: 0 <= i < |blanks| ==> blanks[i] == ' ' || blanks[i] == '\t'
  }

  lemma BlanksSkipped(s: string, i: nat, j: nat)
    requires i <= j < |s| && !IsSpace(s[j]) && forall k :: i <= k < j ==> IsSpace(s[k])
    ensures ScanNumber(s, i) == ScanNumber(s, j)
  {
    hide RunEnd;
    assert RunEnd(s, i, IsSpace) == j && RunEnd(s, j, IsSpace) == j;
  }

  /** Where the parts of a printed core stand behind blanks. */
  lemma CorePlaces(blanks: string, v: Version)
    requires IsPrintable(v)
    ensures var s, i := blanks + PrintCore(v), |blanks|;
      var j := i + |Decimal(v.major)|;
      var k := j + 1 + |Decimal(v.minor)|;
      && k + 1 + |Decimal(v.patch)| == |s| && s[i..j] == Decimal(v.major) && s[j] == '.'
      && s[j + 1..k] == Decimal(v.minor) && s[k] == '.' && s[k + 1..|s|] == Decimal(v.patch)
  {
    hide Decimal;
    var a, b, c := Decimal(v.major), Decimal(v.minor), Decimal(v.patch);
    assert blanks + PrintCore(v) == blanks + a + "." + b + "." + c;
  }

  lemma BlankCore(blanks: string, v: Version)
    requires AreBlanks(blanks) && IsPrintable(v)
    ensures ScanCore(blanks + PrintCore(v)) == Some((v.major, v.minor, v.patch))
  {
    hide ScanNumber, Decimal, PrintCore;
    CorePlaces(blanks, v);
    ReadDecimal(v.major);
    var s, i := blanks + PrintCore(v), |blanks|;
    var j := i + |Decimal(v.major)|;
    var k := j + 1 + |Decimal(v.minor)|;
    assert s[i] == s[i..j][0];
    BlanksSkipped(s, 0, i);
    NumberRead(s, i, v.major);
    NumberRead(s, j + 1, v.minor);
    NumberRead(s, k + 1, v.patch);
  }

  /** Blanks before a version are skipped in reading it. */
  lemma BlankRead(blanks: string, v: Version)
    requires AreBlanks(blanks) && IsPrintable(v)
    ensures Parse(blanks + Print(v)) == Some(v)
  {
    hide Parse, ScanCore, PrintCore;
    var core := blanks + PrintCore(v);
    var pre, build := if v.pre == "" then "" else "-" + v.pre, if v.build == "" then "" else "+" + v.build;
    CoreChars(v);
    PartsRead(core, v.pre, v.build);
    BlankCore(blanks, v);
    assert blanks + (PrintCore(v) + pre + build) == core + pre + build;
  }

  /** So blanks may stand between the sign of a constraint and its version. */
  lemma BlankBehindSign(blanks: string, v: Version, c: Version)
    requires AreBlanks(blanks) && IsPrintable(v) && IsPrintable(c)
    ensures Satisfies(Print(v), ">=" + (blanks + Print(c))) <==> CompareParsed(v, c) >= 0
    ensures Satisfies(Print(v), "<=" + (blanks + Print(c))) <==> CompareParsed(v, c) <= 0
    ensures Satisfies(Print(v), ">" + (blanks + Print(c))) <==> CompareParsed(v, c) > 0
    ensures Satisfies(Print(v), "<" + (blanks + Print(c))) <==> CompareParsed(v, c) < 0
  {
    hide Parse, Print, PrintCore, Satisfies, CompareParsed, Compare;
    var bound := blanks + Print(c);
    ParsePrint(v);
    BlankRead(blanks, c);
    CompareIsParsed(Print(v), bound);
    SignsNeverParse(">=" + bound);
    SignsNeverParse("<=" + bound);
    SignsNeverParse(">" + bound);
    SignsNeverParse("<" + bound);
    if bound != "" && bound[0] == '=' {
      SignsNeverParse(bound);
    }
    Comparisons(Print(v), bound);
  }
}
