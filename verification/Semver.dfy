/** Semantic versions of packages: reading, printing, ordering and constraints. */
module Semver {
  import opened Options
  import opened Texts

  datatype Version = Version(major: int, minor: int, patch: int, pre: string, build: string)

  /** The text buffers hold 31 characters and a terminator. */
  const PART_LEN: nat := 31

  // ---- Text ----

  function FirstIndex(s: string, c: char): (i: nat)
    ensures i <= |s| && (i < |s| ==> s[i] == c) && forall j :: 0 <= j < i ==> s[j] != c
  {
    if s == "" || s[0] == c then 0 else 1 + FirstIndex(s[1..], c)
  }

  function Truncated(s: string): string {
    if |s| <= PART_LEN then s else s[..PART_LEN]
  }

  predicate IsSpace(c: char) {
    c == ' ' || c == '\t' || c == '\n' || c == '\r' || c == 11 as char || c == 12 as char
  }

  function Digit(d: nat): char
    requires d < 10
  {
    '0' + d as char
  }

  /** The number that digits denote. */
  function Value(s: string): nat
    requires forall j :: 0 <= j < |s| ==> IsDigit(s[j])
  {
    if s == "" then 0
    else
      var last := s[|s| - 1];
      assert IsDigit(last);
      Value(s[..|s| - 1]) * 10 + (last - '0') as nat
  }

  function Decimal(n: nat): string {
    if n < 10 then [Digit(n)] else Decimal(n / 10) + [Digit(n % 10)]
  }

  lemma {:induction false} ReadDecimal(n: nat)
    ensures Decimal(n) != "" && (forall j :: 0 <= j < |Decimal(n)| ==> IsDigit(Decimal(n)[j])) && Value(Decimal(n)) == n
    decreases n
  {
    if n >= 10 {
      ReadDecimal(n / 10);
      assert Decimal(n)[..|Decimal(n)| - 1] == Decimal(n / 10);
    }
  }

  // ---- Reading ----

  /** `%d` where no sign can occur: blanks, then at least one digit; the number and where it ends. */
  function ScanNumber(s: string, i: nat): (r: Option<(nat, nat)>)
    requires i <= |s|
    ensures r.Some? ==> i < r.value.1 <= |s|
  {
    var start := RunEnd(s, i, IsSpace);
    var end := RunEnd(s, start, IsDigit);
    if start == end then None
    else
      Some((Value(s[start..end]), end))
  }

  /** `%d.%d.%d`: the numbers before the first failure, the rest zero; nothing without a first number. */
  function ScanCore(s: string): Option<(nat, nat, nat)> {
    match ScanNumber(s, 0)
    case None => None
    case Some((major, i)) =>
      if i == |s| || s[i] != '.' then Some((major, 0, 0))
      else
        match ScanNumber(s, i + 1)
        case None => Some((major, 0, 0))
        case Some((minor, j)) =>
          if j == |s| || s[j] != '.' then Some((major, minor, 0))
          else
            match ScanNumber(s, j + 1)
            case None => Some((major, minor, 0))
            case Some((patch, _)) => Some((major, minor, patch))
  }

  /** Build metadata follows the first `+`; before it, the pre-release follows the first `-`. */
  function Parse(text: string): Option<Version> {
    if text == "latest" then Some(Version(999, 999, 999, "", ""))
    else
      var plus := FirstIndex(text, '+');
      var minus := FirstIndex(text[..plus], '-');
      var build := if plus < |text| then Truncated(text[plus + 1..]) else "";
      var pre := if minus < plus then Truncated(text[minus + 1..plus]) else "";
      match ScanCore(text[..minus])
      case None => None
      case Some((major, minor, patch)) => Some(Version(major, minor, patch, pre, build))
  }

  /** Fills a version from a copy of the text that is cut at `+` and then at `-`. */
  method ParseSemver(text: string) returns (ok: bool, version: Version)
    ensures ok <==> Parse(text).Some?
    ensures ok ==> version == Parse(text).value
  {
    version := Version(0, 0, 0, "", "");
    if text == "latest" {
      return true, Version(999, 999, 999, "", "");
    }
    var copy := text;
    var build := FirstIndex(copy, '+');
    if build < |copy| {
      version := version.(build := Truncated(copy[build + 1..]));
      copy := copy[..build];
    }
    assert copy == text[..build];
    var pre := FirstIndex(copy, '-');
    if pre < |copy| {
      version := version.(pre := Truncated(copy[pre + 1..]));
      copy := copy[..pre];
    }
    assert copy == text[..pre];
    assert pre < build ==> text[..build][pre + 1..] == text[pre + 1..build];
    match ScanCore(copy) {
      case None => return false, version;
      case Some((major, minor, patch)) =>
        return true, version.(major := major, minor := minor, patch := patch);
    }
  }

  // ---- Printing ----

  predicate IsPrintable(v: Version) {
    v.major >= 0 && v.minor >= 0 && v.patch >= 0 && '+' !in v.pre && |v.pre| <= PART_LEN && |v.build| <= PART_LEN
  }

  function PrintCore(v: Version): string
    requires IsPrintable(v)
  {
    Decimal(v.major) + "." + Decimal(v.minor) + "." + Decimal(v.patch)
  }

  function Print(v: Version): string
    requires IsPrintable(v)
  {
    PrintCore(v) + (if v.pre == "" then "" else "-" + v.pre) + if v.build == "" then "" else "+" + v.build
  }

  /** A decimal number is read where it stands, up to what is not a digit. */
  lemma NumberRead(s: string, i: nat, n: nat)
    requires i + |Decimal(n)| <= |s| && s[i..i + |Decimal(n)|] == Decimal(n)
    requires i + |Decimal(n)| < |s| ==> !IsDigit(s[i + |Decimal(n)|])
    ensures ScanNumber(s, i) == Some((n, i + |Decimal(n)|))
  {
    hide RunEnd, Decimal, Value;
    ReadDecimal(n);
    var end := i + |Decimal(n)|;
    forall j | i <= j < end
      ensures IsDigit(s[j])
    {
      assert s[i..end][j - i] == s[j];
    }
    assert !IsSpace(s[i]);
    assert RunEnd(s, i, IsSpace) == i;
    assert RunEnd(s, i, IsDigit) == end;
  }

  lemma CoreRead(v: Version)
    requires IsPrintable(v)
    ensures ScanCore(PrintCore(v)) == Some((v.major, v.minor, v.patch))
  {
    hide ScanNumber, Decimal;
    var s, a, b, c := PrintCore(v), Decimal(v.major), Decimal(v.minor), Decimal(v.patch);
    var i, j := |a|, |a| + 1 + |b|;
    assert s == a + ("." + b + "." + c) && s[..i] == a && s[0..i] == a;
    NumberRead(s, 0, v.major);
    assert s[i + 1..j] == b;
    NumberRead(s, i + 1, v.minor);
    assert s[j + 1..] == c && s[j + 1..|s|] == c;
    NumberRead(s, j + 1, v.patch);
  }

  /** A printed core has no sign character and is not a name. */
  lemma CoreChars(v: Version)
    requires IsPrintable(v)
    ensures forall j :: 0 <= j < |PrintCore(v)| ==> IsDigit(PrintCore(v)[j]) || PrintCore(v)[j] == '.'
    ensures PrintCore(v) != "" && IsDigit(PrintCore(v)[0])
  {
    hide Decimal;
    ReadDecimal(v.major);
    ReadDecimal(v.minor);
    ReadDecimal(v.patch);
    assert PrintCore(v)[0] == Decimal(v.major)[0];
  }

  lemma FirstIndexAt(s: string, c: char, i: nat)
    requires i <= |s| && (i < |s| ==> s[i] == c) && forall j :: 0 <= j < i ==> s[j] != c
    ensures FirstIndex(s, c) == i
  {
    hide FirstIndex;
  }

  /** Where a printed version is cut. */
  lemma Cuts(core: string, pre: string, build: string)
    requires core != "" && (forall j :: 0 <= j < |core| ==> core[j] != '+' && core[j] != '-') && '+' !in pre
    ensures var head := core + if pre == "" then "" else "-" + pre;
      var s := head + if build == "" then "" else "+" + build;
      && FirstIndex(s, '+') == |head| && FirstIndex(s[..|head|], '-') == |core|
      && s[..|head|] == head && s[..|core|] == core && s[0] == core[0]
      && (pre != "" ==> s[|core| + 1..|head|] == pre) && (build != "" ==> s[|head| + 1..] == build)
  {
    hide FirstIndex;
    var head := core + if pre == "" then "" else "-" + pre;
    var s := head + if build == "" then "" else "+" + build;
    forall j | 0 <= j < |head|
      ensures head[j] != '+' && (j < |core| ==> head[j] != '-')
    {
      if j > |core| {
        assert head[j] == pre[j - |core| - 1] && pre[j - |core| - 1] in pre;
      } else if j < |core| {
        assert head[j] == core[j];
      }
    }
    assert s[..|head|] == head;
    FirstIndexAt(s, '+', |head|);
    FirstIndexAt(head, '-', |core|);
  }

  /** A text is read as its numbers and its two optional parts. */
  lemma PartsRead(core: string, pre: string, build: string)
    requires core != "" && core[0] != 'l' && (forall j :: 0 <= j < |core| ==> core[j] != '+' && core[j] != '-')
    requires '+' !in pre
    ensures Parse(core + (if pre == "" then "" else "-" + pre) + if build == "" then "" else "+" + build) ==
      match ScanCore(core) case None => None
        case Some((a, b, c)) => Some(Version(a, b, c, Truncated(pre), Truncated(build)))
  {
    hide FirstIndex, ScanCore;
    Cuts(core, pre, build);
  }

  /** Reading undoes printing, also with `-` in the pre-release and `-` or `+` in the build metadata. */
  lemma ParsePrint(v: Version)
    requires IsPrintable(v)
    ensures Parse(Print(v)) == Some(v)
  {
    hide Parse, ScanCore, PrintCore;
    CoreChars(v);
    PartsRead(PrintCore(v), v.pre, v.build);
    CoreRead(v);
  }

  /** Longer pre-releases and builds are cut after 31 characters. */
  lemma PartsCut(text: string)
    ensures Parse(text).Some? ==> |Parse(text).value.pre| <= 31 && |Parse(text).value.build| <= 31
  {
    hide FirstIndex, ScanCore;
  }

  lemma LongPreRelease(v: Version, more: string)
    requires IsPrintable(v) && |v.pre| == 31 && v.build == "" && '+' !in more
    ensures Parse(Print(v) + more) == Some(v)
  {
    hide Parse, ScanCore, PrintCore;
    CoreChars(v);
    CoreRead(v);
    var text := PrintCore(v) + ("-" + (v.pre + more)) + "";
    PartsRead(PrintCore(v), v.pre + more, "");
    assert v.pre + more != "" && Truncated("") == "";
    assert Parse(text) == Some(Version(v.major, v.minor, v.patch, Truncated(v.pre + more), ""));
    assert text == Print(v) + more;
    assert (v.pre + more)[..31] == v.pre && (more == "" ==> v.pre + more == v.pre);
    assert Truncated(v.pre + more) == v.pre;
  }

  lemma LatestRead()
    ensures Parse("latest") == Some(Version(999, 999, 999, "", ""))
  {
  }
}
