/** The turbo entries of pnpm's release-age exclude list
    (scripts/turbo-release-age.ts and scripts/bump-turbo.ts). */
module TurboExcludes {
  import opened Text

  const SCOPE: string := "@turbo/"
  const PACKAGES: seq<string> :=
    [SCOPE + "darwin-64", SCOPE + "darwin-arm64", SCOPE + "linux-64", SCOPE + "linux-arm64",
     SCOPE + "windows-64", SCOPE + "windows-arm64", "turbo"]
  const BAR: string := " || "
  const BARS: string := "||"

  // ------------------------------------------------------------ the line rules

  predicate NeedsQuoting(pkg: string) {
    pkg != "" && pkg[0] == '@'
  }

  function ExcludeLineFor(pkg: string, versions: seq<string>): string {
    var body := pkg + "@" + Join(versions, BAR);
    if NeedsQuoting(pkg) then "'" + body + "'" else body
  }

  /** `.replace(/^-\s*` + `/, '')` */
  function StripDash(s: string): string {
    if s != "" && s[0] == '-' then s[SkipSpace(s, 1)..] else s
  }

  /** `.replace(/^'|'$/g, '')` */
  function StripQuotes(s: string): string {
    var t := if s != "" && s[0] == '\'' then s[1..] else s;
    if t != "" && t[|t| - 1] == '\'' then t[..|t| - 1] else t
  }

  function Body(line: string): string {
    StripQuotes(StripDash(Trim(line)))
  }

  function TrimmedParts(parts: seq<string>): seq<string> {
    if parts == [] then []
    else (if Trim(parts[0]) == "" then [] else [Trim(parts[0])]) + TrimmedParts(parts[1..])
  }

  function VersionsInExcludeLine(line: string): seq<string> {
    var body := Body(line);
    var at := LastIndex(body, '@');
    if at <= 0 then [] else TrimmedParts(Split(body[at + 1..], BARS))
  }

  function WithTurboVersion(existing: seq<string>, version: string): seq<string> {
    if version in existing then existing else existing + [version]
  }

  /** `TURBO_PLATFORM_PACKAGES.find((p) => body.startsWith(p + '@'))` from the i-th on. */
  function FindFrom(body: string, i: nat): (pkg: Option<string>)
    requires i <= |PACKAGES|
    ensures pkg.Some? ==> pkg.value in PACKAGES && pkg.value + "@" <= body
    ensures pkg.None? ==> forall k | i <= k < |PACKAGES| :: !(PACKAGES[k] + "@" <= body)
    decreases |PACKAGES| - i
  {
    if i == |PACKAGES| then None
    else if PACKAGES[i] + "@" <= body then Some(PACKAGES[i])
    else FindFrom(body, i + 1)
  }

  function PackageOf(line: string): Option<string> {
    FindFrom(Body(line), 0)
  }

  /** `line.slice(0, line.indexOf('-'))`, where -1 drops the last character. */
  function Indent(line: string): string {
    var dash := Index(line, "-");
    if dash >= 0 then line[..dash] else if line == "" then "" else line[..|line| - 1]
  }

  function EntryLine(indent: string, pkg: string, versions: seq<string>): string {
    indent + "- " + ExcludeLineFor(pkg, versions)
  }

  function RewriteLine(line: string, version: string): string {
    var pkg := PackageOf(line);
    if pkg.None? then line
    else EntryLine(Indent(line), pkg.value, WithTurboVersion(VersionsInExcludeLine(line), version))
  }

  // ------------------------------------------------------------ the whole block

  function RewriteLines(lines: seq<string>, version: string): (r: seq<string>)
    ensures |r| == |lines|
    ensures forall i | 0 <= i < |r| :: r[i] == RewriteLine(lines[i], version)
  {
    if lines == [] then [] else [RewriteLine(lines[0], version)] + RewriteLines(lines[1..], version)
  }

  /** The packages with an entry among the first n lines. */
  function Seen(lines: seq<string>, n: nat): set<string>
    requires n <= |lines|
  {
    if n == 0 then {}
    else Seen(lines, n - 1) + match PackageOf(lines[n - 1]) case None => {} case Some(pkg) => {pkg}
  }

  function LastTurbo(lines: seq<string>, n: nat): int
    requires n <= |lines|
  {
    if n == 0 then -1
    else if PackageOf(lines[n - 1]).Some? then n - 1
    else LastTurbo(lines, n - 1)
  }

  lemma {:induction false} LastTurboIsLast(lines: seq<string>, n: nat)
    requires n <= |lines|
    ensures -1 <= LastTurbo(lines, n) < n
    ensures LastTurbo(lines, n) >= 0 ==> PackageOf(lines[LastTurbo(lines, n)]).Some?
    ensures forall k | LastTurbo(lines, n) < k < n :: PackageOf(lines[k]).None?
  {
    hide PackageOf;
    if n > 0 { LastTurboIsLast(lines, n - 1); }
  }

  function Absent(seen: set<string>, i: nat): seq<string>
    requires i <= |PACKAGES|
    decreases |PACKAGES| - i
  {
    if i == |PACKAGES| then []
    else (if PACKAGES[i] in seen then [] else [PACKAGES[i]]) + Absent(seen, i + 1)
  }

  function AddedLines(indent: string, absent: seq<string>, version: string): (r: seq<string>)
    ensures |r| == |absent|
    ensures forall i | 0 <= i < |r| :: r[i] == EntryLine(indent, absent[i], [version])
  {
    seq(|absent|, i requires 0 <= i < |absent| => EntryLine(indent, absent[i], [version]))
  }

  function BlockLines(lines: seq<string>, version: string): seq<string> {
    LastTurboIsLast(lines, |lines|);
    var rewritten, last := RewriteLines(lines, version), LastTurbo(lines, |lines|);
    var absent := Absent(Seen(lines, |lines|), 0);
    if absent == [] || last < 0 then rewritten
    else rewritten[..last + 1] + AddedLines(Indent(rewritten[last]), absent, version) + rewritten[last + 1..]
  }

  function RewriteBlock(text: string, version: string): string {
    Join(BlockLines(Split(text, NL), version), NL)
  }

  lemma BlockAsSpliced(lines: seq<string>, version: string)
    ensures LastTurbo(lines, |lines|) < |lines|
    ensures var rewritten, last := RewriteLines(lines, version), LastTurbo(lines, |lines|);
            var absent := Absent(Seen(lines, |lines|), 0);
            BlockLines(lines, version) ==
            if absent == [] || last < 0 then rewritten
            else rewritten[..last + 1] + AddedLines(Indent(rewritten[last]), absent, version) + rewritten[last + 1..]
  {
    hide PackageOf, RewriteLine, Indent, Absent, Seen, LastTurbo;
    LastTurboIsLast(lines, |lines|);
  }

  lemma OneMoreLine(lines: seq<string>, i: nat)
    requires i < |lines|
    ensures Seen(lines, i + 1) ==
            Seen(lines, i) + match PackageOf(lines[i]) case None => {} case Some(pkg) => {pkg}
    ensures LastTurbo(lines, i + 1) == if PackageOf(lines[i]).Some? then i else LastTurbo(lines, i)
  {
    hide PackageOf;
  }

  lemma BeforeAnyLine(lines: seq<string>)
    ensures Seen(lines, 0) == {} && LastTurbo(lines, 0) == -1
  {
  }

  method RewriteExcludeBlock(text: string, version: string) returns (result: string)
    ensures result == RewriteBlock(text, version)
  {
    hide PackageOf, RewriteLine, EntryLine, Indent, Absent, AddedLines, Split, Join, PACKAGES, RewriteLines, BlockLines,
         LastTurbo, Seen;
    var lines := Split(text, NL);
    var seen: set<string> := {};
    var lastTurboIndex := -1;
    var rewritten: seq<string> := [];
    BeforeAnyLine(lines);
    for i := 0 to |lines|
      invariant rewritten == RewriteLines(lines, version)[..i]
      invariant seen == Seen(lines, i)
      invariant lastTurboIndex == LastTurbo(lines, i)
    {
      var pkg := PackageOf(lines[i]);
      OneMoreLine(lines, i);
      if pkg.Some? {
        seen := seen + {pkg.value};
        lastTurboIndex := i;
      }
      rewritten := rewritten + [RewriteLine(lines[i], version)];
    }
    assert rewritten == RewriteLines(lines, version);
    LastTurboIsLast(lines, |lines|);
    var absent := Absent(seen, 0);
    if absent != [] && lastTurboIndex >= 0 {
      var indent := Indent(rewritten[lastTurboIndex]);
      var added := AddedLines(indent, absent, version);
      rewritten := rewritten[..lastTurboIndex + 1] + added + rewritten[lastTurboIndex + 1..];
    }
    BlockAsSpliced(lines, version);
    assert rewritten == BlockLines(lines, version);
    result := Join(rewritten, NL);
  }

  /** The guard's question: which packages have no exempted entry for `version`. */
  function FirstEntry(lines: seq<string>, pkg: string): Option<string> {
    if lines == [] then None
    else if pkg + "@" <= Body(lines[0]) then Some(lines[0])
    else FirstEntry(lines[1..], pkg)
  }

  predicate Missing(lines: seq<string>, version: string, pkg: string) {
    var line := FirstEntry(lines, pkg);
    line.None? || version !in VersionsInExcludeLine(line.value)
  }

  function MissingFrom(lines: seq<string>, version: string, i: nat): seq<string>
    requires i <= |PACKAGES|
    decreases |PACKAGES| - i
  {
    if i == |PACKAGES| then []
    else (if Missing(lines, version, PACKAGES[i]) then [PACKAGES[i]] else []) + MissingFrom(lines, version, i + 1)
  }

  function MissingTurboExcludes(lines: seq<string>, version: string): seq<string> {
    MissingFrom(lines, version, 0)
  }

  // ------------------------------------------------------------- well-formedness

  /** A version the list syntax can carry. */
  predicate GoodVersion(v: string) {
    v != "" && Trimmed(v) && Index(v, BARS) == -1 && '@' !in v && '\'' !in v && '\n' !in v
  }

  predicate GoodVersions(vs: seq<string>) {
    forall i | 0 <= i < |vs| :: GoodVersion(vs[i])
  }

  /** A turbo entry as the file writes it: a dash first, one '@' after the package name,
      quotes only around the whole. Lines of other packages are not constrained. */
  predicate WellFormedLine(line: string) {
    var pkg := PackageOf(line);
    pkg.Some? ==>
      && Trim(line) != "" && Trim(line)[0] == '-'
      && LastIndex(Body(line), '@') == |pkg.value|
      && '\'' !in Body(line)
  }

  predicate WellFormed(text: string) {
    forall i | 0 <= i < |Split(text, NL)| :: WellFormedLine(Split(text, NL)[i])
  }

  // ------------------------------------------------------- names and prefixes

  /** A package name: not empty, no quote, no '@' after its first character, and it starts
      with neither white space nor a dash. */
  predicate Name(pkg: string) {
    && pkg != "" && '\'' !in pkg && '@' !in pkg[1..] && '\n' !in pkg
    && !IsSpace(pkg[0]) && pkg[0] != '-'
  }

  lemma PackagesAreNames()
    ensures forall p | p in PACKAGES :: Name(p)
  {
    forall i | 0 <= i < |PACKAGES| ensures Name(PACKAGES[i]) {
      PackageIsName(i);
    }
  }

  lemma PackageIsName(i: nat)
    requires i < 7
    ensures |PACKAGES| == 7 && Name(PACKAGES[i])
  {
    hide IsSpace, Name, SCOPE;
    ScopedName("darwin-64");
    ScopedName("darwin-arm64");
    ScopedName("linux-64");
    ScopedName("linux-arm64");
    ScopedName("windows-64");
    ScopedName("windows-arm64");
    PlainName();
    assert PACKAGES[i] in PACKAGES;
  }

  lemma ScopedName(platform: string)
    requires '\'' !in platform && '@' !in platform && '\n' !in platform
    ensures Name(SCOPE + platform)
  {
    hide IsSpace;
    SpaceCodes();
    var name := SCOPE + platform;
    assert name[1..] == "turbo/" + platform;
  }

  lemma PlainName()
    ensures Name("turbo")
  {
    hide IsSpace;
    SpaceCodes();
    assert "turbo"[1..] == "urbo";
  }

  lemma SpaceCodes()
    ensures !IsSpace('@') && !IsSpace('t') && !IsSpace('-') && !IsSpace('\'') && IsSpace(' ')
  {
  }

  lemma AtAfterName(p: string, body: string)
    requires Name(p) && p + "@" <= body
    ensures |p| < |body| && body[|p|] == '@'
    ensures forall k | 0 < k < |p| :: body[k] != '@'
    ensures body[..|p|] == p
  {
    assert body[|p|] == (p + "@")[|p|];
    forall k | 0 < k < |p| ensures body[k] != '@' {
      assert body[k] == (p + "@")[k] == p[1..][k - 1];
    }
    assert body[..|p|] == (p + "@")[..|p|];
  }

  /** Two names followed by '@' are prefixes of one text only when they are equal. */
  lemma PrefixDecides(p: string, q: string, body: string)
    requires Name(p) && Name(q) && p + "@" <= body && q + "@" <= body
    ensures p == q
  {
    AtAfterName(p, body);
    AtAfterName(q, body);
  }

  lemma {:induction false} FindPrefix(body: string, pkg: string, i: nat)
    requires i <= |PACKAGES| && pkg in PACKAGES[i..] && pkg + "@" <= body
    ensures FindFrom(body, i) == Some(pkg)
    decreases |PACKAGES| - i
  {
    PackagesAreNames();
    if PACKAGES[i] + "@" <= body {
      PrefixDecides(PACKAGES[i], pkg, body);
    } else {
      FindPrefix(body, pkg, i + 1);
    }
  }

  // ------------------------------------------------- printing and reading versions

  lemma {:induction false} JoinOfVersions(vs: seq<string>)
    requires |vs| >= 1 && GoodVersions(vs)
    ensures var j := Join(vs, BAR);
            && j != "" && '@' !in j && '\'' !in j && '\n' !in j
            && !IsSpace(j[0]) && !IsSpace(j[|j| - 1])
  {
    hide IsSpace;
    if |vs| > 1 {
      JoinOfVersions(vs[1..]);
      assert Join(vs, BAR) == vs[0] + BAR + Join(vs[1..], BAR);
    }
  }

  /** The first bar pair after a version is the one that was joined in. */
  lemma FirstBars(pad: string, v: string, rest: string)
    requires pad == "" || pad == " "
    requires Index(v, BARS) == -1
    ensures Index(pad + v + BAR + rest, BARS) == |pad| + |v| + 1
  {
    hide Index;
    var s, i := pad + v + BAR + rest, |pad| + |v| + 1;
    assert s[i..i + 2] == BARS;
    forall j | 0 <= j < i ensures !OccursAt(s, BARS, j) {
      TwoBars(s, j);
      NoBarsInside(pad, v, BAR + rest, j);
      assert s == pad + v + (BAR + rest);
      assert s[i - 1] == ' ';
      assert j < |pad| ==> s[j] == ' ';
    }
    IndexIs(s, BARS, i);
  }

  lemma TwoBars(s: string, j: int)
    ensures OccursAt(s, BARS, j) ==> 0 <= j && j + 1 < |s| && s[j] == '|' && s[j + 1] == '|'
  {
    assert 0 <= j && j + 2 <= |s| ==> s[j..j + 2][0] == s[j] && s[j..j + 2][1] == s[j + 1];
  }

  /** A pair of bars that lies within `v` would be one of its own. */
  lemma NoBarsInside(pad: string, v: string, rest: string, j: int)
    requires Index(v, BARS) == -1
    ensures |pad| <= j && j + 2 <= |pad| + |v| ==> !OccursAt(pad + v + rest, BARS, j)
  {
    assert !OccursAt(v, BARS, j - |pad|);
    assert |pad| <= j && j + 2 <= |pad| + |v| ==> (pad + v + rest)[j..j + 2] == v[j - |pad|..j - |pad| + 2];
  }

  lemma NoBars(pad: string, v: string)
    requires pad == "" || pad == " "
    requires Index(v, BARS) == -1
    ensures Index(pad + v, BARS) == -1
  {
    var s := pad + v;
    assert s == pad + v + "";
    forall j ensures !OccursAt(s, BARS, j) {
      TwoBars(s, j);
      NoBarsInside(pad, v, "", j);
      assert 0 <= j < |pad| ==> s[j] == ' ';
    }
  }

  /** Reading back a printed version list gives the list. */
  lemma {:induction false} PartsOfJoin(pad: string, vs: seq<string>)
    requires pad == "" || pad == " "
    requires |vs| >= 1 && GoodVersions(vs)
    ensures TrimmedParts(Split(pad + Join(vs, BAR), BARS)) == vs
    decreases |vs|
  {
    hide Trim, Trimmed, TrimmedParts, Split, Index, IsSpace;
    var v := vs[0];
    PadTrim(pad, v) by { assert GoodVersion(v); }
    if |vs| == 1 {
      LastPart(pad, v);
      assert vs == [v];
    } else {
      PartsOfJoin(" ", vs[1..]);
      FirstPart(pad, v, Join(vs[1..], BAR));
      JoinCons(vs, pad);
      assert vs == [v] + vs[1..];
    }
  }

  lemma JoinCons(vs: seq<string>, pad: string)
    requires |vs| >= 2
    ensures pad + Join(vs, BAR) == pad + vs[0] + BAR + Join(vs[1..], BAR)
  {
  }

  lemma LastPart(pad: string, v: string)
    requires (pad == "" || pad == " ") && GoodVersion(v) && Trim(pad + v) == v
    ensures TrimmedParts(Split(pad + v, BARS)) == [v]
  {
    hide Trim;
    NoBars(pad, v);
    assert Split(pad + v, BARS) == [pad + v];
    assert TrimmedParts([pad + v]) == [v];
  }

  lemma FirstPart(pad: string, v: string, rest: string)
    requires (pad == "" || pad == " ") && GoodVersion(v) && Trim(pad + v + " ") == v
    ensures TrimmedParts(Split(pad + v + BAR + rest, BARS)) == [v] + TrimmedParts(Split(" " + rest, BARS))
  {
    hide Trim, TrimmedParts, Split;
    var s := pad + v + BAR + rest;
    FirstBars(pad, v, rest);
    assert s[..|pad| + |v| + 1] == pad + v + " ";
    assert s[|pad| + |v| + 3..] == " " + rest;
    SplitStep(s, pad + v + " ", " " + rest);
  }

  lemma SplitStep(s: string, first: string, rest: string)
    requires Index(s, BARS) == |first| && s[..|first|] == first && s[|first| + 2..] == rest
    ensures Split(s, BARS) == [first] + Split(rest, BARS)
    ensures TrimmedParts(Split(s, BARS)) ==
            (if Trim(first) == "" then [] else [Trim(first)]) + TrimmedParts(Split(rest, BARS))
  {
    hide Trim;
    assert ([first] + Split(rest, BARS))[1..] == Split(rest, BARS);
  }

  lemma PadTrim(pad: string, v: string)
    requires (pad == "" || pad == " ") && v != "" && Trimmed(v)
    ensures Trim(pad + v) == v && Trim(pad + v + " ") == v
  {
    SpaceCodes();
    assert AllSpace(pad) && AllSpace(" ") && AllSpace("") by { hide IsSpace; }
    TrimPad(pad, v, "");
    TrimPad(pad, v, " ");
    assert pad + v + "" == pad + v;
  }

  // ------------------------------------------------------ a printed entry, read back

  predicate Listed(pkg: string, vs: seq<string>) {
    pkg in PACKAGES && |vs| >= 1 && GoodVersions(vs)
  }

  lemma TrimEntry(indent: string, core: string)
    requires AllSpace(indent) && core != "" && !IsSpace(core[|core| - 1])
    ensures Trim(indent + "- " + core) == "- " + core
  {
    SpaceCodes();
    assert AllSpace("") by { hide IsSpace; }
    assert indent + "- " + core == indent + ("- " + core) + "";
    TrimPad(indent, "- " + core, "") by { hide IsSpace; }
  }

  lemma DashGone(core: string)
    requires core != "" && !IsSpace(core[0])
    ensures StripDash("- " + core) == core
  {
    hide IsSpace;
    SpaceCodes();
    var s := "- " + core;
    assert s[1] == ' ' && s[2] == core[0];
    assert SkipSpace(s, 1) == 2;
  }

  lemma QuotesGone(body: string, quoted: bool)
    requires body != "" && body[0] != '\'' && body[|body| - 1] != '\''
    ensures StripQuotes(if quoted then "'" + body + "'" else body) == body
  {
  }

  /** What the reader sees of a line the writer produced. */
  lemma BodyOfEntry(indent: string, pkg: string, vs: seq<string>)
    requires AllSpace(indent) && Listed(pkg, vs)
    ensures Body(EntryLine(indent, pkg, vs)) == pkg + "@" + Join(vs, BAR)
    ensures Trim(EntryLine(indent, pkg, vs)) == "- " + ExcludeLineFor(pkg, vs)
  {
    hide IsSpace, Trim, StripDash, StripQuotes, PACKAGES, Join;
    PackagesAreNames();
    JoinOfVersions(vs);
    SpaceCodes();
    var body := pkg + "@" + Join(vs, BAR);
    var core := ExcludeLineFor(pkg, vs);
    TrimEntry(indent, core);
    DashGone(core);
    QuotesGone(body, NeedsQuoting(pkg));
  }

  lemma EntryPackage(indent: string, pkg: string, vs: seq<string>)
    requires AllSpace(indent) && Listed(pkg, vs)
    ensures PackageOf(EntryLine(indent, pkg, vs)) == Some(pkg)
  {
    hide Body, EntryLine, PACKAGES, Join;
    BodyOfEntry(indent, pkg, vs);
    assert PACKAGES[0..] == PACKAGES;
    FindPrefix(Body(EntryLine(indent, pkg, vs)), pkg, 0);
  }

  lemma EntryVersions(indent: string, pkg: string, vs: seq<string>)
    requires AllSpace(indent) && Listed(pkg, vs)
    ensures LastIndex(Body(EntryLine(indent, pkg, vs)), '@') == |pkg|
    ensures VersionsInExcludeLine(EntryLine(indent, pkg, vs)) == vs
  {
    hide Body, EntryLine, PACKAGES, Join, Split, TrimmedParts, IsSpace;
    BodyOfEntry(indent, pkg, vs);
    JoinOfVersions(vs);
    PackagesAreNames();
    var j := Join(vs, BAR);
    LastIndexIs(pkg, '@', j);
    assert (pkg + "@" + j)[|pkg| + 1..] == j;
    PartsOfJoin("", vs);
    assert "" + j == j;
  }

  lemma EntryIndent(indent: string, pkg: string, vs: seq<string>)
    requires AllSpace(indent)
    ensures Indent(EntryLine(indent, pkg, vs)) == indent
  {
    hide ExcludeLineFor;
    DashFound(indent, " " + ExcludeLineFor(pkg, vs));
    assert EntryLine(indent, pkg, vs) == indent + "-" + (" " + ExcludeLineFor(pkg, vs));
  }

  lemma DashFound(indent: string, rest: string)
    requires AllSpace(indent)
    ensures Index(indent + "-" + rest, "-") == |indent|
  {
    hide IsSpace;
    SpaceCodes();
    var s := indent + "-" + rest;
    forall j | 0 <= j <= |indent| ensures OccursAt(s, "-", j) <==> j == |indent| {
      OneChar(s, '-', j);
    }
    IndexIs(s, "-", |indent|);
  }

  /** A line the writer produced for `version` is left alone by a second run. */
  lemma EntryIsStable(indent: string, pkg: string, vs: seq<string>, version: string)
    requires AllSpace(indent) && Listed(pkg, vs) && version in vs
    ensures RewriteLine(EntryLine(indent, pkg, vs), version) == EntryLine(indent, pkg, vs)
  {
    hide PackageOf, VersionsInExcludeLine, Indent, EntryLine, PACKAGES;
    EntryPackage(indent, pkg, vs);
    EntryVersions(indent, pkg, vs);
    EntryIndent(indent, pkg, vs);
  }

  // ----------------------------------------------------- reading a hand-written entry

  lemma TrimCharacters(s: string)
    ensures forall c :: c in Trim(s) ==> c in s
  {
    hide IsSpace;
  }

  lemma BodyCharacters(line: string)
    ensures forall c :: c in Body(line) ==> c in line
  {
    hide Trim;
    TrimCharacters(line);
  }

  lemma SliceOfSlice(s: string, i: nat, j: nat, k: nat, l: nat)
    requires i <= j <= |s| && k <= l <= j - i
    ensures s[i..j][k..l] == s[i + k..i + l]
  {
    assert forall m | 0 <= m < l - k :: s[i..j][k..l][m] == s[i + k..i + l][m];
  }

  lemma SliceHasNoBars(s: string, i: nat, j: nat)
    requires i <= j <= |s| && Index(s, BARS) == -1
    ensures Index(s[i..j], BARS) == -1
  {
    forall k ensures !OccursAt(s[i..j], BARS, k) {
      assert !OccursAt(s, BARS, i + k);
      if 0 <= k && k + 2 <= j - i { SliceOfSlice(s, i, j, k, k + 2); }
    }
  }

  lemma TrimHasNoBars(s: string)
    requires Index(s, BARS) == -1
    ensures Index(Trim(s), BARS) == -1
  {
    hide IsSpace, Index;
    var n := SkipSpace(s, 0);
    var u := s[n..];
    var m := SkipSpaceBack(u, |u|);
    assert Trim(s) == s[n..n + m];
    SliceHasNoBars(s, n, n + m);
  }

  /** Every version read from a text without '@', quote or line break is a good one. */
  lemma {:induction false} PartsAreGood(s: string)
    requires '@' !in s && '\'' !in s && '\n' !in s
    ensures GoodVersions(TrimmedParts(Split(s, BARS)))
    decreases |s|
  {
    var i := Index(s, BARS);
    if i == -1 {
      PartIsGood(s);
      assert TrimmedParts([s]) == if Trim(s) == "" then [] else [Trim(s)];
    } else {
      var first, rest := s[..i], s[i + 2..];
      PrefixHasNoBars(s, i);
      PartIsGood(first);
      PartsAreGood(rest);
      SplitStep(s, first, rest);
    }
  }

  lemma PrefixHasNoBars(s: string, i: nat)
    requires i <= |s| && forall j :: 0 <= j < i ==> !OccursAt(s, BARS, j)
    ensures Index(s[..i], BARS) == -1
  {
    forall k ensures !OccursAt(s[..i], BARS, k) {
      assert 0 <= k < i ==> !OccursAt(s, BARS, k);
      assert 0 <= k && k + 2 <= i ==> s[..i][k..k + 2] == s[k..k + 2];
    }
  }

  lemma PartIsGood(s: string)
    requires Index(s, BARS) == -1 && '@' !in s && '\'' !in s && '\n' !in s
    ensures Trim(s) != "" ==> GoodVersion(Trim(s))
  {
    TrimHasNoBars(s);
    TrimCharacters(s);
    assert Trimmed(Trim(s));
  }

  lemma ReadVersionsAreGood(line: string)
    requires WellFormedLine(line) && PackageOf(line).Some? && '\n' !in line
    ensures GoodVersions(VersionsInExcludeLine(line))
  {
    hide Body, PackageOf, Split, TrimmedParts, GoodVersion;
    var body := Body(line);
    var at := LastIndex(body, '@');
    BodyCharacters(line);
    if at > 0 {
      var s := body[at + 1..];
      assert '@' !in s && '\'' !in s && '\n' !in s;
      PartsAreGood(s);
    }
  }

  lemma ReadIndentIsSpace(line: string)
    requires Trim(line) != "" && Trim(line)[0] == '-'
    ensures AllSpace(Indent(line))
  {
    hide IsSpace;
    SpaceCodes();
    var n := SkipSpace(line, 0);
    assert line[n] == '-';
    assert line == line[..n] + "-" + line[n + 1..];
    DashFound(line[..n], line[n + 1..]);
  }

  /** What a rewritten turbo line is. */
  lemma RewrittenTurboLine(line: string, version: string) returns (indent: string, pkg: string, vs: seq<string>)
    requires WellFormedLine(line) && PackageOf(line).Some? && '\n' !in line && GoodVersion(version)
    ensures AllSpace(indent) && Listed(pkg, vs) && version in vs
    ensures PackageOf(line) == Some(pkg) && indent == Indent(line)
    ensures vs == WithTurboVersion(VersionsInExcludeLine(line), version)
    ensures RewriteLine(line, version) == EntryLine(indent, pkg, vs)
  {
    hide Body, Trim, Indent, VersionsInExcludeLine, GoodVersion, EntryLine, PACKAGES;
    ReadVersionsAreGood(line);
    ReadIndentIsSpace(line);
    indent, pkg := Indent(line), PackageOf(line).value;
    vs := WithTurboVersion(VersionsInExcludeLine(line), version);
  }

  // ------------------------------------------------------------------ whole files

  datatype Entry = Entry(indent: string, pkg: string, versions: seq<string>)

  /** The exclude list a file states: its turbo entries in order. */
  function Entries(lines: seq<string>): seq<Entry> {
    if lines == [] then []
    else
      var last := lines[|lines| - 1];
      Entries(lines[..|lines| - 1]) +
      match PackageOf(last)
      case None => []
      case Some(pkg) => [Entry(Indent(last), pkg, VersionsInExcludeLine(last))]
  }

  /** Everything else in the file, in order. */
  function Others(lines: seq<string>): seq<string> {
    if lines == [] then []
    else
      var last := lines[|lines| - 1];
      Others(lines[..|lines| - 1]) + if PackageOf(last).None? then [last] else []
  }

  function Bumped(entries: seq<Entry>, version: string): seq<Entry> {
    seq(|entries|, i requires 0 <= i < |entries| =>
      entries[i].(versions := WithTurboVersion(entries[i].versions, version)))
  }

  function Appended(indent: string, absent: seq<string>, version: string): seq<Entry> {
    seq(|absent|, i requires 0 <= i < |absent| => Entry(indent, absent[i], [version]))
  }

  predicate WellFormedLines(lines: seq<string>) {
    forall i | 0 <= i < |lines| :: WellFormedLine(lines[i]) && '\n' !in lines[i]
  }

  lemma NoLines()
    ensures Entries([]) == [] && Others([]) == []
  {
  }

  lemma EntriesSnoc(lines: seq<string>, last: string)
    ensures Entries(lines + [last]) == Entries(lines) + Entries([last])
    ensures Others(lines + [last]) == Others(lines) + Others([last])
  {
    hide PackageOf, Indent, VersionsInExcludeLine;
    assert (lines + [last])[..|lines + [last]| - 1] == lines;
    assert [last][..0] == [];
  }

  lemma {:induction false} EntriesConcat(a: seq<string>, b: seq<string>)
    ensures Entries(a + b) == Entries(a) + Entries(b)
    ensures Others(a + b) == Others(a) + Others(b)
  {
    hide PackageOf, Indent, VersionsInExcludeLine, Entries, Others;
    if b == [] {
      assert a + b == a;
      NoLines();
    } else {
      var init, last := b[..|b| - 1], b[|b| - 1];
      EntriesConcat(a, init);
      assert a + b == (a + init) + [last] && b == init + [last];
      EntriesSnoc(a + init, last);
      EntriesSnoc(init, last);
    }
  }

  /** Rewriting in place bumps every entry and touches no other line. */
  lemma {:induction false} RewriteBumpsEntries(lines: seq<string>, version: string)
    requires WellFormedLines(lines) && GoodVersion(version)
    ensures Entries(RewriteLines(lines, version)) == Bumped(Entries(lines), version)
    ensures Others(RewriteLines(lines, version)) == Others(lines)
    decreases |lines|
  {
    hide PackageOf, Indent, VersionsInExcludeLine, RewriteLine, WellFormedLine, WithTurboVersion, GoodVersion,
         Entries, Others, Bumped;
    if lines == [] {
      NoLines();
      assert Bumped([], version) == [] by { NothingBumped(version); }
    } else {
      var init, last := lines[..|lines| - 1], lines[|lines| - 1];
      RewriteBumpsEntries(init, version);
      var r := RewriteLines(lines, version);
      RewrittenLineBumps(last, version);
      BumpedSnoc(Entries(init), Entries([last]), version);
      EntriesSnoc(init, last);
      EntriesSnoc(RewriteLines(init, version), RewriteLine(last, version));
      assert lines == init + [last] && r == RewriteLines(init, version) + [RewriteLine(last, version)];
    }
  }

  lemma NothingBumped(version: string)
    ensures Bumped([], version) == []
  {
  }

  lemma BumpedSnoc(a: seq<Entry>, b: seq<Entry>, version: string)
    ensures Bumped(a + b, version) == Bumped(a, version) + Bumped(b, version)
  {
  }

  lemma OneLine(line: string)
    ensures Entries([line]) == match PackageOf(line)
                               case None => []
                               case Some(pkg) => [Entry(Indent(line), pkg, VersionsInExcludeLine(line))]
    ensures Others([line]) == if PackageOf(line).None? then [line] else []
  {
    hide PackageOf, Indent, VersionsInExcludeLine;
    assert [line][..0] == [];
  }

  lemma RewrittenLineBumps(line: string, version: string)
    requires WellFormedLine(line) && '\n' !in line && GoodVersion(version)
    ensures Entries([RewriteLine(line, version)]) == Bumped(Entries([line]), version)
    ensures Others([RewriteLine(line, version)]) == Others([line])
  {
    hide PackageOf, Indent, VersionsInExcludeLine, EntryLine, WithTurboVersion, PACKAGES, GoodVersion;
    OneLine(line);
    OneLine(RewriteLine(line, version));
    if PackageOf(line).Some? {
      var indent, pkg, vs := RewrittenTurboLine(line, version);
      EntryPackage(indent, pkg, vs);
      EntryVersions(indent, pkg, vs);
      EntryIndent(indent, pkg, vs);
    }
  }

  lemma OneAdded(indent: string, pkg: string, version: string)
    requires AllSpace(indent) && GoodVersion(version) && pkg in PACKAGES
    ensures Entries([EntryLine(indent, pkg, [version])]) == [Entry(indent, pkg, [version])]
    ensures Others([EntryLine(indent, pkg, [version])]) == []
  {
    hide PackageOf, Indent, VersionsInExcludeLine, EntryLine, PACKAGES, GoodVersion, IsSpace, Entries, Others;
    OneLine(EntryLine(indent, pkg, [version]));
    EntryPackage(indent, pkg, [version]);
    EntryVersions(indent, pkg, [version]);
    EntryIndent(indent, pkg, [version]);
  }

  lemma {:induction false} AddedEntries(indent: string, absent: seq<string>, version: string)
    requires AllSpace(indent) && GoodVersion(version)
    requires forall i | 0 <= i < |absent| :: absent[i] in PACKAGES
    ensures Entries(AddedLines(indent, absent, version)) == Appended(indent, absent, version)
    ensures Others(AddedLines(indent, absent, version)) == []
    decreases |absent|
  {
    hide PackageOf, Indent, VersionsInExcludeLine, EntryLine, PACKAGES, GoodVersion, IsSpace, Entries, Others;
    if absent == [] {
      NoLines();
    } else {
      AddedEntries(indent, absent[1..], version);
      OneAdded(indent, absent[0], version);
      EntriesConcat([EntryLine(indent, absent[0], [version])], AddedLines(indent, absent[1..], version));
      assert AddedLines(indent, absent, version) ==
             [EntryLine(indent, absent[0], [version])] + AddedLines(indent, absent[1..], version);
      assert Appended(indent, absent, version) ==
             [Entry(indent, absent[0], [version])] + Appended(indent, absent[1..], version);
    }
  }

  lemma {:induction false} NoTurboNoEntries(lines: seq<string>)
    requires forall k | 0 <= k < |lines| :: PackageOf(lines[k]).None?
    ensures Entries(lines) == [] && Others(lines) == lines
  {
    hide PackageOf;
    if lines != [] {
      NoTurboNoEntries(lines[..|lines| - 1]);
      assert lines == lines[..|lines| - 1] + [lines[|lines| - 1]];
    }
  }

  lemma {:induction false} AbsentAreListed(seen: set<string>, i: nat)
    requires i <= |PACKAGES|
    ensures forall p :: p in Absent(seen, i) <==> p in PACKAGES[i..] && p !in seen
    decreases |PACKAGES| - i
  {
    if i < |PACKAGES| {
      AbsentAreListed(seen, i + 1);
      assert PACKAGES[i..] == [PACKAGES[i]] + PACKAGES[i + 1..];
    }
  }

  // -------------------------------------------------------------- the main laws

  /** After the last turbo entry nothing is rewritten and nothing is an entry. */
  lemma TailUnchanged(lines: seq<string>, version: string, from: nat)
    requires from <= |lines|
    requires forall k | from <= k < |lines| :: PackageOf(lines[k]).None?
    ensures RewriteLines(lines, version)[from..] == lines[from..]
    ensures Entries(lines[from..]) == []
  {
    hide PackageOf, RewriteLine;
    forall k | from <= k < |lines| ensures RewriteLine(lines[k], version) == lines[k] {
      NonTurboUnchanged(lines[k], version);
    }
    var tail := lines[from..];
    assert forall k | 0 <= k < |tail| :: tail[k] == lines[from + k];
    NoTurboNoEntries(tail);
  }

  lemma CutEntries(r: seq<string>, k: nat)
    requires k <= |r|
    ensures Entries(r) == Entries(r[..k]) + Entries(r[k..])
    ensures Others(r) == Others(r[..k]) + Others(r[k..])
  {
    hide PackageOf, Indent, VersionsInExcludeLine, Entries, Others;
    EntriesConcat(r[..k], r[k..]);
    assert r == r[..k] + r[k..];
  }

  lemma RewrittenIndent(line: string, version: string)
    requires WellFormedLine(line) && PackageOf(line).Some? && '\n' !in line && GoodVersion(version)
    ensures AllSpace(Indent(RewriteLine(line, version)))
    ensures '\n' !in Indent(RewriteLine(line, version)) && Indent(RewriteLine(line, version)) == Indent(line)
  {
    hide PackageOf, Indent, VersionsInExcludeLine, EntryLine, RewriteLine, PACKAGES, GoodVersion, WellFormedLine,
         IsSpace;
    var indent, pkg, vs := RewrittenTurboLine(line, version);
    EntryIndent(indent, pkg, vs);
    IndentBreakFree(line);
  }

  /** The text around the last turbo entry. */
  lemma CutAtLastTurbo(lines: seq<string>, version: string)
    requires WellFormedLines(lines) && GoodVersion(version)
    requires LastTurbo(lines, |lines|) >= 0
    ensures LastTurbo(lines, |lines|) < |lines|
    ensures var r, last := RewriteLines(lines, version), LastTurbo(lines, |lines|);
            && AllSpace(Indent(r[last])) && '\n' !in Indent(r[last])
            && Entries(r[..last + 1]) == Bumped(Entries(lines), version)
            && Others(r[..last + 1]) + Others(r[last + 1..]) == Others(lines)
            && Entries(r[last + 1..]) == []
  {
    hide PackageOf, Indent, RewriteLine, WellFormedLine, GoodVersion, LastTurbo, Entries, Others, Bumped, IsSpace;
    LastTurboIsLast(lines, |lines|);
    RewriteBumpsEntries(lines, version);
    var r, last := RewriteLines(lines, version), LastTurbo(lines, |lines|);
    TailUnchanged(lines, version, last + 1);
    CutEntries(r, last + 1);
    RewrittenIndent(lines[last], version);
  }

  lemma NonTurboUnchanged(line: string, version: string)
    requires PackageOf(line).None?
    ensures RewriteLine(line, version) == line
  {
    hide PackageOf;
  }

  lemma BumpedAround(a: seq<string>, added: seq<string>, b: seq<string>)
    ensures Entries(a + added + b) == Entries(a) + Entries(added) + Entries(b)
    ensures Others(a + added + b) == Others(a) + Others(added) + Others(b)
  {
    EntriesConcat(a + added, b);
    EntriesConcat(a, added);
  }

  /** The packages that get a new entry. */
  function Unlisted(lines: seq<string>): seq<string> {
    Absent(Seen(lines, |lines|), 0)
  }

  lemma UnlistedArePackages(lines: seq<string>)
    ensures forall p :: p in Unlisted(lines) <==> p in PACKAGES && p !in Seen(lines, |lines|)
  {
    AbsentAreListed(Seen(lines, |lines|), 0);
    assert PACKAGES[0..] == PACKAGES;
  }

  /** The new exclude list is the old one with the version added to every entry that lacks
      it, followed by one entry for each package that had none; no other line changes. */
  lemma BlockIsBumped(lines: seq<string>, version: string) returns (indent: string)
    requires WellFormedLines(lines) && GoodVersion(version)
    ensures AllSpace(indent)
    ensures Others(BlockLines(lines, version)) == Others(lines)
    ensures LastTurbo(lines, |lines|) < 0 ==> BlockLines(lines, version) == lines
    ensures LastTurbo(lines, |lines|) >= 0 ==>
              Entries(BlockLines(lines, version)) ==
              Bumped(Entries(lines), version) + Appended(indent, Unlisted(lines), version)
  {
    hide PackageOf, Indent, RewriteLine, WellFormedLine, GoodVersion, PACKAGES, LastTurbo, IsSpace, Seen, Absent,
         Entries, Others, Bumped, Appended, BlockLines, AddedLines;
    indent := "";
    var r, last := RewriteLines(lines, version), LastTurbo(lines, |lines|);
    if last < 0 {
      NoTurboSame(lines, version);
    } else {
      CutAtLastTurbo(lines, version);
      indent := Indent(r[last]);
      var absent := Unlisted(lines);
      UnlistedArePackages(lines);
      AddedEntries(indent, absent, version);
      BlockCut(lines, version);
      BumpedAround(r[..last + 1], AddedLines(indent, absent, version), r[last + 1..]);
    }
  }

  lemma NoTurboSame(lines: seq<string>, version: string)
    requires LastTurbo(lines, |lines|) < 0
    ensures BlockLines(lines, version) == lines
  {
    hide LastTurbo, Seen, Absent, RewriteLines;
    NoTurboRewritten(lines, version);
  }

  lemma BlockCut(lines: seq<string>, version: string)
    requires LastTurbo(lines, |lines|) >= 0
    ensures -1 <= LastTurbo(lines, |lines|) < |lines|
    ensures var r, last := RewriteLines(lines, version), LastTurbo(lines, |lines|);
            BlockLines(lines, version) ==
            r[..last + 1] + AddedLines(Indent(r[last]), Unlisted(lines), version) + r[last + 1..]
  {
    hide PackageOf, RewriteLine, LastTurbo, Indent, Seen, Absent;
    LastTurboIsLast(lines, |lines|);
    var r, last := RewriteLines(lines, version), LastTurbo(lines, |lines|);
    assert r[..last + 1] + [] + r[last + 1..] == r;
  }

  lemma {:induction false} HasEntries(lines: seq<string>, k: nat)
    requires k < |lines| && PackageOf(lines[k]).Some?
    ensures Entries(lines) != []
    decreases |lines|
  {
    hide PackageOf, Indent, VersionsInExcludeLine;
    if k < |lines| - 1 {
      HasEntries(lines[..|lines| - 1], k);
    }
  }

  /** A line that a run at `version` leaves alone and that carries no line break. */
  predicate Stable(line: string, version: string) {
    RewriteLine(line, version) == line && '\n' !in line
    && (PackageOf(line).Some? ==> version in VersionsInExcludeLine(line))
  }

  predicate AllStable(lines: seq<string>, version: string) {
    forall i | 0 <= i < |lines| :: Stable(lines[i], version)
  }

  lemma StableEntry(indent: string, pkg: string, vs: seq<string>, version: string)
    requires AllSpace(indent) && '\n' !in indent && Listed(pkg, vs) && version in vs
    ensures Stable(EntryLine(indent, pkg, vs), version)
  {
    EntryIsStable(indent, pkg, vs, version);
    EntryVersions(indent, pkg, vs);
    EntryBreakFree(indent, pkg, vs);
    hide PackageOf, VersionsInExcludeLine, RewriteLine, EntryLine;
  }

  lemma EntryBreakFree(indent: string, pkg: string, vs: seq<string>)
    requires '\n' !in indent && Listed(pkg, vs)
    ensures '\n' !in EntryLine(indent, pkg, vs)
  {
    hide PACKAGES, Join;
    PackagesAreNames();
    JoinOfVersions(vs);
  }

  lemma IndentBreakFree(line: string)
    requires '\n' !in line
    ensures '\n' !in Indent(line)
  {
  }

  lemma RewrittenIsStable(line: string, version: string)
    requires WellFormedLine(line) && '\n' !in line && GoodVersion(version)
    ensures Stable(RewriteLine(line, version), version)
  {
    hide PackageOf, Indent, VersionsInExcludeLine, EntryLine, GoodVersion, PACKAGES;
    if PackageOf(line).Some? {
      var indent, pkg, vs := RewrittenTurboLine(line, version);
      IndentBreakFree(line);
      StableEntry(indent, pkg, vs, version);
    }
  }

  lemma AddedAreStable(indent: string, absent: seq<string>, version: string)
    requires AllSpace(indent) && '\n' !in indent && GoodVersion(version)
    requires forall p | p in absent :: p in PACKAGES
    ensures AllStable(AddedLines(indent, absent, version), version)
  {
    hide EntryLine, GoodVersion, PACKAGES, IsSpace, Stable;
    forall i | 0 <= i < |absent| ensures Stable(AddedLines(indent, absent, version)[i], version) {
      assert absent[i] in absent;
      StableEntry(indent, absent[i], [version], version);
    }
  }

  lemma RewrittenAreStable(lines: seq<string>, version: string)
    requires WellFormedLines(lines) && GoodVersion(version)
    ensures AllStable(RewriteLines(lines, version), version)
  {
    hide RewriteLine, WellFormedLine, GoodVersion, Stable;
    forall i | 0 <= i < |lines| ensures Stable(RewriteLines(lines, version)[i], version) {
      RewrittenIsStable(lines[i], version);
    }
  }

  lemma BlockIsStable(lines: seq<string>, version: string)
    requires WellFormedLines(lines) && GoodVersion(version)
    ensures AllStable(BlockLines(lines, version), version)
  {
    hide PackageOf, Indent, RewriteLine, WellFormedLine, GoodVersion, PACKAGES, LastTurbo, IsSpace, Unlisted,
         Stable, AddedLines, BlockLines, Entries, Others, Bumped;
    var r, last := RewriteLines(lines, version), LastTurbo(lines, |lines|);
    RewrittenAreStable(lines, version);
    if last < 0 {
      NoTurboSame(lines, version);
      NoTurboRewritten(lines, version);
    } else {
      CutAtLastTurbo(lines, version);
      BlockCut(lines, version);
      UnlistedArePackages(lines);
      AddedAreStable(Indent(r[last]), Unlisted(lines), version);
    }
  }

  lemma NoTurboRewritten(lines: seq<string>, version: string)
    requires LastTurbo(lines, |lines|) < 0
    ensures RewriteLines(lines, version) == lines
  {
    hide PackageOf, LastTurbo;
    LastTurboIsLast(lines, |lines|);
    TailUnchanged(lines, version, 0);
  }

  lemma StableBreakFree(line: string, version: string)
    requires Stable(line, version)
    ensures '\n' !in line
  {
  }

  // ------------------------------------------------------------ a second run

  predicate Lists(lines: seq<string>, pkg: string) {
    exists k | 0 <= k < |lines| :: PackageOf(lines[k]) == Some(pkg)
  }

  lemma {:induction false} SeenAreListed(lines: seq<string>, n: nat, pkg: string)
    requires n <= |lines|
    ensures pkg in Seen(lines, n) <==> exists k | 0 <= k < n :: PackageOf(lines[k]) == Some(pkg)
  {
    hide PackageOf;
    if n > 0 { SeenAreListed(lines, n - 1, pkg); }
  }

  predicate HasEntry(entries: seq<Entry>, pkg: string) {
    exists i | 0 <= i < |entries| :: entries[i].pkg == pkg
  }

  lemma {:induction false} EntriesAreListed(lines: seq<string>, pkg: string)
    ensures HasEntry(Entries(lines), pkg) <==> Lists(lines, pkg)
    decreases |lines|
  {
    hide PackageOf, Indent, VersionsInExcludeLine;
    if lines != [] {
      var init, last := lines[..|lines| - 1], lines[|lines| - 1];
      EntriesAreListed(init, pkg);
      OneLine(last);
      var a, b := Entries(init), Entries([last]);
      assert Entries(lines) == a + b;
      EntryEither(a, b, pkg);
      assert HasEntry(b, pkg) <==> PackageOf(last) == Some(pkg) by {
        if b != [] { assert b[0].pkg == pkg <==> PackageOf(last) == Some(pkg); }
      }
      ListsSnoc(lines, pkg);
    }
  }

  lemma ListsSnoc(lines: seq<string>, pkg: string)
    requires lines != []
    ensures Lists(lines, pkg) <==> Lists(lines[..|lines| - 1], pkg) || PackageOf(lines[|lines| - 1]) == Some(pkg)
  {
    hide PackageOf;
    var init := lines[..|lines| - 1];
    assert forall k | 0 <= k < |init| :: init[k] == lines[k];
    if Lists(init, pkg) {
      var k :| 0 <= k < |init| && PackageOf(init[k]) == Some(pkg);
      assert PackageOf(lines[k]) == Some(pkg);
    }
    if Lists(lines, pkg) {
      var k :| 0 <= k < |lines| && PackageOf(lines[k]) == Some(pkg);
      assert k < |init| ==> PackageOf(init[k]) == Some(pkg);
    }
  }

  lemma EntryEither(a: seq<Entry>, b: seq<Entry>, pkg: string)
    ensures HasEntry(a + b, pkg) <==> HasEntry(a, pkg) || HasEntry(b, pkg)
  {
    var c := a + b;
    if HasEntry(c, pkg) {
      var i :| 0 <= i < |c| && c[i].pkg == pkg;
      assert if i < |a| then a[i].pkg == pkg else b[i - |a|].pkg == pkg;
    }
    if HasEntry(a, pkg) {
      var i :| 0 <= i < |a| && a[i].pkg == pkg;
      assert c[i].pkg == pkg;
    }
    if HasEntry(b, pkg) {
      var i :| 0 <= i < |b| && b[i].pkg == pkg;
      assert c[|a| + i].pkg == pkg;
    }
  }

  /** After a run over a file with a turbo entry, every package has one. */
  lemma BlockListsEvery(lines: seq<string>, version: string, pkg: string)
    requires WellFormedLines(lines) && GoodVersion(version)
    requires LastTurbo(lines, |lines|) >= 0 && pkg in PACKAGES
    ensures Lists(BlockLines(lines, version), pkg)
  {
    hide PackageOf, Indent, PACKAGES, LastTurbo, GoodVersion, WellFormedLines, BlockLines, Seen, Entries, Unlisted,
         IsSpace;
    var indent := BlockIsBumped(lines, version);
    var kept, added := Bumped(Entries(lines), version), Appended(indent, Unlisted(lines), version);
    UnlistedArePackages(lines);
    SeenAreListed(lines, |lines|, pkg);
    EntriesAreListed(lines, pkg);
    if pkg in Seen(lines, |lines|) {
      var i :| 0 <= i < |Entries(lines)| && Entries(lines)[i].pkg == pkg;
      assert kept[i].pkg == pkg;
    } else {
      var i :| 0 <= i < |Unlisted(lines)| && Unlisted(lines)[i] == pkg;
      assert added[i].pkg == pkg;
    }
    EntryEither(kept, added, pkg);
    EntriesAreListed(BlockLines(lines, version), pkg);
  }

  lemma {:induction false} StableRewritten(lines: seq<string>, version: string)
    requires AllStable(lines, version)
    ensures RewriteLines(lines, version) == lines
  {
    hide RewriteLine, PackageOf, VersionsInExcludeLine;
    forall i | 0 <= i < |lines| ensures RewriteLine(lines[i], version) == lines[i] {
      assert Stable(lines[i], version);
    }
  }

  lemma NothingUnlisted(lines: seq<string>)
    requires forall p | p in PACKAGES :: Lists(lines, p)
    ensures Unlisted(lines) == []
  {
    hide PACKAGES, Seen, Unlisted, Lists;
    var unlisted := Unlisted(lines);
    assert unlisted == [] || unlisted[0] in unlisted;
    UnlistedArePackages(lines);
    forall p | p in PACKAGES ensures p in Seen(lines, |lines|) {
      SeenAreListed(lines, |lines|, p);
      ListsMeans(lines, p);
    }
  }

  lemma ListsMeans(lines: seq<string>, pkg: string)
    ensures Lists(lines, pkg) <==> exists k | 0 <= k < |lines| :: PackageOf(lines[k]) == Some(pkg)
  {
    hide PackageOf;
  }

  lemma SettledBlock(lines: seq<string>, version: string)
    requires AllStable(lines, version)
    requires LastTurbo(lines, |lines|) < 0 || Unlisted(lines) == []
    ensures BlockLines(lines, version) == lines
  {
    hide PackageOf, LastTurbo, Seen, Absent, AllStable;
    StableRewritten(lines, version);
  }

  /** A run leaves alone what the previous run at the same version produced. */
  lemma SecondRunKeeps(lines: seq<string>, version: string)
    requires WellFormedLines(lines) && GoodVersion(version)
    ensures BlockLines(BlockLines(lines, version), version) == BlockLines(lines, version)
  {
    hide PackageOf, LastTurbo, WellFormedLines, GoodVersion, BlockLines, AllStable, Unlisted, PACKAGES, Lists;
    var once := BlockLines(lines, version);
    BlockIsStable(lines, version);
    if LastTurbo(lines, |lines|) < 0 {
      NoTurboSame(lines, version);
    } else {
      forall p | p in PACKAGES ensures Lists(once, p) { BlockListsEvery(lines, version, p); }
      NothingUnlisted(once);
      SettledBlock(once, version);
    }
  }

  lemma TextIsWellFormed(text: string)
    requires WellFormed(text)
    ensures WellFormedLines(Split(text, NL))
  {
    hide WellFormedLine, Split;
    SplitLineFree(text, '\n');
  }

  /** The written file has exactly the block's lines. */
  lemma WrittenLines(text: string, version: string)
    requires WellFormed(text) && GoodVersion(version)
    ensures Split(RewriteBlock(text, version), NL) == BlockLines(Split(text, NL), version)
  {
    hide WellFormed, WellFormedLines, GoodVersion, BlockLines, Split, Join, AllStable, Stable;
    TextIsWellFormed(text);
    var lines := BlockLines(Split(text, NL), version);
    BlockIsStable(Split(text, NL), version);
    StableLinesAreBreakFree(lines, version);
    BlockNotEmpty(Split(text, NL), version);
    SplitJoin(lines, '\n');
  }

  lemma StableLinesAreBreakFree(lines: seq<string>, version: string)
    requires AllStable(lines, version)
    ensures LineFree(lines, '\n')
  {
    hide Stable;
    forall i | 0 <= i < |lines| ensures '\n' !in lines[i] { StableBreakFree(lines[i], version); }
  }

  lemma BlockNotEmpty(lines: seq<string>, version: string)
    requires |lines| >= 1
    ensures |BlockLines(lines, version)| >= 1
  {
    hide PackageOf, LastTurbo, Seen, Absent, Indent;
    LastTurboIsLast(lines, |lines|);
  }

  /** Running the rewrite twice at one version is running it once. */
  lemma RewriteIsIdempotent(text: string, version: string)
    requires WellFormed(text) && GoodVersion(version)
    ensures RewriteBlock(RewriteBlock(text, version), version) == RewriteBlock(text, version)
  {
    hide WellFormed, WellFormedLines, GoodVersion, BlockLines, Split, Join;
    TextIsWellFormed(text);
    WrittenLines(text, version);
    SecondRunKeeps(Split(text, NL), version);
  }

  /** The rewritten file carries the same other lines in the same order, and its turbo
      entries are the old ones with the version added, then one for each package without. */
  lemma RewriteKeepsTheRest(text: string, version: string) returns (indent: string)
    requires WellFormed(text) && GoodVersion(version)
    ensures var before, after := Split(text, NL), Split(RewriteBlock(text, version), NL);
            && Others(after) == Others(before)
            && Entries(after) == if LastTurbo(before, |before|) < 0 then Entries(before)
                                 else Bumped(Entries(before), version) + Appended(indent, Unlisted(before), version)
  {
    hide WellFormed, WellFormedLines, GoodVersion, BlockLines, Split, Join, Entries, Others, LastTurbo, Unlisted,
         Bumped, Appended;
    TextIsWellFormed(text);
    WrittenLines(text, version);
    indent := BlockIsBumped(Split(text, NL), version);
  }

  // ---------------------------------------------------- the file, line by line

  /** The turbo entry for `pkg` as the file writes it, character by character: a scoped name in
      quotes, the bare one without. */
  predicate Printed(line: string, indent: string, pkg: string, vs: seq<string>) {
    var entry := pkg + "@" + Join(vs, " || ");
    line == indent + "- " + if "@" <= pkg then "'" + entry + "'" else entry
  }

  lemma EntryIsPrinted(line: string, indent: string, pkg: string, vs: seq<string>)
    requires pkg in PACKAGES
    ensures line == EntryLine(indent, pkg, vs) <==> Printed(line, indent, pkg, vs)
  {
    hide Join, PACKAGES;
    PackagesAreNames();
    assert "@" <= pkg <==> pkg[0] == '@';
  }

  /** The versions an entry carries after a run: the old ones, and the new one last where it lacked. */
  predicate Added(was: seq<string>, now: seq<string>, version: string) {
    if version in was then now == was else now == was + [version]
  }

  /** What a run makes of one line: another package's stays, a turbo entry keeps its indent and its
      package and is printed with the version added. */
  ghost predicate Carried(was: string, now: string, version: string) {
    match PackageOf(was)
    case None => now == was
    case Some(pkg) => exists indent: string, vs: seq<string> ::
      && AllSpace(indent) && indent + "-" <= was
      && Added(VersionsInExcludeLine(was), vs, version) && Printed(now, indent, pkg, vs)
  }

  lemma RewrittenIsCarried(line: string, version: string)
    requires WellFormedLine(line) && '\n' !in line && GoodVersion(version)
    ensures Carried(line, RewriteLine(line, version), version)
  {
    hide PackageOf, VersionsInExcludeLine, Indent, EntryLine, GoodVersion, PACKAGES, Printed;
    if PackageOf(line).Some? {
      var indent, pkg, vs := RewrittenTurboLine(line, version);
      EntryIsPrinted(RewriteLine(line, version), indent, pkg, vs);
      IndentBeforeDash(line);
    }
  }

  lemma IndentBeforeDash(line: string)
    requires WellFormedLine(line) && PackageOf(line).Some?
    ensures Indent(line) + "-" <= line
  {
    hide PackageOf, Body;
    DashInTrim(line);
    var dash := Index(line, "-");
    assert line[dash..dash + 1] == "-";
    assert line[..dash] + "-" == line[..dash + 1];
  }

  lemma DashInTrim(line: string)
    requires Trim(line) != "" && Trim(line)[0] == '-'
    ensures Index(line, "-") >= 0
  {
    TrimCharacters(line);
    assert '-' in Trim(line);
    var k :| 0 <= k < |line| && line[k] == '-';
    assert line[k..k + 1] == "-";
    assert OccursAt(line, "-", k);
  }

  /** The order in which a run adds packages, which is that of the list, without those there are. */
  predicate InOrder(absent: seq<string>) {
    && (forall i | 0 <= i < |absent| :: absent[i] in PACKAGES)
    && forall i, j | 0 <= i < j < |absent| :: Before(absent[i], absent[j])
  }

  predicate Before(p: string, q: string) {
    exists a, b | 0 <= a < b < |PACKAGES| :: PACKAGES[a] == p && PACKAGES[b] == q
  }

  lemma {:induction false} AbsentInOrder(seen: set<string>, i: nat)
    requires i <= |PACKAGES|
    ensures InOrder(Absent(seen, i))
    ensures forall k | 0 <= k < |Absent(seen, i)| :: exists b | i <= b < |PACKAGES| :: PACKAGES[b] == Absent(seen, i)[k]
    decreases |PACKAGES| - i
  {
    hide PACKAGES;
    if i < |PACKAGES| {
      AbsentInOrder(seen, i + 1);
      var rest, all := Absent(seen, i + 1), Absent(seen, i);
      if PACKAGES[i] !in seen {
        assert all == [PACKAGES[i]] + rest;
        forall k | 0 <= k < |rest| ensures Before(PACKAGES[i], rest[k]) {
          var b :| i + 1 <= b < |PACKAGES| && PACKAGES[b] == rest[k];
          assert PACKAGES[i] == PACKAGES[i] && i < b;
        }
      }
    }
  }

  /** The whole run, line by line. Without a turbo entry nothing changes. Else every line up to the last
      such entry is carried over in its place; right after that one, at its indent, come the entries
      of the packages that had none, in the order of the list; and the rest of the file follows. */
  lemma RewrittenLineByLine(text: string, version: string) returns (last: int, absent: seq<string>)
    requires WellFormed(text) && GoodVersion(version)
    ensures var before, after := Split(text, NL), Split(RewriteBlock(text, version), NL);
            && -1 <= last < |before|
            && (forall k | last < k < |before| :: PackageOf(before[k]).None?)
            && (last < 0 ==> after == before && absent == [])
            && (last >= 0 ==>
                  && PackageOf(before[last]).Some? && |after| == |before| + |absent|
                  && (forall p :: p in absent <==> p in PACKAGES && !Lists(before, p)) && InOrder(absent)
                  && (forall k | 0 <= k <= last :: Carried(before[k], after[k], version))
                  && (exists indent: string :: AllSpace(indent) && indent + "-" <= before[last]
                        && forall j | 0 <= j < |absent| :: Printed(after[last + 1 + j], indent, absent[j], [version]))
                  && after[last + 1 + |absent|..] == before[last + 1..])
  {
    hide WellFormed, WellFormedLines, WellFormedLine, GoodVersion, BlockLines, Split, LastTurbo, Unlisted, PackageOf,
         Lists, Carried, Printed, PACKAGES, InOrder;
    var before := Split(text, NL);
    TextIsWellFormed(text);
    WrittenLines(text, version);
    LastTurboIsLast(before, |before|);
    last, absent := LastTurbo(before, |before|), [];
    if last < 0 {
      NoTurboSame(before, version);
    } else {
      absent := Unlisted(before);
      BlockLineByLine(before, version, last, absent);
    }
  }

  lemma BlockLineByLine(before: seq<string>, version: string, last: int, absent: seq<string>)
    requires WellFormedLines(before) && GoodVersion(version)
    requires last == LastTurbo(before, |before|) >= 0 && absent == Unlisted(before)
    ensures last < |before|
    ensures var after := BlockLines(before, version);
            && |after| == |before| + |absent|
            && (forall p :: p in absent <==> p in PACKAGES && !Lists(before, p)) && InOrder(absent)
            && (forall k | 0 <= k <= last :: Carried(before[k], after[k], version))
            && (exists indent: string :: AllSpace(indent) && indent + "-" <= before[last]
                  && forall j | 0 <= j < |absent| :: Printed(after[last + 1 + j], indent, absent[j], [version]))
            && after[last + 1 + |absent|..] == before[last + 1..]
  {
    hide WellFormedLine, GoodVersion, BlockLines, LastTurbo, PackageOf, Carried, Printed, PACKAGES, InOrder, IsSpace,
         RewriteLine, Indent, AddedLines, Absent, Seen, Lists;
    LastTurboIsLast(before, |before|);
    BlockCut(before, version);
    var r := RewriteLines(before, version);
    RewrittenIndent(before[last], version);
    IndentBeforeDash(before[last]);
    var indent := Indent(r[last]);
    assert r[last] == RewriteLine(before[last], version);
    TailUnchanged(before, version, last + 1);
    AbsentAre(before);
    forall k | 0 <= k <= last ensures Carried(before[k], r[k], version) {
      RewrittenIsCarried(before[k], version);
    }
    var added := AddedLines(indent, absent, version);
    AddedArePrinted(indent, absent, version);
    assert r[..last + 1] + added + r[last + 1..] == r[..last + 1] + (added + r[last + 1..]);
  }

  lemma AddedArePrinted(indent: string, absent: seq<string>, version: string)
    requires forall p | p in absent :: p in PACKAGES
    ensures |AddedLines(indent, absent, version)| == |absent|
    ensures forall j | 0 <= j < |absent| ::
              Printed(AddedLines(indent, absent, version)[j], indent, absent[j], [version])
  {
    hide EntryLine, Printed, PACKAGES;
    forall j | 0 <= j < |absent|
      ensures Printed(AddedLines(indent, absent, version)[j], indent, absent[j], [version])
    {
      assert absent[j] in absent;
      EntryIsPrinted(AddedLines(indent, absent, version)[j], indent, absent[j], [version]);
    }
  }

  lemma AbsentAre(lines: seq<string>)
    ensures forall p :: p in Unlisted(lines) <==> p in PACKAGES && !Lists(lines, p)
    ensures InOrder(Unlisted(lines))
  {
    hide PACKAGES, Seen, Absent, Lists, InOrder;
    UnlistedArePackages(lines);
    AbsentInOrder(Seen(lines, |lines|), 0);
    forall p ensures p in Seen(lines, |lines|) <==> Lists(lines, p) {
      SeenAreListed(lines, |lines|, p);
      ListsMeans(lines, p);
    }
  }

  /** An entry written in that form for the version. */
  ghost predicate Settled(line: string, version: string) {
    exists indent: string, pkg: string, vs: seq<string> ::
      AllSpace(indent) && Listed(pkg, vs) && version in vs && Printed(line, indent, pkg, vs)
  }

  /** A file already in that form, with every package listed at the version or none at all, is
      returned unchanged. */
  lemma SettledFileIsUnchanged(text: string, lines: seq<string>, version: string)
    requires lines == Split(text, NL)
    requires forall k | 0 <= k < |lines| && PackageOf(lines[k]).Some? :: Settled(lines[k], version)
    requires (forall k | 0 <= k < |lines| :: PackageOf(lines[k]).None?) || forall p | p in PACKAGES :: Lists(lines, p)
    ensures RewriteBlock(text, version) == text
  {
    hide Split, Join, BlockLines, LastTurbo, Unlisted, PackageOf, Lists, Settled, PACKAGES, AllStable, Stable;
    SplitLineFree(text, '\n');
    LastTurboIsLast(lines, |lines|);
    SettledAreStable(lines, version);
    if LastTurbo(lines, |lines|) >= 0 { NothingUnlisted(lines); }
    SettledBlock(lines, version);
    JoinSplit(text, NL);
  }

  lemma SettledAreStable(lines: seq<string>, version: string)
    requires LineFree(lines, '\n')
    requires forall k | 0 <= k < |lines| && PackageOf(lines[k]).Some? :: Settled(lines[k], version)
    ensures AllStable(lines, version)
  {
    hide PackageOf, Settled, Stable;
    forall k | 0 <= k < |lines| ensures Stable(lines[k], version) {
      SettledIsStable(lines[k], version);
    }
  }

  lemma SettledIsStable(line: string, version: string)
    requires '\n' !in line && (PackageOf(line).Some? ==> Settled(line, version))
    ensures Stable(line, version)
  {
    hide PackageOf, VersionsInExcludeLine, PACKAGES, Printed, EntryLine, Listed;
    if PackageOf(line).Some? {
      var indent: string, pkg: string, vs: seq<string> :|
        AllSpace(indent) && Listed(pkg, vs) && version in vs && Printed(line, indent, pkg, vs);
      ListedIsPackage(pkg, vs);
      EntryIsPrinted(line, indent, pkg, vs);
      PrefixBreakFree(indent, line, pkg, vs);
      StableEntry(indent, pkg, vs, version);
    } else {
      NonTurboUnchanged(line, version);
    }
  }

  lemma ListedIsPackage(pkg: string, vs: seq<string>)
    requires Listed(pkg, vs)
    ensures pkg in PACKAGES
  {
  }

  lemma PrefixBreakFree(indent: string, line: string, pkg: string, vs: seq<string>)
    requires '\n' !in line && line == EntryLine(indent, pkg, vs)
    ensures '\n' !in indent
  {
    hide ExcludeLineFor;
    assert forall i | 0 <= i < |indent| :: indent[i] == line[i];
  }

  /** The seven packages by name, in order. */
  lemma PackagesAre()
    ensures PACKAGES == ["@turbo/darwin-64", "@turbo/darwin-arm64", "@turbo/linux-64", "@turbo/linux-arm64",
                         "@turbo/windows-64", "@turbo/windows-arm64", "turbo"]
  {
    assert SCOPE + "darwin-64" == "@turbo/darwin-64" && SCOPE + "darwin-arm64" == "@turbo/darwin-arm64";
    assert SCOPE + "linux-64" == "@turbo/linux-64" && SCOPE + "linux-arm64" == "@turbo/linux-arm64";
    assert SCOPE + "windows-64" == "@turbo/windows-64" && SCOPE + "windows-arm64" == "@turbo/windows-arm64";
  }

  // ------------------------------------------------------------ what the guard sees

  /** The guard's prefix test finds the package the rewriter recognises. */
  lemma PrefixIsPackage(line: string, pkg: string)
    requires pkg in PACKAGES
    ensures pkg + "@" <= Body(line) <==> PackageOf(line) == Some(pkg)
  {
    hide Body, PACKAGES;
    assert PACKAGES[0..] == PACKAGES;
    if pkg + "@" <= Body(line) { FindPrefix(Body(line), pkg, 0); }
  }

  lemma {:induction false} FirstEntryFound(lines: seq<string>, pkg: string)
    requires pkg in PACKAGES
    ensures FirstEntry(lines, pkg).Some? <==> Lists(lines, pkg)
    ensures FirstEntry(lines, pkg).Some? ==>
              FirstEntry(lines, pkg).value in lines && PackageOf(FirstEntry(lines, pkg).value) == Some(pkg)
  {
    hide Body, PACKAGES, PackageOf;
    if lines != [] {
      PrefixIsPackage(lines[0], pkg);
      if PackageOf(lines[0]) != Some(pkg) {
        FirstEntryFound(lines[1..], pkg);
        ListsTail(lines, pkg);
      }
    }
  }

  lemma ListsTail(lines: seq<string>, pkg: string)
    requires lines != [] && PackageOf(lines[0]) != Some(pkg)
    ensures Lists(lines, pkg) <==> Lists(lines[1..], pkg)
  {
    hide PackageOf;
    var tail := lines[1..];
    if Lists(lines, pkg) {
      var k :| 0 <= k < |lines| && PackageOf(lines[k]) == Some(pkg);
      assert PackageOf(tail[k - 1]) == Some(pkg);
    }
    if Lists(tail, pkg) {
      var k :| 0 <= k < |tail| && PackageOf(tail[k]) == Some(pkg);
      assert PackageOf(lines[k + 1]) == Some(pkg);
    }
  }

  lemma {:induction false} MissingAre(lines: seq<string>, version: string, i: nat)
    requires i <= |PACKAGES|
    ensures MissingFrom(lines, version, i) == [] <==>
              forall k | i <= k < |PACKAGES| :: !Missing(lines, version, PACKAGES[k])
    decreases |PACKAGES| - i
  {
    hide Missing;
    if i < |PACKAGES| { MissingAre(lines, version, i + 1); }
  }

  lemma StableNotMissing(lines: seq<string>, version: string, pkg: string)
    requires pkg in PACKAGES && AllStable(lines, version)
    ensures Missing(lines, version, pkg) <==> !Lists(lines, pkg)
  {
    hide PACKAGES, PackageOf, RewriteLine, VersionsInExcludeLine, Lists;
    FirstEntryFound(lines, pkg);
    var line := FirstEntry(lines, pkg);
    if line.Some? {
      var k :| 0 <= k < |lines| && lines[k] == line.value;
      assert Stable(lines[k], version);
    }
  }

  /** The rewrite satisfies the guard exactly when the file had a turbo entry to start from. */
  lemma RewriteSatisfiesGuard(text: string, version: string)
    requires WellFormed(text) && GoodVersion(version)
    ensures MissingTurboExcludes(Split(RewriteBlock(text, version), NL), version) == [] <==>
              exists k | 0 <= k < |Split(text, NL)| :: PackageOf(Split(text, NL)[k]).Some?
  {
    hide WellFormed, WellFormedLines, GoodVersion, BlockLines, Split, Join, PackageOf, PACKAGES, AllStable, Missing,
         LastTurbo, Lists;
    TextIsWellFormed(text);
    WrittenLines(text, version);
    var lines := Split(text, NL);
    var after := BlockLines(lines, version);
    BlockIsStable(lines, version);
    MissingAre(after, version, 0);
    forall p | p in PACKAGES ensures Missing(after, version, p) <==> !Lists(after, p) {
      StableNotMissing(after, version, p);
    }
    LastTurboIsLast(lines, |lines|);
    if LastTurbo(lines, |lines|) >= 0 {
      forall p | p in PACKAGES ensures Lists(after, p) { BlockListsEvery(lines, version, p); }
    } else {
      NoTurboSame(lines, version);
      PackageIsName(0);
      ListsMeans(lines, PACKAGES[0]);
    }
  }
}
