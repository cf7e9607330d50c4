/** The states of an estate and the canonical text behind its digest
    (scripts/estate-events.ts, scripts/estate-verify.ts). */
module EstateDigest {
  import opened Text
  import opened Ordering

  datatype State = State(
    path: string, branch: string, dirtyFileCount: nat, aheadOfRemote: nat, stashCount: nat,
    prunable: bool, locked: bool)

  const NUL: char := 0 as char
  const SOH: char := 1 as char

  predicate NoControls(s: string) {
    forall i | 0 <= i < |s| :: s[i] as int >= 0x20 && s[i] as int != 0x7F
  }

  /** No C0 control and no delete. */
  predicate Printable(c: char) {
    !(0 <= c as int <= 31) && c as int != 127
  }

  lemma ControlsAre(s: string)
    ensures NoControls(s) <==> forall i | 0 <= i < |s| :: Printable(s[i])
  {
  }

  /** The schema: an absolute canonical path, and no control character in path or branch. */
  predicate ValidState(s: State, resolve: string -> string) {
    && s.path != "" && s.path[0] == '/' && s.path == resolve(s.path)
    && NoControls(s.path) && NoControls(s.branch)
  }

  function BoolText(b: bool): string {
    if b then "true" else "false"
  }

  function Fields(s: State): seq<string> {
    [s.path, s.branch, Decimal(s.dirtyFileCount), Decimal(s.aheadOfRemote), Decimal(s.stashCount),
     BoolText(s.prunable), BoolText(s.locked)]
  }

  function Line(s: State): string {
    Join(Fields(s), [NUL])
  }

  function Lines(states: seq<State>): (r: seq<string>)
    ensures |r| == |states|
    ensures forall i | 0 <= i < |r| :: r[i] == Line(states[i])
  {
    if states == [] then [] else Lines(states[..|states| - 1]) + [Line(states[|states| - 1])]
  }

  const PATH_OF: State -> string := (s: State) => s.path

  /** The text `estateDigest` hashes. */
  function DigestPreimage(states: seq<State>): string {
    Join(Lines(SortBy(states, PATH_OF)), [SOH])
  }

  ghost predicate AllValid(states: seq<State>, resolve: string -> string) {
    forall i | 0 <= i < |states| :: ValidState(states[i], resolve)
  }

  lemma FieldsAreClean(s: State, resolve: string -> string)
    requires ValidState(s, resolve)
    ensures forall i | 0 <= i < 7 :: NUL !in Fields(s)[i] && SOH !in Fields(s)[i]
  {
    hide Decimal;
    DigitsAreClean(s.dirtyFileCount);
    DigitsAreClean(s.aheadOfRemote);
    DigitsAreClean(s.stashCount);
  }

  lemma DigitsAreClean(n: nat)
    ensures NUL !in Decimal(n) && SOH !in Decimal(n)
  {
    var s := Decimal(n);
    assert forall i | 0 <= i < |s| :: '0' <= s[i];
  }

  lemma {:induction false} JoinHasOnly(parts: seq<string>, sep: char, c: char)
    requires c != sep && forall i | 0 <= i < |parts| :: c !in parts[i]
    ensures c !in Join(parts, [sep])
  {
    if |parts| > 1 { JoinHasOnly(parts[1..], sep, c); }
  }

  lemma LineIsClean(s: State, resolve: string -> string)
    requires ValidState(s, resolve)
    ensures SOH !in Line(s) && Line(s) != ""
  {
    hide Decimal, Join;
    FieldsAreClean(s, resolve);
    JoinHasOnly(Fields(s), NUL, SOH);
    JoinStarts(Fields(s), [NUL]);
  }

  lemma JoinStarts(parts: seq<string>, sep: string)
    requires |parts| >= 2
    ensures parts[0] <= Join(parts, sep) && |Join(parts, sep)| >= |parts[0]|
  {
  }

  lemma BoolTextInjective(a: bool, b: bool)
    ensures BoolText(a) == BoolText(b) ==> a == b
  {
    assert |BoolText(a)| == if a then 4 else 5;
    assert |BoolText(b)| == if b then 4 else 5;
  }

  /** One state per line: no field of a valid state can forge the separator. */
  lemma LineInjective(s: State, t: State, resolve: string -> string)
    requires ValidState(s, resolve) && ValidState(t, resolve) && Line(s) == Line(t)
    ensures s == t
  {
    hide Decimal, Join;
    FieldsAreClean(s, resolve);
    FieldsAreClean(t, resolve);
    JoinInjective(Fields(s), Fields(t), NUL);
    var f, g := Fields(s), Fields(t);
    assert f[0] == g[0] && f[1] == g[1] && f[2] == g[2] && f[3] == g[3] && f[4] == g[4] && f[5] == g[5] && f[6] == g[6];
    DecimalInjective(s.dirtyFileCount, t.dirtyFileCount);
    DecimalInjective(s.aheadOfRemote, t.aheadOfRemote);
    DecimalInjective(s.stashCount, t.stashCount);
    BoolTextInjective(s.prunable, t.prunable);
    BoolTextInjective(s.locked, t.locked);
  }

  lemma LinesInjective(a: seq<State>, b: seq<State>, resolve: string -> string)
    requires AllValid(a, resolve) && AllValid(b, resolve) && Lines(a) == Lines(b)
    ensures a == b
  {
    hide Line;
    forall i | 0 <= i < |a| ensures a[i] == b[i] {
      assert Lines(a)[i] == Lines(b)[i];
      LineInjective(a[i], b[i], resolve);
    }
  }

  lemma JoinedLinesInjective(a: seq<State>, b: seq<State>, resolve: string -> string)
    requires AllValid(a, resolve) && AllValid(b, resolve)
    requires Join(Lines(a), [SOH]) == Join(Lines(b), [SOH])
    ensures a == b
  {
    hide Line, Join;
    LinesAreClean(a, resolve);
    LinesAreClean(b, resolve);
    if a != [] && b != [] {
      JoinInjective(Lines(a), Lines(b), SOH);
    } else {
      EmptyJoin(Lines(a));
      EmptyJoin(Lines(b));
      assert Lines(a) == Lines(b);
    }
    LinesInjective(a, b, resolve);
  }

  lemma LinesAreClean(a: seq<State>, resolve: string -> string)
    requires AllValid(a, resolve)
    ensures LineFree(Lines(a), SOH) && forall i | 0 <= i < |a| :: Lines(a)[i] != ""
  {
    hide Line;
    forall i | 0 <= i < |a| ensures SOH !in Lines(a)[i] && Lines(a)[i] != "" {
      LineIsClean(a[i], resolve);
    }
  }

  lemma EmptyJoin(parts: seq<string>)
    requires forall i | 0 <= i < |parts| :: parts[i] != ""
    ensures Join(parts, [SOH]) == "" <==> parts == []
  {
  }

  lemma SortedStaysValid(states: seq<State>, resolve: string -> string)
    requires AllValid(states, resolve)
    ensures AllValid(SortBy(states, PATH_OF), resolve)
  {
    hide ValidState;
    SortKeepsMembers(states, PATH_OF);
    var sorted := SortBy(states, PATH_OF);
    forall i | 0 <= i < |sorted| ensures ValidState(sorted[i], resolve) {
      assert sorted[i] in states;
    }
  }

  /** The seven cells of a state's line. */
  predicate Cells(s: State, cells: seq<string>) {
    && |cells| == 7 && cells[0] == s.path && cells[1] == s.branch
    && cells[2] == Decimal(s.dirtyFileCount) && cells[3] == Decimal(s.aheadOfRemote)
    && cells[4] == Decimal(s.stashCount)
    && cells[5] == (if s.prunable then "true" else "false") && cells[6] == (if s.locked then "true" else "false")
  }

  /** The digest's text reads back: split at U+0001 it gives a line for each state, in the order of
      their paths, and each line split at U+0000 gives the state's own cells. */
  lemma PreimageReadsBack(states: seq<State>, resolve: string -> string)
    requires states != [] && AllValid(states, resolve)
    ensures var sorted, lines := SortBy(states, PATH_OF), Split(DigestPreimage(states), [1 as char]);
            && |lines| == |sorted| == |states| && SameMembers(sorted, states)
            && forall i | 0 <= i < |sorted| :: Cells(sorted[i], Split(lines[i], [0 as char]))
  {
    hide Line, Join, Split, SortBy;
    var sorted := SortBy(states, PATH_OF);
    SortKeepsMembers(states, PATH_OF);
    SortedStaysValid(states, resolve);
    LinesAreClean(sorted, resolve);
    SplitJoin(Lines(sorted), 1 as char);
    forall i | 0 <= i < |sorted| ensures Cells(sorted[i], Split(Lines(sorted)[i], [0 as char])) {
      CellsReadBack(sorted[i], resolve);
    }
  }

  lemma CellsReadBack(s: State, resolve: string -> string)
    requires ValidState(s, resolve)
    ensures Cells(s, Split(Line(s), [0 as char]))
  {
    hide Join, Split, Decimal, ValidState;
    FieldsAreClean(s, resolve);
    SplitJoin(Fields(s), 0 as char);
  }

  /** The digest's text is canonical: two estates of valid states with distinct paths have
      the same text exactly when they hold the same states, in whatever order. */
  lemma DigestIsCanonical(a: seq<State>, b: seq<State>, resolve: string -> string)
    requires AllValid(a, resolve) && AllValid(b, resolve)
    requires DistinctKeys(a, PATH_OF) && DistinctKeys(b, PATH_OF)
    ensures DigestPreimage(a) == DigestPreimage(b) <==> SameMembers(a, b)
  {
    hide Line, Join, SortBy;
    SortForgetsOrder(a, b, PATH_OF);
    SortedStaysValid(a, resolve);
    SortedStaysValid(b, resolve);
    if DigestPreimage(a) == DigestPreimage(b) {
      JoinedLinesInjective(SortBy(a, PATH_OF), SortBy(b, PATH_OF), resolve);
    }
  }

  /** Without the ban on control characters one estate can pass for another. */
  lemma ControlCharactersForge()
    ensures var s := State("/p" + [NUL] + "q", "r", 0, 0, 0, false, false);
            var t := State("/p", "q" + [NUL] + "r", 0, 0, 0, false, false);
            s != t && DigestPreimage([s]) == DigestPreimage([t])
  {
    hide Decimal;
    var s := State("/p" + [NUL] + "q", "r", 0, 0, 0, false, false);
    var t := State("/p", "q" + [NUL] + "r", 0, 0, 0, false, false);
    var rest := Fields(s)[2..];
    assert rest == Fields(t)[2..];
    JoinTwo(Fields(s), [NUL]);
    JoinTwo(Fields(t), [NUL]);
    assert Line(s) == Line(t);
    OneSorted(s);
    OneSorted(t);
  }

  lemma JoinTwo(parts: seq<string>, sep: string)
    requires |parts| >= 3
    ensures Join(parts, sep) == parts[0] + sep + parts[1] + sep + Join(parts[2..], sep)
  {
    assert parts[1..][1..] == parts[2..];
    assert Join(parts[1..], sep) == parts[1] + sep + Join(parts[2..], sep);
    hide Join;
    Regroup(parts[0], sep, parts[1], Join(parts[2..], sep));
  }

  lemma Regroup(a: string, sep: string, b: string, rest: string)
    ensures a + sep + (b + sep + rest) == a + sep + b + sep + rest
  {
  }

  lemma OneSorted(s: State)
    ensures DigestPreimage([s]) == Line(s)
  {
    hide Line;
    assert [s][..0] == [];
    assert SortBy([s], PATH_OF) == [s];
    assert Lines([s]) == [Line(s)];
  }
}
