/** Three readers of `git worktree list --porcelain`: the close and sweep commands'
    (scripts/worktree-close.ts), the sync command's (scripts/sync-worktrees.ts) and the
    estate verifier's (scripts/estate-gather.ts). */
module Porcelain {
  import opened Text

  const WORKTREE: string := "worktree "
  const BRANCH: string := "branch "
  const HEADS: string := "refs/heads/"
  const DETACHED: string := "(detached)"

  /** `s.replace(p, '')` for a string pattern: the first occurrence goes, wherever it is. */
  function DropFirst(s: string, p: string): string {
    var i := Index(s, p);
    if i == -1 then s else s[..i] + s[i + |p|..]
  }

  function BranchOf(line: string): string
    requires BRANCH <= line
  {
    DropFirst(line[|BRANCH|..], HEADS)
  }

  // ------------------------------------------------------ the close/sweep reader

  datatype Entry = Entry(path: string, branch: Option<string>)

  datatype Scan = Scan(entries: seq<Entry>, path: Option<string>, branch: Option<string>)

  function Flush(s: Scan): Scan {
    Scan(if s.path.Some? then s.entries + [Entry(s.path.value, s.branch)] else s.entries, None, None)
  }

  function ScanLine(s: Scan, line: string): Scan {
    if WORKTREE <= line then Flush(s).(path := Some(line[|WORKTREE|..]))
    else if BRANCH <= line then s.(branch := Some(BranchOf(line)))
    else if line == "detached" then s.(branch := None)
    else s
  }

  function ScanLines(s: Scan, lines: seq<string>): Scan
    decreases |lines|
  {
    if lines == [] then s else ScanLines(ScanLine(s, lines[0]), lines[1..])
  }

  function Entries(stdout: string): seq<Entry> {
    Flush(ScanLines(Scan([], None, None), Split(stdout, NL))).entries
  }

  method ParseWorktreePorcelain(stdout: string) returns (entries: seq<Entry>)
    ensures entries == Entries(stdout)
  {
    hide Split, BranchOf;
    var lines := Split(stdout, NL);
    entries := [];
    var path: Option<string>, branch: Option<string> := None, None;
    assert lines[0..] == lines;
    for i := 0 to |lines|
      invariant ScanLines(Scan(entries, path, branch), lines[i..]) == ScanLines(Scan([], None, None), lines)
    {
      if WORKTREE <= lines[i] {
        if path.Some? { entries := entries + [Entry(path.value, branch)]; }
        path, branch := Some(lines[i][|WORKTREE|..]), None;
      } else if BRANCH <= lines[i] {
        branch := Some(BranchOf(lines[i]));
      } else if lines[i] == "detached" {
        branch := None;
      }
      assert lines[i..][1..] == lines[i + 1..];
    }
    assert lines[|lines|..] == [];
    if path.Some? { entries := entries + [Entry(path.value, branch)]; }
  }

  // ------------------------------------------------------------ the sync reader

  datatype Tree = Tree(path: Option<string>, branch: Option<string>)

  datatype Walk = Walk(trees: seq<Entry>, cur: Tree)

  /** An empty path is falsy: such a record is dropped. */
  function Push(w: Walk): seq<Entry> {
    if w.cur.path.Some? && w.cur.path.value != "" then w.trees + [Entry(w.cur.path.value, w.cur.branch)] else w.trees
  }

  function WalkLine(w: Walk, line: string): Walk {
    if WORKTREE <= line then Walk(Push(w), Tree(Some(line[|WORKTREE|..]), None))
    else if BRANCH <= line then w.(cur := w.cur.(branch := Some(BranchOf(line))))
    else if line == "detached" then w.(cur := w.cur.(branch := None))
    else w
  }

  function WalkLines(w: Walk, lines: seq<string>): Walk
    decreases |lines|
  {
    if lines == [] then w else WalkLines(WalkLine(w, lines[0]), lines[1..])
  }

  function Trees(stdout: string): seq<Entry> {
    Push(WalkLines(Walk([], Tree(None, None)), Split(stdout, NL)))
  }

  method ListWorktrees(stdout: string) returns (trees: seq<Entry>)
    ensures trees == Trees(stdout)
  {
    hide Split, BranchOf;
    var lines := Split(stdout, NL);
    trees := [];
    var cur := Tree(None, None);
    assert lines[0..] == lines;
    for i := 0 to |lines|
      invariant WalkLines(Walk(trees, cur), lines[i..]) == WalkLines(Walk([], Tree(None, None)), lines)
    {
      if WORKTREE <= lines[i] {
        if cur.path.Some? && cur.path.value != "" { trees := trees + [Entry(cur.path.value, cur.branch)]; }
        cur := Tree(Some(lines[i][|WORKTREE|..]), None);
      } else if BRANCH <= lines[i] {
        cur := cur.(branch := Some(BranchOf(lines[i])));
      } else if lines[i] == "detached" {
        cur := cur.(branch := None);
      }
      assert lines[i..][1..] == lines[i + 1..];
    }
    assert lines[|lines|..] == [];
    if cur.path.Some? && cur.path.value != "" { trees := trees + [Entry(cur.path.value, cur.branch)]; }
  }

  // ----------------------------------------------------------- the estate reader

  datatype Record = Record(path: string, branch: string, locked: bool, prunable: bool)

  datatype Reading = Reading(out: seq<Record>, cur: Option<Record>)

  predicate Marker(line: string, word: string) {
    line == word || word + " " <= line
  }

  /** A mark is the bare word, or the word and whatever follows a space. */
  lemma MarkerIs(line: string, word: string)
    ensures Marker(line, word) <==> word <= line && (|line| == |word| || line[|word|] == ' ')
  {
    if word <= line && |line| > |word| {
      assert line[..|word| + 1] == word + [line[|word|]];
    }
  }

  function Close(r: Reading): seq<Record> {
    if r.cur.Some? then r.out + [r.cur.value] else r.out
  }

  function ReadLine(r: Reading, line: string, resolve: string -> string): Reading {
    if WORKTREE <= line then
      Reading(Close(r), Some(Record(resolve(line[|WORKTREE|..]), DETACHED, false, false)))
    else if r.cur.None? then r
    else if BRANCH <= line then r.(cur := Some(r.cur.value.(branch := BranchOf(line))))
    else if Marker(line, "locked") then r.(cur := Some(r.cur.value.(locked := true)))
    else if Marker(line, "prunable") then r.(cur := Some(r.cur.value.(prunable := true)))
    else r
  }

  function ReadLines(r: Reading, lines: seq<string>, resolve: string -> string): Reading
    decreases |lines|
  {
    if lines == [] then r else ReadLines(ReadLine(r, lines[0], resolve), lines[1..], resolve)
  }

  function Records(porcelain: string, resolve: string -> string): seq<Record> {
    Close(ReadLines(Reading([], None), Split(porcelain, NL), resolve))
  }

  method ParseWorktreeRecords(porcelain: string, resolve: string -> string) returns (out: seq<Record>)
    ensures out == Records(porcelain, resolve)
  {
    hide Split, BranchOf;
    var lines := Split(porcelain, NL);
    out := [];
    var cur: Option<Record> := None;
    assert lines[0..] == lines;
    for i := 0 to |lines|
      invariant ReadLines(Reading(out, cur), lines[i..], resolve) == ReadLines(Reading([], None), lines, resolve)
    {
      assert lines[i..][1..] == lines[i + 1..];
      if WORKTREE <= lines[i] {
        if cur.Some? { out := out + [cur.value]; }
        cur := Some(Record(resolve(lines[i][|WORKTREE|..]), DETACHED, false, false));
      } else if cur.None? {
        continue;
      } else if BRANCH <= lines[i] {
        cur := Some(cur.value.(branch := BranchOf(lines[i])));
      } else if Marker(lines[i], "locked") {
        cur := Some(cur.value.(locked := true));
      } else if Marker(lines[i], "prunable") {
        cur := Some(cur.value.(prunable := true));
      }
    }
    assert lines[|lines|..] == [];
    if cur.Some? { out := out + [cur.value]; }
  }

  // -------------------------------------------------- close reader and sync reader

  function Named(entries: seq<Entry>): seq<Entry> {
    if entries == [] then []
    else
      var last := entries[|entries| - 1];
      Named(entries[..|entries| - 1]) + if last.path == "" then [] else [last]
  }

  lemma NamedSnoc(entries: seq<Entry>, e: Entry)
    ensures Named(entries + [e]) == Named(entries) + if e.path == "" then [] else [e]
  {
    assert (entries + [e])[..|entries + [e]| - 1] == entries;
  }

  predicate Together(s: Scan, w: Walk) {
    w.trees == Named(s.entries) && w.cur.path == s.path && w.cur.branch == s.branch
  }

  lemma TogetherStep(s: Scan, w: Walk, line: string)
    requires Together(s, w)
    ensures Together(ScanLine(s, line), WalkLine(w, line))
  {
    hide BranchOf, Named;
    if s.path.Some? { NamedSnoc(s.entries, Entry(s.path.value, s.branch)); }
  }

  lemma {:induction false} TogetherLines(s: Scan, w: Walk, lines: seq<string>)
    requires Together(s, w)
    ensures Together(ScanLines(s, lines), WalkLines(w, lines))
    decreases |lines|
  {
    hide ScanLine, WalkLine, Together;
    if lines != [] {
      TogetherStep(s, w, lines[0]);
      TogetherLines(ScanLine(s, lines[0]), WalkLine(w, lines[0]), lines[1..]);
    }
  }

  /** On every text the sync reader lists exactly the close reader's entries with a path. */
  lemma SyncReadsNamedEntries(stdout: string)
    ensures Trees(stdout) == Named(Entries(stdout))
  {
    hide ScanLines, WalkLines, Split, Named;
    var lines := Split(stdout, NL);
    assert Named([]) == [] by { NamedNone(); }
    TogetherLines(Scan([], None, None), Walk([], Tree(None, None)), lines);
    var s := ScanLines(Scan([], None, None), lines);
    if s.path.Some? { NamedSnoc(s.entries, Entry(s.path.value, s.branch)); }
  }

  lemma NamedNone()
    ensures Named([]) == []
  {
  }

  predicate EmptyPathEntry(entries: seq<Entry>) {
    exists i | 0 <= i < |entries| :: entries[i].path == ""
  }

  lemma {:induction false} NamedLength(entries: seq<Entry>)
    ensures |Named(entries)| <= |entries|
    ensures Named(entries) == entries <==> !EmptyPathEntry(entries)
    ensures EmptyPathEntry(entries) ==> |Named(entries)| < |entries|
  {
    hide EmptyPathEntry, Named;
    if entries == [] {
      NamedNone();
      assert !EmptyPathEntry(entries) by { NoEntries(); }
    } else {
      var init, last := entries[..|entries| - 1], entries[|entries| - 1];
      assert entries == init + [last];
      NamedLength(init);
      NamedSnoc(init, last);
      EmptyPathSnoc(init, last);
    }
  }

  lemma NoEntries()
    ensures !EmptyPathEntry([])
  {
  }

  lemma {:induction false} EmptyPathsComeFromLines(s: Scan, lines: seq<string>)
    ensures EmptyPathEntry(Flush(ScanLines(s, lines)).entries) <==>
              EmptyPathEntry(Flush(s).entries) || WORKTREE in lines
    decreases |lines|
  {
    hide BranchOf;
    if lines != [] {
      var line := lines[0];
      var next := ScanLine(s, line);
      EmptyPathsComeFromLines(next, lines[1..]);
      assert lines == [line] + lines[1..];
      if WORKTREE <= line {
        var e := Entry(line[|WORKTREE|..], None);
        EmptyPathSnoc(Flush(s).entries, e);
        assert Flush(next).entries == Flush(s).entries + [e];
        assert e.path == "" <==> line == WORKTREE;
      } else {
        SamePaths(s, next);
      }
    }
  }

  lemma EmptyPathSnoc(entries: seq<Entry>, e: Entry)
    ensures EmptyPathEntry(entries + [e]) <==> EmptyPathEntry(entries) || e.path == ""
  {
    var more := entries + [e];
    if EmptyPathEntry(entries) {
      var i :| 0 <= i < |entries| && entries[i].path == "";
      assert more[i].path == "";
    }
    if e.path == "" { assert more[|entries|].path == ""; }
  }

  lemma SamePaths(s: Scan, t: Scan)
    requires s.entries == t.entries && s.path == t.path
    ensures EmptyPathEntry(Flush(s).entries) <==> EmptyPathEntry(Flush(t).entries)
  {
    if s.path.Some? {
      EmptyPathSnoc(s.entries, Entry(s.path.value, s.branch));
      EmptyPathSnoc(s.entries, Entry(s.path.value, t.branch));
    }
  }

  /** The two readers agree exactly on the texts without an empty `worktree ` line. */
  lemma CloseAndSyncAgree(stdout: string)
    ensures Trees(stdout) == Entries(stdout) <==> WORKTREE !in Split(stdout, NL)
  {
    hide ScanLines, Split, Named, Trees;
    SyncReadsNamedEntries(stdout);
    NamedLength(Entries(stdout));
    EmptyPathsComeFromLines(Scan([], None, None), Split(stdout, NL));
  }

  // ------------------------------------------------ close reader and estate reader

  /** What the estate reader makes of an entry when it differs only in form. */
  predicate SameWorktree(e: Entry, r: Record, resolve: string -> string) {
    r.path == resolve(e.path) && r.branch == if e.branch.None? then DETACHED else e.branch.value
  }

  predicate Agree(entries: seq<Entry>, records: seq<Record>, resolve: string -> string) {
    |entries| == |records| && forall i | 0 <= i < |entries| :: SameWorktree(entries[i], records[i], resolve)
  }

  /** A `detached` line after the record's last branch line: the estate reader does not look
      at it and keeps the branch. `held` is the branch of the record so far. */
  predicate Overruled(held: Option<string>, overruled: bool, inside: bool, lines: seq<string>)
    decreases |lines|
  {
    if lines == [] then overruled
    else if WORKTREE <= lines[0] then overruled || Overruled(None, false, true, lines[1..])
    else if !inside then Overruled(held, overruled, inside, lines[1..])
    else if BRANCH <= lines[0] then Overruled(Some(BranchOf(lines[0])), false, inside, lines[1..])
    else if lines[0] == "detached" then
      Overruled(held, held.Some? && held.value != DETACHED, inside, lines[1..])
    else Overruled(held, overruled, inside, lines[1..])
  }

  predicate SideBySide(s: Scan, r: Reading, held: Option<string>, overruled: bool, resolve: string -> string) {
    && |s.entries| == |r.out| && (s.path.Some? <==> r.cur.Some?)
    && (s.path.None? ==> !overruled)
    && (s.path.Some? ==>
          && r.cur.value.path == resolve(s.path.value)
          && r.cur.value.branch == (if held.None? then DETACHED else held.value)
          && (s.branch == held || s.branch.None?)
          && (overruled <==> s.branch.None? && held.Some? && held.value != DETACHED))
  }

  lemma AgreeSnoc(entries: seq<Entry>, records: seq<Record>, e: Entry, r: Record, resolve: string -> string)
    requires |entries| == |records|
    ensures Agree(entries + [e], records + [r], resolve) <==>
              Agree(entries, records, resolve) && SameWorktree(e, r, resolve)
  {
    var es, rs := entries + [e], records + [r];
    if Agree(es, rs, resolve) {
      assert SameWorktree(es[|entries|], rs[|entries|], resolve);
      forall i | 0 <= i < |entries| ensures SameWorktree(entries[i], records[i], resolve) {
        assert SameWorktree(es[i], rs[i], resolve);
      }
    }
  }

  lemma CloseBoth(s: Scan, r: Reading, held: Option<string>, overruled: bool, resolve: string -> string)
    requires SideBySide(s, r, held, overruled, resolve)
    ensures |Flush(s).entries| == |Close(r)|
    ensures Agree(Flush(s).entries, Close(r), resolve) <==> Agree(s.entries, r.out, resolve) && !overruled
  {
    hide Agree;
    if s.path.Some? {
      AgreeSnoc(s.entries, r.out, Entry(s.path.value, s.branch), r.cur.value, resolve);
    }
  }

  lemma {:induction false} AgreementScan(s: Scan, r: Reading, held: Option<string>, overruled: bool,
                                         lines: seq<string>, resolve: string -> string)
    requires SideBySide(s, r, held, overruled, resolve)
    ensures |Flush(ScanLines(s, lines)).entries| == |Close(ReadLines(r, lines, resolve))|
    ensures Agree(Flush(ScanLines(s, lines)).entries, Close(ReadLines(r, lines, resolve)), resolve) <==>
              Agree(s.entries, r.out, resolve) && !Overruled(held, overruled, r.cur.Some?, lines)
    decreases |lines|
  {
    hide Agree, BranchOf, Flush, Close;
    if lines == [] {
      CloseBoth(s, r, held, overruled, resolve);
    } else {
      var line := lines[0];
      var s', r' := ScanLine(s, line), ReadLine(r, line, resolve);
      if WORKTREE <= line {
        CloseBoth(s, r, held, overruled, resolve);
        ClosedScan(s, r, line, resolve);
        AgreementScan(s', r', None, false, lines[1..], resolve);
      } else if r.cur.None? {
        AgreementScan(s', r', held, overruled, lines[1..], resolve);
      } else if BRANCH <= line {
        AgreementScan(s', r', Some(BranchOf(line)), false, lines[1..], resolve);
      } else if line == "detached" {
        assert !Marker(line, "locked") && !Marker(line, "prunable");
        AgreementScan(s', r', held, held.Some? && held.value != DETACHED, lines[1..], resolve);
      } else {
        AgreementScan(s', r', held, overruled, lines[1..], resolve);
      }
    }
  }

  lemma ClosedScan(s: Scan, r: Reading, line: string, resolve: string -> string)
    requires WORKTREE <= line
    ensures ScanLine(s, line) == Scan(Flush(s).entries, Some(line[|WORKTREE|..]), None)
    ensures ReadLine(r, line, resolve) ==
            Reading(Close(r), Some(Record(resolve(line[|WORKTREE|..]), DETACHED, false, false)))
  {
  }

  /** The close reader and the estate reader see the same worktrees in the same order, and
      the same branches exactly when no `detached` line overrules a branch line in a record. */
  lemma CloseAndEstateAgree(stdout: string, resolve: string -> string)
    ensures |Entries(stdout)| == |Records(stdout, resolve)|
    ensures Agree(Entries(stdout), Records(stdout, resolve), resolve) <==>
              !Overruled(None, false, false, Split(stdout, NL))
  {
    hide ScanLines, ReadLines, Overruled, Split;
    AgreementScan(Scan([], None, None), Reading([], None), None, false, Split(stdout, NL), resolve);
  }

  // ------------------------------------------------------------ print and read back

  /** One worktree as git shows it: its commit, and the reasons its lock and its prune may carry. */
  datatype Shown = Shown(record: Record, head: string, lock: string, prune: string)

  function RecordLines(r: Record, head: string, lock: string, prune: string): seq<string> {
    ["worktree " + r.path, "HEAD " + head,
     if r.branch == "(detached)" then "detached" else "branch " + ("refs/heads/" + r.branch)]
    + ((if r.locked then [Marked("locked", lock)] else [])
       + ((if r.prunable then [Marked("prunable", prune)] else []) + [""]))
  }

  function Marked(word: string, why: string): string {
    if why == "" then word else word + " " + why
  }

  /** The lines git prints for one worktree. */
  function ShownLines(w: Shown): seq<string> {
    RecordLines(w.record, w.head, w.lock, w.prune)
  }

  function PrintLines(ws: seq<Shown>): seq<string> {
    if ws == [] then [] else ShownLines(ws[0]) + PrintLines(ws[1..])
  }

  function Print(ws: seq<Shown>): string {
    Join(PrintLines(ws), NL)
  }

  function RecordsOf(ws: seq<Shown>): (rs: seq<Record>)
    ensures |rs| == |ws| && forall i | 0 <= i < |ws| :: rs[i] == ws[i].record
  {
    if ws == [] then [] else [ws[0].record] + RecordsOf(ws[1..])
  }

  /** What git never breaks a line in: branch names, commits, and reasons, which it quotes. */
  predicate Plain(w: Shown) {
    '\n' !in w.record.branch && '\n' !in w.head && '\n' !in w.lock && '\n' !in w.prune
  }

  predicate Breakless(w: Shown) {
    '\n' !in w.record.path && Plain(w)
  }

  predicate Printable(ws: seq<Shown>) {
    forall i | 0 <= i < |ws| :: Breakless(ws[i])
  }

  lemma DropHeads(b: string)
    ensures DropFirst(HEADS + b, HEADS) == b
  {
    assert OccursAt(HEADS + b, HEADS, 0);
    IndexIs(HEADS + b, HEADS, 0);
  }

  lemma BranchLine(b: string)
    ensures BRANCH <= BRANCH + (HEADS + b) && BranchOf(BRANCH + (HEADS + b)) == b
  {
    DropHeads(b);
    assert (BRANCH + (HEADS + b))[|BRANCH|..] == HEADS + b;
  }

  lemma NotWorktreeLine(first: char, line: string)
    requires line != "" && line[0] == first && first != 'w'
    ensures !(WORKTREE <= line)
  {
  }

  lemma WorktreeLine(path: string)
    ensures WORKTREE <= WORKTREE + path && (WORKTREE + path)[|WORKTREE|..] == path
  {
  }

  lemma MarkedLine(word: string, why: string)
    requires word == "locked" || word == "prunable"
    ensures !(WORKTREE <= Marked(word, why)) && !(BRANCH <= Marked(word, why)) && Marked(word, why) != "detached"
    ensures Marker(Marked(word, why), "locked") <==> word == "locked"
    ensures Marker(Marked(word, why), "prunable") <==> word == "prunable"
  {
    assert Marked(word, why)[0] == word[0];
    assert why != "" ==> word + " " <= Marked(word, why);
  }

  lemma HeadLine(head: string)
    ensures !(WORKTREE <= "HEAD " + head) && !(BRANCH <= "HEAD " + head) && "HEAD " + head != "detached"
    ensures !Marker("HEAD " + head, "locked") && !Marker("HEAD " + head, "prunable")
  {
    assert ("HEAD " + head)[0] == 'H';
  }

  lemma ReadCons(r: Reading, line: string, rest: seq<string>, resolve: string -> string)
    ensures ReadLines(r, [line] + rest, resolve) == ReadLines(ReadLine(r, line, resolve), rest, resolve)
  {
    assert ([line] + rest)[1..] == rest;
  }

  lemma {:induction false} ReadCat(r: Reading, a: seq<string>, b: seq<string>, resolve: string -> string)
    ensures ReadLines(r, a + b, resolve) == ReadLines(ReadLines(r, a, resolve), b, resolve)
    decreases |a|
  {
    hide ReadLine;
    if a == [] {
      assert a + b == b;
    } else {
      ReadCat(ReadLine(r, a[0], resolve), a[1..], b, resolve);
      assert a + b == [a[0]] + (a[1..] + b);
      ReadCons(r, a[0], a[1..] + b, resolve);
    }
  }

  lemma ReadMarks(out: seq<Record>, rec: Record, lock: string, prune: string, resolve: string -> string)
    ensures var bare := rec.(locked := false, prunable := false);
            ReadLines(Reading(out, Some(bare)),
                      (if rec.locked then [Marked("locked", lock)] else [])
                      + ((if rec.prunable then [Marked("prunable", prune)] else []) + [""]), resolve)
            == Reading(out, Some(rec))
  {
    hide Marked, Marker, BranchOf;
    assert !Marker("", "locked") && !Marker("", "prunable") by { NoMark(); }
    var bare := rec.(locked := false, prunable := false);
    var mid := bare.(locked := rec.locked);
    MarkedLine("locked", lock);
    MarkedLine("prunable", prune);
    var tail := (if rec.prunable then [Marked("prunable", prune)] else []) + [""];
    assert ReadLines(Reading(out, Some(mid)), tail, resolve) == Reading(out, Some(rec)) by {
      if rec.prunable {
        ReadCons(Reading(out, Some(mid)), Marked("prunable", prune), [""], resolve);
      }
      ReadCons(Reading(out, Some(rec)), "", [], resolve);
      assert tail == if rec.prunable then [Marked("prunable", prune)] + [""] else [""] + [];
    }
    if rec.locked {
      ReadCons(Reading(out, Some(bare)), Marked("locked", lock), tail, resolve);
    } else {
      assert [] + tail == tail;
    }
  }

  lemma NoMark()
    ensures !Marker("", "locked") && !Marker("", "prunable")
  {
  }

  lemma ReadRecord(r: Reading, rec: Record, head: string, lock: string, prune: string, resolve: string -> string)
    requires resolve(rec.path) == rec.path
    ensures ReadLines(r, RecordLines(rec, head, lock, prune), resolve) == Reading(Close(r), Some(rec))
  {
    hide Marked, Marker, BranchOf, DropFirst, ReadLines;
    var branch := if rec.branch == DETACHED then "detached" else BRANCH + (HEADS + rec.branch);
    var marks := (if rec.locked then [Marked("locked", lock)] else [])
                 + ((if rec.prunable then [Marked("prunable", prune)] else []) + [""]);
    assert RecordLines(rec, head, lock, prune) == [WORKTREE + rec.path] + (["HEAD " + head] + ([branch] + marks));
    WorktreeLine(rec.path);
    HeadLine(head);
    var started := Reading(Close(r), Some(Record(rec.path, DETACHED, false, false)));
    ReadCons(r, WORKTREE + rec.path, ["HEAD " + head] + ([branch] + marks), resolve);
    ReadCons(started, "HEAD " + head, [branch] + marks, resolve);
    ReadCons(started, branch, marks, resolve);
    BranchStep(Close(r), rec, branch, resolve);
    assert ReadLine(r, WORKTREE + rec.path, resolve) == started;
    assert ReadLine(started, "HEAD " + head, resolve) == started;
    assert ReadLine(started, branch, resolve) == Reading(Close(r), Some(rec.(locked := false, prunable := false)));
    ReadMarks(Close(r), rec, lock, prune, resolve);
  }

  lemma BranchStep(out: seq<Record>, rec: Record, branch: string, resolve: string -> string)
    requires branch == if rec.branch == DETACHED then "detached" else BRANCH + (HEADS + rec.branch)
    ensures ReadLine(Reading(out, Some(Record(rec.path, DETACHED, false, false))), branch, resolve)
            == Reading(out, Some(rec.(locked := false, prunable := false)))
  {
    hide Marker, BranchOf, DropFirst;
    if rec.branch == DETACHED {
      DetachedIsNoMark();
      NotWorktreeLine('d', branch);
      assert !(BRANCH <= branch);
    } else {
      BranchLine(rec.branch);
      NotWorktreeLine('b', branch);
    }
  }

  lemma DetachedIsNoMark()
    ensures !Marker("detached", "locked") && !Marker("detached", "prunable")
  {
    assert "detached"[0] == 'd';
  }

  lemma {:induction false} ReadPrinted(r: Reading, ws: seq<Shown>, resolve: string -> string)
    requires forall i | 0 <= i < |ws| :: resolve(ws[i].record.path) == ws[i].record.path
    ensures Close(ReadLines(r, PrintLines(ws), resolve)) == Close(r) + RecordsOf(ws)
    decreases |ws|
  {
    hide RecordLines, ReadLine, ReadLines;
    if ws == [] {
      ReadNothing(r, resolve);
    } else {
      var w, next := ws[0], Reading(Close(r), Some(ws[0].record));
      ReadRecord(r, w.record, w.head, w.lock, w.prune, resolve);
      ReadCat(r, ShownLines(w), PrintLines(ws[1..]), resolve);
      ReadPrinted(next, ws[1..], resolve);
      assert Close(next) == Close(r) + [w.record];
      Associates(Close(r), [w.record], RecordsOf(ws[1..]));
    }
  }

  lemma ReadNothing(r: Reading, resolve: string -> string)
    ensures ReadLines(r, [], resolve) == r
  {
  }

  lemma Associates(a: seq<Record>, b: seq<Record>, c: seq<Record>)
    ensures (a + b) + c == a + (b + c)
  {
  }

  lemma {:induction false} PrintedLinesAreBreakFree(ws: seq<Shown>)
    requires Printable(ws)
    ensures LineFree(PrintLines(ws), '\n')
    decreases |ws|
  {
    hide ShownLines, Breakless;
    if ws != [] {
      PrintedLinesAreBreakFree(ws[1..]);
      OneRecordIsBreakFree(ws[0]);
    }
  }

  lemma OneRecordIsBreakFree(w: Shown)
    requires Breakless(w)
    ensures LineFree(ShownLines(w), '\n')
  {
  }

  lemma PrintedSplits(ws: seq<Shown>)
    requires Printable(ws) && ws != []
    ensures Split(Print(ws), NL) == PrintLines(ws)
  {
    hide Split, Join;
    PrintedLinesAreBreakFree(ws);
    assert PrintLines(ws) == ShownLines(ws[0]) + PrintLines(ws[1..]);
    SplitJoin(PrintLines(ws), '\n');
  }

  /** Printing any worktrees in git's form and reading them gives them back, branches, locks
      and prunable marks included, whatever their commits and reasons. */
  lemma PrintThenRead(ws: seq<Shown>, resolve: string -> string)
    requires Printable(ws)
    requires forall i | 0 <= i < |ws| :: resolve(ws[i].record.path) == ws[i].record.path
    ensures Records(Print(ws), resolve) == RecordsOf(ws)
  {
    hide ShownLines, Split, Join, ReadLine;
    if ws == [] {
      PrintNothing();
      EmptyLineReads(resolve);
    } else {
      PrintedSplits(ws);
      ReadPrinted(Reading([], None), ws, resolve);
      assert [] + RecordsOf(ws) == RecordsOf(ws);
    }
  }

  lemma PrintNothing()
    ensures Split(Print([]), NL) == [""]
  {
    SplitWhole("", '\n');
  }

  lemma EmptyLineReads(resolve: string -> string)
    ensures Close(ReadLines(Reading([], None), [""], resolve)) == []
    ensures Close(ReadLines(Reading([], None), [], resolve)) == []
  {
  }

  lemma {:induction false} PrintedIsNeverOverruled(ws: seq<Shown>, held: Option<string>, inside: bool)
    ensures !Overruled(held, false, inside, PrintLines(ws))
    decreases |ws|
  {
    hide RecordLines;
    if ws != [] {
      var w := ws[0];
      PrintedIsNeverOverruled(ws[1..], if w.record.branch == DETACHED then None else Some(w.record.branch), true);
      RecordIsNotOverruled(held, inside, w.record, w.head, w.lock, w.prune, PrintLines(ws[1..]));
    }
  }

  lemma RecordIsNotOverruled(held: Option<string>, inside: bool, r: Record, head: string, lock: string,
                             prune: string, rest: seq<string>)
    requires !Overruled(if r.branch == DETACHED then None else Some(r.branch), false, true, rest)
    ensures !Overruled(held, false, inside, RecordLines(r, head, lock, prune) + rest)
  {
    hide Marked, Marker, BranchOf, DropFirst, Overruled;
    var now := if r.branch == DETACHED then None else Some(r.branch);
    var branch := if r.branch == DETACHED then "detached" else BRANCH + (HEADS + r.branch);
    var marks := (if r.locked then [Marked("locked", lock)] else [])
                 + ((if r.prunable then [Marked("prunable", prune)] else []) + [""]);
    HeadLine(head);
    WorktreeLine(r.path);
    MarksDoNotOverrule(now, r, lock, prune, rest);
    OverruledBranch(r, branch, marks + rest);
    OverruledSkips(None, "HEAD " + head, [branch] + (marks + rest));
    OverruledStarts(held, inside, WORKTREE + r.path, ["HEAD " + head] + ([branch] + (marks + rest)));
    assert RecordLines(r, head, lock, prune) + rest
           == [WORKTREE + r.path] + (["HEAD " + head] + ([branch] + (marks + rest)));
  }

  lemma MarksDoNotOverrule(held: Option<string>, r: Record, lock: string, prune: string, rest: seq<string>)
    requires !Overruled(held, false, true, rest)
    ensures var marks := (if r.locked then [Marked("locked", lock)] else [])
                         + ((if r.prunable then [Marked("prunable", prune)] else []) + [""]);
            !Overruled(held, false, true, marks + rest)
  {
    hide Marked, Overruled;
    MarkedLine("locked", lock);
    MarkedLine("prunable", prune);
    OverruledSkips(held, "", rest);
    var first, second := Marked("locked", lock), Marked("prunable", prune);
    OverruledSkips(held, second, [""] + rest);
    OverruledSkips(held, first, [""] + rest);
    OverruledSkips(held, first, [second] + ([""] + rest));
    var marks := (if r.locked then [first] else []) + ((if r.prunable then [second] else []) + [""]);
    assert marks + rest ==
           if r.locked then (if r.prunable then [first] + ([second] + ([""] + rest)) else [first] + ([""] + rest))
           else if r.prunable then [second] + ([""] + rest) else [""] + rest;
  }

  lemma OverruledSkips(held: Option<string>, line: string, rest: seq<string>)
    requires !(WORKTREE <= line) && !(BRANCH <= line) && line != "detached"
    ensures Overruled(held, false, true, [line] + rest) == Overruled(held, false, true, rest)
  {
    assert ([line] + rest)[1..] == rest;
  }

  lemma OverruledStarts(held: Option<string>, inside: bool, line: string, rest: seq<string>)
    requires WORKTREE <= line
    ensures Overruled(held, false, inside, [line] + rest) == Overruled(None, false, true, rest)
  {
    assert ([line] + rest)[1..] == rest;
  }

  lemma OverruledBranch(r: Record, branch: string, rest: seq<string>)
    requires branch == if r.branch == DETACHED then "detached" else BRANCH + (HEADS + r.branch)
    ensures Overruled(None, false, true, [branch] + rest)
            == Overruled(if r.branch == DETACHED then None else Some(r.branch), false, true, rest)
  {
    hide DropFirst, BranchOf;
    assert ([branch] + rest)[1..] == rest;
    if r.branch != DETACHED {
      BranchLine(r.branch);
      NotWorktreeLine('b', branch);
    }
  }

  /** The close and sync readers read the same worktrees back from what git prints. */
  lemma PrintThenReadElsewhere(ws: seq<Shown>)
    requires Printable(ws)
    requires forall i | 0 <= i < |ws| :: ws[i].record.path != ""
    ensures Agree(Entries(Print(ws)), RecordsOf(ws), path => path)
    ensures Trees(Print(ws)) == Entries(Print(ws))
  {
    hide RecordLines, Split, Join, ScanLines, ReadLines, Overruled, ReadLine, Trees;
    var text, rs := Print(ws), RecordsOf(ws);
    PrintThenRead(ws, path => path);
    CloseAndEstateAgree(text, path => path);
    if ws == [] {
      PrintNothing();
      assert !Overruled(None, false, false, [""]) by { NothingOverruled(); }
    } else {
      PrintedSplits(ws);
      PrintedIsNeverOverruled(ws, None, false);
    }
    SyncReadsNamedEntries(text);
    NamedLength(Entries(text));
    forall i | 0 <= i < |Entries(text)| ensures Entries(text)[i].path != "" {
      assert SameWorktree(Entries(text)[i], rs[i], path => path);
    }
  }

  lemma TailIsLineFree(lines: seq<string>)
    requires LineFree(lines, '\n') && lines != []
    ensures '\n' !in lines[0] && LineFree(lines[1..], '\n')
  {
  }

  /** Resolving puts no line break into a path. */
  ghost predicate AddsNoBreak(resolve: string -> string) {
    forall path | '\n' !in path :: '\n' !in resolve(path)
  }

  predicate PathsUnbroken(rs: seq<Record>) {
    forall i | 0 <= i < |rs| :: '\n' !in rs[i].path
  }

  lemma {:induction false} ReadPathsUnbroken(r: Reading, lines: seq<string>, resolve: string -> string)
    requires LineFree(lines, '\n') && AddsNoBreak(resolve) && PathsUnbroken(Close(r))
    ensures PathsUnbroken(Close(ReadLines(r, lines, resolve)))
    decreases |lines|
  {
    if lines != [] {
      TailIsLineFree(lines);
      hide BranchOf, Marker;
      var next := ReadLine(r, lines[0], resolve);
      if r.cur.Some? { assert Close(r)[|r.out|] == r.cur.value; }
      assert forall i | 0 <= i < |r.out| :: r.out[i] == Close(r)[i];
      assert forall i | 0 <= i < |Close(next)| :: '\n' !in Close(next)[i].path;
      ReadPathsUnbroken(next, lines[1..], resolve);
    }
  }

  /** A listing reads back exactly when no path has a line break in it. */
  lemma ReadsBackIff(ws: seq<Shown>, resolve: string -> string)
    requires AddsNoBreak(resolve) && forall i | 0 <= i < |ws| :: Plain(ws[i])
    requires forall i | 0 <= i < |ws| :: resolve(ws[i].record.path) == ws[i].record.path
    ensures Records(Print(ws), resolve) == RecordsOf(ws) <==> PathsUnbroken(RecordsOf(ws))
  {
    hide ShownLines, Split, Join, ReadLines, Plain, AddsNoBreak;
    SplitLineFree(Print(ws), '\n');
    ReadPathsUnbroken(Reading([], None), Split(Print(ws), NL), resolve);
    if PathsUnbroken(RecordsOf(ws)) {
      forall i | 0 <= i < |ws| ensures '\n' !in ws[i].record.path {
        assert RecordsOf(ws)[i] == ws[i].record;
      }
      PrintThenRead(ws, resolve);
    }
  }

  predicate EntriesUnbroken(entries: seq<Entry>) {
    forall i | 0 <= i < |entries| :: '\n' !in entries[i].path
  }

  lemma {:induction false} ScanPathsUnbroken(s: Scan, lines: seq<string>)
    requires LineFree(lines, '\n') && EntriesUnbroken(Flush(s).entries)
    ensures EntriesUnbroken(Flush(ScanLines(s, lines)).entries)
    decreases |lines|
  {
    if lines != [] {
      TailIsLineFree(lines);
      hide BranchOf;
      var next := ScanLine(s, lines[0]);
      if s.path.Some? { assert Flush(s).entries[|s.entries|].path == s.path.value; }
      assert forall i | 0 <= i < |s.entries| :: s.entries[i] == Flush(s).entries[i];
      assert forall i | 0 <= i < |Flush(next).entries| :: '\n' !in Flush(next).entries[i].path;
      ScanPathsUnbroken(next, lines[1..]);
    }
  }

  /** The same holds of the close reader. */
  lemma ReadsBackElsewhereIff(ws: seq<Shown>)
    requires forall i | 0 <= i < |ws| :: Plain(ws[i]) && ws[i].record.path != ""
    ensures Agree(Entries(Print(ws)), RecordsOf(ws), path => path) <==> PathsUnbroken(RecordsOf(ws))
  {
    hide ShownLines, Split, Join, ScanLines, Plain, BranchOf;
    var rs, es := RecordsOf(ws), Entries(Print(ws));
    SplitLineFree(Print(ws), '\n');
    ScanPathsUnbroken(Scan([], None, None), Split(Print(ws), NL));
    if PathsUnbroken(rs) {
      forall i | 0 <= i < |ws| ensures '\n' !in ws[i].record.path {
        assert rs[i] == ws[i].record;
      }
      PrintThenReadElsewhere(ws);
    }
    if Agree(es, rs, path => path) {
      forall i | 0 <= i < |rs| ensures '\n' !in rs[i].path {
        assert SameWorktree(es[i], rs[i], path => path);
      }
    }
  }

  lemma NothingOverruled()
    ensures !Overruled(None, false, false, [""])
  {
    assert [""][1..] == [];
  }
}
