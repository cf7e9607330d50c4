/** Terminal numbers claimed through one shared remote
    (scripts/terminal-registry.ts and scripts/terminal-registry-cli.ts). */
module TerminalRegistry {
  import opened Text

  const CLAIM_PREFIX: string := "refs/terminals/"
  const SLASH: string := "/"

  // ------------------------------------------------------------------- names

  /** None where the code throws. */
  function TerminalRefName(terminal: int): Option<string> {
    if terminal < 1 then None else Some(CLAIM_PREFIX + Decimal(terminal))
  }

  /** The remote-tracking name a fetch gives terminal `n` of `remote`. */
  function TrackingRef(remote: string, n: nat): string {
    Join(["refs", "remotes", remote, "terminals", Decimal(n)], SLASH)
  }

  /** The number a ref name carries: `refs/remotes/<segment>/terminals/<digits>` and nothing else. */
  function TerminalOf(name: string): Option<nat> {
    var parts := Split(name, SLASH);
    if |parts| == 5 && parts[0] == "refs" && parts[1] == "remotes" && parts[2] != "" && parts[3] == "terminals"
       && IsDigits(parts[4])
    then Some(Number(parts[4]))
    else None
  }

  function Parsed(refNames: seq<string>): seq<nat> {
    if refNames == [] then []
    else
      var last := TerminalOf(refNames[|refNames| - 1]);
      Parsed(refNames[..|refNames| - 1]) + if last.Some? then [last.value] else []
  }

  method ParseTerminalRefs(refNames: seq<string>) returns (out: seq<nat>)
    ensures out == Parsed(refNames)
  {
    hide TerminalOf;
    out := [];
    for i := 0 to |refNames|
      invariant out == Parsed(refNames[..i])
    {
      var digits := TerminalOf(refNames[i]);
      if digits.Some? {
        out := out + [digits.value];
      }
      assert refNames[..i + 1][..i] == refNames[..i];
    }
    assert refNames[..|refNames|] == refNames;
  }

  lemma {:induction false} ParsedAre(refNames: seq<string>, n: nat)
    ensures n in Parsed(refNames) <==> exists k | 0 <= k < |refNames| :: TerminalOf(refNames[k]) == Some(n)
  {
    hide TerminalOf;
    if refNames != [] {
      var init := refNames[..|refNames| - 1];
      ParsedAre(init, n);
      assert forall k | 0 <= k < |init| :: init[k] == refNames[k];
    }
  }

  lemma DecimalHasNoSlash(n: nat)
    ensures '/' !in Decimal(n)
  {
    var s := Decimal(n);
    assert forall i | 0 <= i < |s| :: s[i] <= '9';
  }

  /** A published number survives the trip through its ref name. */
  lemma TrackingRefReadsBack(remote: string, n: nat)
    requires remote != "" && '/' !in remote
    ensures TerminalOf(TrackingRef(remote, n)) == Some(n)
  {
    hide Decimal, Number, Join, Split;
    var parts := ["refs", "remotes", remote, "terminals", Decimal(n)];
    DecimalHasNoSlash(n);
    NumberDecimal(n);
    SplitJoin(parts, '/');
  }

  /** `ref` is the published ref of terminal `n`: its name after a fetch reads back as `n`. */
  ghost predicate PublishesAs(ref: string, n: nat) {
    exists tail: string :: ref == "refs/terminals/" + tail && FetchesAs(tail, n)
  }

  predicate FetchesAs(tail: string, n: nat) {
    TerminalOf("refs/remotes/origin/terminals/" + tail) == Some(n)
  }

  /** A name for every positive number, which once fetched is read as that number, and for no other. */
  lemma RefNamePublishes(n: int)
    ensures TerminalRefName(n).Some? <==> n >= 1
    ensures n >= 1 ==> PublishesAs(TerminalRefName(n).value, n)
  {
    hide TerminalOf, Decimal;
    if n >= 1 {
      TrackingRefReadsBack("origin", n);
      TrackingRefIs(n);
      assert FetchesAs(Decimal(n), n);
    }
  }

  lemma TrackingRefIs(n: nat)
    ensures TrackingRef("origin", n) == "refs/remotes/origin/terminals/" + Decimal(n)
  {
    hide Decimal;
    var d := Decimal(n);
    hide Join;
    JoinCons("refs", ["remotes", "origin", "terminals", d], SLASH);
    JoinCons("remotes", ["origin", "terminals", d], SLASH);
    JoinCons("origin", ["terminals", d], SLASH);
    JoinCons("terminals", [d], SLASH);
    assert Join([d], SLASH) == d by { JoinOne(d); }
    assert ["refs"] + ["remotes", "origin", "terminals", d] == ["refs", "remotes", "origin", "terminals", d];
    assert ["remotes"] + ["origin", "terminals", d] == ["remotes", "origin", "terminals", d];
    assert ["origin"] + ["terminals", d] == ["origin", "terminals", d];
    assert ["terminals"] + [d] == ["terminals", d];
    SegmentsJoin(d);
  }

  lemma JoinOne(s: string)
    ensures Join([s], SLASH) == s
  {
  }

  lemma SegmentsJoin(d: string)
    ensures "refs" + SLASH + ("remotes" + SLASH + ("origin" + SLASH + ("terminals" + SLASH + d)))
            == "refs/remotes/origin/terminals/" + d
  {
    assert "refs" + SLASH + ("remotes" + SLASH + ("origin" + SLASH + ("terminals" + SLASH + d)))
           == ("refs" + SLASH + ("remotes" + SLASH + ("origin" + SLASH + ("terminals" + SLASH)))) + d;
    assert "refs" + SLASH + ("remotes" + SLASH + ("origin" + SLASH + ("terminals" + SLASH)))
           == "refs/remotes/origin/terminals/";
  }

  /** A name that reads as a number has exactly that shape; anything else is ignored. */
  lemma ReadsOnlyTrackingRefs(name: string)
    requires TerminalOf(name).Some?
    ensures exists remote: string, digits: string ::
              && remote != "" && '/' !in remote && IsDigits(digits)
              && TerminalOf(name) == Some(Number(digits))
              && name == Join(["refs", "remotes", remote, "terminals", digits], SLASH)
  {
    hide Number, Join, Split;
    var parts := Split(name, SLASH);
    JoinSplit(name, SLASH);
    SplitLineFree(name, '/');
    assert parts == ["refs", "remotes", parts[2], "terminals", parts[4]];
  }

  function Highest(published: seq<nat>): (m: nat)
    requires published != []
    ensures m in published && forall p | p in published :: p <= m
  {
    var last := published[|published| - 1];
    if |published| == 1 then last
    else
      var m := Highest(published[..|published| - 1]);
      assert published == published[..|published| - 1] + [last];
      if last > m then last else m
  }

  function NextTerminalNumber(published: seq<nat>): (n: nat)
    ensures n >= 1 && forall p | p in published :: p < n
    ensures if published == [] then n == 1 else n - 1 in published
  {
    if published == [] then 1 else Highest(published) + 1
  }

  predicate SlugChars(s: string) {
    s != "" && forall i | 0 <= i < |s| :: 'a' <= s[i] <= 'z' || '0' <= s[i] <= '9'
  }

  predicate Slug(s: string) {
    forall i | 0 <= i < |Split(s, "-")| :: SlugChars(Split(s, "-")[i])
  }

  function WorktreeDirName(terminal: int, worktree: int, slug: string): Option<string> {
    if terminal < 1 || worktree < 1 || !Slug(slug) then None
    else Some("t" + Decimal(terminal) + "-" + ("wt" + Decimal(worktree) + "-" + slug))
  }

  predicate KebabChar(c: char) {
    'a' <= c <= 'z' || '0' <= c <= '9' || c == '-'
  }

  /** Lower-case letters and digits with single hyphens between them: what the split reads off is
      that nothing begins, ends or doubles a hyphen. */
  predicate Kebab(s: string) {
    && s != "" && s[0] != '-' && s[|s| - 1] != '-'
    && (forall i | 0 <= i < |s| :: KebabChar(s[i]))
    && (forall i | 0 <= i < |s| - 1 :: s[i] != '-' || s[i + 1] != '-')
  }

  lemma {:induction false} SlugIsKebab(s: string)
    ensures Slug(s) <==> Kebab(s)
    decreases |s|
  {
    hide Split;
    if '-' !in s {
      SplitWhole(s, '-');
      assert Split(s, "-") == [s];
      assert Split(s, "-")[0] == s;
      OneWord(s);
    } else {
      var i := Index(s, "-");
      DashAt(s);
      var first, rest := s[..i], s[i + 1..];
      assert s == first + ['-'] + rest && '-' !in first;
      SplitHead(first, '-', rest);
      SlugIsKebab(rest);
      var parts := Split(rest, "-");
      assert Split(s, "-") == [first] + parts;
      assert Slug(s) <==> SlugChars(first) && Slug(rest) by {
        if SlugChars(first) && Slug(rest) {
          forall k | 0 <= k < |Split(s, "-")| ensures SlugChars(Split(s, "-")[k]) {
            if k > 0 { assert Split(s, "-")[k] == parts[k - 1]; }
          }
        }
        if Slug(s) {
          assert Split(s, "-")[0] == first;
          forall k | 0 <= k < |parts| ensures SlugChars(parts[k]) {
            assert Split(s, "-")[k + 1] == parts[k];
          }
        }
      }
      KebabCut(first, rest, s);
    }
  }

  lemma OneWord(s: string)
    requires '-' !in s
    ensures Kebab(s) <==> SlugChars(s)
  {
    assert forall i | 0 <= i < |s| :: s[i] in s;
    if Kebab(s) {
      forall i | 0 <= i < |s| ensures 'a' <= s[i] <= 'z' || '0' <= s[i] <= '9' {
        assert KebabChar(s[i]) && s[i] != '-';
      }
    }
  }

  lemma DashAt(s: string)
    requires '-' in s
    ensures 0 <= Index(s, "-") < |s| && s[Index(s, "-")] == '-' && '-' !in s[..Index(s, "-")]
  {
    var k :| 0 <= k < |s| && s[k] == '-';
    assert OccursAt(s, "-", k);
    var i := Index(s, "-");
    assert s[i..i + 1] == "-";
    forall j | 0 <= j < i ensures s[j] != '-' {
      assert !OccursAt(s, "-", j);
      assert s[j..j + 1] == [s[j]];
    }
  }

  lemma KebabCut(first: string, rest: string, s: string)
    requires s == first + ['-'] + rest && '-' !in first
    ensures Kebab(s) <==> SlugChars(first) && Kebab(rest)
  {
    assert forall i | 0 <= i < |first| :: s[i] == first[i];
    assert s[|first|] == '-';
    assert forall i | 0 <= i < |rest| :: rest[i] == s[|first| + 1 + i];
    if Kebab(s) {
      forall i | 0 <= i < |first| ensures 'a' <= first[i] <= 'z' || '0' <= first[i] <= '9' {
        assert KebabChar(s[i]);
      }
      assert first != "";
      assert rest != "" by { assert s[|s| - 1] != '-'; }
      forall i | 0 <= i < |rest| - 1 ensures rest[i] != '-' || rest[i + 1] != '-' {
        assert s[|first| + 1 + i] != '-' || s[|first| + 1 + i + 1] != '-';
      }
      assert s[|first|] != '-' || s[|first| + 1] != '-';
    }
    if SlugChars(first) && Kebab(rest) {
      forall i | 0 <= i < |s| - 1 ensures s[i] != '-' || s[i + 1] != '-' {
        if i > |first| { assert rest[i - |first| - 1] != '-' || rest[i - |first|] != '-'; }
      }
      assert s[|s| - 1] == rest[|rest| - 1];
    }
  }

  /** A directory name says the terminal and the worktree in digits, and the slug; there is one for
      positive numbers and a kebab-case slug only. */
  ghost predicate DirFor(dir: string, terminal: int, worktree: int, slug: string) {
    exists t: string, w: string ::
      && dir == "t" + t + "-wt" + w + "-" + slug
      && IsDigits(t) && Number(t) == terminal && IsDigits(w) && Number(w) == worktree
  }

  lemma DirNameMeans(terminal: int, worktree: int, slug: string)
    ensures WorktreeDirName(terminal, worktree, slug).Some? <==> terminal >= 1 && worktree >= 1 && Kebab(slug)
    ensures WorktreeDirName(terminal, worktree, slug).Some? ==>
              DirFor(WorktreeDirName(terminal, worktree, slug).value, terminal, worktree, slug)
  {
    hide Slug, Kebab, Decimal, Number;
    SlugIsKebab(slug);
    if terminal >= 1 && worktree >= 1 {
      var t, w := Decimal(terminal), Decimal(worktree);
      NumberDecimal(terminal);
      NumberDecimal(worktree);
      assert "t" + t + "-" + ("wt" + w + "-" + slug) == "t" + t + "-wt" + w + "-" + slug;
    }
  }

  /** Two terminals never share a directory, whatever the slugs. */
  lemma DirNamesDiffer(t: nat, w: nat, slug: string, u: nat, x: nat, other: string)
    requires WorktreeDirName(t, w, slug).Some? && WorktreeDirName(t, w, slug) == WorktreeDirName(u, x, other)
    ensures t == u
  {
    hide Slug;
    var a, b := "t" + Decimal(t), "t" + Decimal(u);
    DecimalHasNoDash(t);
    DecimalHasNoDash(u);
    SplitHead(a, '-', "wt" + Decimal(w) + "-" + slug);
    SplitHead(b, '-', "wt" + Decimal(x) + "-" + other);
    var dir := a + "-" + ("wt" + Decimal(w) + "-" + slug);
    assert dir == b + "-" + ("wt" + Decimal(x) + "-" + other);
    assert Split(dir, "-")[0] == a == b;
    assert a[1..] == Decimal(t) && b[1..] == Decimal(u);
    DecimalInjective(t, u);
  }

  lemma DecimalHasNoDash(n: nat)
    ensures '-' !in Decimal(n)
  {
    var s := Decimal(n);
    assert forall i | 0 <= i < |s| :: '0' <= s[i];
  }

  /** The blob a claim publishes; None where the code throws. */
  function ClaimBlobContent(host: string, isoTime: string): Option<string> {
    if Trim(host) == "" || Trim(isoTime) == "" then None
    else Some("terminal claimed by " + Trim(host) + " at " + Trim(isoTime) + NL)
  }

  /** Two claims write the same blob only from the same host at the same time. A host may
      contain anything, " at " included; a time carries no blank. */
  lemma ClaimBlobsDiffer(host: string, time: string, host2: string, time2: string)
    requires ClaimBlobContent(host, time).Some? && ClaimBlobContent(host, time) == ClaimBlobContent(host2, time2)
    requires ' ' !in Trim(time) && ' ' !in Trim(time2)
    ensures Trim(host) == Trim(host2) && Trim(time) == Trim(time2)
  {
    hide Trim;
    var a := "terminal claimed by " + Trim(host) + " at";
    var b := "terminal claimed by " + Trim(host2) + " at";
    var s := a + " " + (Trim(time) + NL);
    var t := b + " " + (Trim(time2) + NL);
    assert ClaimBlobContent(host, time).value == s;
    assert ClaimBlobContent(host2, time2).value == t;
    LastIndexIs(a, ' ', Trim(time) + NL);
    LastIndexIs(b, ' ', Trim(time2) + NL);
    assert |a| == |b| && a == s[..|a|] == t[..|a|] == b;
    assert Trim(host) == a[20..|a| - 3] && Trim(host2) == b[20..|b| - 3];
    assert Trim(time) + NL == s[|a| + 1..] && Trim(time2) + NL == t[|a| + 1..];
    assert Trim(time) == (Trim(time) + NL)[..|Trim(time)|];
  }

  // ------------------------------------------------------- the claim protocol

  type Pid = nat
  type Clone = nat

  /** How far one `claim` process is. */
  datatype Phase =
    | Fetched(clone: Clone)
    | Planned(n: nat)
    | Ready(n: nat, blob: string)
    | Issued(n: nat)
    | Failed

  /** `remote`: the refs/terminals/ namespace. `tracking`: what each clone last fetched.
      `written`: every blob content that exists. `issued`: the claims reported as won. */
  datatype State = State(
    remote: map<nat, string>,
    tracking: map<Clone, set<nat>>,
    phase: map<Pid, Phase>,
    written: set<string>,
    issued: seq<(Pid, nat)>)

  /** Whether a push reaches the remote, and whether its answer comes back. */
  datatype Link = Up | AnswerLost | Down

  datatype Step =
    | Fetch(p: Pid, clone: Clone, ok: bool)
    | List(p: Pid, names: seq<string>, ok: bool)
    | WriteBlob(p: Pid, host: string, time: string, ok: bool)
    | Push(p: Pid, link: Link)
    | Refresh(clone: Clone, kept: set<nat>, got: set<nat>)

  function Tracked(s: State, clone: Clone): set<nat> {
    if clone in s.tracking then s.tracking[clone] else {}
  }

  /** What `for-each-ref refs/remotes/` may print in a clone that tracks `tracked`: those
      terminals of origin, among any names that are not terminal refs. */
  predicate ListsTracking(names: seq<string>, tracked: set<nat>) {
    && (forall n | n in tracked :: TrackingRef("origin", n) in names)
    && (forall k | 0 <= k < |names| :: TerminalOf(names[k]).Some? ==> TerminalOf(names[k]).value in tracked)
  }

  predicate Enabled(s: State, step: Step) {
    match step
    case Fetch(p, _, _) => p !in s.phase
    case List(p, names, _) =>
      && p in s.phase && s.phase[p].Fetched? && s.phase[p].clone in s.tracking
      && ListsTracking(names, s.tracking[s.phase[p].clone])
    case WriteBlob(p, _, _, _) => p in s.phase && s.phase[p].Planned?
    case Push(p, _) => p in s.phase && s.phase[p].Ready?
    case Refresh(_, _, _) => true
  }

  /** A push with an empty lease creates the ref if it is absent, whether or not the answer
      gets back. */
  function Pushed(remote: map<nat, string>, n: nat, blob: string, link: Link): map<nat, string> {
    if link.Down? || n in remote then remote else remote[n := blob]
  }

  /** Exit 0: created, or "up to date" because the same object is there already. */
  predicate Succeeds(remote: map<nat, string>, n: nat, blob: string, link: Link) {
    link.Up? && (n !in remote || remote[n] == blob)
  }

  function After(s: State, step: Step): State
    requires Enabled(s, step)
  {
    match step
    case Fetch(p, clone, ok) =>
      if ok then s.(tracking := s.tracking[clone := s.remote.Keys], phase := s.phase[p := Fetched(clone)])
      else s.(phase := s.phase[p := Failed])
    case List(p, names, ok) =>
      var published := if ok then Parsed(names) else [];
      s.(phase := s.phase[p := if published == [] then Failed else Planned(NextTerminalNumber(published))])
    case WriteBlob(p, host, time, ok) =>
      var blob := ClaimBlobContent(host, time);
      if blob.None? || !ok then s.(phase := s.phase[p := Failed])
      else s.(written := s.written + {blob.value}, phase := s.phase[p := Ready(s.phase[p].n, blob.value)])
    case Push(p, link) =>
      var n, blob := s.phase[p].n, s.phase[p].blob;
      var won := Succeeds(s.remote, n, blob, link);
      s.(remote := Pushed(s.remote, n, blob, link),
         phase := s.phase[p := if won then Issued(n) else Failed],
         issued := s.issued + if won then [(p, n)] else [])
    case Refresh(clone, kept, got) =>
      // Any other command that refetches the terminals in that clone, at any point of its way: the
      // sync script prunes their tracking refs and brings them back, the census fetches them.
      s.(tracking := s.tracking[clone := Tracked(s, clone) * kept + s.remote.Keys * got])
  }

  /** A refresh can leave a clone's tracking refs at exactly the mixtures of old and published ones. */
  lemma RefreshReaches(s: State, clone: Clone, refs: set<nat>)
    ensures refs <= Tracked(s, clone) + s.remote.Keys <==>
              exists kept, got :: Tracked(After(s, Refresh(clone, kept, got)), clone) == refs
  {
    if refs <= Tracked(s, clone) + s.remote.Keys {
      assert Tracked(s, clone) * refs + s.remote.Keys * refs == refs;
      assert Tracked(After(s, Refresh(clone, refs, refs)), clone) == refs;
    }
  }

  /** The steps of any number of processes, in any order, a process stopping wherever it likes. */
  predicate Allowed(s: State, steps: seq<Step>)
    decreases |steps|
  {
    steps == [] || (Enabled(s, steps[0]) && Allowed(After(s, steps[0]), steps[1..]))
  }

  function Run(s: State, steps: seq<Step>): State
    requires Allowed(s, steps)
    decreases |steps|
  {
    if steps == [] then s else Run(After(s, steps[0]), steps[1..])
  }

  /** Every claim blob is one that did not exist before it was written. */
  predicate Fresh(s: State, step: Step) {
    step.WriteBlob? ==>
      var blob := ClaimBlobContent(step.host, step.time);
      blob.Some? ==> blob.value !in s.written
  }

  predicate DistinctBlobs(s: State, steps: seq<Step>)
    requires Allowed(s, steps)
    decreases |steps|
  {
    steps == [] || (Fresh(s, steps[0]) && DistinctBlobs(After(s, steps[0]), steps[1..]))
  }

  /** No claim has begun; clones may hold any stale view. */
  predicate Start(s: State) {
    s.phase == map[] && s.issued == [] && forall n | n in s.remote :: s.remote[n] in s.written
  }

  predicate Ceiling(numbers: set<nat>, top: nat) {
    top in numbers && forall n | n in numbers :: n <= top
  }

  // --------------------------------------------------- what every step keeps

  /** `base` and everything from its ceiling up to `top` is published, and nobody plans a
      number further than one past `top`. */
  ghost predicate Contiguous(base: set<nat>, ceiling: nat, top: nat, s: State) {
    && ceiling <= top
    && (forall n: nat :: n in s.remote <==> n in base || ceiling < n <= top)
    && (forall p | p in s.phase ::
          && (s.phase[p].Fetched? ==>
                var c := s.phase[p].clone; c in s.tracking && base <= s.tracking[c] <= s.remote.Keys)
          && (s.phase[p].Planned? || s.phase[p].Ready? ==> ceiling < s.phase[p].n <= top + 1))
  }

  lemma ListedNumber(names: seq<string>, tracked: set<nat>)
    requires ListsTracking(names, tracked)
    ensures forall n: nat :: n in Parsed(names) <==> n in tracked
  {
    hide TerminalOf, TrackingRef;
    forall n: nat ensures n in Parsed(names) <==> n in tracked {
      ParsedAre(names, n);
      if n in tracked {
        TrackingRefReadsBack("origin", n);
        var k :| 0 <= k < |names| && names[k] == TrackingRef("origin", n);
      }
    }
  }

  /** No clone is refreshed between a claim's fetch and its listing there. */
  predicate Calm(s: State, step: Step) {
    step.Refresh? ==> forall p | p in s.phase && s.phase[p].Fetched? :: s.phase[p].clone != step.clone
  }

  predicate AllCalm(s: State, steps: seq<Step>)
    requires Allowed(s, steps)
    decreases |steps|
  {
    steps == [] || (Calm(s, steps[0]) && AllCalm(After(s, steps[0]), steps[1..]))
  }

  lemma KeepsContiguous(base: set<nat>, ceiling: nat, top: nat, s: State, step: Step) returns (top': nat)
    requires Ceiling(base, ceiling) && Contiguous(base, ceiling, top, s) && Enabled(s, step) && Calm(s, step)
    ensures top' == if After(s, step).remote == s.remote then top else top + 1
    ensures Contiguous(base, ceiling, top', After(s, step))
    ensures After(s, step).remote != s.remote ==> step.Push? && s.phase[step.p].n == top + 1
  {
    hide ClaimBlobContent, Parsed, ListsTracking;
    top' := top;
    match step {
      case Fetch(p, clone, ok) =>
      case List(p, names, ok) =>
        var tracked := s.tracking[s.phase[p].clone];
        ListedNumber(names, tracked);
        if ok {
          assert ceiling in Parsed(names);
        }
      case WriteBlob(p, host, time, ok) =>
      case Push(p, link) =>
        var n, blob := s.phase[p].n, s.phase[p].blob;
        if n in s.remote || link.Down? {
        } else {
          assert n in After(s, step).remote;
          top' := top + 1;
        }
      case Refresh(clone, kept, got) =>
    }
  }

  // ------------------------------------------- what holds with refreshes at any time

  /** Every published number was there at the start or follows one that is published; what a claim
      goes by is published, and what it plans follows a published number. */
  ghost predicate Rooted(base: set<nat>, s: State) {
    && (forall n | n in base :: n in s.remote)
    && (forall n | n in s.remote :: n in base || (n >= 1 && n - 1 in s.remote))
    && (forall p | p in s.phase ::
          && (s.phase[p].Fetched? ==>
                s.phase[p].clone in s.tracking && s.tracking[s.phase[p].clone] <= s.remote.Keys)
          && (s.phase[p].Planned? || s.phase[p].Ready? ==> s.phase[p].n >= 1 && s.phase[p].n - 1 in s.remote))
  }

  lemma KeepsRooted(base: set<nat>, s: State, step: Step)
    requires Rooted(base, s) && Enabled(s, step)
    ensures Rooted(base, After(s, step))
    ensures After(s, step).remote != s.remote ==> step.Push? && s.phase[step.p].n !in s.remote
  {
    hide ClaimBlobContent, Parsed, ListsTracking;
    match step {
      case Fetch(p, clone, ok) =>
      case List(p, names, ok) =>
        ListedNumber(names, s.tracking[s.phase[p].clone]);
      case WriteBlob(p, host, time, ok) =>
      case Push(p, link) =>
      case Refresh(clone, kept, got) =>
    }
  }

  /** All numbers between the least and the greatest. */
  ghost predicate NoGaps(numbers: set<nat>) {
    forall a, n, b | a in numbers && b in numbers && a <= n <= b :: n in numbers
  }

  /** The blob a process is about to push is nobody else's and is on no ref. */
  predicate Exclusive(s: State) {
    && (forall n | n in s.remote :: s.remote[n] in s.written)
    && (forall p | p in s.phase && s.phase[p].Ready? ::
          s.phase[p].blob in s.written && forall n | n in s.remote :: s.remote[n] != s.phase[p].blob)
    && (forall p, q | p in s.phase && q in s.phase && p != q && s.phase[p].Ready? && s.phase[q].Ready? ::
          s.phase[p].blob != s.phase[q].blob)
    && (forall i | 0 <= i < |s.issued| :: s.issued[i].1 in s.remote)
    && (forall i, j | 0 <= i < j < |s.issued| :: s.issued[i].1 != s.issued[j].1)
  }

  lemma KeepsExclusive(s: State, step: Step)
    requires Exclusive(s) && Enabled(s, step) && Fresh(s, step)
    ensures Exclusive(After(s, step))
    ensures After(s, step).issued == s.issued
            || (step.Push? && s.phase[step.p].n !in s.remote
                && After(s, step).issued == s.issued + [(step.p, s.phase[step.p].n)])
  {
    hide ClaimBlobContent, Parsed, ListsTracking;
    match step {
      case Fetch(_, _, _) =>
      case List(_, _, _) =>
      case WriteBlob(_, _, _, _) =>
      case Push(p, link) =>
        var n, blob := s.phase[p].n, s.phase[p].blob;
        assert n in s.remote ==> s.remote[n] != blob;
      case Refresh(_, _, _) =>
    }
  }

  // ----------------------------------------------------------- over whole runs

  /** Published numbers are never withdrawn and never change hands. */
  lemma {:induction false} RegistryOnlyGrows(s: State, steps: seq<Step>)
    requires Allowed(s, steps)
    ensures forall n | n in s.remote :: n in Run(s, steps).remote && Run(s, steps).remote[n] == s.remote[n]
    decreases |steps|
  {
    hide Enabled, ClaimBlobContent, Parsed;
    if steps != [] {
      RegistryOnlyGrows(After(s, steps[0]), steps[1..]);
    }
  }

  lemma {:induction false} RunKeepsContiguous(base: set<nat>, ceiling: nat, top: nat, s: State, steps: seq<Step>)
    returns (top': nat)
    requires Ceiling(base, ceiling) && Contiguous(base, ceiling, top, s) && Allowed(s, steps) && AllCalm(s, steps)
    ensures Contiguous(base, ceiling, top', Run(s, steps))
    decreases |steps|
  {
    hide Ceiling, Contiguous, Enabled, After, Calm;
    top' := top;
    if steps != [] {
      top' := KeepsContiguous(base, ceiling, top, s, steps[0]);
      top' := RunKeepsContiguous(base, ceiling, top', After(s, steps[0]), steps[1..]);
    }
  }

  lemma {:induction false} RunKeepsRooted(base: set<nat>, s: State, steps: seq<Step>)
    requires Rooted(base, s) && Allowed(s, steps)
    ensures Rooted(base, Run(s, steps))
    decreases |steps|
  {
    hide Rooted, Enabled, After;
    if steps != [] {
      KeepsRooted(base, s, steps[0]);
      RunKeepsRooted(base, After(s, steps[0]), steps[1..]);
    }
  }

  lemma {:induction false} RunKeepsExclusive(s: State, steps: seq<Step>)
    requires Exclusive(s) && Allowed(s, steps) && DistinctBlobs(s, steps)
    ensures Exclusive(Run(s, steps))
    decreases |steps|
  {
    hide Exclusive, Enabled, After, Fresh;
    if steps != [] {
      KeepsExclusive(s, steps[0]);
      RunKeepsExclusive(After(s, steps[0]), steps[1..]);
    }
  }

  lemma StartIsContiguous(s: State, ceiling: nat)
    requires Start(s) && Ceiling(s.remote.Keys, ceiling)
    ensures Contiguous(s.remote.Keys, ceiling, ceiling, s)
  {
  }

  lemma {:induction false} IssuedAreNew(base: set<nat>, s: State, steps: seq<Step>)
    requires Exclusive(s) && Allowed(s, steps) && DistinctBlobs(s, steps)
    requires forall n | n in base :: n in s.remote
    requires forall i | 0 <= i < |s.issued| :: s.issued[i].1 !in base
    ensures forall i | 0 <= i < |Run(s, steps).issued| :: Run(s, steps).issued[i].1 !in base
    decreases |steps|
  {
    if steps != [] {
      hide Exclusive, Enabled, After, Fresh;
      KeepsExclusive(s, steps[0]);
      RegistryOnlyGrows(s, steps[..1]);
      OneStep(s, steps[0]);
      assert steps[..1] == [steps[0]];
      IssuedAreNew(base, After(s, steps[0]), steps[1..]);
    }
  }

  lemma OneStep(s: State, step: Step)
    requires Enabled(s, step)
    ensures Allowed(s, [step]) && Run(s, [step]) == After(s, step)
  {
    hide Enabled, After;
    assert [step][1..] == [];
    assert Allowed(After(s, step), []);
  }

  /** With distinct claim blobs no number is issued twice, over any interleaving, and none
      that was published before. */
  lemma NoNumberIssuedTwice(s: State, steps: seq<Step>, i: nat, j: nat)
    requires Start(s) && Allowed(s, steps) && DistinctBlobs(s, steps)
    requires i < |Run(s, steps).issued| && j < |Run(s, steps).issued|
    ensures Run(s, steps).issued[i].1 == Run(s, steps).issued[j].1 ==> i == j
    ensures Run(s, steps).issued[i].1 in Run(s, steps).remote && Run(s, steps).issued[i].1 !in s.remote
  {
    hide Run;
    RunKeepsExclusive(s, steps);
    IssuedAreNew(s.remote.Keys, s, steps);
  }

  /** Whatever refreshes go on, each published number was there at the start or follows a published
      one: no claim opens a gap. */
  lemma PublishedStayRooted(s: State, steps: seq<Step>, n: nat)
    requires Start(s) && Allowed(s, steps) && n in Run(s, steps).remote
    ensures n in s.remote || (n >= 1 && n - 1 in Run(s, steps).remote)
  {
    hide Run, Allowed;
    RunKeepsRooted(s.remote.Keys, s, steps);
  }

  /** A push that creates a ref takes a number whose predecessor is published. */
  lemma CreationFollowsPublished(s: State, steps: seq<Step>, p: Pid, link: Link)
    requires Start(s) && Allowed(s, steps) && Enabled(Run(s, steps), Push(p, link))
    requires After(Run(s, steps), Push(p, link)).remote != Run(s, steps).remote
    ensures var now := Run(s, steps);
            now.phase[p].n !in now.remote && now.phase[p].n >= 1 && now.phase[p].n - 1 in now.remote
  {
    hide Run, Allowed, After;
    RunKeepsRooted(s.remote.Keys, s, steps);
    KeepsRooted(s.remote.Keys, Run(s, steps), Push(p, link));
  }

  /** Published: what was there at the start and an unbroken stretch above its ceiling. */
  ghost predicate Stretched(base: set<nat>, ceiling: nat, now: State) {
    exists top: nat :: StretchedTo(base, ceiling, top, now)
  }

  ghost predicate StretchedTo(base: set<nat>, ceiling: nat, top: nat, now: State) {
    top >= ceiling && forall n: nat :: n in now.remote <==> n in base || ceiling < n <= top
  }

  lemma {:induction false} ChainDown(base: set<nat>, s: State, n: nat) returns (root: nat)
    requires Rooted(base, s) && n in s.remote
    ensures root in base && root <= n && forall k: nat | root <= k <= n :: k in s.remote
    decreases n
  {
    if n in base {
      root := n;
    } else {
      root := ChainDown(base, s, n - 1);
    }
  }

  /** Over a base without gaps a rooted registry is one stretch. */
  lemma RootedIsStretched(base: set<nat>, ceiling: nat, s: State)
    requires Ceiling(base, ceiling) && NoGaps(base) && Rooted(base, s)
    ensures Stretched(base, ceiling, s)
  {
    var top := Greatest(s.remote.Keys, ceiling);
    assert ceiling in s.remote;
    forall n: nat ensures n in s.remote <==> n in base || ceiling < n <= top {
      if n in s.remote && n <= ceiling {
        var root := ChainDown(base, s, n);
        assert n in base;
      }
      if ceiling < n <= top {
        var root := ChainDown(base, s, top);
        assert root <= ceiling;
      }
    }
    assert StretchedTo(base, ceiling, top, s);
  }

  lemma {:induction false} Greatest(numbers: set<nat>, member: nat) returns (top: nat)
    requires member in numbers
    ensures Ceiling(numbers, top)
    decreases |numbers|
  {
    top := member;
    if n :| n in numbers && n > member {
      top := Greatest(numbers - {member}, n);
      forall k | k in numbers ensures k <= top {
        assert k == member || k in numbers - {member};
      }
    }
  }

  /** The published numbers are those at the start and an unbroken stretch above their ceiling: when
      the numbers at the start have no gap, or when no clone is refreshed between a claim's fetch and
      its listing. */
  lemma PublishedStayContiguous(s: State, ceiling: nat, steps: seq<Step>)
    requires Start(s) && Ceiling(s.remote.Keys, ceiling) && Allowed(s, steps)
    requires NoGaps(s.remote.Keys) || AllCalm(s, steps)
    ensures Stretched(s.remote.Keys, ceiling, Run(s, steps))
  {
    hide Run, Allowed, AllCalm, NoGaps;
    if NoGaps(s.remote.Keys) {
      RunKeepsRooted(s.remote.Keys, s, steps);
      RootedIsStretched(s.remote.Keys, ceiling, Run(s, steps));
    } else {
      StartIsContiguous(s, ceiling);
      var top := RunKeepsContiguous(s.remote.Keys, ceiling, ceiling, s, steps);
      assert StretchedTo(s.remote.Keys, ceiling, top, Run(s, steps));
    }
  }

  /** However stale the view a process planned from, a push that creates a ref takes exactly one past
      the highest number published at that moment, under the same condition. */
  lemma CreationTakesTheNext(s: State, ceiling: nat, steps: seq<Step>, p: Pid, link: Link)
    requires Start(s) && Ceiling(s.remote.Keys, ceiling) && Allowed(s, steps)
    requires NoGaps(s.remote.Keys) || AllCalm(s, steps)
    requires Enabled(Run(s, steps), Push(p, link))
    requires After(Run(s, steps), Push(p, link)).remote != Run(s, steps).remote
    ensures Run(s, steps).phase[p].n >= 1
    ensures Ceiling(Run(s, steps).remote.Keys, Run(s, steps).phase[p].n - 1)
  {
    hide Run, Allowed, After, AllCalm;
    var now := Run(s, steps);
    var n := now.phase[p].n;
    CreationFollowsPublished(s, steps, p, link);
    if NoGaps(s.remote.Keys) {
      PublishedStayContiguous(s, ceiling, steps);
      var top: nat :| StretchedTo(s.remote.Keys, ceiling, top, now);
      assert n - 1 == top;
    } else {
      StartIsContiguous(s, ceiling);
      var top := RunKeepsContiguous(s.remote.Keys, ceiling, ceiling, s, steps);
      assert n == top + 1;
    }
  }

  /** With distinct blobs every issued number was created by its own push. */
  lemma IssueIsCreation(s: State, steps: seq<Step>, p: Pid, link: Link)
    requires Start(s) && Allowed(s, steps) && DistinctBlobs(s, steps)
    requires Enabled(Run(s, steps), Push(p, link))
    ensures After(Run(s, steps), Push(p, link)).issued != Run(s, steps).issued ==>
              After(Run(s, steps), Push(p, link)).remote != Run(s, steps).remote
  {
    hide Run, Allowed;
    var now := Run(s, steps);
    RunKeepsExclusive(s, steps);
    KeepsExclusive(now, Push(p, link));
    var n := now.phase[p].n;
    assert n !in now.remote && !link.Down? ==> n in After(now, Push(p, link)).remote;
  }

  predicate NobodyPlans(s: State) {
    s.remote == map[] && s.issued == [] && forall p | p in s.phase ::
      || (s.phase[p].Fetched? && s.phase[p].clone in s.tracking && s.tracking[s.phase[p].clone] == {})
      || s.phase[p].Failed?
  }

  /** Against an empty registry every claim is refused: no number is ever published or issued. */
  lemma {:induction false} EmptyRegistryRefuses(s: State, steps: seq<Step>)
    requires NobodyPlans(s) && Allowed(s, steps)
    ensures NobodyPlans(Run(s, steps))
    decreases |steps|
  {
    if steps != [] {
      hide ClaimBlobContent, Parsed, ListsTracking;
      var step := steps[0];
      if step.List? {
        ListedNumber(step.names, s.tracking[s.phase[step.p].clone]);
        if Parsed(step.names) != [] {
          assert Parsed(step.names)[0] in Parsed(step.names);
        }
      }
      EmptyRegistryRefuses(After(s, step), steps[1..]);
    }
  }

  // ------------------------------------------- without distinct blobs, a double issue

  /** Two machines that have both planned terminal 2 and are about to write the same blob. */
  function Twins(blob: string, a: Phase, b: Phase): State {
    State(if a.Issued? then map[1 := "x", 2 := blob] else map[1 := "x"],
          map[0 := {1}, 1 := {1}], map[0 := a, 1 := b],
          if a.Planned? then {"x"} else {"x", blob},
          (if a.Issued? then [(0, 2)] else []) + (if b.Issued? then [(1, 2)] else []))
  }

  lemma TwinsPlan(s: State, names: seq<string>) returns (steps: seq<Step>)
    requires s == State(map[1 := "x"], map[], map[], {"x"}, [])
    requires ListsTracking(names, {1}) && Parsed(names) != [] && NextTerminalNumber(Parsed(names)) == 2
    ensures Allowed(s, steps) && Run(s, steps) == Twins("", Planned(2), Planned(2))
  {
    hide Parsed, NextTerminalNumber, ListsTracking, Run, Allowed;
    assert s.remote.Keys == {1};
    var s1 := After(s, Fetch(0, 0, true));
    var s2 := After(s1, Fetch(1, 1, true));
    assert s2.tracking == map[0 := {1}, 1 := {1}] && s2.phase == map[0 := Fetched(0), 1 := Fetched(1)];
    var s3 := After(s2, List(0, names, true));
    assert s3.phase == map[0 := Planned(2), 1 := Fetched(1)];
    var s4 := After(s3, List(1, names, true));
    assert s4.phase == map[0 := Planned(2), 1 := Planned(2)];
    assert s4 == Twins("", Planned(2), Planned(2));
    steps := FourSteps(s, Fetch(0, 0, true), s1, Fetch(1, 1, true), s2,
                       List(0, names, true), s3, List(1, names, true), s4);
  }

  lemma FourSteps(s: State, a: Step, s1: State, b: Step, s2: State, c: Step, s3: State, d: Step, s4: State)
    returns (steps: seq<Step>)
    requires Enabled(s, a) && After(s, a) == s1 && Enabled(s1, b) && After(s1, b) == s2
    requires Enabled(s2, c) && After(s2, c) == s3 && Enabled(s3, d) && After(s3, d) == s4
    ensures steps == [a] + ([b] + ([c] + ([d] + [])))
    ensures Allowed(s, steps) && Run(s, steps) == s4
    ensures DistinctBlobs(s, steps) <==> Fresh(s, a) && Fresh(s1, b) && Fresh(s2, c) && Fresh(s3, d)
  {
    hide Enabled, After, Fresh, Allowed, Run, DistinctBlobs;
    assert Allowed(s4, []) && Run(s4, []) == s4 && DistinctBlobs(s4, []) by { Nothing(s4); }
    Prepend(s3, d, []);
    Prepend(s2, c, [d] + []);
    Prepend(s1, b, [c] + ([d] + []));
    Prepend(s, a, [b] + ([c] + ([d] + [])));
    steps := [a] + ([b] + ([c] + ([d] + [])));
  }

  lemma Nothing(s: State)
    ensures Allowed(s, []) && Run(s, []) == s && DistinctBlobs(s, [])
  {
  }

  lemma TwinsPush(blob: string, host: string, time: string) returns (steps: seq<Step>)
    requires ClaimBlobContent(host, time) == Some(blob)
    ensures var s := Twins("", Planned(2), Planned(2));
            Allowed(s, steps) && !DistinctBlobs(s, steps) && Run(s, steps).issued == [(0, 2), (1, 2)]
  {
    hide ClaimBlobContent, Run, Allowed, DistinctBlobs;
    var s := Twins("", Planned(2), Planned(2));
    var s1 := After(s, WriteBlob(0, host, time, true));
    assert s1.phase == map[0 := Ready(2, blob), 1 := Planned(2)];
    var s2 := After(s1, WriteBlob(1, host, time, true));
    assert s2.phase == map[0 := Ready(2, blob), 1 := Ready(2, blob)];
    var s3 := After(s2, Push(0, Up));
    assert s3.phase == map[0 := Issued(2), 1 := Ready(2, blob)];
    var s4 := After(s3, Push(1, Up));
    steps := FourSteps(s, WriteBlob(0, host, time, true), s1, WriteBlob(1, host, time, true), s2,
                       Push(0, Up), s3, Push(1, Up), s4);
  }

  /** Two machines that write the same blob both win the same number. */
  lemma SameBlobIssuesTwice() returns (s: State, steps: seq<Step>)
    ensures Start(s) && Allowed(s, steps) && !DistinctBlobs(s, steps)
    ensures Run(s, steps).issued == [(0, 2), (1, 2)]
  {
    hide Parsed, TrackingRef, ClaimBlobContent, NextTerminalNumber, ListsTracking, Run, Allowed, DistinctBlobs, Twins;
    OneListed(1);
    BoxBlob();
    s := State(map[1 := "x"], map[], map[], {"x"}, []);
    var planning := TwinsPlan(s, [TrackingRef("origin", 1)]);
    var pushing := TwinsPush(ClaimBlobContent("box", "now").value, "box", "now");
    RunThen(s, planning, pushing);
    steps := planning + pushing;
  }

  /** A run may be cut anywhere. */
  lemma {:induction false} RunThen(s: State, first: seq<Step>, rest: seq<Step>)
    requires Allowed(s, first) && Allowed(Run(s, first), rest)
    ensures Allowed(s, first + rest) && Run(s, first + rest) == Run(Run(s, first), rest)
    ensures DistinctBlobs(s, first + rest) ==> DistinctBlobs(s, first) && DistinctBlobs(Run(s, first), rest)
    decreases |first|
  {
    hide Enabled, After, Fresh;
    if first == [] {
      assert first + rest == rest;
    } else {
      RunThen(After(s, first[0]), first[1..], rest);
      assert (first + rest)[1..] == first[1..] + rest;
    }
  }

  lemma OneListed(n: nat)
    ensures var names := [TrackingRef("origin", n)];
            && ListsTracking(names, {n}) && Parsed(names) != [] && NextTerminalNumber(Parsed(names)) == n + 1
  {
    hide TrackingRef, TerminalOf;
    TrackingRefReadsBack("origin", n);
    var names := [TrackingRef("origin", n)];
    assert TerminalOf(names[0]) == Some(n);
    ListedNumber(names, {n});
    assert n in Parsed(names);
  }

  lemma BoxBlob()
    ensures ClaimBlobContent("box", "now").Some?
  {
    assert "" + "box" + "" == "box" && "" + "now" + "" == "now";
    TrimPad("", "box", "");
    TrimPad("", "now", "");
  }

  lemma Prepend(s: State, step: Step, rest: seq<Step>)
    requires Enabled(s, step) && Allowed(After(s, step), rest)
    ensures Allowed(s, [step] + rest) && Run(s, [step] + rest) == Run(After(s, step), rest)
    ensures DistinctBlobs(s, [step] + rest) <==> Fresh(s, step) && DistinctBlobs(After(s, step), rest)
  {
    hide Enabled, After, Fresh;
    assert ([step] + rest)[1..] == rest;
  }

  // ------------------------------------------------ a gap, and a refresh at the wrong time

  /** Where `n` is published at the start and the number after it is not, there is a run that creates
      it: the claim's clone is refreshed between its fetch and its listing, which finds `n` alone. */
  lemma GapIsFilled(s: State, n: nat) returns (steps: seq<Step>)
    requires Start(s) && n in s.remote && n + 1 !in s.remote
    ensures Allowed(s, steps) && Run(s, steps).remote.Keys == s.remote.Keys + {n + 1}
  {
    hide Parsed, TrackingRef, ClaimBlobContent, NextTerminalNumber, ListsTracking, Run, Allowed, DistinctBlobs;
    BoxBlob();
    OneListed(n);
    var names := [TrackingRef("origin", n)];
    var blob := ClaimBlobContent("box", "now").value;
    var s1 := After(s, Fetch(0, 0, true));
    var s2 := After(s1, Refresh(0, {n}, {}));
    assert s2.tracking[0] == {n};
    var s3 := After(s2, List(0, names, true));
    assert s3.phase[0] == Planned(n + 1);
    var s4 := After(s3, WriteBlob(0, "box", "now", true));
    assert s4.phase[0] == Ready(n + 1, blob) && s4.remote == s.remote;
    steps := FourSteps(s1, Refresh(0, {n}, {}), s2, List(0, names, true), s3,
                       WriteBlob(0, "box", "now", true), s4, Push(0, Up), After(s4, Push(0, Up)));
    Prepend(s, Fetch(0, 0, true), steps);
    steps := [Fetch(0, 0, true)] + steps;
  }

  /** So with refreshes at any time the published numbers stay one stretch above the ceiling in every
      run exactly when those at the start have no gap. */
  lemma ContiguousInAllRunsIff(s: State, ceiling: nat)
    requires Start(s) && Ceiling(s.remote.Keys, ceiling)
    ensures (forall steps | Allowed(s, steps) :: Stretched(s.remote.Keys, ceiling, Run(s, steps))) <==>
              NoGaps(s.remote.Keys)
  {
    hide Run, Allowed;
    if NoGaps(s.remote.Keys) {
      forall steps | Allowed(s, steps) ensures Stretched(s.remote.Keys, ceiling, Run(s, steps)) {
        PublishedStayContiguous(s, ceiling, steps);
      }
    } else {
      var n := GapIn(s.remote.Keys, ceiling);
      var steps := GapIsFilled(s, n);
      assert n + 1 in Run(s, steps).remote && !(n + 1 > ceiling);
    }
  }

  /** A gap begins right after some member. */
  lemma GapIn(numbers: set<nat>, ceiling: nat) returns (n: nat)
    requires Ceiling(numbers, ceiling) && !NoGaps(numbers)
    ensures n in numbers && n + 1 !in numbers && n + 1 < ceiling
  {
    var a, m, b :| a in numbers && b in numbers && a <= m <= b && m !in numbers;
    n := a;
    while n + 1 in numbers
      invariant n in numbers && n < m
      decreases m - n
    {
      n := n + 1;
    }
  }


  // --------------------------------------------------------- the claim command

  predicate Ended(phase: Phase) {
    phase.Issued? || phase.Failed?
  }

  /** How the git commands of one claim fare. */
  datatype Luck = Luck(fetched: bool, listed: bool, written: bool, link: Link)

  /** Every git command of the claim is answered, nobody else moves, and `top` is the highest number. */
  predicate Undisturbed(s: State, top: nat, host: string, time: string, luck: Luck, others: seq<seq<Step>>) {
    && Ceiling(s.remote.Keys, top) && luck == Luck(true, true, true, Up) && others == [[], [], []]
    && Trim(host) != "" && Trim(time) != ""
  }

  lemma PlansNext(names: seq<string>, tracked: set<nat>, top: nat)
    requires ListsTracking(names, tracked) && Ceiling(tracked, top)
    ensures Parsed(names) != [] && NextTerminalNumber(Parsed(names)) == top + 1
  {
    hide Parsed, ListsTracking, NextTerminalNumber;
    ListedNumber(names, tracked);
    assert top in Parsed(names);
    assert NextTerminalNumber(Parsed(names)) - 1 in Parsed(names);
  }

  lemma BlobWritten(host: string, time: string)
    ensures ClaimBlobContent(host, time).Some? <==> Trim(host) != "" && Trim(time) != ""
  {
    hide Trim;
  }

  /** What a claim that won prints: the ref, then the directory name, which is refused late. */
  method Report(terminal: nat, slug: string) returns (code: int, output: seq<string>)
    requires terminal >= 1
    ensures code == (if Kebab(slug) then 0 else 1) && |output| == (if Kebab(slug) then 2 else 1)
    ensures PublishesAs(output[0], terminal)
    ensures Kebab(slug) ==> DirFor(output[1], terminal, 1, slug)
  {
    hide Kebab, PublishesAs, DirFor, TerminalRefName, WorktreeDirName;
    RefNamePublishes(terminal);
    DirNameMeans(terminal, 1, slug);
    code, output := 1, [TerminalRefName(terminal).value];
    var dir := WorktreeDirName(terminal, 1, slug);
    if dir.Some? {
      code, output := 0, output + [dir.value];
    }
  }

  /** The remote and every clone, as one machine's claim finds them. */
  class World {
    var s: State

    constructor (initial: State)
      ensures s == initial
    {
      s := initial;
    }

    method Do(step: Step, ghost start: State, ghost done: seq<Step>) returns (ghost ran: seq<Step>)
      requires Enabled(s, step) && Allowed(start, done) && s == Run(start, done)
      modifies this
      ensures ran == done + [step] && Allowed(start, ran) && s == Run(start, ran)
      ensures s == After(old(s), step)
    {
      hide Enabled, After;
      OneStep(s, step);
      RunThen(start, done, [step]);
      s := After(s, step);
      ran := done + [step];
    }

    /** Whatever other processes manage to do of `moves` before process `p` goes on. */
    method Others(p: Pid, moves: seq<Step>, ghost start: State, ghost done: seq<Step>) returns (ghost ran: seq<Step>)
      requires Allowed(start, done) && s == Run(start, done)
      modifies this
      ensures Allowed(start, ran) && s == Run(start, ran)
      ensures p in s.phase <==> p in old(s).phase
      ensures p in s.phase ==> s.phase[p] == old(s).phase[p]
      ensures old(s).tracking.Keys <= s.tracking.Keys
      ensures moves == [] ==> s == old(s)
    {
      hide Parsed, ListsTracking, ClaimBlobContent, Run, Allowed;
      ran := done;
      for i := 0 to |moves|
        invariant Allowed(start, ran) && s == Run(start, ran)
        invariant p in s.phase <==> p in old(s).phase
        invariant p in s.phase ==> s.phase[p] == old(s).phase[p]
        invariant old(s).tracking.Keys <= s.tracking.Keys
        invariant moves == [] ==> s == old(s)
      {
        if (moves[i].Refresh? || moves[i].p != p) && Enabled(s, moves[i]) {
          ran := Do(moves[i], start, ran);
        }
      }
    }

    /** The first half of a claim: fetch, list, and settle on a number. */
    method Plan(p: Pid, clone: Clone, luck: Luck, listing: set<nat> -> seq<string>, others: seq<Step>,
                ghost top: nat)
      returns (ghost ran: seq<Step>)
      requires p !in s.phase
      requires forall tracked :: ListsTracking(listing(tracked), tracked)
      modifies this
      ensures Allowed(old(s), ran) && s == Run(old(s), ran)
      ensures p in s.phase && (s.phase[p] == Failed || (s.phase[p].Planned? && s.phase[p].n >= 1))
      ensures luck.fetched && luck.listed && others == [] && Ceiling(old(s).remote.Keys, top) ==>
                s.phase[p] == Planned(top + 1) && s.remote == old(s).remote
    {
      hide Parsed, ListsTracking, Run, Allowed, NextTerminalNumber, ClaimBlobContent, Tracked;
      ghost var start := s;
      assert Allowed(start, []) && Run(start, []) == start by { Nothing(start); }
      ran := Do(Fetch(p, clone, luck.fetched), start, []);
      if !luck.fetched { return; }
      ran := Others(p, others, start, ran);
      var names := listing(s.tracking[clone]);
      if Ceiling(s.tracking[clone], top) { PlansNext(names, s.tracking[clone], top); }
      ran := Do(List(p, names, luck.listed), start, ran);
    }

    /** `claim(slug)`, other processes acting between any two of its commands. It prints the ref of the
        number it issued, as any clone will read it, and the directory name. Left alone, it wins the
        number after the highest. */
    method Claim(p: Pid, clone: Clone, slug: string, host: string, time: string, luck: Luck,
                 listing: set<nat> -> seq<string>, others: seq<seq<Step>>, ghost top: nat)
      returns (code: int, output: seq<string>, ghost ran: seq<Step>)
      requires p !in s.phase && |others| == 3
      requires forall tracked :: ListsTracking(listing(tracked), tracked)
      modifies this
      ensures Allowed(old(s), ran) && s == Run(old(s), ran)
      ensures p in s.phase && Ended(s.phase[p])
      ensures code == 0 || code == 1
      ensures code == 0 <==> s.phase[p].Issued? && Kebab(slug)
      ensures s.phase[p].Failed? ==> output == []
      ensures s.phase[p].Issued? ==>
                && |output| == (if Kebab(slug) then 2 else 1) && PublishesAs(output[0], s.phase[p].n)
                && (Kebab(slug) ==> DirFor(output[1], s.phase[p].n, 1, slug))
      ensures Undisturbed(old(s), top, host, time, luck, others) ==>
                s.phase[p] == Issued(top + 1) && s.remote.Keys == old(s).remote.Keys + {top + 1}
    {
      hide Parsed, ListsTracking, ClaimBlobContent, Run, Allowed, Tracked, Kebab, PublishesAs, DirFor,
           NextTerminalNumber, Trim;
      BlobWritten(host, time);
      code, output := 1, [];
      ghost var start := s;
      ran := Plan(p, clone, luck, listing, others[0], top);
      if s.phase[p].Failed? { return; }
      var terminal := s.phase[p].n;
      ran := Others(p, others[1], start, ran);
      ran := Do(WriteBlob(p, host, time, luck.written), start, ran);
      if s.phase[p].Failed? { return; }
      ran := Others(p, others[2], start, ran);
      ran := Do(Push(p, luck.link), start, ran);
      if s.phase[p].Failed? { return; }
      code, output := Report(terminal, slug);
    }
  }

  /** With nobody interfering and every command answered, a claim with a new blob wins
      exactly the number after the highest published one. */
  lemma UndisturbedClaimWins(s: State, ceiling: nat, p: Pid, clone: Clone, names: seq<string>,
                             host: string, time: string)
    returns (steps: seq<Step>)
    requires Ceiling(s.remote.Keys, ceiling) && p !in s.phase && ListsTracking(names, s.remote.Keys)
    requires ClaimBlobContent(host, time).Some?
    ensures Allowed(s, steps)
    ensures Run(s, steps).issued == s.issued + [(p, ceiling + 1)]
    ensures Run(s, steps).remote == s.remote[ceiling + 1 := ClaimBlobContent(host, time).value]
  {
    hide Parsed, ListsTracking, ClaimBlobContent, Run, Allowed, DistinctBlobs;
    var blob := ClaimBlobContent(host, time).value;
    ListedNumber(names, s.remote.Keys);
    assert ceiling in Parsed(names);
    assert NextTerminalNumber(Parsed(names)) == ceiling + 1 by {
      assert NextTerminalNumber(Parsed(names)) - 1 in s.remote.Keys;
    }
    var s1 := After(s, Fetch(p, clone, true));
    var s2 := After(s1, List(p, names, true));
    assert s2.phase[p] == Planned(ceiling + 1);
    var s3 := After(s2, WriteBlob(p, host, time, true));
    assert s3.phase[p] == Ready(ceiling + 1, blob);
    var s4 := After(s3, Push(p, Up));
    steps := FourSteps(s, Fetch(p, clone, true), s1, List(p, names, true), s2,
                       WriteBlob(p, host, time, true), s3, Push(p, Up), s4);
  }
}
