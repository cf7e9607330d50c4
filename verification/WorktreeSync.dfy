/** Bringing every worktree's branch up to date with its remote (scripts/sync-worktrees.ts). */
module WorktreeSync {
  import opened Text
  import opened WorktreeClose
  import opened WorktreeSweep

  // -------------------------------------------------------------- the decision

  datatype SyncState = SyncState(
    branch: Option<string>, hasUpstream: bool, originBranchExists: bool, ahead: nat, behind: nat, isDirty: bool)

  datatype Action =
    | DetachedHead
    | Synced
    | FastForward(behind: nat)
    | Ahead(ahead: nat)
    | Publish(branch: string)
    | SetUpstream(branch: string)
    | BlockedDirty(behind: nat)
    | BlockedDiverged(ahead: nat, behind: nat)

  function Classify(s: SyncState): Action {
    if s.branch.None? then DetachedHead
    else if !s.hasUpstream then
      if s.originBranchExists then SetUpstream(s.branch.value) else Publish(s.branch.value)
    else if s.ahead > 0 && s.behind > 0 then BlockedDiverged(s.ahead, s.behind)
    else if s.ahead > 0 then Ahead(s.ahead)
    else if s.behind > 0 then (if s.isDirty then BlockedDirty(s.behind) else FastForward(s.behind))
    else Synced
  }

  function BehindOf(r: Repo, head: Commit, upstream: Commit): nat
    requires Valid(r) && head < |r.parents| && upstream < |r.parents|
  {
    |Ancestors(r.parents, upstream) - Ancestors(r.parents, head)|
  }

  /** What the script reads of one worktree; None where a read throws. */
  function Look(r: Repo, w: Worktree): Option<SyncState>
    requires Valid(r) && w in r.worktrees
  {
    if w.at.Detached? then Some(SyncState(None, false, false, 0, 0, false))
    else
      var head, upstream, published := HeadOf(r, w), UpstreamOf(r, w), Remote(w.at.branch) in r.refs;
      if upstream.None? then Some(SyncState(Some(w.at.branch), false, published, 0, 0, w.dirty != {}))
      else if head.None? then None
      else Some(SyncState(Some(w.at.branch), true, published, AheadOf(r, head.value, upstream),
                          BehindOf(r, head.value, upstream.value), w.dirty != {}))
  }

  // ---------------------------------------------------- what the numbers say

  /** With an upstream the decision is exactly how the two tips lie in the commit graph: equal,
      one an ancestor of the other, or neither; a dirty tree only stops a fast-forward. */
  lemma DecisionIsTheGraph(r: Repo, w: Worktree)
    requires Valid(r) && w in r.worktrees && HeadOf(r, w).Some? && UpstreamOf(r, w).Some?
    ensures w.at.On? && Look(r, w).Some?
    ensures var head, up, a := HeadOf(r, w).value, UpstreamOf(r, w).value, Classify(Look(r, w).value);
            && (a == Synced <==> head == up)
            && (a.Ahead? <==> head != up && up in Ancestors(r.parents, head))
            && (a.FastForward? <==> head != up && head in Ancestors(r.parents, up) && w.dirty == {})
            && (a.BlockedDirty? <==> head != up && head in Ancestors(r.parents, up) && w.dirty != {})
            && (a.BlockedDiverged? <==>
                  head !in Ancestors(r.parents, up) && up !in Ancestors(r.parents, head))
            && (a.Ahead? || a.BlockedDiverged? ==>
                  a.ahead == |Ancestors(r.parents, head) - Ancestors(r.parents, up)|)
            && (a.FastForward? || a.BlockedDirty? || a.BlockedDiverged? ==>
                  a.behind == |Ancestors(r.parents, up) - Ancestors(r.parents, head)|)
  {
    hide Ancestors, Acyclic;
    var head, up := HeadOf(r, w).value, UpstreamOf(r, w).value;
    var mine, theirs := Ancestors(r.parents, head), Ancestors(r.parents, up);
    NoneLeft(mine, theirs);
    NoneLeft(theirs, mine);
    ContainsByTip(r.parents, head, up);
    ContainsByTip(r.parents, up, head);
    if head in theirs { AncestorsAreOlder(r.parents, up, head); }
    if up in mine { AncestorsAreOlder(r.parents, head, up); }
  }

  /** Without an upstream that stands: a detached worktree is left alone, a branch the remote has is
      tracked, and any other is published. Only a tracked branch without a commit throws. */
  lemma DecisionWithoutUpstream(r: Repo, w: Worktree)
    requires Valid(r) && w in r.worktrees
    ensures Look(r, w).None? <==> Tracked(r, w) && Head(w.at.branch) !in r.refs
    ensures !Tracked(r, w) ==>
              Classify(Look(r, w).value) ==
              match w.at
              case Detached(_) => DetachedHead
              case On(b) => if Remote(b) in r.refs then SetUpstream(b) else Publish(b)
  {
    hide Valid, AheadOf, BehindOf;
  }

  // ------------------------------------------------------------ what git does

  /** The repository after an action whose git command succeeds; None where it cannot. */
  function Apply(r: Repo, w: Worktree, a: Action): Option<Repo>
    requires Valid(r) && w in r.worktrees
  {
    var head, upstream := HeadOf(r, w), UpstreamOf(r, w);
    match a
    case FastForward(_) =>
      if w.at.On? && head.Some? && upstream.Some? && head.value in Ancestors(r.parents, upstream.value)
      then Some(r.(refs := r.refs[Head(w.at.branch) := upstream.value]))
      else None
    case Publish(b) =>
      if head.Some? then Some(r.(refs := r.refs[Remote(b) := head.value], upstream := r.upstream[b := Remote(b)]))
      else None
    case SetUpstream(b) => Some(r.(upstream := r.upstream[b := Remote(b)]))
    case _ => Some(r)
  }

  /** One worktree: observe, decide, act unless it is a dry run. `ok` says whether git's
      command gets through. None where something threw, which changes nothing. */
  function SyncOne(r: Repo, w: Worktree, dryRun: bool, ok: bool): (Repo, Option<Action>)
    requires Valid(r) && w in r.worktrees
  {
    var s := Look(r, w);
    if s.None? then (r, None)
    else
      var a := Classify(s.value);
      if dryRun || !(a.FastForward? || a.Publish? || a.SetUpstream?) then (r, Some(a))
      else
        var after := Apply(r, w, a);
        if !ok || after.None? then (r, None) else (after.value, Some(a))
  }

  lemma MovedForwardGrows(r: Repo, after: Repo)
    requires Valid(r) && after.parents == r.parents && after.worktrees == r.worktrees
    requires forall x | x in after.refs :: after.refs[x] < |r.parents|
    requires forall x | x in r.refs :: x in after.refs && r.refs[x] in Ancestors(r.parents, after.refs[x])
    ensures Grows(r, after)
  {
    hide Ancestors;
    forall x | x in r.refs ensures Ancestors(r.parents, r.refs[x]) <= Ancestors(after.parents, after.refs[x]) {
      ContainsByTip(r.parents, r.refs[x], after.refs[x]);
    }
  }

  /** Syncing one worktree only moves refs forward and adds refs: nothing is lost. */
  lemma SyncOneGrows(r: Repo, w: Worktree, dryRun: bool, ok: bool)
    requires Valid(r) && w in r.worktrees
    ensures Grows(r, SyncOne(r, w, dryRun, ok).0)
    ensures SyncOne(r, w, dryRun, ok).0.worktrees == r.worktrees
    ensures dryRun || SyncOne(r, w, dryRun, ok).1.None? ==> SyncOne(r, w, dryRun, ok).0 == r
  {
    hide Ancestors, AheadOf, BehindOf, Grows;
    MovedForwardGrows(r, SyncOne(r, w, dryRun, ok).0);
  }

  lemma SyncOneValid(r: Repo, w: Worktree, dryRun: bool, ok: bool)
    requires Valid(r) && w in r.worktrees
    ensures Valid(SyncOne(r, w, dryRun, ok).0) && SyncOne(r, w, dryRun, ok).0.worktrees == r.worktrees
  {
    hide SyncOne, Grows;
    SyncOneGrows(r, w, dryRun, ok);
    GrowsValid(r, SyncOne(r, w, dryRun, ok).0);
  }

  lemma InSync(r: Repo, w: Worktree)
    requires Valid(r) && w in r.worktrees && HeadOf(r, w).Some? && UpstreamOf(r, w) == HeadOf(r, w)
    ensures Look(r, w).Some? && Classify(Look(r, w).value) == Synced
  {
    DecisionIsTheGraph(r, w);
  }

  lemma FastForwardSettles(r: Repo, w: Worktree, a: Action)
    requires Valid(r) && w in r.worktrees && HeadOf(r, w).Some? && UpstreamOf(r, w).Some? && w.at.On?
    requires HeadOf(r, w) != UpstreamOf(r, w) && a.FastForward? && Apply(r, w, a).Some?
    requires Valid(Apply(r, w, a).value)
    ensures var after := Apply(r, w, a).value;
            w in after.worktrees && HeadOf(after, w) == UpstreamOf(r, w) == UpstreamOf(after, w)
  {
    hide Valid, Ancestors;
  }

  lemma PublishSettles(r: Repo, w: Worktree, a: Action)
    requires Valid(r) && w in r.worktrees && HeadOf(r, w).Some? && w.at.On?
    requires a == Publish(w.at.branch) && Apply(r, w, a).Some? && Valid(Apply(r, w, a).value)
    ensures var after := Apply(r, w, a).value;
            w in after.worktrees && HeadOf(after, w) == HeadOf(r, w) == UpstreamOf(after, w)
  {
    hide Valid, Ancestors;
  }

  /** What was done is done: a fast-forwarded or published worktree is in sync at the next look,
      and one that was given an upstream is compared with it from then on. */
  lemma ActionSettles(r: Repo, w: Worktree)
    requires Valid(r) && w in r.worktrees && HeadOf(r, w).Some?
    ensures var (after, a) := SyncOne(r, w, false, true);
            && Valid(after) && w in after.worktrees
            && a.Some?
            && (a.value.FastForward? || a.value.Publish? ==>
                  Look(after, w).Some? && Classify(Look(after, w).value) == Synced)
            && (a.value.SetUpstream? ==> Look(after, w).Some? && Look(after, w).value.hasUpstream)
            && (a.value.FastForward? ==> HeadOf(after, w) == UpstreamOf(r, w) && w.dirty == {})
            && (a.value.Publish? ==> UpstreamOf(after, w) == HeadOf(r, w))
  {
    hide Ancestors, AheadOf, BehindOf, Grows, Valid;
    SyncOneValid(r, w, false, true);
    var a := Classify(Look(r, w).value);
    var after := SyncOne(r, w, false, true).0;
    if UpstreamOf(r, w).Some? { DecisionIsTheGraph(r, w); }
    if a.FastForward? {
      FastForwardSettles(r, w, a);
      InSync(after, w);
    } else if a.Publish? {
      PublishSettles(r, w, a);
      InSync(after, w);
    }
  }

  // ---------------------------------------------------------- the loop

  /** How the run fares at each worktree: whether git's command gets through, and whether the
      dependency report that follows throws. */
  datatype Luck = Luck(git: bool, report: bool)

  function SyncFirst(r: Repo, dryRun: bool, luck: nat -> Luck, n: nat): (after: Repo)
    requires Valid(r) && n <= |r.worktrees|
    ensures Valid(after) && after.worktrees == r.worktrees
  {
    if n == 0 then r
    else
      var before := SyncFirst(r, dryRun, luck, n - 1);
      SyncOneValid(before, r.worktrees[n - 1], dryRun, luck(n - 1).git);
      SyncOne(before, r.worktrees[n - 1], dryRun, luck(n - 1).git).0
  }

  lemma GrowsThen(a: Repo, b: Repo, c: Repo)
    requires Valid(a) && Grows(a, b) && Grows(b, c)
    ensures Grows(a, c)
  {
    hide Ancestors, Acyclic;
  }

  /** However the steps fare, the loop over the worktrees loses no commit, no ref and no worktree. */
  lemma {:induction false} SyncFirstGrows(r: Repo, dryRun: bool, luck: nat -> Luck, n: nat)
    requires Valid(r) && n <= |r.worktrees|
    ensures Grows(r, SyncFirst(r, dryRun, luck, n))
    ensures dryRun ==> SyncFirst(r, dryRun, luck, n) == r
    decreases n
  {
    hide Grows, SyncOne;
    if n == 0 {
      SameGrows(r);
    } else {
      SyncFirstGrows(r, dryRun, luck, n - 1);
      var before := SyncFirst(r, dryRun, luck, n - 1);
      SyncOneGrows(before, r.worktrees[n - 1], dryRun, luck(n - 1).git);
      var after := SyncOne(before, r.worktrees[n - 1], dryRun, luck(n - 1).git).0;
      GrowsThen(r, before, after);
    }
  }

  function ActionAt(r: Repo, dryRun: bool, luck: nat -> Luck, i: nat): Option<Action>
    requires Valid(r) && i < |r.worktrees|
  {
    SyncOne(SyncFirst(r, dryRun, luck, i), r.worktrees[i], dryRun, luck(i).git).1
  }

  datatype Tally = Tally(
    ff: nat, synced: nat, ahead: nat, published: nat, tracked: nat, blocked: nat, detached: nat)

  function Counted(t: Tally, a: Option<Action>, reported: bool): Tally {
    var acted := match a
                 case None => t.(blocked := t.blocked + 1)
                 case Some(DetachedHead) => t.(detached := t.detached + 1)
                 case Some(Synced) => t.(synced := t.synced + 1)
                 case Some(FastForward(_)) => t.(ff := t.ff + 1)
                 case Some(Ahead(_)) => t.(ahead := t.ahead + 1)
                 case Some(Publish(_)) => t.(published := t.published + 1)
                 case Some(SetUpstream(_)) => t.(tracked := t.tracked + 1)
                 case Some(BlockedDirty(_)) => t.(blocked := t.blocked + 1)
                 case Some(BlockedDiverged(_, _)) => t.(blocked := t.blocked + 1);
    // The report runs inside the same try: when it throws after the action was counted, the
    // worktree is counted as blocked as well.
    if a.Some? && !reported then acted.(blocked := acted.blocked + 1) else acted
  }

  function TallyOf(r: Repo, dryRun: bool, luck: nat -> Luck, n: nat): Tally
    requires Valid(r) && n <= |r.worktrees|
  {
    if n == 0 then Tally(0, 0, 0, 0, 0, 0, 0)
    else Counted(TallyOf(r, dryRun, luck, n - 1), ActionAt(r, dryRun, luck, n - 1), luck(n - 1).report)
  }

  function Sum(t: Tally): nat {
    t.ff + t.synced + t.ahead + t.published + t.tracked + t.blocked + t.detached
  }

  lemma CountedOnceOrTwice(t: Tally, a: Option<Action>, reported: bool)
    ensures Sum(Counted(t, a, reported)) == Sum(t) + 1 + if a.Some? && !reported then 1 else 0
  {
  }

  lemma NothingCounted()
    ensures Sum(Tally(0, 0, 0, 0, 0, 0, 0)) == 0
  {
  }

  /** The worktrees counted twice: acted upon, then a report that threw. */
  function Twice(r: Repo, dryRun: bool, luck: nat -> Luck, n: nat): nat
    requires Valid(r) && n <= |r.worktrees|
  {
    if n == 0 then 0
    else Twice(r, dryRun, luck, n - 1)
         + if ActionAt(r, dryRun, luck, n - 1).Some? && !luck(n - 1).report then 1 else 0
  }

  /** The tally counts every worktree once, and once more each time a report threw after the
      worktree's action was counted. */
  lemma {:induction false} TallySums(r: Repo, dryRun: bool, luck: nat -> Luck, n: nat)
    requires Valid(r) && n <= |r.worktrees|
    ensures Sum(TallyOf(r, dryRun, luck, n)) == n + Twice(r, dryRun, luck, n)
    decreases n
  {
    hide ActionAt, Valid, Counted, Sum;
    if n == 0 {
      NothingCounted();
    } else {
      TallySums(r, dryRun, luck, n - 1);
      CountedOnceOrTwice(TallyOf(r, dryRun, luck, n - 1), ActionAt(r, dryRun, luck, n - 1), luck(n - 1).report);
    }
  }

  // ------------------------------------------------- the fetch that opens every run

  /** What the remote holds: commits not seen here before, the tips of its branches, the tags that a
      fetch follows, and the published terminals with their blobs. */
  datatype Origin = Origin(
    commits: seq<set<Commit>>, branches: map<string, Commit>, tags: map<string, Commit>,
    terminals: map<nat, string>)

  predicate Readable(r: Repo, o: Origin) {
    Acyclic(r.parents + o.commits) && forall n | n in o.branches :: o.branches[n] < |r.parents + o.commits|
  }

  /** A fetch with prune: the remote refs become the remote's branches, wherever those point. */
  function Fetch(r: Repo, o: Origin): (after: Repo)
    requires Valid(r) && Readable(r, o)
    ensures Valid(after)
  {
    r.(parents := r.parents + o.commits,
       refs := map x | x in FetchedRefs(r, o) :: if x.Head? then r.refs[x] else o.branches[x.name])
  }

  function FetchedRefs(r: Repo, o: Origin): set<Ref> {
    (set x | x in r.refs && x.Head?) + (set n | n in o.branches :: Remote(n))
  }

  lemma FetchedAre(r: Repo, o: Origin)
    requires Valid(r) && Readable(r, o)
    ensures var after := Fetch(r, o);
            && (forall b :: Head(b) in after.refs <==> Head(b) in r.refs)
            && (forall b | Head(b) in r.refs :: after.refs[Head(b)] == r.refs[Head(b)])
            && (forall n :: Remote(n) in after.refs <==> n in o.branches)
            && (forall n | n in o.branches :: after.refs[Remote(n)] == o.branches[n])
  {
    hide Acyclic;
  }

  lemma FetchedRest(r: Repo, o: Origin)
    requires Valid(r) && Readable(r, o)
    ensures var after := Fetch(r, o);
            after.worktrees == r.worktrees && after.upstream == r.upstream
            && after.parents == r.parents + o.commits && r.parents <= after.parents
  {
  }

  /** A local branch or a detached worktree leads to `c`. */
  ghost predicate HeldLocally(r: Repo, c: Commit)
    requires Valid(r)
  {
    || (exists b | Head(b) in r.refs :: c in Ancestors(r.parents, r.refs[Head(b)]))
    || (exists i | 0 <= i < |r.worktrees| ::
          r.worktrees[i].at.Detached? && c in Ancestors(r.parents, r.worktrees[i].at.commit))
  }

  /** Some branch of the remote leads to `c`. */
  ghost predicate HeldByOrigin(r: Repo, o: Origin, c: Commit)
    requires Valid(r) && Readable(r, o)
  {
    exists n | n in o.branches :: c in Ancestors(r.parents + o.commits, o.branches[n])
  }

  /** What a fetch leaves of the commits that were here: those held by a local branch, by a
      detached worktree or by a branch the remote still has. Every other one is lost. */
  lemma FetchSurvivors(r: Repo, o: Origin, c: Commit)
    requires Valid(r) && Readable(r, o) && c < |r.parents|
    ensures Reachable(Fetch(r, o), c) <==> HeldLocally(r, c) || HeldByOrigin(r, o, c)
  {
    hide Ancestors, Fetch, Acyclic;
    FetchedAre(r, o);
    FetchedRest(r, o);
    var after := Fetch(r, o);
    forall d: Commit | d < |r.parents| ensures Ancestors(r.parents, d) == Ancestors(after.parents, d) {
      OlderAncestors(r.parents, after.parents, d);
    }
    if Reachable(after, c) {
      if x :| x in after.refs && c in Ancestors(after.parents, after.refs[x]) {
        match x {
          case Head(b) => assert Head(b) in r.refs;
          case Remote(n) => assert n in o.branches;
        }
      }
    }
    if HeldLocally(r, c) {
      if b :| Head(b) in r.refs && c in Ancestors(r.parents, r.refs[Head(b)]) {
        assert Head(b) in after.refs;
      } else {
        var i :| 0 <= i < |r.worktrees| && r.worktrees[i].at.Detached?
                 && c in Ancestors(r.parents, r.worktrees[i].at.commit);
        assert after.worktrees[i] == r.worktrees[i];
      }
    }
    if n :| n in o.branches && c in Ancestors(after.parents, o.branches[n]) {
      assert Remote(n) in after.refs;
    }
  }

  /** The fetch neither drops remote ref `n` nor rewinds it. */
  predicate KeepsRef(r: Repo, o: Origin, n: string)
    requires Valid(r) && Readable(r, o) && Remote(n) in r.refs
  {
    n in o.branches && r.refs[Remote(n)] in Ancestors(r.parents + o.commits, o.branches[n])
  }

  // ------------------------------------------------------------- the whole run

  /** One run: fetch, then the loop. */
  function SyncRun(r: Repo, o: Origin, dryRun: bool, luck: nat -> Luck): (after: Repo)
    requires Valid(r) && Readable(r, o)
    ensures Valid(after)
  {
    SyncFirst(Fetch(r, o), dryRun, luck, |Fetch(r, o).worktrees|)
  }

  /** What one worktree's action does to the refs. */
  lemma SyncOneRefs(r: Repo, w: Worktree, dryRun: bool, ok: bool)
    requires Valid(r) && w in r.worktrees
    ensures var (after, a) := SyncOne(r, w, dryRun, ok);
            && (forall n | Remote(n) in r.refs :: Remote(n) in after.refs && after.refs[Remote(n)] == r.refs[Remote(n)])
            && (forall n | Remote(n) !in r.refs ::
                  && (Remote(n) in after.refs <==> !dryRun && a == Some(Publish(n)))
                  && (Remote(n) in after.refs ==>
                        w.at == On(n) && Head(n) in r.refs && after.refs[Remote(n)] == r.refs[Head(n)]))
            && (forall n | a == Some(Publish(n)) :: Remote(n) !in r.refs)
            && (forall b | w.at != On(b) ::
                  && (Head(b) in after.refs <==> Head(b) in r.refs)
                  && (Head(b) in r.refs ==> after.refs[Head(b)] == r.refs[Head(b)]))
  {
    hide Ancestors, AheadOf, BehindOf, Acyclic;
  }

  /** The branch of a worktree whose turn has not come is where it was. */
  lemma {:induction false} HeadsBefore(r: Repo, dryRun: bool, luck: nat -> Luck, m: nat, i: nat, b: string)
    requires Valid(r) && m <= i < |r.worktrees| && r.worktrees[i].at == On(b)
    ensures var after := SyncFirst(r, dryRun, luck, m);
            && (Head(b) in after.refs <==> Head(b) in r.refs)
            && (Head(b) in r.refs ==> after.refs[Head(b)] == r.refs[Head(b)])
    decreases m
  {
    hide SyncOne, Valid;
    if m > 0 {
      HeadsBefore(r, dryRun, luck, m - 1, i, b);
      OneWorktreeEach(r, m - 1, i);
      SyncOneRefs(SyncFirst(r, dryRun, luck, m - 1), r.worktrees[m - 1], dryRun, luck(m - 1).git);
    }
  }

  lemma OneWorktreeEach(r: Repo, i: nat, j: nat)
    requires Valid(r) && i < j < |r.worktrees| && r.worktrees[j].at.On?
    ensures r.worktrees[i].at != r.worktrees[j].at
  {
    hide Acyclic;
  }

  /** Worktree `i` published branch `n` in this run. */
  predicate PublishedAt(r: Repo, dryRun: bool, luck: nat -> Luck, i: nat, n: string)
    requires Valid(r) && i < |r.worktrees|
  {
    !dryRun && ActionAt(r, dryRun, luck, i) == Some(Publish(n))
  }

  /** The loop leaves every remote ref alone and adds exactly those it publishes, at the commit
      their branch had when the loop began. */
  lemma {:induction false} RemotesAfter(r: Repo, dryRun: bool, luck: nat -> Luck, m: nat, n: string)
    requires Valid(r) && m <= |r.worktrees|
    ensures var after := SyncFirst(r, dryRun, luck, m);
            && (Remote(n) in r.refs ==> Remote(n) in after.refs && after.refs[Remote(n)] == r.refs[Remote(n)])
            && (Remote(n) !in r.refs ==>
                  && (Remote(n) in after.refs <==> exists i | 0 <= i < m :: PublishedAt(r, dryRun, luck, i, n))
                  && (Remote(n) in after.refs ==> Head(n) in r.refs && after.refs[Remote(n)] == r.refs[Head(n)]))
    decreases m
  {
    hide Valid, SyncOne;
    if m > 0 {
      RemotesAfter(r, dryRun, luck, m - 1, n);
      var before, w := SyncFirst(r, dryRun, luck, m - 1), r.worktrees[m - 1];
      SyncOneRefs(before, w, dryRun, luck(m - 1).git);
      if w.at == On(n) { HeadsBefore(r, dryRun, luck, m - 1, m - 1, n); }
      assert PublishedAt(r, dryRun, luck, m - 1, n) <==>
             !dryRun && SyncOne(before, w, dryRun, luck(m - 1).git).1 == Some(Publish(n));
    }
  }

  /** The loop leads to no commit that nothing led to before. */
  lemma {:induction false} LoopReachesNoMore(r: Repo, dryRun: bool, luck: nat -> Luck, m: nat, c: Commit)
    requires Valid(r) && m <= |r.worktrees| && Reachable(SyncFirst(r, dryRun, luck, m), c)
    ensures Reachable(r, c)
    decreases m
  {
    hide Valid, SyncOne, Reachable;
    if m > 0 {
      StepReachesNoMore(SyncFirst(r, dryRun, luck, m - 1), r.worktrees[m - 1], dryRun, luck(m - 1).git, c);
      LoopReachesNoMore(r, dryRun, luck, m - 1, c);
    }
  }

  lemma StepReachesNoMore(r: Repo, w: Worktree, dryRun: bool, ok: bool, c: Commit)
    requires Valid(r) && w in r.worktrees && Valid(SyncOne(r, w, dryRun, ok).0)
    requires Reachable(SyncOne(r, w, dryRun, ok).0, c)
    ensures Reachable(r, c)
  {
    hide Ancestors, Acyclic, Look;
    var after := SyncOne(r, w, dryRun, ok).0;
    if x :| x in after.refs && c in Ancestors(after.parents, after.refs[x]) {
      var y := ValueCameFrom(r, w, dryRun, ok, x);
      assert c in Ancestors(r.parents, r.refs[y]);
    }
  }

  lemma ValueCameFrom(r: Repo, w: Worktree, dryRun: bool, ok: bool, x: Ref) returns (y: Ref)
    requires Valid(r) && w in r.worktrees && x in SyncOne(r, w, dryRun, ok).0.refs
    ensures y in r.refs && r.refs[y] == SyncOne(r, w, dryRun, ok).0.refs[x]
  {
    hide Ancestors, Acyclic, AheadOf, BehindOf;
    var after := SyncOne(r, w, dryRun, ok).0;
    if x in r.refs && r.refs[x] == after.refs[x] {
      y := x;
    } else {
      var b := match w.at case On(branch) => branch case Detached(_) => "";
      y := if x.Head? && b in r.upstream then r.upstream[b] else Head(b);
    }
  }

  lemma LoopKeepsReachable(r: Repo, dryRun: bool, luck: nat -> Luck, c: Commit)
    requires Valid(r) && Reachable(r, c)
    ensures Reachable(SyncFirst(r, dryRun, luck, |r.worktrees|), c)
  {
    hide Valid, Reachable, Grows, SyncFirst;
    SyncFirstGrows(r, dryRun, luck, |r.worktrees|);
    GrowingLosesNothing(r, SyncFirst(r, dryRun, luck, |r.worktrees|));
  }

  /** What a whole run leaves of the commits that were here, a dry run included: exactly those held
      by a local branch, by a detached worktree or by a branch the remote still has. */
  lemma RunSurvivors(r: Repo, o: Origin, dryRun: bool, luck: nat -> Luck, c: Commit)
    requires Valid(r) && Readable(r, o) && c < |r.parents|
    ensures Reachable(SyncRun(r, o, dryRun, luck), c) <==> HeldLocally(r, c) || HeldByOrigin(r, o, c)
  {
    hide Acyclic, Reachable, Fetch, SyncFirst, HeldLocally, HeldByOrigin;
    var f := Fetch(r, o);
    FetchSurvivors(r, o, c);
    if Reachable(SyncRun(r, o, dryRun, luck), c) { LoopReachesNoMore(f, dryRun, luck, |f.worktrees|, c); }
    if Reachable(f, c) { LoopKeepsReachable(f, dryRun, luck, c); }
  }

  /** The fetch dropped remote ref `n` and the loop published it again from a branch that holds
      its old tip. */
  predicate Republished(r: Repo, o: Origin, dryRun: bool, luck: nat -> Luck, n: string)
    requires Valid(r) && Readable(r, o) && Remote(n) in r.refs
  {
    && n !in o.branches
    && Head(n) in r.refs && r.refs[Remote(n)] in Ancestors(r.parents + o.commits, r.refs[Head(n)])
    && exists i | 0 <= i < |Fetch(r, o).worktrees| :: PublishedAt(Fetch(r, o), dryRun, luck, i, n)
  }

  lemma RemoteGrowsIff(r: Repo, o: Origin, dryRun: bool, luck: nat -> Luck, n: string)
    requires Valid(r) && Readable(r, o) && Remote(n) in r.refs
    ensures var after := SyncRun(r, o, dryRun, luck);
            (Remote(n) in after.refs
             && Ancestors(r.parents, r.refs[Remote(n)]) <= Ancestors(after.parents, after.refs[Remote(n)])) <==>
            KeepsRef(r, o, n) || Republished(r, o, dryRun, luck, n)
  {
    hide Ancestors, Acyclic, Fetch, SyncFirst, PublishedAt;
    var f := Fetch(r, o);
    FetchedAre(r, o);
    FetchedRest(r, o);
    RemotesAfter(f, dryRun, luck, |f.worktrees|, n);
    var after := SyncRun(r, o, dryRun, luck);
    SameParents(f, dryRun, luck, |f.worktrees|);
    var tip := r.refs[Remote(n)];
    OlderAncestors(r.parents, after.parents, tip);
    if Remote(n) in after.refs { ContainsByTip(after.parents, tip, after.refs[Remote(n)]); }
  }

  lemma {:induction false} SameParents(r: Repo, dryRun: bool, luck: nat -> Luck, m: nat)
    requires Valid(r) && m <= |r.worktrees|
    ensures SyncFirst(r, dryRun, luck, m).parents == r.parents
    decreases m
  {
    hide Valid, Look;
    if m > 0 { SameParents(r, dryRun, luck, m - 1); }
  }

  lemma HeadGrows(r: Repo, o: Origin, dryRun: bool, luck: nat -> Luck, b: string)
    requires Valid(r) && Readable(r, o) && Head(b) in r.refs
    ensures var after := SyncRun(r, o, dryRun, luck);
            Head(b) in after.refs
            && Ancestors(r.parents, r.refs[Head(b)]) <= Ancestors(after.parents, after.refs[Head(b)])
  {
    hide Ancestors, Acyclic, Fetch, SyncFirst;
    var f := Fetch(r, o);
    FetchedAre(r, o);
    FetchedRest(r, o);
    OlderAncestors(r.parents, f.parents, r.refs[Head(b)]);
    SyncFirstGrows(f, dryRun, luck, |f.worktrees|);
  }

  /** The whole run is append-only, as a sweep beside it relies on, exactly when each remote ref is
      either neither dropped nor rewound by the fetch or published again with its old tip. */
  lemma RunGrowsIff(r: Repo, o: Origin, dryRun: bool, luck: nat -> Luck)
    requires Valid(r) && Readable(r, o)
    ensures Grows(r, SyncRun(r, o, dryRun, luck)) <==>
            forall n | Remote(n) in r.refs :: KeepsRef(r, o, n) || Republished(r, o, dryRun, luck, n)
  {
    var after := SyncRun(r, o, dryRun, luck);
    RunRest(r, o, dryRun, luck);
    hide Ancestors, Acyclic, SyncRun, KeepsRef, Republished;
    forall b | Head(b) in r.refs
      ensures Head(b) in after.refs
      ensures Ancestors(r.parents, r.refs[Head(b)]) <= Ancestors(after.parents, after.refs[Head(b)])
    {
      HeadGrows(r, o, dryRun, luck, b);
    }
    forall n | Remote(n) in r.refs
      ensures (Remote(n) in after.refs
               && Ancestors(r.parents, r.refs[Remote(n)]) <= Ancestors(after.parents, after.refs[Remote(n)])) <==>
              KeepsRef(r, o, n) || Republished(r, o, dryRun, luck, n)
    {
      RemoteGrowsIff(r, o, dryRun, luck, n);
    }
    AllRefs(r);
  }

  lemma AllRefs(r: Repo)
    ensures forall x | x in r.refs :: (x.Head? && x == Head(x.name)) || (x.Remote? && x == Remote(x.name))
  {
  }

  lemma RunRest(r: Repo, o: Origin, dryRun: bool, luck: nat -> Luck)
    requires Valid(r) && Readable(r, o)
    ensures var after := SyncRun(r, o, dryRun, luck);
            && after.worktrees == r.worktrees && after.parents == r.parents + o.commits && r.parents <= after.parents
            && (forall i | 0 <= i < |r.worktrees| && r.worktrees[i].at.Detached? ::
                  Ancestors(r.parents, r.worktrees[i].at.commit)
                  == Ancestors(after.parents, after.worktrees[i].at.commit))
  {
    hide Fetch, SyncFirst, Acyclic, Ancestors;
    var f := Fetch(r, o);
    FetchedRest(r, o);
    SameParents(f, dryRun, luck, |f.worktrees|);
    forall i | 0 <= i < |r.worktrees| && r.worktrees[i].at.Detached?
      ensures Ancestors(r.parents, r.worktrees[i].at.commit) == Ancestors(f.parents, r.worktrees[i].at.commit)
    {
      OlderAncestors(r.parents, f.parents, r.worktrees[i].at.commit);
    }
  }

  /** A dry run fetches too: its loop changes nothing, and it is append-only exactly when the fetch
      drops and rewinds no remote ref. */
  lemma DryRunGrowsIff(r: Repo, o: Origin, luck: nat -> Luck)
    requires Valid(r) && Readable(r, o)
    ensures SyncRun(r, o, true, luck) == Fetch(r, o)
    ensures Grows(r, SyncRun(r, o, true, luck)) <==> forall n | Remote(n) in r.refs :: KeepsRef(r, o, n)
  {
    hide SyncFirst, Fetch, Grows, Valid, KeepsRef;
    var f := Fetch(r, o);
    SyncFirstGrows(f, true, luck, |f.worktrees|);
    RunGrowsIff(r, o, true, luck);
    assert forall n | Remote(n) in r.refs :: !Republished(r, o, true, luck, n);
  }

  // ------------------------------------------- the rest of what a run fetches

  /** A clone with its tags and its tracking refs for terminals. */
  datatype Clone = Clone(repo: Repo, tags: map<string, Commit>, terminals: map<nat, string>)

  /** Both fetches. The first adds the tags it follows, never moving one that is here, and prunes
      every terminal's tracking ref, which the default refspec does not map. The second brings them
      back; it may fail, and then they stay away. */
  function FetchAll(c: Clone, o: Origin, second: bool): Clone
    requires Valid(c.repo) && Readable(c.repo, o)
  {
    Clone(Fetch(c.repo, o), o.tags + c.tags, if second then o.terminals else map[])
  }

  /** The whole run on a clone: the loop touches neither tags nor terminals. */
  function RunAll(c: Clone, o: Origin, second: bool, dryRun: bool, luck: nat -> Luck): Clone
    requires Valid(c.repo) && Readable(c.repo, o)
  {
    FetchAll(c, o, second).(repo := SyncRun(c.repo, o, dryRun, luck))
  }

  /** The remote has no commit that is not here, and its branches are the remote refs. */
  ghost predicate UpToDate(r: Repo, o: Origin) {
    && o.commits == []
    && (forall n :: n in o.branches <==> Remote(n) in r.refs)
    && (forall n | n in o.branches && Remote(n) in r.refs :: o.branches[n] == r.refs[Remote(n)])
  }

  lemma DryRepoStaysIff(r: Repo, o: Origin, luck: nat -> Luck)
    requires Valid(r) && Readable(r, o)
    ensures SyncRun(r, o, true, luck) == r <==> UpToDate(r, o)
  {
    hide SyncFirst, Fetch, Grows, Valid, Readable;
    DryRunGrowsIff(r, o, luck);
    FetchedAre(r, o);
    FetchedRest(r, o);
    var after := Fetch(r, o);
    if SyncRun(r, o, true, luck) == r {
      assert |r.parents + o.commits| == |r.parents| + |o.commits|;
    } else if o.commits == [] {
      assert r.parents + o.commits == r.parents;
      if forall n :: n in o.branches <==> Remote(n) in r.refs {
        forall x ensures x in after.refs <==> x in r.refs {
          match x { case Head(b) => case Remote(n) => }
        }
        if forall n | n in o.branches && Remote(n) in r.refs :: o.branches[n] == r.refs[Remote(n)] {
          SameRefs(after, r);
        }
      }
    }
  }

  /** "Mutates nothing" holds of a dry run exactly when the repository is up to date with the
      remote, every tag to follow is here, and the terminals end as they began: the same as
      published if the second fetch gets through, none if it does not. */
  lemma DryRunMutatesNothingIff(c: Clone, o: Origin, second: bool, luck: nat -> Luck)
    requires Valid(c.repo) && Readable(c.repo, o)
    ensures RunAll(c, o, second, true, luck) == c <==>
              && UpToDate(c.repo, o)
              && (forall t | t in o.tags :: t in c.tags)
              && c.terminals == if second then o.terminals else map[]
  {
    hide SyncRun, UpToDate, Valid, Readable;
    DryRepoStaysIff(c.repo, o, luck);
    if forall t | t in o.tags :: t in c.tags {
      assert o.tags + c.tags == c.tags;
    } else {
      var t :| t in o.tags && t !in c.tags;
      assert t in o.tags + c.tags;
    }
  }

  lemma SameRefs(a: Repo, b: Repo)
    requires forall x :: x in a.refs <==> x in b.refs
    requires forall n | Head(n) in b.refs :: a.refs[Head(n)] == b.refs[Head(n)]
    requires forall n | Remote(n) in b.refs :: a.refs[Remote(n)] == b.refs[Remote(n)]
    ensures a.refs == b.refs
  {
    forall x | x in b.refs ensures a.refs[x] == b.refs[x] {
      match x { case Head(n) => case Remote(n) => }
    }
  }

  // ------------------------------------------------ what a dry run previews

  /** The action a dry run announces for worktree `i`: all of them are read off the same refs. */
  function Preview(r: Repo, i: nat): Option<Action>
    requires Valid(r) && i < |r.worktrees|
  {
    var s := Look(r, r.worktrees[i]);
    if s.None? then None else Some(Classify(s.value))
  }

  lemma DryActions(r: Repo, luck: nat -> Luck, i: nat)
    requires Valid(r) && i < |r.worktrees|
    ensures ActionAt(r, true, luck, i) == Preview(r, i)
  {
    hide Valid, SyncFirst, Grows, Look, Classify;
    SyncFirstGrows(r, true, luck, i);
  }

  /** The announced action gets through: git does, and a branch to publish has a commit. */
  predicate GetsThrough(r: Repo, luck: nat -> Luck, i: nat)
    requires Valid(r) && i < |r.worktrees|
  {
    var a := Preview(r, i);
    && (a.Some? && (a.value.FastForward? || a.value.Publish? || a.value.SetUpstream?) ==> luck(i).git)
    && (a.Some? && a.value.Publish? ==> HeadOf(r, r.worktrees[i]).Some?)
  }

  /** Worktree `j` follows the local branch that `i` is to fast-forward, or the remote one that
      `i` is to publish. */
  predicate Disturbs(r: Repo, i: nat, j: nat)
    requires Valid(r) && i < |r.worktrees| && j < |r.worktrees|
  {
    var v, w, a := r.worktrees[i], r.worktrees[j], Preview(r, i);
    && v.at.On? && w.at.On? && w.at.branch in r.upstream && Preview(r, j).Some? && a.Some?
    && ((a.value.FastForward? && r.upstream[w.at.branch] == Head(v.at.branch))
        || (a.value.Publish? && r.upstream[w.at.branch] == Remote(v.at.branch)))
  }

  /** A tip that moves forward under a branch that follows it always changes that branch's action:
      the new commits are either the branch's own, or it is further behind. */
  lemma MovedUpstreamShows(r: Repo, after: Repo, w: Worktree)
    requires Valid(r) && Valid(after) && after.parents == r.parents && w in r.worktrees && w in after.worktrees
    requires HeadOf(r, w).Some? && HeadOf(after, w) == HeadOf(r, w)
    requires UpstreamOf(r, w).Some? && UpstreamOf(after, w).Some? && UpstreamOf(r, w) != UpstreamOf(after, w)
    requires UpstreamOf(r, w).value in Ancestors(r.parents, UpstreamOf(after, w).value)
    ensures Look(r, w).Some? && Look(after, w).Some?
    ensures Classify(Look(r, w).value) != Classify(Look(after, w).value)
  {
    TipMoved(r.parents, UpstreamOf(r, w).value, UpstreamOf(after, w).value);
    LookCounts(r, w);
    LookCounts(after, w);
    hide Ancestors, Valid, Classify, Look;
    NewCommitsCount(Ancestors(r.parents, HeadOf(r, w).value), Ancestors(r.parents, UpstreamOf(r, w).value),
                    Ancestors(r.parents, UpstreamOf(after, w).value), UpstreamOf(after, w).value);
    CountsShow(Look(r, w).value, Look(after, w).value);
  }

  lemma TipMoved(parents: seq<set<Commit>>, was: Commit, now: Commit)
    requires Acyclic(parents) && was < |parents| && now < |parents| && was != now && was in Ancestors(parents, now)
    ensures Ancestors(parents, was) <= Ancestors(parents, now) && now !in Ancestors(parents, was)
  {
    AncestorsAreOlder(parents, now, was);
    if now in Ancestors(parents, was) { AncestorsAreOlder(parents, was, now); }
  }

  lemma LookCounts(r: Repo, w: Worktree)
    requires Valid(r) && w in r.worktrees && HeadOf(r, w).Some? && UpstreamOf(r, w).Some?
    ensures Look(r, w).Some? && w.at.On?
    ensures var mine := Ancestors(r.parents, HeadOf(r, w).value);
            var theirs := Ancestors(r.parents, UpstreamOf(r, w).value);
            Look(r, w).value == SyncState(Some(w.at.branch), true, Remote(w.at.branch) in r.refs,
                                          |mine - theirs|, |theirs - mine|, w.dirty != {})
  {
    hide Ancestors, Acyclic;
  }

  lemma CountsShow(s: SyncState, t: SyncState)
    requires s.branch.Some? && t.branch.Some? && s.hasUpstream && t.hasUpstream
    requires t.ahead <= s.ahead && s.behind <= t.behind && (t.ahead < s.ahead || s.behind < t.behind)
    ensures Classify(s) != Classify(t)
  {
  }

  lemma NewCommitsCount(mine: set<Commit>, theirs: set<Commit>, later: set<Commit>, tip: Commit)
    requires theirs <= later && tip in later && tip !in theirs
    ensures |mine - later| <= |mine - theirs| && |theirs - mine| <= |later - mine|
    ensures |mine - later| < |mine - theirs| || |theirs - mine| < |later - mine|
  {
    Smaller(mine - later, mine - theirs, tip);
    Smaller(theirs - mine, later - mine, tip);
  }

  lemma Smaller(a: set<Commit>, b: set<Commit>, x: Commit)
    requires a <= b && x !in a
    ensures |a| <= |b| && (x in b ==> |a| < |b|)
  {
    var rest := b - a;
    assert b == a + rest && a !! rest;
    assert |b| == |a| + |rest|;
    if x in b { assert x in rest; }
  }

  lemma SyncOneHead(r: Repo, w: Worktree, b: string, ok: bool)
    requires Valid(r) && w in r.worktrees && w.at == On(b)
    ensures var (after, a) := SyncOne(r, w, false, ok);
            && (Head(b) in after.refs <==> Head(b) in r.refs)
            && (Head(b) in r.refs ==>
                  (after.refs[Head(b)] != r.refs[Head(b)] <==> a.Some? && a.value.FastForward?))
  {
    hide Ancestors, Acyclic, AheadOf;
  }

  lemma SyncOneUpstream(r: Repo, w: Worktree, ok: bool)
    requires Valid(r) && w in r.worktrees
    ensures var (after, a) := SyncOne(r, w, false, ok);
            && (forall b | w.at != On(b) ::
                  && (b in after.upstream <==> b in r.upstream)
                  && (b in r.upstream ==> after.upstream[b] == r.upstream[b]))
            && (a.Some? && a.value.Publish? ==> w.at == On(a.value.branch))
  {
    hide Ancestors, Acyclic, AheadOf, BehindOf;
  }

  lemma {:induction false} UpstreamsBefore(r: Repo, luck: nat -> Luck, m: nat, i: nat, b: string)
    requires Valid(r) && m <= i < |r.worktrees| && r.worktrees[i].at == On(b)
    ensures var after := SyncFirst(r, false, luck, m);
            && (b in after.upstream <==> b in r.upstream)
            && (b in r.upstream ==> after.upstream[b] == r.upstream[b])
    decreases m
  {
    hide SyncOne, Valid;
    if m > 0 {
      UpstreamsBefore(r, luck, m - 1, i, b);
      OneWorktreeEach(r, m - 1, i);
      SyncOneUpstream(SyncFirst(r, false, luck, m - 1), r.worktrees[m - 1], luck(m - 1).git);
    }
  }

  predicate ForwardedAt(r: Repo, luck: nat -> Luck, i: nat, b: string)
    requires Valid(r) && i < |r.worktrees|
  {
    var a := ActionAt(r, false, luck, i);
    r.worktrees[i].at == On(b) && a.Some? && a.value.FastForward?
  }

  /** A local branch is elsewhere after the first `m` worktrees exactly if one of them, on that
      branch, was fast-forwarded. */
  lemma {:induction false} HeadsAfter(r: Repo, luck: nat -> Luck, m: nat, b: string)
    requires Valid(r) && m <= |r.worktrees|
    ensures var after := SyncFirst(r, false, luck, m);
            && (Head(b) in after.refs <==> Head(b) in r.refs)
            && (Head(b) in r.refs ==>
                  (after.refs[Head(b)] != r.refs[Head(b)] <==> exists i | 0 <= i < m :: ForwardedAt(r, luck, i, b)))
    decreases m
  {
    hide SyncOne, Valid;
    if m > 0 {
      HeadsAfter(r, luck, m - 1, b);
      var before, w := SyncFirst(r, false, luck, m - 1), r.worktrees[m - 1];
      if w.at == On(b) {
        HeadsBefore(r, false, luck, m - 1, m - 1, b);
        SyncOneHead(before, w, b, luck(m - 1).git);
      } else {
        SyncOneRefs(before, w, false, luck(m - 1).git);
      }
      assert ForwardedAt(r, luck, m - 1, b) <==>
             w.at == On(b) && var a := SyncOne(before, w, false, luck(m - 1).git).1; a.Some? && a.value.FastForward?;
    }
  }

  /** So far the run has done what the dry run announced. */
  predicate AsAnnounced(r: Repo, luck: nat -> Luck, m: nat)
    requires Valid(r) && m <= |r.worktrees|
  {
    forall i | 0 <= i < m :: ActionAt(r, false, luck, i) == Preview(r, i)
  }

  /** What worktree `j` finds at its turn is what it would have found at the start, but for the
      tip it follows. */
  lemma FoundAtTurn(r: Repo, luck: nat -> Luck, j: nat, b: string)
    requires Valid(r) && j < |r.worktrees| && r.worktrees[j].at == On(b)
    ensures var now, w := SyncFirst(r, false, luck, j), r.worktrees[j];
            && now.parents == r.parents && HeadOf(now, w) == HeadOf(r, w)
            && (Remote(b) in now.refs <==> Remote(b) in r.refs)
            && (b in now.upstream <==> b in r.upstream)
            && (b in r.upstream ==> now.upstream[b] == r.upstream[b])
  {
    hide SyncFirst, Valid, ActionAt;
    SameParents(r, false, luck, j);
    HeadsBefore(r, false, luck, j, j, b);
    UpstreamsBefore(r, luck, j, j, b);
    RemotesAfter(r, false, luck, j, b);
    forall i | 0 <= i < j ensures !PublishedAt(r, false, luck, i, b) {
      PublishedIsOnIt(r, luck, i, b);
      OneWorktreeEach(r, i, j);
    }
  }

  lemma PublishedIsOnIt(r: Repo, luck: nat -> Luck, i: nat, n: string)
    requires Valid(r) && i < |r.worktrees|
    ensures PublishedAt(r, false, luck, i, n) ==> r.worktrees[i].at == On(n)
  {
    hide Valid, SyncOne;
    SyncOneUpstream(SyncFirst(r, false, luck, i), r.worktrees[i], luck(i).git);
  }

  /** Under an announced run, worktree `j` is disturbed exactly where the tip it follows is not
      what it was. */
  lemma TipAtTurn(r: Repo, luck: nat -> Luck, j: nat, b: string)
    requires Valid(r) && j < |r.worktrees| && r.worktrees[j].at == On(b)
    requires AsAnnounced(r, luck, j) && Preview(r, j).Some?
    ensures var now, w := SyncFirst(r, false, luck, j), r.worktrees[j];
            UpstreamOf(now, w) == UpstreamOf(r, w) <==> forall i | 0 <= i < j :: !Disturbs(r, i, j)
  {
    hide SyncFirst, Valid, ActionAt, Preview;
    FoundAtTurn(r, luck, j, b);
    if b in r.upstream {
      var x := r.upstream[b];
      match x {
        case Head(n) => HeadTip(r, luck, j, b, n);
        case Remote(n) => RemoteTip(r, luck, j, b, n);
      }
    }
  }

  lemma HeadTip(r: Repo, luck: nat -> Luck, j: nat, b: string, n: string)
    requires Valid(r) && j < |r.worktrees| && r.worktrees[j].at == On(b) && b in r.upstream && r.upstream[b] == Head(n)
    requires AsAnnounced(r, luck, j) && Preview(r, j).Some?
    ensures var now := SyncFirst(r, false, luck, j);
            (Head(n) in now.refs <==> Head(n) in r.refs)
            && ((Head(n) in r.refs ==> now.refs[Head(n)] == r.refs[Head(n)]) <==>
                  forall i | 0 <= i < j :: !Disturbs(r, i, j))
  {
    hide SyncFirst, Valid, ActionAt;
    HeadsAfter(r, luck, j, n);
    forall i | 0 <= i < j ensures ForwardedAt(r, luck, i, n) <==> Disturbs(r, i, j) {
      ForwardedIsOnBranch(r, luck, i);
    }
    if i :| 0 <= i < j && Disturbs(r, i, j) {
      ForwardedHasHead(r, i);
    }
  }

  lemma ForwardedIsOnBranch(r: Repo, luck: nat -> Luck, i: nat)
    requires Valid(r) && i < |r.worktrees| && ActionAt(r, false, luck, i) == Preview(r, i)
    ensures var a := Preview(r, i); a.Some? && a.value.FastForward? ==> r.worktrees[i].at.On?
  {
    hide Valid, ActionAt, AheadOf, BehindOf;
  }

  lemma ForwardedHasHead(r: Repo, i: nat)
    requires Valid(r) && i < |r.worktrees|
    ensures var a := Preview(r, i); a.Some? && a.value.FastForward? ==> HeadOf(r, r.worktrees[i]).Some?
  {
    hide Valid, AheadOf, BehindOf;
  }

  lemma RemoteTip(r: Repo, luck: nat -> Luck, j: nat, b: string, n: string)
    requires Valid(r) && j < |r.worktrees| && r.worktrees[j].at == On(b)
    requires b in r.upstream && r.upstream[b] == Remote(n)
    requires AsAnnounced(r, luck, j) && Preview(r, j).Some?
    ensures var now := SyncFirst(r, false, luck, j);
            && (Remote(n) in r.refs ==> Remote(n) in now.refs && now.refs[Remote(n)] == r.refs[Remote(n)])
            && ((Remote(n) in now.refs <==> Remote(n) in r.refs) <==> forall i | 0 <= i < j :: !Disturbs(r, i, j))
  {
    hide SyncFirst, Valid, ActionAt;
    RemotesAfter(r, false, luck, j, n);
    forall i | 0 <= i < j ensures PublishedAt(r, false, luck, i, n) <==> Disturbs(r, i, j) {
      PublishNames(r, i);
    }
    forall i | 0 <= i < j && PublishedAt(r, false, luck, i, n) ensures Remote(n) !in r.refs {
      PublishNames(r, i);
    }
  }

  lemma PublishNames(r: Repo, i: nat)
    requires Valid(r) && i < |r.worktrees|
    ensures var a := Preview(r, i);
            a.Some? && a.value.Publish? ==> r.worktrees[i].at == On(a.value.branch) && Remote(a.value.branch) !in r.refs
  {
    hide Valid, AheadOf, BehindOf;
  }

  /** The tip that worktree `j` follows shows in its action. */
  lemma TipShows(r: Repo, now: Repo, w: Worktree)
    requires Valid(r) && Valid(now) && now.parents == r.parents && w in r.worktrees && w in now.worktrees && w.at.On?
    requires HeadOf(now, w) == HeadOf(r, w) && (Remote(w.at.branch) in now.refs <==> Remote(w.at.branch) in r.refs)
    requires UpstreamOf(r, w).Some? ==>
               UpstreamOf(now, w).Some? && UpstreamOf(r, w).value in Ancestors(r.parents, UpstreamOf(now, w).value)
    ensures UpstreamOf(now, w) == UpstreamOf(r, w) ==> Look(now, w) == Look(r, w)
    ensures UpstreamOf(now, w) != UpstreamOf(r, w) && Look(r, w).Some? ==>
              Look(now, w).None? || Classify(Look(now, w).value) != Classify(Look(r, w).value)
    ensures Look(r, w).None? ==> Look(now, w).None?
  {
    if UpstreamOf(now, w) == UpstreamOf(r, w) {
      SameLook(r, now, w);
    } else if UpstreamOf(r, w).Some? && HeadOf(r, w).Some? {
      MovedUpstreamShows(r, now, w);
    } else {
      hide Valid, Ancestors, AheadOf, BehindOf;
    }
  }

  lemma SameLook(r: Repo, now: Repo, w: Worktree)
    requires Valid(r) && Valid(now) && now.parents == r.parents && w in r.worktrees && w in now.worktrees && w.at.On?
    requires HeadOf(now, w) == HeadOf(r, w) && (Remote(w.at.branch) in now.refs <==> Remote(w.at.branch) in r.refs)
    requires UpstreamOf(now, w) == UpstreamOf(r, w)
    ensures Look(now, w) == Look(r, w)
  {
    hide Ancestors, Acyclic;
  }

  lemma DecidedIsDoable(r: Repo, w: Worktree)
    requires Valid(r) && w in r.worktrees && Look(r, w).Some?
    ensures var a := Classify(Look(r, w).value);
            && (a.FastForward? ==>
                  && w.at.On? && HeadOf(r, w).Some? && UpstreamOf(r, w).Some?
                  && HeadOf(r, w).value in Ancestors(r.parents, UpstreamOf(r, w).value))
  {
    if HeadOf(r, w).Some? && UpstreamOf(r, w).Some? { DecisionIsTheGraph(r, w); }
    hide Ancestors, Acyclic, AheadOf, BehindOf;
  }

  /** An action that is looked at and decided gets done where git lets it. */
  lemma DoneWhere(r: Repo, w: Worktree, ok: bool)
    requires Valid(r) && w in r.worktrees
    ensures var s, done := Look(r, w), SyncOne(r, w, false, ok).1;
            && (s.None? ==> done.None?)
            && (s.Some? ==>
                  var a := Classify(s.value);
                  && (done == None || done == Some(a))
                  && (done == Some(a) <==>
                        && (a.FastForward? || a.Publish? || a.SetUpstream? ==> ok)
                        && (a.Publish? ==> HeadOf(r, w).Some?)))
  {
    hide Ancestors, Valid, AheadOf, BehindOf, Look, Classify;
    if Look(r, w).Some? { DecidedIsDoable(r, w); }
  }

  lemma DetachedLook(r: Repo, w: Worktree)
    requires Valid(r) && w in r.worktrees && w.at.Detached?
    ensures Look(r, w) == Some(SyncState(None, false, false, 0, 0, false)) && Classify(Look(r, w).value) == DetachedHead
  {
  }

  lemma UpstreamStays(r: Repo, luck: nat -> Luck, j: nat)
    requires Valid(r) && j < |r.worktrees| && r.worktrees[j].at.On?
    ensures var now, w := SyncFirst(r, false, luck, j), r.worktrees[j];
            && now.parents == r.parents
            && (UpstreamOf(r, w).Some? ==>
                  && UpstreamOf(now, w).Some?
                  && UpstreamOf(r, w).value in Ancestors(r.parents, UpstreamOf(now, w).value))
  {
    hide SyncFirst, Acyclic, Ancestors;
    var now := SyncFirst(r, false, luck, j);
    FoundAtTurn(r, luck, j, r.worktrees[j].at.branch);
    SyncFirstGrows(r, false, luck, j);
    var up := UpstreamOf(r, r.worktrees[j]);
    if up.Some? { assert up.value in Ancestors(r.parents, up.value); }
  }

  /** With everything before as announced, worktree `j` does what was announced exactly if its
      action gets through and no earlier one disturbs it. */
  lemma LiveMatchesIff(r: Repo, luck: nat -> Luck, j: nat)
    requires Valid(r) && j < |r.worktrees| && AsAnnounced(r, luck, j)
    ensures ActionAt(r, false, luck, j) == Preview(r, j) <==>
              GetsThrough(r, luck, j) && forall i | 0 <= i < j :: !Disturbs(r, i, j)
  {
    hide SyncFirst, Valid, SyncOne, Look, Classify, Grows, AsAnnounced;
    var now, w := SyncFirst(r, false, luck, j), r.worktrees[j];
    DoneWhere(now, w, luck(j).git);
    if w.at.On? {
      FoundAtTurn(r, luck, j, w.at.branch);
      UpstreamStays(r, luck, j);
      TipShows(r, now, w);
      if Preview(r, j).Some? { TipAtTurn(r, luck, j, w.at.branch); }
    } else {
      DetachedLook(r, w);
      DetachedLook(now, w);
    }
  }

  /** Nothing keeps worktree `j` from doing what a dry run announces for it. */
  predicate Undisturbed(r: Repo, luck: nat -> Luck, j: nat)
    requires Valid(r) && j < |r.worktrees|
  {
    GetsThrough(r, luck, j) && forall i | 0 <= i < j :: !Disturbs(r, i, j)
  }

  lemma LastMatchesIff(r: Repo, luck: nat -> Luck, j: nat)
    requires Valid(r) && j < |r.worktrees| && AsAnnounced(r, luck, j)
    ensures ActionAt(r, false, luck, j) == Preview(r, j) <==> Undisturbed(r, luck, j)
  {
    hide Valid, ActionAt, Preview, GetsThrough, Disturbs, AsAnnounced;
    LiveMatchesIff(r, luck, j);
  }

  /** The first `m` worktrees fare as a dry run announces exactly if each announced action gets
      through and no announced fast-forward or publication changes the tip a later one follows. */
  lemma {:induction false} PreviewsIff(r: Repo, luck: nat -> Luck, m: nat)
    requires Valid(r) && m <= |r.worktrees|
    ensures (forall j | 0 <= j < m :: ActionAt(r, false, luck, j) == ActionAt(r, true, luck, j)) <==>
              forall j | 0 <= j < m :: Undisturbed(r, luck, j)
    decreases m
  {
    hide Valid, ActionAt, Preview, Undisturbed;
    forall j | 0 <= j < m ensures ActionAt(r, true, luck, j) == Preview(r, j) {
      DryActions(r, luck, j);
    }
    if m > 0 {
      PreviewsIff(r, luck, m - 1);
      if AsAnnounced(r, luck, m - 1) {
        LastMatchesIff(r, luck, m - 1);
      }
    }
  }

  /** A primary clone behind its remote, and a worktree that follows the local branch. */
  function Following(): Repo {
    Repo([{}, {0}], map[INTEGRATION := 1, Head("develop") := 0, Head("topic") := 0],
         map["develop" := INTEGRATION, "topic" := Head("develop")],
         [Worktree("/p", On("develop"), {}, None, false), Worktree("/t", On("topic"), {}, None, false)])
  }

  /** An input where the preview is wrong: the second worktree is announced as it stands, and the
      run moves the branch it follows before its turn comes. */
  lemma FollowerMisleadsPreview(luck: nat -> Luck)
    ensures Valid(Following()) && Preview(Following(), 0).Some? && Preview(Following(), 0).value.FastForward?
    ensures !forall j | 0 <= j < 2 :: ActionAt(Following(), false, luck, j) == ActionAt(Following(), true, luck, j)
  {
    var r := Following();
    FollowingDecides();
    hide Valid, ActionAt, Preview, Ancestors, GetsThrough;
    PreviewsIff(r, luck, 2);
    assert Disturbs(r, 0, 1);
    assert !Undisturbed(r, luck, 1);
  }

  lemma FollowingDecides()
    ensures Valid(Following()) && Preview(Following(), 0).Some? && Preview(Following(), 0).value.FastForward?
    ensures Preview(Following(), 1).Some?
  {
    var r := Following();
    FollowingIsValid();
    hide Ancestors, Valid, Classify, Look;
    DecisionIsTheGraph(r, r.worktrees[0]);
    DecisionIsTheGraph(r, r.worktrees[1]);
  }

  lemma FollowingIsValid()
    ensures Valid(Following()) && 0 in Ancestors(Following().parents, 1)
  {
    TwoCommits(Following().parents);
    hide Ancestors;
  }

  /** A commit that only the remote ref `b` leads to. */
  function Unmerged(): Repo {
    Repo([{}, {0}], map[INTEGRATION := 0, Head("develop") := 0, Remote("b") := 1], map[],
         [Worktree("/p", On("develop"), {}, None, false)])
  }

  /** Once branch `b` is gone from the remote, every run loses the commit, a dry run included. */
  lemma PrunedCommitIsLost(dryRun: bool, luck: nat -> Luck)
    ensures var r, o := Unmerged(), Origin([], map["develop" := 0], map[], map[]);
            Valid(r) && Readable(r, o) && Reachable(r, 1) && !Reachable(SyncRun(r, o, dryRun, luck), 1)
  {
    UnmergedIs();
    hide Valid, Readable, Reachable, HeldLocally, HeldByOrigin, SyncRun;
    RunSurvivors(Unmerged(), Origin([], map["develop" := 0], map[], map[]), dryRun, luck, 1);
  }

  lemma UnmergedIs()
    ensures var r, o := Unmerged(), Origin([], map["develop" := 0], map[], map[]);
            && Valid(r) && Readable(r, o) && Reachable(r, 1)
            && !HeldLocally(r, 1) && !HeldByOrigin(r, o, 1)
  {
    var r, o := Unmerged(), Origin([], map["develop" := 0], map[], map[]);
    assert r.parents + o.commits == r.parents;
    TwoCommits(r.parents);
    hide Ancestors;
    assert 1 in Ancestors(r.parents, r.refs[Remote("b")]);
    assert forall b | Head(b) in r.refs :: r.refs[Head(b)] == 0;
  }

  /** A clone of one commit that tracks terminal 7, up to date in every branch. */
  function Tracking(): Clone {
    Clone(Repo([{}], map[INTEGRATION := 0, Head("develop") := 0], map[],
               [Worktree("/p", On("develop"), {}, None, false)]),
          map[], map[7 := "x"])
  }

  /** Two inputs on which a dry run changes the clone although no branch has anything new: a terminal
      claimed since gets a tracking ref, and a second fetch that fails leaves no terminal at all. */
  lemma DryRunMovesTerminals(luck: nat -> Luck)
    ensures var c, o := Tracking(), Origin([], map["develop" := 0], map[], map[7 := "x", 8 := "y"]);
            && Valid(c.repo) && Readable(c.repo, o) && UpToDate(c.repo, o)
            && RunAll(c, o, true, true, luck) == c.(terminals := map[7 := "x", 8 := "y"]) != c
            && RunAll(c, o, false, true, luck) == c.(terminals := map[]) != c
  {
    var c, o := Tracking(), Origin([], map["develop" := 0], map[], map[7 := "x", 8 := "y"]);
    assert c.repo.parents + o.commits == c.repo.parents;
    assert UpToDate(c.repo, o);
    hide SyncRun, UpToDate, Valid, Readable;
    DryRepoStaysIff(c.repo, o, luck);
    assert o.tags + c.tags == c.tags;
    assert 7 in c.terminals && 8 !in c.terminals;
  }

  class Checkout {
    var repo: Repo
    var tags: map<string, Commit>
    var terminals: map<nat, string>

    constructor (initial: Clone)
      ensures State() == initial
    {
      repo, tags, terminals := initial.repo, initial.tags, initial.terminals;
    }

    function State(): Clone
      reads this
    {
      Clone(repo, tags, terminals)
    }

    /** The loop over the listed worktrees. */
    method SyncAll(dryRun: bool, luck: nat -> Luck) returns (t: Tally)
      requires Valid(repo)
      modifies this`repo
      ensures repo == SyncFirst(old(repo), dryRun, luck, |old(repo).worktrees|)
      ensures t == TallyOf(old(repo), dryRun, luck, |old(repo).worktrees|)
      ensures Grows(old(repo), repo)
    {
      hide Valid, Grows, SyncOne, Counted;
      ghost var start := repo;
      var listed := repo.worktrees;
      t := Tally(0, 0, 0, 0, 0, 0, 0);
      for i := 0 to |listed|
        invariant Valid(repo) && repo == SyncFirst(start, dryRun, luck, i) && repo.worktrees == listed
        invariant t == TallyOf(start, dryRun, luck, i)
      {
        var (after, action) := SyncOne(repo, listed[i], dryRun, luck(i).git);
        assert SyncFirst(start, dryRun, luck, i + 1) == after;
        repo := after;
        t := Counted(t, action, luck(i).report);
      }
      SyncFirstGrows(start, dryRun, luck, |listed|);
    }

    /** The command: two fetches, the second allowed to fail, then the loop. None where the first
        one throws; it may have brought some refs and pruned some terminals, all but `left`. */
    method SyncCommand(o: Origin, fetched: bool, left: set<nat>, second: bool, dryRun: bool, luck: nat -> Luck)
      returns (t: Option<Tally>)
      requires Valid(repo) && Readable(repo, o)
      modifies this
      ensures t.Some? <==> fetched
      ensures fetched ==> State() == RunAll(old(State()), o, second, dryRun, luck)
      ensures fetched ==> t == Some(TallyOf(Fetch(old(repo), o), dryRun, luck, |old(repo).worktrees|))
      ensures !fetched ==>
                && repo == Fetch(old(repo), o) && tags == o.tags + old(tags)
                && terminals == map n | n in old(terminals) && n in left :: old(terminals)[n]
    {
      hide Valid, Readable, SyncFirst, TallyOf, Grows;
      FetchedRest(repo, o);
      repo, tags := Fetch(repo, o), o.tags + tags;
      if !fetched {
        terminals := map n | n in terminals && n in left :: terminals[n];
        return None;
      }
      terminals := map[];
      if second { terminals := o.terminals; }
      var tally := SyncAll(dryRun, luck);
      t := Some(tally);
    }
  }
}
