/** The stale-worktree gate and what a sweep leaves for it (scripts/stale-worktree-gate.ts,
    scripts/stale-worktree-gate-cli.ts). */
module StaleGate {
  import opened Text
  import opened WorktreeClose
  import opened WorktreeSweep

  // ---------------------------------------------------------- the gate's own view

  /** Which of the git reads about a worktree get through when git has an answer. */
  datatype Reads = Reads(upstream: bool, ahead: bool, reflog: bool, status: bool, containment: bool)

  /** What the gate gathers. Only a failed count against the upstream throws, and then it is None. A
      failed upstream or reflog read protects: no upstream, no idle time. A failed status read counts
      as clean, and a failed containment read as contained. */
  function GateObserve(r: Repo, w: Worktree, g: Reads, now: int): Option<CloseInput>
    requires Valid(r) && w in r.worktrees
  {
    var head, upstream := HeadOf(r, w), if g.upstream then UpstreamOf(r, w) else None;
    if w.at.Detached? || (upstream.Some? && (head.None? || !g.ahead)) then None
    else
      var contained := !g.containment || head.None? || INTEGRATION !in r.refs || Contained(r, head.value);
      Some(CloseInput(w.path, w.at.branch, upstream.Some?, if head.None? then 0 else AheadOf(r, head.value, upstream),
                      if g.status then |w.dirty| else 0, contained, w.path == r.worktrees[0].path, false, false,
                      IdleRead(w, g, now)))
  }

  function IdleRead(w: Worktree, g: Reads, now: int): real {
    if g.reflog then IdleHours(w, now) else 0.0
  }

  /** How the reads about each worktree fare, by its path. */
  type Answers = string -> Reads

  datatype Observation = Observation(path: string, branch: string, idleHours: real, closeable: bool)

  function ObserveFirst(r: Repo, n: nat, answers: Answers, now: int): Option<seq<Observation>>
    requires Valid(r) && n <= |r.worktrees|
  {
    if n == 0 then Some([])
    else
      var w := r.worktrees[n - 1];
      var input := GateObserve(r, w, answers(w.path), now);
      var init := ObserveFirst(r, n - 1, answers, now);
      if init.None? || input.None? then None
      else
        var closeable := CloseVerdict(input.value).Remove?;
        Some(init.value + [Observation(w.path, w.at.branch, input.value.idleHours, closeable)])
  }

  datatype GateVerdict = Clean | Reclaimable(worktrees: seq<Observation>) | InvalidPolicy

  function Idle(worktrees: seq<Observation>, maxIdleHours: real): seq<Observation> {
    if worktrees == [] then []
    else
      var last := worktrees[|worktrees| - 1];
      Idle(worktrees[..|worktrees| - 1], maxIdleHours)
      + if last.closeable && last.idleHours > maxIdleHours then [last] else []
  }

  function ClassifyStaleWorktrees(worktrees: seq<Observation>, maxIdleHours: real): GateVerdict {
    if maxIdleHours <= 0.0 then InvalidPolicy
    else if Idle(worktrees, maxIdleHours) == [] then Clean
    else Reclaimable(Idle(worktrees, maxIdleHours))
  }

  /** None where the gate throws. */
  function StaleGate(r: Repo, answers: Answers, now: int): Option<GateVerdict>
    requires Valid(r)
  {
    var seen := ObserveFirst(r, |r.worktrees|, answers, now);
    if seen.None? then None else Some(ClassifyStaleWorktrees(seen.value, RECENT_IDLE_THRESHOLD_HOURS))
  }

  predicate Names(v: GateVerdict, path: string) {
    v.Reclaimable? && exists i | 0 <= i < |v.worktrees| :: v.worktrees[i].path == path
  }

  predicate Flagged(r: Repo, w: Worktree, g: Reads, now: int)
    requires Valid(r) && w in r.worktrees
  {
    GateObserve(r, w, g, now).Some? && CloseVerdict(GateObserve(r, w, g, now).value).Remove?
    && IdleRead(w, g, now) > RECENT_IDLE_THRESHOLD_HOURS
  }

  predicate Stale(o: Observation, maxIdleHours: real) {
    o.closeable && o.idleHours > maxIdleHours
  }

  lemma {:induction false} IdleAre(worktrees: seq<Observation>, maxIdleHours: real)
    ensures forall o :: o in Idle(worktrees, maxIdleHours) <==> o in worktrees && Stale(o, maxIdleHours)
  {
    if worktrees != [] {
      IdleAre(worktrees[..|worktrees| - 1], maxIdleHours);
      assert worktrees == worktrees[..|worktrees| - 1] + [worktrees[|worktrees| - 1]];
    }
  }

  lemma {:induction false} ObservedAre(r: Repo, n: nat, answers: Answers, now: int)
    requires Valid(r) && n <= |r.worktrees| && ObserveFirst(r, n, answers, now).Some?
    ensures |ObserveFirst(r, n, answers, now).value| == n
    ensures forall k | 0 <= k < n ::
              && GateObserve(r, r.worktrees[k], answers(r.worktrees[k].path), now).Some?
              && var o := ObserveFirst(r, n, answers, now).value[k];
              && o.path == r.worktrees[k].path
              && (Stale(o, RECENT_IDLE_THRESHOLD_HOURS) <==>
                    Flagged(r, r.worktrees[k], answers(r.worktrees[k].path), now))
  {
    hide GateObserve, CloseVerdict, IdleRead, Valid;
    if n > 0 {
      ObservedAre(r, n - 1, answers, now);
      var w := r.worktrees[n - 1];
      IdleIsRead(r, w, answers(w.path), now);
    }
  }

  lemma IdleIsRead(r: Repo, w: Worktree, g: Reads, now: int)
    requires Valid(r) && w in r.worktrees && GateObserve(r, w, g, now).Some?
    ensures GateObserve(r, w, g, now).value.idleHours == IdleRead(w, g, now)
  {
    hide Valid, Contained, AheadOf, IdleRead;
  }

  /** The gate names exactly the worktrees that `decideClose` would remove on the gate's
      observation and that it read to be idle for more than the threshold. */
  lemma GateNamesFlagged(r: Repo, answers: Answers, now: int, w: Worktree)
    requires Valid(r) && w in r.worktrees && StaleGate(r, answers, now).Some?
    ensures Names(StaleGate(r, answers, now).value, w.path) <==> Flagged(r, w, answers(w.path), now)
  {
    hide GateObserve, Flagged, Stale, Acyclic, ObserveFirst, Idle;
    var n := |r.worktrees|;
    ObservedAre(r, n, answers, now);
    var os := ObserveFirst(r, n, answers, now).value;
    IdleAre(os, RECENT_IDLE_THRESHOLD_HOURS);
    var idle := Idle(os, RECENT_IDLE_THRESHOLD_HOURS);
    var k :| 0 <= k < n && r.worktrees[k] == w;
    if Flagged(r, w, answers(w.path), now) {
      assert os[k] in idle;
    }
    if Names(StaleGate(r, answers, now).value, w.path) {
      var i :| 0 <= i < |idle| && idle[i].path == w.path;
      assert idle[i] in idle;
      var j :| 0 <= j < n && os[j] == idle[i];
      assert j == k;
    }
  }

  /** A threshold that is not positive is refused; else the gate lists the closeable worktrees idle
      for longer than it, and is clean exactly where there is none. */
  lemma GateMeans(worktrees: seq<Observation>, maxIdleHours: real)
    ensures var v := ClassifyStaleWorktrees(worktrees, maxIdleHours);
            && (v == InvalidPolicy <==> maxIdleHours <= 0.0)
            && (v == Clean <==>
                  maxIdleHours > 0.0 && forall o | o in worktrees :: !o.closeable || o.idleHours <= maxIdleHours)
            && (v.Reclaimable? ==>
                  forall o :: o in v.worktrees <==> o in worktrees && o.closeable && o.idleHours > maxIdleHours)
  {
    IdleAre(worktrees, maxIdleHours);
    FirstIsMember(Idle(worktrees, maxIdleHours));
  }

  lemma FirstIsMember(os: seq<Observation>)
    ensures os == [] <==> forall o :: o !in os
  {
    if os != [] { assert os[0] in os; }
  }

  /** The gate passes exactly where no worktree is flagged. */
  lemma CleanIff(r: Repo, answers: Answers, now: int)
    requires Valid(r) && StaleGate(r, answers, now).Some?
    ensures StaleGate(r, answers, now).value == Clean <==>
              forall w | w in r.worktrees :: !Flagged(r, w, answers(w.path), now)
  {
    hide GateObserve, Flagged, Stale, Acyclic, ObserveFirst, Idle;
    var n := |r.worktrees|;
    ObservedAre(r, n, answers, now);
    var os := ObserveFirst(r, n, answers, now).value;
    IdleAre(os, RECENT_IDLE_THRESHOLD_HOURS);
    var idle := Idle(os, RECENT_IDLE_THRESHOLD_HOURS);
    FirstIsMember(idle);
    forall k | 0 <= k < n
      ensures os[k] in idle <==> Flagged(r, r.worktrees[k], answers(r.worktrees[k].path), now)
    {
      assert os[k] in os;
    }
    if o :| o in idle {
      var k :| 0 <= k < n && os[k] == o;
      assert Flagged(r, r.worktrees[k], answers(r.worktrees[k].path), now);
    }
  }

  // ------------------------------------------------------ the gate and the close

  /** A failed read that stood for something else: a dirty tree taken for clean, or unmerged work
      taken for contained. */
  predicate Misread(r: Repo, w: Worktree, g: Reads)
    requires Valid(r) && w in r.worktrees
  {
    || (!g.status && w.dirty != {})
    || (!g.containment && HeadOf(r, w).Some? && INTEGRATION in r.refs && !Contained(r, HeadOf(r, w).value))
  }

  /** The reads whose failure only protects. */
  predicate Measured(g: Reads) {
    g.upstream && g.ahead && g.reflog
  }

  /** What a flag rests on. */
  lemma FlaggedIff(r: Repo, w: Worktree, g: Reads, now: int)
    requires Valid(r) && w in r.worktrees
    ensures Flagged(r, w, g, now) <==>
              && w.at.On? && HeadOf(r, w).Some? && Measured(g) && UpstreamOf(r, w).Some?
              && w.path != r.worktrees[0].path && IdleFor(w, now, 86_401)
              && (g.status ==> w.dirty == {})
              && (g.containment && INTEGRATION in r.refs ==> Contained(r, HeadOf(r, w).value))
  {
    IdleHoursMeans(w, now);
    hide CloseVerdict, Contained, AheadOf, IdleHours, IdleFor, Acyclic;
    var input := GateObserve(r, w, g, now);
    if input.Some? { RemovedIff(input.value); }
  }

  lemma RemovedIff(i: CloseInput)
    ensures CloseVerdict(i).Remove? <==>
              && !i.retired && !i.isPrimaryClone && i.hasUpstream && i.dirtyFileCount == 0 && i.containedInIntegration
              && (i.idleHours >= RECENT_IDLE_THRESHOLD_HOURS || i.done)
  {
    VerdictMeans(i);
    if !CloseVerdict(i).Refuse? { ClearedVerdict(i); }
    hide CloseVerdict;
    if && !i.retired && !i.isPrimaryClone && i.hasUpstream && i.dirtyFileCount == 0 && i.containedInIntegration
       && (i.idleHours >= RECENT_IDLE_THRESHOLD_HOURS || i.done) {
      assert forall reason :: !Refused(i, reason);
    }
  }

  /** Where the integration ref can be read, a flag that rests on no misread is the close's own
      verdict to remove with an idle time past the threshold, and the other way round where the
      reads that only protect got through. */
  lemma GateAgreesWithClose(r: Repo, w: Worktree, g: Reads, now: int)
    requires Valid(r) && w in r.worktrees && w.at.On? && INTEGRATION in r.refs && HeadOf(r, w).Some?
    ensures var input := Observe(r, w, r.worktrees[0].path, Flags(false, false, false), now);
            input.Some?
            && (Flagged(r, w, g, now) && !Misread(r, w, g) <==>
                  && Measured(g) && CloseVerdict(input.value).Remove?
                  && IdleFor(w, now, 86_401))
  {
    hide CloseVerdict, Contained, AheadOf, IdleHours, Acyclic, Flagged, GateObserve;
    FlaggedIff(r, w, g, now);
    IdleHoursMeans(w, now);
    RemovedIff(Observe(r, w, r.worktrees[0].path, Flags(false, false, false), now).value);
  }

  /** The close's observation when its reads fare alike: it lets neither status nor containment fail. */
  function CloseObserve(r: Repo, w: Worktree, g: Reads, now: int): Option<CloseInput>
    requires Valid(r) && w in r.worktrees
  {
    if !g.status || !g.containment then None
    else Observe(r, w, r.worktrees[0].path, Flags(false, false, false), now)
  }

  /** What backs a flag. A close whose reads get through removes the worktree exactly if the
      integration ref is there and nothing was misread; one whose reads fail as the gate's did
      removes it exactly if the ref is there and neither status nor containment failed. */
  lemma FlagIsBackedIff(r: Repo, w: Worktree, g: Reads, now: int)
    requires Valid(r) && w in r.worktrees && Flagged(r, w, g, now)
    ensures var input := Observe(r, w, r.worktrees[0].path, Flags(false, false, false), now);
            input.Some? && CloseVerdict(input.value).Remove? <==> INTEGRATION in r.refs && !Misread(r, w, g)
    ensures var input := CloseObserve(r, w, g, now);
            input.Some? && CloseVerdict(input.value).Remove? <==>
            INTEGRATION in r.refs && g.status && g.containment
  {
    hide CloseVerdict, Contained, AheadOf, IdleHours, Acyclic, Flagged, GateObserve;
    FlaggedIff(r, w, g, now);
    if INTEGRATION in r.refs { GateAgreesWithClose(r, w, g, now); }
  }

  // ----------------------------------------------------- after a completed sweep

  /** A worktree flagged after the repository has shrunk, and not misread, was removable before. */
  lemma FlaggedWasRemovable(r: Repo, after: Repo, w: Worktree, flags: Flags, g: Reads, now: int)
    requires Valid(r) && Shrunk(r, after) && w in after.worktrees && w in r.worktrees
    requires INTEGRATION in r.refs && HeadOf(r, w).Some? && w.at.On? && !flags.retired
    requires Flagged(after, w, g, now) && !Misread(after, w, g)
    ensures var input := Observe(r, w, r.worktrees[0].path, flags, now);
            input.Some? && CloseVerdict(input.value).Remove?
  {
    hide Ancestors, Valid, CloseVerdict, Flagged, GateObserve, IdleHours;
    FlaggedIff(after, w, g, now);
    IdleHoursMeans(w, now);
    RemovedIff(Observe(r, w, r.worktrees[0].path, flags, now).value);
  }

  lemma {:induction false} SurvivorsAreNotFlagged(r: Repo, candidates: seq<string>, s: Session, g: Reads, now: int,
                                                  k: nat, w: Worktree)
    requires Valid(r) && s.others == NOBODY && (forall n :: s.clock(n) == now)
    requires s.primaryPath == r.worktrees[0].path && !s.flags.dryRun
    requires INTEGRATION in r.refs && HeadOf(r, w).Some? && w.at.On?
    requires w.path in candidates
    requires var end := Sweep(r, candidates, s, k); end.completed && w in end.repo.worktrees && Valid(end.repo)
    ensures var end := Sweep(r, candidates, s, k).repo; Flagged(end, w, g, now) ==> Misread(end, w, g)
    decreases |candidates|
  {
    hide CloseOne, ClosedFrom, Valid, AppendOnly, Flagged, Observe, CloseVerdict, Cleared, Misread;
    HasPrimary(r);
    var end := Sweep(r, candidates, s, k).repo;
    SweepShrinks(r, candidates, s, k);
    SweepStep(r, candidates, s, k);
    CloseKeeps(r, candidates[0], s.primaryPath, s.cwd, s.flags, now);
    var c := CloseOne(r, candidates[0], s.primaryPath, s.cwd, s.flags, now);
    ClosingShrinks(r, c.repo, candidates[0]);
    SweepShrinks(c.repo, candidates[1..], s, k + 1);
    assert w in c.repo.worktrees && w in r.worktrees;
    if w.path == candidates[0] {
      if Flagged(end, w, g, now) && !Misread(end, w, g) {
        FlaggedWasRemovable(r, end, w, s.flags, g, now);
        PathIsWorktree(r, w);
        ClearedIsGone(r, w, s.cwd, s.flags, now);
        PathIsWorktree(c.repo, w);
        assert false;
      }
    } else {
      SurvivorsAreNotFlagged(c.repo, candidates[1..], s, g, now, k + 1, w);
    }
  }

  /** A removable worktree whose close did not throw is gone, whatever directory the close ran in. */
  lemma ClearedIsGone(r: Repo, w: Worktree, cwd: string, flags: SweepFlags, now: int)
    requires Valid(r) && w in r.worktrees && !flags.dryRun
    requires var input := Observe(r, w, r.worktrees[0].path, flags, now);
             input.Some? && CloseVerdict(input.value).Remove?
    requires CloseOne(r, w.path, r.worktrees[0].path, cwd, flags, now).verdict.Some?
    ensures !HasPath(CloseOne(r, w.path, r.worktrees[0].path, cwd, flags, now).repo, w.path)
  {
    hide Ancestors, Acyclic, Observe, CloseVerdict, ClosedFrom;
    PathIsWorktree(r, w);
    if HasPath(r, cwd) {
      ClearedCloseHappens(r, w.path, cwd, flags, now);
    }
  }

  /** After one full, undisturbed sweep read at the same clock, whatever the gate still flags
      stands on a protected branch or was misread. */
  lemma FlaggedAfterSweepIsProtected(r: Repo, s: Session, g: Reads, now: int, w: Worktree)
    requires Valid(r) && s.others == NOBODY && (forall n :: s.clock(n) == now)
    requires s.primaryPath == r.worktrees[0].path && !s.flags.dryRun
    requires INTEGRATION in r.refs
    requires forall v | v in r.worktrees :: v.at.On? && HeadOf(r, v).Some?
    requires var end := Sweep(r, Candidates(r.worktrees), s, 0);
             end.completed && Valid(end.repo) && w in end.repo.worktrees && Flagged(end.repo, w, g, now)
    ensures (w.at.On? && Protected(w.at.branch))
            || Misread(Sweep(r, Candidates(r.worktrees), s, 0).repo, w, g)
  {
    hide Valid, AppendOnly, Flagged, Candidates, Protected, Sweep, Misread;
    HasPrimary(r);
    var candidates := Candidates(r.worktrees);
    SweepShrinks(r, candidates, s, 0);
    var end := Sweep(r, candidates, s, 0).repo;
    CandidatesAre(r, w);
    if w == r.worktrees[0] {
      PrimaryIsNeverFlagged(end, w, g, now);
    } else if w.path in candidates {
      SurvivorsAreNotFlagged(r, candidates, s, g, now, 0, w);
    }
  }

  lemma PrimaryIsNeverFlagged(r: Repo, w: Worktree, g: Reads, now: int)
    requires Valid(r) && w == r.worktrees[0]
    ensures w in r.worktrees && !Flagged(r, w, g, now)
  {
    hide Acyclic, Contained, AheadOf, IdleHours, Flagged, GateObserve;
    FlaggedIff(r, w, g, now);
  }

  // ------------------------------------------------------ where the promise ends

  const ANSWERED: Reads := Reads(true, true, true, true, true)

  /** Without the integration ref the close throws, and the gate still flags the worktree. */
  lemma MissingIntegrationMisleadsTheGate()
    ensures var r := Finished(false, 1);
            && Valid(r) && Flagged(r, r.worktrees[1], ANSWERED, LONG_AFTER)
            && forall flags :: Observe(r, r.worktrees[1], "/p", flags, LONG_AFTER).None?
  {
    FinishedIsValid(false, 1);
    hide Flagged, Valid, Ancestors, IdleHours;
    var r := Finished(false, 1);
    LongIdle(r.worktrees[1]);
    FlaggedIff(r, r.worktrees[1], ANSWERED, LONG_AFTER);
  }

  /** The finished repository with a file in its worktree that is not committed. */
  function Unfinished(): Repo {
    var r := Finished(true, 1);
    r.(worktrees := [r.worktrees[0], r.worktrees[1].(dirty := {"notes"})])
  }

  /** With the integration ref in place, a status read that fails makes a dirty worktree a candidate:
      the gate flags it, a close that can read refuses it, and one that cannot throws. */
  lemma FailedStatusMisleadsTheGate()
    ensures var r, g := Unfinished(), ANSWERED.(status := false);
            && Valid(r) && INTEGRATION in r.refs && Flagged(r, r.worktrees[1], g, LONG_AFTER)
            && CloseObserve(r, r.worktrees[1], g, LONG_AFTER).None?
            && var input := Observe(r, r.worktrees[1], "/p", Flags(false, false, false), LONG_AFTER);
            input.Some? && CloseVerdict(input.value).Refuse?
  {
    FinishedIsValid(true, 1);
    var r, g := Unfinished(), ANSWERED.(status := false);
    assert Valid(r);
    hide Flagged, Valid, Ancestors, IdleHours, CloseVerdict;
    LongIdle(r.worktrees[1]);
    FlaggedIff(r, r.worktrees[1], g, LONG_AFTER);
    var input := Observe(r, r.worktrees[1], "/p", Flags(false, false, false), LONG_AFTER).value;
    VerdictMeans(input);
    assert Refused(input, Dirty);
  }
}
