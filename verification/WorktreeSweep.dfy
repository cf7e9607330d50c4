/** The batch sweep: which worktrees it tries, what it keeps while others work on, and what a
    dry run shows (scripts/sweep-worktrees.ts, scripts/sweep-worktrees-cli.ts). */
module WorktreeSweep {
  import opened Text
  import opened WorktreeClose

  // ---------------------------------------------------------------- the sweep

  datatype Entry = Entry(path: string, branch: string)

  const PROTECTED_INTEGRATION_BRANCHES: set<string> := {"main", "master", "develop", "staging", "production"}

  /** The branches whose worktrees are never swept. */
  predicate Protected(branch: string) {
    branch == "main" || branch == "master" || branch == "develop" || branch == "staging" || branch == "production"
  }

  lemma ProtectedNames(branch: string)
    ensures branch in PROTECTED_INTEGRATION_BRANCHES <==> Protected(branch)
  {
  }

  /** The worktrees on a branch; a detached one has none. */
  function WithBranch(ws: seq<Worktree>): seq<Entry> {
    if ws == [] then []
    else
      var last := ws[|ws| - 1];
      WithBranch(ws[..|ws| - 1])
      + match last.at case On(b) => (if b == "" then [] else [Entry(last.path, b)]) case Detached(_) => []
  }

  function ProtectedIntegrationPaths(entries: seq<Entry>): seq<string> {
    if entries == [] then []
    else
      var last := entries[|entries| - 1];
      ProtectedIntegrationPaths(entries[..|entries| - 1])
      + if last.branch in PROTECTED_INTEGRATION_BRANCHES then [last.path] else []
  }

  function Unblocked(entries: seq<Entry>, blocked: set<string>): seq<string> {
    if entries == [] then []
    else
      var last := entries[|entries| - 1];
      Unblocked(entries[..|entries| - 1], blocked) + if last.path in blocked then [] else [last.path]
  }

  function PlanSweep(entries: seq<Entry>, protectedPaths: seq<string>): seq<string> {
    var blocked := set p | p in protectedPaths;
    Unblocked(entries, if entries == [] then blocked else blocked + {entries[0].path})
  }

  function Candidates(ws: seq<Worktree>): seq<string> {
    PlanSweep(WithBranch(ws), ProtectedIntegrationPaths(WithBranch(ws)))
  }

  lemma {:induction false} UnblockedAre(entries: seq<Entry>, blocked: set<string>)
    ensures forall p :: p in Unblocked(entries, blocked) <==>
              p !in blocked && exists i | 0 <= i < |entries| :: entries[i].path == p
  {
    if entries != [] {
      var init := entries[..|entries| - 1];
      UnblockedAre(init, blocked);
      assert forall i | 0 <= i < |init| :: init[i] == entries[i];
    }
  }

  lemma {:induction false} ProtectedAre(entries: seq<Entry>)
    ensures forall p :: p in ProtectedIntegrationPaths(entries) <==>
              exists i | 0 <= i < |entries| ::
                entries[i].path == p && entries[i].branch in PROTECTED_INTEGRATION_BRANCHES
  {
    hide PROTECTED_INTEGRATION_BRANCHES;
    if entries != [] {
      var init := entries[..|entries| - 1];
      ProtectedAre(init);
      assert forall i | 0 <= i < |init| :: init[i] == entries[i];
    }
  }

  predicate OnBranch(w: Worktree, e: Entry) {
    w.path == e.path && w.at == On(e.branch)
  }

  lemma {:induction false} EntriesAre(ws: seq<Worktree>)
    requires forall i | 0 <= i < |ws| :: ws[i].at.On? ==> ws[i].at.branch != ""
    ensures forall e :: e in WithBranch(ws) <==> exists i | 0 <= i < |ws| :: OnBranch(ws[i], e)
    ensures |ws| >= 1 && ws[0].at.On? ==> WithBranch(ws) != [] && OnBranch(ws[0], WithBranch(ws)[0])
  {
    if ws != [] {
      var init := ws[..|ws| - 1];
      EntriesAre(init);
      assert forall i | 0 <= i < |init| :: init[i] == ws[i];
    }
  }

  /** Every candidate is on an unprotected branch and is not the primary clone, even when the
      primary is detached. With the primary on a branch those are all the candidates. */
  lemma CandidatesAre(r: Repo, w: Worktree)
    requires Valid(r) && w in r.worktrees
    ensures w.path in Candidates(r.worktrees) ==>
              w != r.worktrees[0] && w.at.On? && !Protected(w.at.branch)
    ensures r.worktrees[0].at.On? && w != r.worktrees[0] && w.at.On? ==>
              !Protected(w.at.branch) ==> w.path in Candidates(r.worktrees)
  {
    if w.at.On? { ProtectedNames(w.at.branch); }
    hide PROTECTED_INTEGRATION_BRANCHES, Protected, WithBranch, ProtectedIntegrationPaths, Unblocked, Acyclic;
    var ws := r.worktrees;
    var es := WithBranch(ws);
    var prot := ProtectedIntegrationPaths(es);
    EntriesAre(ws);
    ProtectedAre(es);
    var blocked := set p | p in prot;
    UnblockedAre(es, if es == [] then blocked else blocked + {es[0].path});
    var k :| 0 <= k < |ws| && ws[k] == w;
    if w.path in Candidates(ws) {
      var i :| 0 <= i < |es| && es[i].path == w.path;
      assert es[i] in es;
      var j :| 0 <= j < |ws| && OnBranch(ws[j], es[i]);
      assert j == k;
    }
    if ws[0].at.On? && w != ws[0] && w.at.On? && w.at.branch !in PROTECTED_INTEGRATION_BRANCHES {
      assert OnBranch(ws[k], Entry(w.path, w.at.branch));
      assert Entry(w.path, w.at.branch) in es;
      forall i | 0 <= i < |es| && es[i].path == w.path ensures es[i].branch == w.at.branch {
        assert es[i] in es;
        var j :| 0 <= j < |ws| && OnBranch(ws[j], es[i]);
        assert j == k;
      }
    }
  }

  /** What others may do between two candidates: add commits, refs and worktrees, move refs
      forward, and whatever they like with files and branches of their own worktrees. */
  ghost predicate Grows(r: Repo, after: Repo)
    requires Valid(r)
  {
    && Valid(after) && r.parents <= after.parents
    && (forall x | x in r.refs ::
          x in after.refs && Ancestors(r.parents, r.refs[x]) <= Ancestors(after.parents, after.refs[x]))
    && |r.worktrees| <= |after.worktrees|
    && (forall i | 0 <= i < |r.worktrees| ::
          && after.worktrees[i].path == r.worktrees[i].path
          && (r.worktrees[i].at.Detached? ==>
                && after.worktrees[i].at.Detached?
                && Ancestors(r.parents, r.worktrees[i].at.commit)
                   <= Ancestors(after.parents, after.worktrees[i].at.commit)))
  }

  ghost predicate AppendOnly(others: (nat, Repo) -> Repo) {
    forall k, r :: Valid(r) ==> Grows(r, others(k, r))
  }

  lemma SameGrows(r: Repo)
    requires Valid(r)
    ensures Grows(r, r)
  {
  }

  /** Nobody else at work. */
  function Nobody(k: nat, r: Repo): Repo {
    r
  }

  /** Others at work between any two candidates. */
  type Others = o: (nat, Repo) -> Repo | AppendOnly(o) witness Nobody

  const NOBODY: Others := Nobody

  /** The sweep has no flag for retired work. */
  type SweepFlags = f: Flags | !f.retired witness Flags(false, false, false)

  /** One run of the script: started in the worktree `cwd`, reading the clock at each candidate. */
  datatype Session = Session(primaryPath: string, cwd: string, flags: SweepFlags, clock: nat -> int, others: Others)

  datatype Attempt = Attempt(before: Repo, path: string, verdict: Option<Verdict>, after: Repo)

  /** `completed` is false where a candidate threw and the rest were not attempted. */
  datatype Swept = Swept(repo: Repo, attempts: seq<Attempt>, completed: bool)

  function Sweep(r: Repo, candidates: seq<string>, s: Session, k: nat): Swept
    requires Valid(r)
    decreases |candidates|
  {
    if candidates == [] then Swept(r, [], true)
    else
      var before := s.others(k, r);
      assert Grows(r, before);
      var c := CloseOne(before, candidates[0], s.primaryPath, s.cwd, s.flags, s.clock(k));
      var attempt := Attempt(before, candidates[0], c.verdict, c.repo);
      if c.verdict.None? then Swept(c.repo, [attempt], false)
      else
        CloseKeeps(before, candidates[0], s.primaryPath, s.cwd, s.flags, s.clock(k));
        var rest := Sweep(c.repo, candidates[1..], s, k + 1);
        Swept(rest.repo, [attempt] + rest.attempts, rest.completed)
  }

  /** Nothing lost from `r` to `after`: commits, the first worktree, and every worktree
      whose path is not in `paths`. */
  ghost predicate NothingLost(r: Repo, after: Repo, paths: seq<string>)
    requires Valid(r)
  {
    && Valid(after) && r.parents <= after.parents
    && (forall c | Reachable(r, c) :: Reachable(after, c))
    && after.worktrees[0].path == r.worktrees[0].path
    && (forall p | HasPath(r, p) && p !in paths :: HasPath(after, p))
  }

  lemma GrowingLosesNothing(r: Repo, after: Repo)
    requires Valid(r) && Grows(r, after)
    ensures NothingLost(r, after, [])
  {
    hide Ancestors;
    forall c | Reachable(r, c) ensures Reachable(after, c) {
      if x :| x in r.refs && c in Ancestors(r.parents, r.refs[x]) {
        assert c in Ancestors(after.parents, after.refs[x]);
      } else {
        var i :| 0 <= i < |r.worktrees| && r.worktrees[i].at.Detached?
                 && c in Ancestors(r.parents, r.worktrees[i].at.commit);
        assert c in Ancestors(after.parents, after.worktrees[i].at.commit);
      }
    }
    forall p | HasPath(r, p) ensures HasPath(after, p) {
      var i :| 0 <= i < |r.worktrees| && r.worktrees[i].path == p;
      assert after.worktrees[i].path == p;
    }
  }

  lemma ClosingLosesNothing(r: Repo, after: Repo, path: string)
    requires Valid(r) && ClosedFrom(r, after, path)
    ensures NothingLost(r, after, [path])
  {
    hide Reachable;
    forall p | HasPath(r, p) && p !in [path] ensures HasPath(after, p) {
      var i :| 0 <= i < |r.worktrees| && r.worktrees[i].path == p;
      assert p != path by { assert path in [path]; }
      assert r.worktrees[i] in after.worktrees;
    }
  }

  lemma NothingLostThen(a: Repo, b: Repo, c: Repo, p: seq<string>, q: seq<string>)
    requires Valid(a) && NothingLost(a, b, p) && NothingLost(b, c, q)
    ensures NothingLost(a, c, p + q)
  {
    hide Reachable, HasPath, Valid;
  }

  /** Over any commit graph, with anything append-only going on between candidates, a sweep
      keeps every commit reachable, the primary clone, and every worktree it did not target. */
  lemma {:induction false} SweepLosesNothing(r: Repo, candidates: seq<string>, s: Session, k: nat)
    requires Valid(r)
    ensures NothingLost(r, Sweep(r, candidates, s, k).repo, candidates)
    decreases |candidates|
  {
    hide Grows, NothingLost, CloseOne, ClosedFrom, Valid;
    if candidates == [] {
      UnchangedLosesNothing(r);
    } else {
      var before := s.others(k, r);
      assert Grows(r, before);
      GrowsValid(r, before);
      var c := CloseOne(before, candidates[0], s.primaryPath, s.cwd, s.flags, s.clock(k));
      GrowingLosesNothing(r, before);
      CloseKeeps(before, candidates[0], s.primaryPath, s.cwd, s.flags, s.clock(k));
      ClosedValid(before, c.repo, candidates[0]);
      ClosingLosesNothing(before, c.repo, candidates[0]);
      NothingLostThen(r, before, c.repo, [], [candidates[0]]);
      assert [] + [candidates[0]] == [candidates[0]];
      if c.verdict.Some? {
        SweepLosesNothing(c.repo, candidates[1..], s, k + 1);
        var end := Sweep(c.repo, candidates[1..], s, k + 1).repo;
        NothingLostThen(r, c.repo, end, [candidates[0]], candidates[1..]);
        assert [candidates[0]] + candidates[1..] == candidates;
      } else {
        UnchangedLosesNothing(c.repo);
        NothingLostMore(r, c.repo, [candidates[0]], candidates);
      }
    }
  }

  lemma UnchangedLosesNothing(r: Repo)
    requires Valid(r)
    ensures NothingLost(r, r, [])
  {
  }

  lemma NothingLostMore(a: Repo, b: Repo, p: seq<string>, q: seq<string>)
    requires Valid(a) && NothingLost(a, b, p) && forall x | x in p :: x in q
    ensures NothingLost(a, b, q)
  {
    hide Reachable, HasPath, Valid;
  }

  lemma GrowsValid(r: Repo, after: Repo)
    requires Valid(r) && Grows(r, after)
    ensures Valid(after)
  {
  }

  lemma ClosedValid(r: Repo, after: Repo, path: string)
    requires Valid(r) && ClosedFrom(r, after, path)
    ensures Valid(after)
  {
  }

  /** What one attempt may do at `now`: nothing, or remove the clean, tracked worktree at its path,
      which is not the primary and, unless declared done, has been idle for a day; and delete that
      worktree's branch, which the integration ref contains. */
  ghost predicate RemovedSafely(a: Attempt, primaryPath: string, done: bool, now: int) {
    && Valid(a.before) && ClosedFrom(a.before, a.after, a.path)
    && (a.after != a.before || (a.verdict.Some? && !a.verdict.value.Refuse?) ==>
          exists w | w in a.before.worktrees ::
            && w.path == a.path && w.path != primaryPath && w.dirty == {} && (done || IdleFor(w, now, 86_400))
            && w.at.On? && Head(w.at.branch) in a.before.refs && UpstreamOf(a.before, w).Some?
            && OwnContained(a.before, a.path, Head(w.at.branch)))
  }

  lemma AttemptIsSafe(r: Repo, path: string, primaryPath: string, cwd: string, flags: SweepFlags, now: int)
    requires Valid(r)
    ensures var c := CloseOne(r, path, primaryPath, cwd, flags, now);
            RemovedSafely(Attempt(r, path, c.verdict, c.repo), primaryPath, flags.done, now)
  {
    hide Ancestors, CloseOne, Contained, Acyclic, ClosedFrom, HasPath, Cleared;
    var c := CloseOne(r, path, primaryPath, cwd, flags, now);
    CloseKeeps(r, path, primaryPath, cwd, flags, now);
    if Cleared(r, path, primaryPath, flags, now) {
      ClearedMeans(r, path, primaryPath, flags, now);
    } else {
      NothingToRun(r, path, primaryPath, cwd, flags, now);
      NotCleared(r, path, primaryPath, cwd, flags, now);
    }
  }

  lemma ClearedMeans(r: Repo, path: string, primaryPath: string, flags: SweepFlags, now: int)
    requires Valid(r) && Cleared(r, path, primaryPath, flags, now)
    ensures HasPath(r, path)
    ensures var w := WorktreeAt(r, path);
            && path != primaryPath && w.dirty == {} && w.at.On? && (flags.done || IdleFor(w, now, 86_400))
            && Head(w.at.branch) in r.refs && UpstreamOf(r, w).Some? && OwnContained(r, path, Head(w.at.branch))
  {
    hide Ancestors, CloseVerdict, Contained, Acyclic, IdleHours, AheadOf, HasPath;
    var w := WorktreeAt(r, path);
    Closable(r, w, primaryPath, flags, now);
    VerdictMeans(Observe(r, w, primaryPath, flags, now).value);
    ClearedVerdict(Observe(r, w, primaryPath, flags, now).value);
    IdleHoursMeans(w, now);
  }

  /** Every attempt of a sweep is safe, a half-done one included. */
  lemma {:induction false} SweepRemovesSafely(r: Repo, candidates: seq<string>, s: Session, k: nat, i: nat)
    requires Valid(r) && i < |Sweep(r, candidates, s, k).attempts|
    ensures RemovedSafely(Sweep(r, candidates, s, k).attempts[i], s.primaryPath, s.flags.done, s.clock(k + i))
    ensures Sweep(r, candidates, s, k).attempts[i].path in candidates
    decreases |candidates|
  {
    hide Grows, RemovedSafely, CloseOne, ClosedFrom, Valid;
    var before := s.others(k, r);
    assert Grows(r, before);
    GrowsValid(r, before);
    AttemptIsSafe(before, candidates[0], s.primaryPath, s.cwd, s.flags, s.clock(k));
    var c := CloseOne(before, candidates[0], s.primaryPath, s.cwd, s.flags, s.clock(k));
    if i > 0 {
      CloseKeeps(before, candidates[0], s.primaryPath, s.cwd, s.flags, s.clock(k));
      ClosedValid(before, c.repo, candidates[0]);
      SweepRemovesSafely(c.repo, candidates[1..], s, k + 1, i - 1);
    }
  }

  /** Attempt `a` deleted `x`: the branch of its own worktree, contained at that moment. */
  ghost predicate Deleted(a: Attempt, x: Ref) {
    Valid(a.before) && x in a.before.refs && x !in a.after.refs && OwnContained(a.before, a.path, x)
  }

  lemma RefStays(r: Repo, after: Repo, x: Ref)
    requires Valid(r) && Grows(r, after) && x in r.refs
    ensures x in after.refs
  {
  }

  lemma RefGone(r: Repo, after: Repo, path: string, x: Ref)
    requires Valid(r) && ClosedFrom(r, after, path) && x in r.refs && x !in after.refs
    ensures OwnContained(r, path, x)
  {
  }

  /** Whatever ref is gone after a sweep was deleted by one of its attempts, as the contained
      branch of the worktree that attempt closed. Remote refs therefore stay. */
  lemma {:induction false} GoneRefsWereContained(r: Repo, candidates: seq<string>, s: Session, k: nat, x: Ref)
    requires Valid(r) && x in r.refs && x !in Sweep(r, candidates, s, k).repo.refs
    ensures exists i | 0 <= i < |Sweep(r, candidates, s, k).attempts| ::
              Deleted(Sweep(r, candidates, s, k).attempts[i], x)
    decreases |candidates|
  {
    hide CloseOne, Valid, OwnContained, ClosedFrom, Grows;
    if candidates != [] {
      var before := s.others(k, r);
      assert Grows(r, before);
      GrowsValid(r, before);
      RefStays(r, before, x);
      CloseKeeps(before, candidates[0], s.primaryPath, s.cwd, s.flags, s.clock(k));
      var c := CloseOne(before, candidates[0], s.primaryPath, s.cwd, s.flags, s.clock(k));
      var attempts := Sweep(r, candidates, s, k).attempts;
      ClosedValid(before, c.repo, candidates[0]);
      if x !in c.repo.refs {
        RefGone(before, c.repo, candidates[0], x);
        assert Deleted(attempts[0], x);
      } else {
        GoneRefsWereContained(c.repo, candidates[1..], s, k + 1, x);
        var rest := Sweep(c.repo, candidates[1..], s, k + 1).attempts;
        var i :| 0 <= i < |rest| && Deleted(rest[i], x);
        assert attempts[i + 1] == rest[i];
      }
    }
  }

  /** The primary clone and every worktree that stood on a protected branch survive a sweep. */
  lemma ProtectedSurvive(r: Repo, s: Session, w: Worktree)
    requires Valid(r) && w in r.worktrees
    requires w == r.worktrees[0] || w.at.Detached? || Protected(w.at.branch)
    ensures HasPath(Sweep(r, Candidates(r.worktrees), s, 0).repo, w.path)
  {
    hide Valid, AppendOnly, Candidates, Sweep, Reachable, Protected;
    CandidatesAre(r, w);
    SweepLosesNothing(r, Candidates(r.worktrees), s, 0);
  }

  // ------------------------------------------------------- the sweep, as it runs

  class Repository {
    var repo: Repo

    constructor (initial: Repo)
      ensures repo == initial
    {
      repo := initial;
    }

    /** Runs a plan in `cwd` until a command fails. */
    method Run(plan: seq<Command>, cwd: string) returns (ok: bool)
      requires Valid(repo)
      modifies this
      ensures Valid(repo) && (repo, ok) == RunPlan(old(repo), cwd, plan)
    {
      hide Valid, ExecuteIn;
      var i := 0;
      ok := true;
      assert plan[0..] == plan;
      while i < |plan|
        invariant 0 <= i <= |plan| && Valid(repo) && ok
        invariant RunPlan(repo, cwd, plan[i..]) == RunPlan(old(repo), cwd, plan)
      {
        var next := ExecuteIn(repo, cwd, plan[i]);
        if next.None? {
          ok := false;
          return;
        }
        InIsExecute(repo, cwd, plan[i]);
        ExecuteKeepsValid(repo, plan[i]);
        repo := next.value;
        i := i + 1;
      }
      assert plan[i..] == [];
    }

    /** Gathers the live state of one worktree, decides, and executes in the directory the script
        was started in unless it is a dry run. */
    method SweepOne(path: string, primaryPath: string, cwd: string, flags: SweepFlags, now: int)
      returns (verdict: Option<Verdict>)
      requires Valid(repo)
      modifies this
      ensures Closed(repo, verdict) == CloseOne(old(repo), path, primaryPath, cwd, flags, now)
      ensures RemovedSafely(Attempt(old(repo), path, verdict, repo), primaryPath, flags.done, now)
    {
      hide Valid, ExecuteIn, ClosedFrom, Observe, CloseVerdict, RemovedSafely;
      AttemptIsSafe(repo, path, primaryPath, cwd, flags, now);
      var i := IndexOf(repo.worktrees, path);
      if i.None? { return None; }
      var input := Observe(repo, repo.worktrees[i.value], primaryPath, flags, now);
      if input.None? { return None; }
      var v := DecideClose(input.value);
      var ok := true;
      if !flags.dryRun {
        ok := Run(ClosePlan(v, input.value), cwd);
      }
      verdict := if ok then Some(v) else None;
    }

    /** The whole sweep; `others` acts before each candidate. */
    method MainSweep(cwd: string, flags: SweepFlags, clock: nat -> int, others: Others)
      returns (attempts: seq<Attempt>, completed: bool)
      requires Valid(repo)
      modifies this
      ensures Swept(repo, attempts, completed) ==
              Sweep(old(repo), Candidates(old(repo).worktrees),
                    Session(old(repo).worktrees[0].path, cwd, flags, clock, others), 0)
      ensures NothingLost(old(repo), repo, Candidates(old(repo).worktrees))
    {
      hide Valid, Grows, CloseOne, ClosedFrom, Candidates, NothingLost, RemovedSafely;
      assert |repo.worktrees| >= 1 by { HasPrimary(repo); }
      var primaryPath := repo.worktrees[0].path;
      var candidates := Candidates(repo.worktrees);
      ghost var s := Session(primaryPath, cwd, flags, clock, others);
      SweepLosesNothing(repo, candidates, s, 0);
      ghost var goal := Sweep(repo, candidates, s, 0);
      attempts, completed := [], true;
      var i := 0;
      assert candidates[0..] == candidates;
      while i < |candidates|
        invariant 0 <= i <= |candidates| && Valid(repo) && completed
        invariant var rest := Sweep(repo, candidates[i..], s, i);
                  goal == Swept(rest.repo, attempts + rest.attempts, rest.completed)
      {
        var before := others(i, repo);
        assert Grows(repo, before);
        GrowsValid(repo, before);
        ghost var from := repo;
        repo := before;
        var verdict := SweepOne(candidates[i], primaryPath, cwd, flags, clock(i));
        SweepStep(from, candidates[i..], s, i);
        var attempt := Attempt(before, candidates[i], verdict, repo);
        ghost var done := attempts;
        attempts := attempts + [attempt];
        if verdict.None? {
          completed := false;
          return;
        }
        assert candidates[i..][1..] == candidates[i + 1..];
        i := i + 1;
        ghost var rest := Sweep(repo, candidates[i..], s, i);
        assert done + ([attempt] + rest.attempts) == attempts + rest.attempts;
      }
      assert candidates[i..] == [];
      SweepNothing(repo, s, i);
    }
  }

  lemma InIsExecute(r: Repo, cwd: string, cmd: Command)
    requires Valid(r) && ExecuteIn(r, cwd, cmd).Some?
    ensures ExecuteIn(r, cwd, cmd) == Execute(r, cmd)
  {
  }

  lemma HasPrimary(r: Repo)
    requires Valid(r)
    ensures |r.worktrees| >= 1
  {
  }

  lemma SweepNothing(r: Repo, s: Session, k: nat)
    requires Valid(r)
    ensures Sweep(r, [], s, k) == Swept(r, [], true)
  {
  }

  lemma SweepStep(r: Repo, candidates: seq<string>, s: Session, k: nat)
    requires Valid(r) && candidates != []
    ensures var before := s.others(k, r);
            && Valid(before)
            && var c := CloseOne(before, candidates[0], s.primaryPath, s.cwd, s.flags, s.clock(k));
            && Valid(c.repo)
            && var attempt := Attempt(before, candidates[0], c.verdict, c.repo);
            Sweep(r, candidates, s, k) ==
            if c.verdict.None? then Swept(c.repo, [attempt], false)
            else
              var rest := Sweep(c.repo, candidates[1..], s, k + 1);
              Swept(rest.repo, [attempt] + rest.attempts, rest.completed)
  {
    hide Grows, CloseOne, ClosedFrom, Valid;
    assert Grows(r, s.others(k, r));
    GrowsValid(r, s.others(k, r));
    CloseKeeps(s.others(k, r), candidates[0], s.primaryPath, s.cwd, s.flags, s.clock(k));
    ClosedValid(s.others(k, r),
                CloseOne(s.others(k, r), candidates[0], s.primaryPath, s.cwd, s.flags, s.clock(k)).repo,
                candidates[0]);
  }

  // ----------------------------------------------------- after a completed sweep

  /** What sweeping alone does to the repository: it only takes away, and what a remaining
      worktree's own branch rests on stays. */
  ghost predicate Shrunk(r: Repo, after: Repo)
    requires Valid(r)
  {
    && Valid(after) && after.parents == r.parents && after.worktrees[0] == r.worktrees[0]
    && (forall w | w in after.worktrees :: w in r.worktrees)
    && (forall x | x in after.refs :: x in r.refs && after.refs[x] == r.refs[x])
    && (forall x | x in r.refs && x.Remote? :: x in after.refs)
    && (forall w | w in after.worktrees && w.at.On? && Head(w.at.branch) in r.refs :: Head(w.at.branch) in after.refs)
    && (forall b | b in after.upstream :: b in r.upstream && after.upstream[b] == r.upstream[b])
    && (forall w | w in after.worktrees && w.at.On? && w.at.branch in r.upstream :: w.at.branch in after.upstream)
  }

  lemma ClosingShrinks(r: Repo, after: Repo, path: string)
    requires Valid(r) && ClosedFrom(r, after, path)
    ensures Shrunk(r, after)
  {
    hide Reachable, Valid;
  }

  lemma ShrunkThen(a: Repo, b: Repo, c: Repo)
    requires Valid(a) && Shrunk(a, b) && Shrunk(b, c)
    ensures Shrunk(a, c)
  {
    hide Valid;
  }

  lemma {:induction false} SweepShrinks(r: Repo, candidates: seq<string>, s: Session, k: nat)
    requires Valid(r) && s.others == NOBODY
    ensures Shrunk(r, Sweep(r, candidates, s, k).repo)
    decreases |candidates|
  {
    hide CloseOne, ClosedFrom, Shrunk, Valid, AppendOnly;
    if candidates == [] {
      SweepNothing(r, s, k);
      UnchangedIsClosed(r, "");
      ClosingShrinks(r, r, "");
    } else {
      SweepStep(r, candidates, s, k);
      CloseKeeps(r, candidates[0], s.primaryPath, s.cwd, s.flags, s.clock(k));
      var c := CloseOne(r, candidates[0], s.primaryPath, s.cwd, s.flags, s.clock(k));
      ClosingShrinks(r, c.repo, candidates[0]);
      if c.verdict.Some? {
        SweepShrinks(c.repo, candidates[1..], s, k + 1);
        ShrunkThen(r, c.repo, Sweep(c.repo, candidates[1..], s, k + 1).repo);
      }
    }
  }

  lemma PathIsWorktree(r: Repo, w: Worktree)
    requires Valid(r) && w in r.worktrees
    ensures HasPath(r, w.path) && IndexOf(r.worktrees, w.path).Some?
    ensures r.worktrees[IndexOf(r.worktrees, w.path).value] == w
  {
    hide Acyclic;
    var k :| 0 <= k < |r.worktrees| && r.worktrees[k] == w;
    var i := IndexOf(r.worktrees, w.path);
    assert i.Some? ==> i.value == k;
  }

  // ---------------------------------------------------------- what a dry run shows

  /** The branch of the worktree at `path`, and the ref it is configured to follow. */
  function BranchAt(r: Repo, path: string): Option<Ref> {
    if HasPath(r, path) && WorktreeAt(r, path).at.On? then Some(Head(WorktreeAt(r, path).at.branch)) else None
  }

  function FollowedAt(r: Repo, path: string): Option<Ref> {
    if HasPath(r, path) && WorktreeAt(r, path).at.On? && WorktreeAt(r, path).at.branch in r.upstream
    then Some(r.upstream[WorktreeAt(r, path).at.branch])
    else None
  }

  /** What the worktree at `path` follows in `d` is still there in `r`. */
  predicate Stands(d: Repo, r: Repo, path: string) {
    var x := FollowedAt(d, path);
    x.Some? && x.value in d.refs ==> x.value in r.refs
  }

  lemma SameObservation(d: Repo, r: Repo, w: Worktree, primaryPath: string, flags: Flags, now: int)
    requires Valid(d) && Shrunk(d, r) && w in d.worktrees && w in r.worktrees
    requires HasPath(d, w.path) && WorktreeAt(d, w.path) == w && Stands(d, r, w.path)
    ensures Observe(r, w, primaryPath, flags, now) == Observe(d, w, primaryPath, flags, now)
  {
    hide Ancestors, Valid, IdleHours;
  }

  /** A worktree whose upstream is gone gets another verdict than before, whatever it was. */
  lemma UpstreamGoneShows(d: Repo, r: Repo, w: Worktree, primaryPath: string, flags: Flags, now: int)
    requires Valid(d) && Shrunk(d, r) && w in d.worktrees && w in r.worktrees && w.path != primaryPath
    requires HasPath(d, w.path) && WorktreeAt(d, w.path) == w && !Stands(d, r, w.path)
    requires Observe(d, w, primaryPath, flags, now).Some? && Observe(r, w, primaryPath, flags, now).Some?
    ensures CloseVerdict(Observe(r, w, primaryPath, flags, now).value)
            != CloseVerdict(Observe(d, w, primaryPath, flags, now).value)
  {
    hide Ancestors, Valid, IdleHours, CloseVerdict, Contained, AheadOf;
    var before, after := Observe(d, w, primaryPath, flags, now).value, Observe(r, w, primaryPath, flags, now).value;
    VerdictMeans(before);
    VerdictMeans(after);
    assert Refused(after, NoUpstream) && !Refused(before, NoUpstream);
  }

  lemma ReadableStays(d: Repo, r: Repo, w: Worktree, primaryPath: string, flags: Flags, now: int)
    requires Valid(d) && Shrunk(d, r) && w in d.worktrees && w in r.worktrees
    ensures Observe(r, w, primaryPath, flags, now).Some? <==> Observe(d, w, primaryPath, flags, now).Some?
  {
    hide Ancestors, Valid, IdleHours, Contained, AheadOf;
  }

  lemma FlagsDoNotMatter(r: Repo, w: Worktree, primaryPath: string, flags: Flags, now: int)
    requires Valid(r) && w in r.worktrees
    ensures Observe(r, w, primaryPath, flags.(dryRun := true), now)
            == Observe(r, w, primaryPath, flags.(dryRun := false), now)
  {
    hide Ancestors, Valid, IdleHours;
  }

  /** What `decideClose` says of the worktree at `path`; None where it cannot be asked. */
  function Judged(r: Repo, path: string, primaryPath: string, flags: Flags, now: int): Option<Verdict>
    requires Valid(r)
  {
    if !HasPath(r, path) then None
    else
      var input := Observe(r, WorktreeAt(r, path), primaryPath, flags, now);
      if input.None? then None else Some(CloseVerdict(input.value))
  }

  lemma DryVerdict(r: Repo, path: string, primaryPath: string, cwd: string, flags: Flags, now: int)
    requires Valid(r) && flags.dryRun
    ensures CloseOne(r, path, primaryPath, cwd, flags, now) == Closed(r, Judged(r, path, primaryPath, flags, now))
  {
    hide CloseVerdict, Observe, Valid;
  }

  lemma LiveVerdict(r: Repo, path: string, cwd: string, flags: SweepFlags, now: int)
    requires Valid(r) && HasPath(r, cwd) && HasPath(r, path) && !flags.dryRun
    ensures var v, c := Judged(r, path, r.worktrees[0].path, flags, now),
                        CloseOne(r, path, r.worktrees[0].path, cwd, flags, now);
            && (v.None? || v.value.Refuse? ==> c == Closed(r, v))
            && (v.Some? && !v.value.Refuse? && (WorktreeAt(r, path).locked || cwd == path) ==> c.verdict.None?)
            && (v.Some? && !v.value.Refuse? && !WorktreeAt(r, path).locked && cwd != path ==>
                  && c.verdict == v && BranchAt(r, path).Some? && BranchAt(r, path).value in r.refs
                  && c.repo.refs == r.refs - {BranchAt(r, path).value}
                  && forall p :: HasPath(c.repo, p) <==> p != path && HasPath(r, p))
  {
    hide CloseVerdict, Observe, Acyclic, RunPlan, ClosedFrom;
    var primaryPath := r.worktrees[0].path;
    if Cleared(r, path, primaryPath, flags, now) {
      ClearedCloseHappens(r, path, cwd, flags, now);
      ClearedVerdict(Observe(r, WorktreeAt(r, path), primaryPath, flags, now).value);
    } else {
      NotClearedIsJudged(r, path, primaryPath, cwd, flags, now);
    }
  }

  lemma NotClearedIsJudged(r: Repo, path: string, primaryPath: string, cwd: string, flags: Flags, now: int)
    requires Valid(r) && HasPath(r, path) && !Cleared(r, path, primaryPath, flags, now)
    ensures CloseOne(r, path, primaryPath, cwd, flags, now) == Closed(r, Judged(r, path, primaryPath, flags, now))
  {
    hide CloseVerdict, Observe, Valid;
  }

  /** Where the dry verdict on one candidate is the live one: exactly where there is none, or what
      it follows still stands and, if it is cleared, it is neither locked nor the run's own directory. */
  lemma SameVerdictIff(d: Repo, r: Repo, path: string, cwd: string, flags: SweepFlags, now: int)
    requires Valid(d) && Shrunk(d, r) && HasPath(r, path) && HasPath(r, cwd)
    requires path != d.worktrees[0].path && !flags.dryRun
    ensures HasPath(d, path) && BranchAt(d, path) == BranchAt(r, path)
    ensures var dry := Judged(d, path, d.worktrees[0].path, flags.(dryRun := true), now);
            var live := CloseOne(r, path, d.worktrees[0].path, cwd, flags, now).verdict;
            dry == live <==>
              dry.None? || (Stands(d, r, path)
                            && (!dry.value.Refuse? ==> !WorktreeAt(d, path).locked && path != cwd))
  {
    hide CloseVerdict, Observe, Acyclic, CloseOne, Stands;
    var primaryPath := d.worktrees[0].path;
    var w := WorktreeAt(r, path);
    PathIsWorktree(r, w);
    ShrunkHas(d, r, w);
    PathIsWorktree(d, w);
    FlagsDoNotMatter(d, w, primaryPath, flags, now);
    ReadableStays(d, r, w, primaryPath, flags, now);
    LiveVerdict(r, path, cwd, flags, now);
    if Stands(d, r, path) {
      SameObservation(d, r, w, primaryPath, flags, now);
    } else if Observe(d, w, primaryPath, flags, now).Some? {
      UpstreamGoneShows(d, r, w, primaryPath, flags, now);
    }
  }

  lemma ShrunkHas(d: Repo, r: Repo, w: Worktree)
    requires Valid(d) && Shrunk(d, r) && w in r.worktrees
    ensures w in d.worktrees
  {
  }

  ghost predicate Announced(a: Attempt) {
    a.verdict.Some? && !a.verdict.value.Refuse?
  }

  ghost predicate SameStory(first: seq<Attempt>, second: seq<Attempt>)
    requires |first| == |second|
  {
    forall i | 0 <= i < |first| :: first[i].path == second[i].path && first[i].verdict == second[i].verdict
  }

  /** A dry run and a real run tell the same story: the same candidates with the same verdicts. */
  ghost predicate Predicts(dry: Swept, live: Swept) {
    |dry.attempts| == |live.attempts| && SameStory(dry.attempts, live.attempts) && dry.completed == live.completed
  }

  /** No removal the dry run announced is of a locked worktree or of the one the script runs in. */
  ghost predicate Removable(d: Repo, cwd: string, attempts: seq<Attempt>) {
    forall i | 0 <= i < |attempts| && Announced(attempts[i]) ::
      HasPath(d, attempts[i].path) && !WorktreeAt(d, attempts[i].path).locked && attempts[i].path != cwd
  }

  /** No candidate the dry run judged follows the local branch at `path`. */
  ghost predicate Independent(d: Repo, path: string, attempts: seq<Attempt>) {
    forall j | 0 <= j < |attempts| && attempts[j].verdict.Some? ::
      FollowedAt(d, attempts[j].path).Some? ==> FollowedAt(d, attempts[j].path) != BranchAt(d, path)
  }

  /** No candidate follows the local branch of an earlier one whose removal was announced. */
  ghost predicate NoneStacked(d: Repo, attempts: seq<Attempt>) {
    forall i | 0 <= i < |attempts| && Announced(attempts[i]) ::
      Independent(d, attempts[i].path, attempts[i + 1..])
  }

  ghost predicate AllStand(d: Repo, r: Repo, attempts: seq<Attempt>) {
    forall j | 0 <= j < |attempts| && attempts[j].verdict.Some? :: Stands(d, r, attempts[j].path)
  }

  predicate DistinctPaths(candidates: seq<string>) {
    forall i, j | 0 <= i < j < |candidates| :: candidates[i] != candidates[j]
  }

  function Dry(s: Session): Session {
    s.(flags := s.flags.(dryRun := true))
  }

  lemma SameStoryCons(first: seq<Attempt>, second: seq<Attempt>)
    requires |first| == |second| >= 1
    ensures SameStory(first, second) <==>
              first[0].path == second[0].path && first[0].verdict == second[0].verdict
              && SameStory(first[1..], second[1..])
  {
    if SameStory(first[1..], second[1..]) {
      forall i | 1 <= i < |first|
        ensures first[i].path == second[i].path && first[i].verdict == second[i].verdict
      {
        assert first[i] == first[1..][i - 1] && second[i] == second[1..][i - 1];
      }
    }
  }

  lemma PredictsCons(a: Attempt, l: Attempt, dry: Swept, live: Swept)
    ensures Predicts(Swept(dry.repo, [a] + dry.attempts, dry.completed),
                     Swept(live.repo, [l] + live.attempts, live.completed)) <==>
            a.path == l.path && a.verdict == l.verdict && Predicts(dry, live)
  {
    var first, second := [a] + dry.attempts, [l] + live.attempts;
    assert first[0] == a && second[0] == l && first[1..] == dry.attempts && second[1..] == live.attempts;
    assert |first| == |second| <==> |dry.attempts| == |live.attempts|;
    if |first| == |second| { SameStoryCons(first, second); }
  }

  lemma RemovableCons(d: Repo, cwd: string, a: Attempt, rest: seq<Attempt>)
    ensures Removable(d, cwd, [a] + rest) <==> Removable(d, cwd, [a]) && Removable(d, cwd, rest)
  {
    hide Announced, HasPath;
    assert forall i | 0 <= i < |rest| :: rest[i] == ([a] + rest)[i + 1];
    assert ([a] + rest)[0] == [a][0];
  }

  lemma NoneStackedCons(d: Repo, a: Attempt, rest: seq<Attempt>)
    ensures NoneStacked(d, [a] + rest) <==> (Announced(a) ==> Independent(d, a.path, rest)) && NoneStacked(d, rest)
  {
    hide Announced, Independent;
    var all := [a] + rest;
    assert all[1..] == rest && all[0] == a;
    forall i | 0 <= i < |rest| ensures rest[i] == all[i + 1] && rest[i + 1..] == all[i + 2..] {
    }
    if NoneStacked(d, all) {
      forall i | 0 <= i < |rest| && Announced(rest[i]) ensures Independent(d, rest[i].path, rest[i + 1..]) {
        assert Announced(all[i + 1]);
      }
    }
    if (Announced(a) ==> Independent(d, a.path, rest)) && NoneStacked(d, rest) {
      forall i | 0 <= i < |all| && Announced(all[i]) ensures Independent(d, all[i].path, all[i + 1..]) {
        if i > 0 { assert Announced(rest[i - 1]); }
      }
    }
  }

  lemma AllStandCons(d: Repo, r: Repo, a: Attempt, rest: seq<Attempt>)
    ensures AllStand(d, r, [a] + rest) <==> AllStand(d, r, [a]) && AllStand(d, r, rest)
  {
    hide Stands;
    assert forall i | 0 <= i < |rest| :: rest[i] == ([a] + rest)[i + 1];
    assert ([a] + rest)[0] == [a][0];
  }

  lemma AllStandAfter(d: Repo, r: Repo, after: Repo, path: string, attempts: seq<Attempt>)
    requires BranchAt(d, path).Some? && BranchAt(d, path).value in d.refs
    requires after.refs == r.refs - {BranchAt(d, path).value}
    ensures AllStand(d, after, attempts) <==> AllStand(d, r, attempts) && Independent(d, path, attempts)
  {
    hide FollowedAt, BranchAt;
    if AllStand(d, after, attempts) {
      forall j | 0 <= j < |attempts| && attempts[j].verdict.Some?
        ensures Stands(d, r, attempts[j].path)
        ensures FollowedAt(d, attempts[j].path).Some? ==> FollowedAt(d, attempts[j].path) != BranchAt(d, path)
      {
        assert Stands(d, after, attempts[j].path);
      }
    }
    if AllStand(d, r, attempts) && Independent(d, path, attempts) {
      forall j | 0 <= j < |attempts| && attempts[j].verdict.Some? ensures Stands(d, after, attempts[j].path) {
        assert Stands(d, r, attempts[j].path);
      }
    }
  }

  lemma NoAttempts(d: Repo, r: Repo, cwd: string, dry: Swept, live: Swept)
    requires dry.attempts == [] && live.attempts == [] && dry.completed == live.completed
    ensures Predicts(dry, live) && Clear(d, r, cwd, [])
  {
  }

  lemma OneAttempt(d: Repo, r: Repo, cwd: string, a: Attempt)
    requires HasPath(d, a.path)
    ensures Removable(d, cwd, [a]) <==> (Announced(a) ==> !WorktreeAt(d, a.path).locked && a.path != cwd)
    ensures AllStand(d, r, [a]) <==> (a.verdict.Some? ==> Stands(d, r, a.path))
  {
    hide Stands, HasPath;
    assert [a][0] == a;
  }

  /** What is left for the next candidate after one that both runs judge alike. */
  lemma AfterOne(d: Repo, r: Repo, path: string, cwd: string, flags: SweepFlags, now: int)
    requires Valid(d) && Shrunk(d, r) && HasPath(r, path) && HasPath(r, cwd) && !flags.dryRun
    requires path != d.worktrees[0].path
    requires var v := Judged(d, path, d.worktrees[0].path, flags.(dryRun := true), now);
             v.Some? && v == CloseOne(r, path, d.worktrees[0].path, cwd, flags, now).verdict
    ensures var v, c := Judged(d, path, d.worktrees[0].path, flags.(dryRun := true), now).value,
                        CloseOne(r, path, d.worktrees[0].path, cwd, flags, now);
            && Shrunk(d, c.repo) && HasPath(c.repo, cwd)
            && (forall p | HasPath(r, p) && p != path :: HasPath(c.repo, p))
            && (v.Refuse? ==> c.repo == r)
            && (!v.Refuse? ==>
                  && BranchAt(d, path).Some? && BranchAt(d, path).value in d.refs
                  && c.repo.refs == r.refs - {BranchAt(d, path).value})
  {
    hide CloseOne, ClosedFrom, Acyclic, HasPath, Judged, BranchAt, Stands;
    LiveVerdict(r, path, cwd, flags, now);
    SameVerdictIff(d, r, path, cwd, flags, now);
    CloseKeeps(r, path, d.worktrees[0].path, cwd, flags, now);
    var c := CloseOne(r, path, d.worktrees[0].path, cwd, flags, now);
    ClosingShrinks(r, c.repo, path);
    ShrunkThen(d, r, c.repo);
  }

  /** What stands in the way of the two runs from here on. */
  ghost predicate Clear(d: Repo, r: Repo, cwd: string, attempts: seq<Attempt>) {
    Removable(d, cwd, attempts) && NoneStacked(d, attempts) && AllStand(d, r, attempts)
  }

  lemma ClearCons(d: Repo, r: Repo, cwd: string, a: Attempt, rest: seq<Attempt>)
    requires HasPath(d, a.path)
    ensures Clear(d, r, cwd, [a] + rest) <==>
              && (Announced(a) ==> !WorktreeAt(d, a.path).locked && a.path != cwd)
              && (a.verdict.Some? ==> Stands(d, r, a.path))
              && (Announced(a) ==> Independent(d, a.path, rest))
              && Clear(d, r, cwd, rest)
  {
    hide Removable, NoneStacked, AllStand, Announced, Independent, Stands, HasPath;
    OneAttempt(d, r, cwd, a);
    RemovableCons(d, cwd, a, rest);
    NoneStackedCons(d, a, rest);
    AllStandCons(d, r, a, rest);
  }

  /** The rest of a run after its first candidate. */
  function After(candidates: seq<string>, s: Session, k: nat, c: Closed): Swept
    requires Valid(c.repo) && candidates != []
  {
    if c.verdict.None? then Swept(c.repo, [], false) else Sweep(c.repo, candidates[1..], s, k + 1)
  }

  lemma SweepCons(r: Repo, candidates: seq<string>, s: Session, k: nat)
    requires Valid(r) && candidates != [] && s.others == NOBODY
    ensures var c := CloseOne(r, candidates[0], s.primaryPath, s.cwd, s.flags, s.clock(k));
            && Valid(c.repo)
            && var rest := After(candidates, s, k, c);
            Sweep(r, candidates, s, k) ==
            Swept(rest.repo, [Attempt(r, candidates[0], c.verdict, c.repo)] + rest.attempts, rest.completed)
  {
    hide CloseOne, Valid, Sweep, AppendOnly;
    SweepStep(r, candidates, s, k);
    var c := CloseOne(r, candidates[0], s.primaryPath, s.cwd, s.flags, s.clock(k));
    var a := Attempt(r, candidates[0], c.verdict, c.repo);
    assert [a] + [] == [a];
  }

  lemma ClearAfter(d: Repo, r: Repo, after: Repo, cwd: string, path: string, attempts: seq<Attempt>)
    requires BranchAt(d, path).Some? && BranchAt(d, path).value in d.refs
    requires after.refs == r.refs - {BranchAt(d, path).value}
    ensures Clear(d, after, cwd, attempts) <==> Clear(d, r, cwd, attempts) && Independent(d, path, attempts)
  {
    hide Removable, NoneStacked, AllStand, Independent, BranchAt;
    AllStandAfter(d, r, after, path, attempts);
  }

  /** One candidate in both runs. */
  lemma DryRunHead(d: Repo, r: Repo, candidates: seq<string>, s: Session, k: nat, c: Closed, v: Option<Verdict>)
    requires Valid(d) && Shrunk(d, r) && s.others == NOBODY && s.primaryPath == d.worktrees[0].path
    requires !s.flags.dryRun && HasPath(r, s.cwd)
    requires candidates != [] && HasPath(r, candidates[0]) && candidates[0] != s.primaryPath
    requires Valid(r) && c == CloseOne(r, candidates[0], s.primaryPath, s.cwd, s.flags, s.clock(k))
    requires v == Judged(d, candidates[0], s.primaryPath, Dry(s).flags, s.clock(k))
    ensures Valid(c.repo) && (v.None? ==> c.verdict.None?)
    ensures var dry, live := After(candidates, Dry(s), k, Closed(d, v)), After(candidates, s, k, c);
            && (Predicts(Sweep(d, candidates, Dry(s), k), Sweep(r, candidates, s, k)) <==>
                  v == c.verdict && Predicts(dry, live))
            && (Clear(d, r, s.cwd, Sweep(d, candidates, Dry(s), k).attempts) <==>
                  && v == c.verdict
                  && (v.Some? && !v.value.Refuse? ==> Independent(d, candidates[0], dry.attempts))
                  && Clear(d, r, s.cwd, dry.attempts))
  {
    hide CloseOne, ClosedFrom, Acyclic, Shrunk, AppendOnly, HasPath, Clear, Judged, Independent, Stands, BranchAt,
         Predicts, Sweep;
    var path, now := candidates[0], s.clock(k);
    SweepCons(d, candidates, Dry(s), k);
    SweepCons(r, candidates, s, k);
    DryVerdict(d, path, s.primaryPath, s.cwd, Dry(s).flags, now);
    SameVerdictIff(d, r, path, s.cwd, s.flags, now);
    var a, l := Attempt(d, path, v, d), Attempt(r, path, c.verdict, c.repo);
    var dry, live := After(candidates, Dry(s), k, Closed(d, v)), After(candidates, s, k, c);
    PredictsCons(a, l, dry, live);
    ClearCons(d, r, s.cwd, a, dry.attempts);
  }

  lemma RestOf(candidates: seq<string>)
    requires candidates != [] && DistinctPaths(candidates)
    ensures DistinctPaths(candidates[1..])
    ensures forall p | p in candidates[1..] :: p in candidates && p != candidates[0]
  {
    var rest := candidates[1..];
    forall p | p in rest ensures p in candidates && p != candidates[0] {
      var i :| 0 <= i < |rest| && rest[i] == p;
      assert candidates[i + 1] == p;
    }
  }

  /** Both runs from the middle on: `d` as the dry run sees it throughout, `r` what the real run
      has left of it. */
  lemma {:induction false} DryRunFrom(d: Repo, r: Repo, candidates: seq<string>, s: Session, k: nat)
    requires Valid(d) && Shrunk(d, r) && s.others == NOBODY && s.primaryPath == d.worktrees[0].path
    requires !s.flags.dryRun && HasPath(r, s.cwd) && DistinctPaths(candidates)
    requires forall p | p in candidates :: HasPath(r, p) && p != s.primaryPath
    ensures Valid(r)
    ensures var dry, live := Sweep(d, candidates, Dry(s), k), Sweep(r, candidates, s, k);
            Predicts(dry, live) <==> Clear(d, r, s.cwd, dry.attempts)
    decreases |candidates|
  {
    ShrunkValid(d, r);
    HasPrimary(d);
    hide CloseOne, ClosedFrom, Valid, Shrunk, AppendOnly, HasPath, Clear, Judged, Independent, Stands, BranchAt,
         Predicts, Sweep, DistinctPaths;
    if candidates == [] {
      SweepNothing(d, Dry(s), k);
      SweepNothing(r, s, k);
      NoAttempts(d, r, s.cwd, Swept(d, [], true), Swept(r, [], true));
    } else {
      var path, now := candidates[0], s.clock(k);
      var v := Judged(d, path, s.primaryPath, Dry(s).flags, now);
      var c := CloseOne(r, path, s.primaryPath, s.cwd, s.flags, now);
      DryRunHead(d, r, candidates, s, k, c, v);
      var dry, live := After(candidates, Dry(s), k, Closed(d, v)), After(candidates, s, k, c);
      if v.None? {
        NoAttempts(d, r, s.cwd, dry, live);
      } else if v == c.verdict {
        AfterOne(d, r, path, s.cwd, s.flags, now);
        RestOf(candidates);
        DryRunFrom(d, c.repo, candidates[1..], s, k + 1);
        if !v.value.Refuse? { ClearAfter(d, r, c.repo, s.cwd, path, dry.attempts); }
      }
    }
  }

  lemma ShrunkValid(d: Repo, r: Repo)
    requires Valid(d) && Shrunk(d, r)
    ensures Valid(r)
  {
  }

  predicate DistinctEntries(es: seq<Entry>) {
    forall i, j | 0 <= i < j < |es| :: es[i].path != es[j].path
  }

  lemma {:induction false} UnblockedDistinct(entries: seq<Entry>, blocked: set<string>)
    requires DistinctEntries(entries)
    ensures DistinctPaths(Unblocked(entries, blocked))
  {
    if entries != [] {
      var init := entries[..|entries| - 1];
      UnblockedDistinct(init, blocked);
      UnblockedAre(init, blocked);
      forall p | p in Unblocked(init, blocked) ensures p != entries[|entries| - 1].path {
        var i :| 0 <= i < |init| && init[i].path == p;
      }
    }
  }

  lemma {:induction false} EntriesDistinct(ws: seq<Worktree>)
    requires forall i, j | 0 <= i < j < |ws| :: ws[i].path != ws[j].path
    requires forall i | 0 <= i < |ws| :: ws[i].at.On? ==> ws[i].at.branch != ""
    ensures DistinctEntries(WithBranch(ws))
  {
    if ws != [] {
      var init := ws[..|ws| - 1];
      EntriesDistinct(init);
      EntriesAre(init);
      var es := WithBranch(init);
      forall i | 0 <= i < |es| ensures es[i].path != ws[|ws| - 1].path {
        assert es[i] in es;
        var k :| 0 <= k < |init| && OnBranch(init[k], es[i]);
        assert init[k] == ws[k];
      }
    }
  }

  lemma CandidatesStand(r: Repo)
    requires Valid(r)
    ensures DistinctPaths(Candidates(r.worktrees))
    ensures forall p | p in Candidates(r.worktrees) :: HasPath(r, p) && p != r.worktrees[0].path
  {
    hide PROTECTED_INTEGRATION_BRANCHES, WithBranch, ProtectedIntegrationPaths, Unblocked, Acyclic;
    var es := WithBranch(r.worktrees);
    var blocked := set p | p in ProtectedIntegrationPaths(es);
    EntriesAre(r.worktrees);
    EntriesDistinct(r.worktrees);
    UnblockedAre(es, if es == [] then blocked else blocked + {es[0].path});
    UnblockedDistinct(es, if es == [] then blocked else blocked + {es[0].path});
    forall p | p in Candidates(r.worktrees) ensures HasPath(r, p) && p != r.worktrees[0].path {
      var i :| 0 <= i < |es| && es[i].path == p;
      assert es[i] in es;
      var k :| 0 <= k < |r.worktrees| && OnBranch(r.worktrees[k], es[i]);
      CandidatesAre(r, r.worktrees[k]);
    }
  }

  /** A dry run tells exactly what the real run would do if, and only if, no removal it announces
      is of a locked worktree or of the one the script runs in, and no candidate it judges follows
      the local branch of an earlier one whose removal it announces. */
  lemma DryRunPredicts(d: Repo, cwd: string, flags: SweepFlags, clock: nat -> int)
    requires Valid(d) && HasPath(d, cwd) && !flags.dryRun
    ensures var s := Session(d.worktrees[0].path, cwd, flags, clock, NOBODY);
            var dry := Sweep(d, Candidates(d.worktrees), Dry(s), 0);
            Predicts(dry, Sweep(d, Candidates(d.worktrees), s, 0)) <==>
            Removable(d, cwd, dry.attempts) && NoneStacked(d, dry.attempts)
  {
    hide Sweep, AppendOnly, HasPath, Removable, NoneStacked, Predicts, Candidates, Acyclic;
    var s := Session(d.worktrees[0].path, cwd, flags, clock, NOBODY);
    CandidatesStand(d);
    UnchangedIsClosed(d, "");
    ClosingShrinks(d, d, "");
    DryRunFrom(d, d, Candidates(d.worktrees), s, 0);
  }

  // ------------------------------------------- when others act inside one close

  predicate Deletes(v: Verdict, i: CloseInput, x: Ref) {
    v.Remove? && x == Head(i.branch)
  }

  predicate Removes(v: Verdict, i: CloseInput, w: Worktree) {
    !v.Refuse? && w.path == i.path
  }

  /** Something that the plan for `v` leaves alone leads to `c`. */
  ghost predicate LedToElsewhere(r: Repo, v: Verdict, i: CloseInput, c: Commit)
    requires Valid(r)
  {
    || (exists x | x in r.refs && !Deletes(v, i, x) :: c in Ancestors(r.parents, r.refs[x]))
    || (exists w | w in r.worktrees && !Removes(v, i, w) ::
          w.at.Detached? && w.at.commit < |r.parents| && c in Ancestors(r.parents, w.at.commit))
  }

  /** What the plan takes away: the tip of the branch it deletes, the commit of a worktree that is
      detached by now. */
  ghost predicate Taken(r: Repo, v: Verdict, i: CloseInput, c: Commit) {
    || (exists x | x in r.refs && Deletes(v, i, x) :: r.refs[x] == c)
    || (exists w | w in r.worktrees && Removes(v, i, w) :: w.at == Detached(c))
  }

  lemma PlanEffect(r: Repo, cwd: string, v: Verdict, i: CloseInput)
    requires Valid(r) && RunPlan(r, cwd, ClosePlan(v, i)).1
    ensures var after := RunPlan(r, cwd, ClosePlan(v, i)).0;
            && after.parents == r.parents
            && (forall x :: x in after.refs <==> x in r.refs && !Deletes(v, i, x))
            && (forall x | x in after.refs :: after.refs[x] == r.refs[x])
            && (forall w :: w in after.worktrees <==> w in r.worktrees && !Removes(v, i, w))
  {
    var plan := ClosePlan(v, i);
    hide Valid, HasPath, RunPlan;
    if plan == [] {
      NothingPlanned(r, cwd);
    } else {
      FirstSucceeds(r, cwd, plan);
      WithoutKeeps(r.worktrees, i.path);
      if |plan| == 1 { OneCommand(r, cwd, plan); } else { TwoCommands(r, cwd, plan); }
    }
  }

  lemma NothingPlanned(r: Repo, cwd: string)
    requires Valid(r)
    ensures RunPlan(r, cwd, []) == (r, true)
  {
    hide Valid;
  }

  lemma FirstSucceeds(r: Repo, cwd: string, plan: seq<Command>)
    requires Valid(r) && plan != [] && RunPlan(r, cwd, plan).1
    ensures ExecuteIn(r, cwd, plan[0]).Some?
  {
    hide Valid, ExecuteIn;
  }

  lemma WorktreeAmong(r: Repo, w: Worktree)
    requires Valid(r) && w in r.worktrees && w.at.Detached?
    ensures w.at.commit < |r.parents|
    ensures forall c | c in Ancestors(r.parents, w.at.commit) :: Reachable(r, c)
  {
    hide Ancestors;
    var k :| 0 <= k < |r.worktrees| && r.worktrees[k] == w;
  }

  lemma LeftReachable(r: Repo, after: Repo, v: Verdict, i: CloseInput, c: Commit)
    requires Valid(r) && Valid(after) && after.parents == r.parents
    requires forall x :: x in after.refs <==> x in r.refs && !Deletes(v, i, x)
    requires forall x | x in after.refs :: after.refs[x] == r.refs[x]
    requires forall w :: w in after.worktrees <==> w in r.worktrees && !Removes(v, i, w)
    ensures Reachable(after, c) <==> LedToElsewhere(r, v, i, c)
  {
    hide Acyclic, Ancestors, Deletes, Removes;
    if Reachable(after, c) {
      if !exists x | x in after.refs :: c in Ancestors(after.parents, after.refs[x]) {
        var k :| 0 <= k < |after.worktrees| && after.worktrees[k].at.Detached?
                 && c in Ancestors(after.parents, after.worktrees[k].at.commit);
        assert after.worktrees[k] in after.worktrees;
      }
    }
    if && LedToElsewhere(r, v, i, c)
       && !exists x | x in r.refs && !Deletes(v, i, x) :: c in Ancestors(r.parents, r.refs[x]) {
      var w :| w in r.worktrees && !Removes(v, i, w) && w.at.Detached? && w.at.commit < |r.parents|
               && c in Ancestors(r.parents, w.at.commit);
      WorktreeAmong(after, w);
    }
  }

  lemma TakenIsReachable(r: Repo, v: Verdict, i: CloseInput, t: Commit)
    requires Valid(r) && Taken(r, v, i, t)
    ensures t < |r.parents| && Reachable(r, t)
  {
    hide Acyclic;
    if w :| w in r.worktrees && Removes(v, i, w) && w.at == Detached(t) { WorktreeAmong(r, w); }
  }

  lemma ElsewhereIsClosed(r: Repo, v: Verdict, i: CloseInput, t: Commit, c: Commit)
    requires Valid(r) && LedToElsewhere(r, v, i, t) && t < |r.parents| && c in Ancestors(r.parents, t)
    ensures LedToElsewhere(r, v, i, c)
  {
    hide Acyclic, Ancestors, Deletes, Removes;
    if x :| x in r.refs && !Deletes(v, i, x) && t in Ancestors(r.parents, r.refs[x]) {
      AncestorsAreOlder(r.parents, r.refs[x], t);
    } else {
      var w :| w in r.worktrees && !Removes(v, i, w) && w.at.Detached? && w.at.commit < |r.parents|
               && t in Ancestors(r.parents, w.at.commit);
      AncestorsAreOlder(r.parents, w.at.commit, t);
    }
  }

  /** Whatever `r` has become between the verdict and a plan that succeeds, nothing is lost exactly
      when something else leads to each tip the plan takes away. */
  lemma LateWorkSurvivesIff(r: Repo, cwd: string, v: Verdict, i: CloseInput)
    requires Valid(r) && RunPlan(r, cwd, ClosePlan(v, i)).1
    ensures var after := RunPlan(r, cwd, ClosePlan(v, i)).0;
            (forall c: Commit | Reachable(r, c) :: Reachable(after, c)) <==>
            (forall t: Commit | Taken(r, v, i, t) :: LedToElsewhere(r, v, i, t))
  {
    hide Ancestors, Acyclic, RunPlan, ClosePlan, Deletes, Removes, LedToElsewhere, Taken, Reachable;
    var after := RunPlan(r, cwd, ClosePlan(v, i)).0;
    PlanEffect(r, cwd, v, i);
    forall c ensures Reachable(after, c) <==> LedToElsewhere(r, v, i, c) {
      LeftReachable(r, after, v, i, c);
    }
    if forall c | Reachable(r, c) :: Reachable(after, c) {
      forall t: Commit | Taken(r, v, i, t) ensures LedToElsewhere(r, v, i, t) {
        TakenIsReachable(r, v, i, t);
      }
    }
    if forall t: Commit | Taken(r, v, i, t) :: LedToElsewhere(r, v, i, t) {
      forall c | Reachable(r, c) ensures LedToElsewhere(r, v, i, c) {
        ReachableFrom(r, v, i, c);
      }
    }
  }

  lemma ReachableFrom(r: Repo, v: Verdict, i: CloseInput, c: Commit)
    requires Valid(r) && Reachable(r, c)
    requires forall t: Commit | Taken(r, v, i, t) :: LedToElsewhere(r, v, i, t)
    ensures LedToElsewhere(r, v, i, c)
  {
    hide Ancestors, Acyclic, Deletes, Removes;
    if x :| x in r.refs && c in Ancestors(r.parents, r.refs[x]) {
      if Deletes(v, i, x) {
        assert Taken(r, v, i, r.refs[x]);
        ElsewhereIsClosed(r, v, i, r.refs[x], c);
      }
    } else {
      var k :| 0 <= k < |r.worktrees| && r.worktrees[k].at.Detached?
               && c in Ancestors(r.parents, r.worktrees[k].at.commit);
      var w := r.worktrees[k];
      assert w in r.worktrees;
      if Removes(v, i, w) {
        assert w.at == Detached(w.at.commit);
        ElsewhereIsClosed(r, v, i, w.at.commit, c);
      }
    }
  }

  /** So a plan is safe, whatever happened since its verdict, while the integration ref contains
      what it takes away. */
  lemma StillContainedIsSafe(r: Repo, cwd: string, v: Verdict, i: CloseInput)
    requires Valid(r) && RunPlan(r, cwd, ClosePlan(v, i)).1 && INTEGRATION in r.refs
    requires forall t: Commit | Taken(r, v, i, t) :: t < |r.parents| && Contained(r, t)
    ensures forall c | Reachable(r, c) :: Reachable(RunPlan(r, cwd, ClosePlan(v, i)).0, c)
  {
    hide Acyclic, RunPlan, ClosePlan, Removes, Taken, Reachable;
    LateWorkSurvivesIff(r, cwd, v, i);
    forall t: Commit | Taken(r, v, i, t) ensures LedToElsewhere(r, v, i, t) {
      assert t in Ancestors(r.parents, t) && !Deletes(v, i, INTEGRATION);
    }
  }

  // --------------------------------------------------------- where the promises end

  /** One root commit, a primary clone on develop and one finished worktree on branch `b`. */
  function Finished(integration: bool, commits: nat): Repo
    requires 1 <= commits <= 2
  {
    Repo(if commits == 1 then [{}] else [{}, {0}],
         (if integration then map[INTEGRATION := 0] else map[])
         + map[Head("develop") := 0, Remote("b") := 0, Head("b") := commits - 1],
         map["b" := Remote("b")],
         [Worktree("/p", On("develop"), {}, Some(0), false), Worktree("/w", On("b"), {}, Some(0), false)])
  }

  const LONG_AFTER: int := 100 * 3600

  lemma FinishedIsValid(integration: bool, commits: nat)
    requires 1 <= commits <= 2
    ensures Valid(Finished(integration, commits))
    ensures Ancestors(Finished(integration, commits).parents, 0) == {0}
  {
  }

  lemma LongIdle(w: Worktree)
    requires w.lastActive == Some(0)
    ensures IdleHours(w, LONG_AFTER) == 100.0
  {
  }

  lemma NoReasonNoRefusal(i: CloseInput)
    requires !i.isPrimaryClone && i.hasUpstream && i.containedInIntegration && i.dirtyFileCount == 0
    requires i.idleHours == 100.0 && !i.retired
    ensures CloseVerdict(i) == Remove
    ensures ClosePlan(CloseVerdict(i), i) == [WorktreeRemove(i.path), BranchDelete(i.branch)]
  {
    hide CloseVerdict;
    VerdictMeans(i);
    assert forall reason :: !Refused(i, reason);
  }

  lemma FinishedIsRemovable()
    ensures var r := Finished(true, 1);
            && Valid(r)
            && var input := Observe(r, r.worktrees[1], "/p", Flags(false, false, false), LONG_AFTER);
            && input.Some? && CloseVerdict(input.value).Remove?
            && ClosePlan(CloseVerdict(input.value), input.value) == [WorktreeRemove("/w"), BranchDelete("b")]
  {
    FinishedIsValid(true, 1);
    hide CloseVerdict, Valid, Ancestors, IdleHours, ClosePlan;
    var r := Finished(true, 1);
    LongIdle(r.worktrees[1]);
    NoReasonNoRefusal(Observe(r, r.worktrees[1], "/p", Flags(false, false, false), LONG_AFTER).value);
  }

  /** The same repository after one more commit on the worktree's branch. */
  lemma FinishedGrows()
    ensures Valid(Finished(true, 1)) && Valid(Finished(true, 2)) && Grows(Finished(true, 1), Finished(true, 2))
    ensures Reachable(Finished(true, 2), 1)
  {
    var r, later := Finished(true, 1), Finished(true, 2);
    FinishedIsValid(true, 1);
    FinishedIsValid(true, 2);
    TwoCommits(later.parents);
    hide Valid, Ancestors;
    assert later.refs[Head("b")] == 1;
    forall x | x in r.refs
      ensures x in later.refs && Ancestors(r.parents, r.refs[x]) <= Ancestors(later.parents, later.refs[x])
    {
      assert r.refs[x] == 0 && (later.refs[x] == 0 || later.refs[x] == 1);
    }
  }

  lemma TwoCommits(parents: seq<set<Commit>>)
    requires parents == [{}, {0}]
    ensures Ancestors(parents, 0) == {0} && Ancestors(parents, 1) == {0, 1}
  {
    assert 0 in parents[1];
  }

  /** A commit that lands between the verdict and the plan is lost: the plan runs to the end
      and leaves the commit unreachable. */
  lemma CommitDuringCloseIsLost()
    ensures var r, later := Finished(true, 1), Finished(true, 2);
            && Valid(r) && Valid(later) && Grows(r, later)
            && var input := Observe(r, r.worktrees[1], "/p", Flags(false, false, false), LONG_AFTER);
            && input.Some?
            && var (after, ok) := RunPlan(later, "/p", ClosePlan(CloseVerdict(input.value), input.value));
            && ok && Reachable(later, 1) && !Reachable(after, 1)
  {
    hide CloseVerdict, Observe, Valid, Grows, Reachable, Ancestors, ClosePlan, RunPlan, Finished;
    FinishedIsRemovable();
    FinishedGrows();
    LaterPlan(Finished(true, 2), [WorktreeRemove("/w"), BranchDelete("b")]);
  }

  lemma LaterPlan(later: Repo, plan: seq<Command>)
    requires later == Finished(true, 2) && plan == [WorktreeRemove("/w"), BranchDelete("b")]
    ensures Valid(later) && RunPlan(later, "/p", plan).1
    ensures !Reachable(RunPlan(later, "/p", plan).0, 1)
  {
    FinishedIsValid(true, 2);
    LaterRemove(later);
    var primary := later.worktrees[0];
    var mid := later.(worktrees := [primary]);
    ExecuteKeepsValid(later, plan[0]);
    LaterDelete(mid, primary);
    assert HasPath(later, "/p") && HasPath(mid, "/p") by {
      assert later.worktrees[0].path == "/p" && mid.worktrees[0].path == "/p";
    }
    hide Valid, Execute, Reachable, Ancestors, RunPlan, HasPath;
    TwoCommands(later, "/p", plan);
  }

  lemma LaterRemove(later: Repo)
    requires later == Finished(true, 2)
    ensures Valid(later) && Execute(later, WorktreeRemove("/w")) == Some(later.(worktrees := [later.worktrees[0]]))
  {
    FinishedIsValid(true, 2);
    hide Valid;
    var primary, w := later.worktrees[0], later.worktrees[1];
    assert later.worktrees == [primary, w];
    assert IndexOf(later.worktrees, "/w") == Some(1);
    TwoWithout(primary, w);
  }

  lemma LaterDelete(mid: Repo, primary: Worktree)
    requires primary == Finished(true, 2).worktrees[0]
    requires mid == Finished(true, 2).(worktrees := [primary]) && Valid(mid)
    ensures Execute(mid, BranchDelete("b")).Some? && Valid(Execute(mid, BranchDelete("b")).value)
    ensures !Reachable(Execute(mid, BranchDelete("b")).value, 1)
  {
    ExecuteKeepsValid(mid, BranchDelete("b"));
    hide Valid;
    var after := Execute(mid, BranchDelete("b")).value;
    assert forall x | x in after.refs :: after.refs[x] == 0;
    assert Ancestors(after.parents, 0) == {0};
  }

  lemma TwoWithout(a: Worktree, b: Worktree)
    requires a.path != b.path
    ensures Without([a, b], b.path) == [a]
  {
    assert [a, b][..|[a, b]| - 1] == [a] && [a][..|[a]| - 1] == [];
    assert Without([a], b.path) == [a];
  }

  /** Two finished worktrees; the second follows the first one's local branch or its own remote
      one, and the first may be locked. */
  function Stacked(local: bool, locked: bool): Repo {
    Repo([{}],
         map[INTEGRATION := 0, Head("develop") := 0, Remote("a") := 0, Remote("b") := 0, Head("a") := 0,
             Head("b") := 0],
         map["a" := Remote("a"), "b" := if local then Head("a") else Remote("b")],
         [Worktree("/p", On("develop"), {}, Some(0), false), Worktree("/x", On("a"), {}, Some(0), locked),
          Worktree("/w", On("b"), {}, Some(0), false)])
  }

  lemma StackedAreRemovable(local: bool, locked: bool, w: Worktree, dry: bool)
    requires w in Stacked(local, locked).worktrees && w.path != "/p"
    ensures Valid(Stacked(local, locked))
    ensures Judged(Stacked(local, locked), w.path, "/p", Flags(false, false, dry), LONG_AFTER) == Some(Remove)
  {
    StackedIsValid(local, locked);
    hide CloseVerdict, Valid, Ancestors, IdleHours, ClosePlan;
    var r := Stacked(local, locked);
    LongIdle(w);
    PathIsWorktree(r, w);
    NoReasonNoRefusal(Observe(r, w, "/p", Flags(false, false, dry), LONG_AFTER).value);
  }

  lemma StackedIsValid(local: bool, locked: bool)
    ensures Valid(Stacked(local, locked)) && Ancestors(Stacked(local, locked).parents, 0) == {0}
  {
  }

  lemma RemoveIsCleared(r: Repo, path: string, primaryPath: string, flags: Flags, now: int)
    requires Valid(r)
    ensures Judged(r, path, primaryPath, flags, now) == Some(Remove) ==> Cleared(r, path, primaryPath, flags, now)
  {
    hide Valid, Observe, CloseVerdict;
  }

  lemma StackedPaths(local: bool, locked: bool)
    ensures var r := Stacked(local, locked);
            && Valid(r) && HasPath(r, "/p") && HasPath(r, "/x") && HasPath(r, "/w")
            && WorktreeAt(r, "/x") == r.worktrees[1] && WorktreeAt(r, "/w") == r.worktrees[2]
            && BranchAt(r, "/x") == Some(Head("a"))
            && FollowedAt(r, "/w") == Some(if local then Head("a") else Remote("b"))
            && r.worktrees[0].path == "/p"
            && forall path, dry | path == "/x" || path == "/w" ::
                 && Judged(r, path, "/p", Flags(false, false, dry), LONG_AFTER) == Some(Remove)
                 && Cleared(r, path, "/p", Flags(false, false, dry), LONG_AFTER)
  {
    StackedIsValid(local, locked);
    hide Valid, Judged, Cleared;
    var r := Stacked(local, locked);
    PathIsWorktree(r, r.worktrees[0]);
    PathIsWorktree(r, r.worktrees[1]);
    PathIsWorktree(r, r.worktrees[2]);
    forall path, dry | path == "/x" || path == "/w"
      ensures Judged(r, path, "/p", Flags(false, false, dry), LONG_AFTER) == Some(Remove)
      ensures Cleared(r, path, "/p", Flags(false, false, dry), LONG_AFTER)
    {
      RemoveIsCleared(r, path, "/p", Flags(false, false, dry), LONG_AFTER);
      StackedAreRemovable(local, locked, if path == "/x" then r.worktrees[1] else r.worktrees[2], dry);
    }
  }

  /** A dry run announces the second worktree's removal; the real run, having deleted its
      upstream with the first one, refuses it. */
  lemma LocalUpstreamMisleadsDryRun()
    ensures var r, dry, live := Stacked(true, false), Flags(false, false, true), Flags(false, false, false);
            && Valid(r)
            && CloseOne(r, "/x", "/p", "/p", dry, LONG_AFTER) == Closed(r, Some(Remove))
            && CloseOne(r, "/w", "/p", "/p", dry, LONG_AFTER) == Closed(r, Some(Remove))
            && var first := CloseOne(r, "/x", "/p", "/p", live, LONG_AFTER);
            && first.verdict == Some(Remove) && Valid(first.repo)
            && var second := CloseOne(first.repo, "/w", "/p", "/p", live, LONG_AFTER);
            second.verdict.Some? && second.verdict.value.Refuse?
  {
    StackedPaths(true, false);
    assert !Stacked(true, false).worktrees[1].locked;
    hide CloseOne, Judged, Valid, HasPath, ClosedFrom, Shrunk, BranchAt, FollowedAt, IndexOf, Stacked, Cleared;
    var r, dry, live := Stacked(true, false), Flags(false, false, true), Flags(false, false, false);
    DryVerdict(r, "/x", "/p", "/p", dry, LONG_AFTER);
    DryVerdict(r, "/w", "/p", "/p", dry, LONG_AFTER);
    LiveVerdict(r, "/x", "/p", live, LONG_AFTER);
    CloseKeeps(r, "/x", "/p", "/p", live, LONG_AFTER);
    var after := CloseOne(r, "/x", "/p", "/p", live, LONG_AFTER).repo;
    ClosingShrinks(r, after, "/x");
    SecondIsRefused(r, after, live);
  }

  lemma SecondIsRefused(r: Repo, after: Repo, live: SweepFlags)
    requires r == Stacked(true, false) && Valid(r) && Shrunk(r, after) && live == Flags(false, false, false)
    requires Head("a") !in after.refs && HasPath(after, "/p") && HasPath(after, "/w")
    ensures Valid(after)
    ensures var v := CloseOne(after, "/w", "/p", "/p", live, LONG_AFTER).verdict; v.Some? && v.value.Refuse?
  {
    StackedPaths(true, false);
    ShrunkValid(r, after);
    assert !Stands(r, after, "/w") by { assert Head("a") in r.refs; }
    hide CloseOne, Judged, Valid, HasPath, Shrunk, BranchAt, FollowedAt, IndexOf, Stacked, Cleared, Stands;
    SameVerdictIff(r, after, "/w", "/p", live, LONG_AFTER);
    JudgedStays(r, after, "/w", live, LONG_AFTER);
    LiveVerdict(after, "/w", "/p", live, LONG_AFTER);
  }

  lemma JudgedStays(d: Repo, r: Repo, path: string, flags: SweepFlags, now: int)
    requires Valid(d) && Shrunk(d, r) && HasPath(r, path) && Valid(r)
    requires Judged(d, path, d.worktrees[0].path, flags, now).Some?
    ensures var v := Judged(r, path, d.worktrees[0].path, flags, now);
            v.Some? && (v.value.Refuse? || v == Some(Remove))
  {
    hide Acyclic, Observe, CloseVerdict;
    var w := WorktreeAt(r, path);
    PathIsWorktree(r, w);
    ShrunkHas(d, r, w);
    PathIsWorktree(d, w);
    ReadableStays(d, r, w, d.worktrees[0].path, flags, now);
    NeverKept(r, w, d.worktrees[0].path, flags, now);
  }

  lemma NeverKept(r: Repo, w: Worktree, primaryPath: string, flags: SweepFlags, now: int)
    requires Valid(r) && w in r.worktrees && Observe(r, w, primaryPath, flags, now).Some?
    ensures !CloseVerdict(Observe(r, w, primaryPath, flags, now).value).RemoveKeepBranch?
  {
    hide Valid, Ancestors, IdleHours;
    VerdictMeans(Observe(r, w, primaryPath, flags, now).value);
  }

  /** A locked worktree: the dry run announces its removal and the next one's; the real run throws
      at it and never gets to the next. */
  lemma LockedMisleadsDryRun(clock: nat -> int)
    requires forall k :: clock(k) == LONG_AFTER
    ensures var r, s := Stacked(false, true), Session("/p", "/p", Flags(false, false, false), clock, NOBODY);
            && Valid(r)
            && var dry := Sweep(r, ["/x", "/w"], Dry(s), 0);
            && dry.completed && |dry.attempts| == 2
            && dry.attempts[0].verdict == Some(Remove) && dry.attempts[1].verdict == Some(Remove)
            && var live := Sweep(r, ["/x", "/w"], s, 0);
            !live.completed && |live.attempts| == 1 && live.attempts[0].verdict == None && live.repo == r
  {
    StackedPaths(false, true);
    hide CloseOne, Judged, Valid, HasPath, AppendOnly, Sweep, IndexOf, Stacked, Cleared;
    var r, s := Stacked(false, true), Session("/p", "/p", Flags(false, false, false), clock, NOBODY);
    assert Dry(s).flags == Flags(false, false, true);
    assert ["/x", "/w"][1..] == ["/w"] && ["/w"][1..] == [];
    SweepStep(r, ["/x", "/w"], Dry(s), 0);
    SweepStep(r, ["/w"], Dry(s), 1);
    SweepNothing(r, Dry(s), 2);
    SweepStep(r, ["/x", "/w"], s, 0);
    DryVerdict(r, "/x", "/p", "/p", Dry(s).flags, LONG_AFTER);
    DryVerdict(r, "/w", "/p", "/p", Dry(s).flags, LONG_AFTER);
    LockedThrows(r, s.flags);
  }

  lemma LockedThrows(r: Repo, flags: SweepFlags)
    requires r == Stacked(false, true) && flags == Flags(false, false, false)
    ensures Valid(r) && CloseOne(r, "/x", "/p", "/p", flags, LONG_AFTER) == Closed(r, None)
  {
    StackedPaths(false, true);
    assert Stacked(false, true).worktrees[1].locked;
    hide CloseOne, Valid, Cleared, HasPath, ClosedFrom, Judged, Stacked;
    ClearedCloseHappens(r, "/x", "/p", flags, LONG_AFTER);
  }

  /** A sweep started inside a finished worktree removes it, throws, and leaves its branch behind;
      started in the primary clone it deletes both. */
  lemma SweepFromInsideStopsHalfway()
    ensures var r, flags := Stacked(false, false), Flags(false, false, false);
            && Valid(r)
            && var c := CloseOne(r, "/x", "/p", "/x", flags, LONG_AFTER);
            && Halfway(r, c) && !HasPath(c.repo, "/x") && Head("a") in c.repo.refs
            && var d := CloseOne(r, "/x", "/p", "/p", flags, LONG_AFTER);
            && d.verdict == Some(Remove) && !HasPath(d.repo, "/x") && Head("a") !in d.repo.refs
  {
    StackedPaths(false, false);
    assert !Stacked(false, false).worktrees[1].locked && Stacked(false, false).worktrees[1].at == On("a");
    hide CloseOne, Valid, Cleared, HasPath, ClosedFrom, Judged, Stacked;
    var r, flags := Stacked(false, false), Flags(false, false, false);
    ClearedCloseHappens(r, "/x", "/x", flags, LONG_AFTER);
    ClearedCloseHappens(r, "/x", "/p", flags, LONG_AFTER);
  }
}
