/** Closing one worktree without losing work, over a commit graph: the verdict, its plan and
    what git makes of it (scripts/close-worktree.ts, scripts/worktree-close.ts,
    scripts/worktree-close-cli.ts). */
module WorktreeClose {
  import opened Text

  // ------------------------------------------------------------- a repository

  /** Commits are numbered so that parents come first. */
  type Commit = nat

  datatype Ref = Head(name: string) | Remote(name: string)

  datatype At = On(branch: string) | Detached(commit: Commit)

  /** `dirty`: the paths `git status` lists. `lastActive`: the newest reflog entry, epoch seconds. */
  datatype Worktree = Worktree(path: string, at: At, dirty: set<string>, lastActive: Option<int>, locked: bool)

  /** `worktrees` in the order git lists them: the primary clone first. */
  datatype Repo = Repo(
    parents: seq<set<Commit>>, refs: map<Ref, Commit>, upstream: map<string, Ref>, worktrees: seq<Worktree>)

  const INTEGRATION: Ref := Remote("develop")

  predicate Acyclic(parents: seq<set<Commit>>) {
    forall c, p | 0 <= c < |parents| && p in parents[c] :: p < c
  }

  function Ancestors(parents: seq<set<Commit>>, c: Commit): (r: set<Commit>)
    requires Acyclic(parents) && c < |parents|
    ensures c in r
    decreases c
  {
    {c} + set p, a | p in parents[c] && a in Ancestors(parents, p) :: a
  }

  lemma {:induction false} OlderAncestors(parents: seq<set<Commit>>, more: seq<set<Commit>>, c: Commit)
    requires Acyclic(parents) && Acyclic(more) && parents <= more && c < |parents|
    ensures Ancestors(parents, c) == Ancestors(more, c)
    decreases c
  {
    forall p | p in parents[c] ensures Ancestors(parents, p) == Ancestors(more, p) {
      OlderAncestors(parents, more, p);
    }
    assert parents[c] == more[c];
  }

  lemma {:induction false} AncestorsAreOlder(parents: seq<set<Commit>>, c: Commit, a: Commit)
    requires Acyclic(parents) && c < |parents| && a in Ancestors(parents, c)
    ensures a <= c
    ensures forall b | b in Ancestors(parents, a) :: b in Ancestors(parents, c)
    decreases c
  {
    if a != c {
      var p :| p in parents[c] && a in Ancestors(parents, p);
      AncestorsAreOlder(parents, p, a);
    }
  }

  lemma ContainsByTip(parents: seq<set<Commit>>, c: Commit, d: Commit)
    requires Acyclic(parents) && c < |parents| && d < |parents|
    ensures Ancestors(parents, c) <= Ancestors(parents, d) <==> c in Ancestors(parents, d)
  {
    if c in Ancestors(parents, d) { AncestorsAreOlder(parents, d, c); }
  }

  predicate Valid(r: Repo) {
    && Acyclic(r.parents)
    && (forall x | x in r.refs :: r.refs[x] < |r.parents|)
    && |r.worktrees| >= 1
    && (forall i | 0 <= i < |r.worktrees| ::
          r.worktrees[i].path != ""
          && match r.worktrees[i].at case On(b) => b != "" case Detached(c) => c < |r.parents|)
    && (forall i, j | 0 <= i < j < |r.worktrees| ::
          r.worktrees[i].path != r.worktrees[j].path
          && (r.worktrees[i].at.On? && r.worktrees[j].at.On? ==> r.worktrees[i].at != r.worktrees[j].at))
  }

  /** A commit some ref, or some detached worktree, still leads to. */
  ghost predicate Reachable(r: Repo, c: Commit)
    requires Valid(r)
  {
    || (exists x | x in r.refs :: c in Ancestors(r.parents, r.refs[x]))
    || (exists i | 0 <= i < |r.worktrees| ::
          r.worktrees[i].at.Detached? && c in Ancestors(r.parents, r.worktrees[i].at.commit))
  }

  function HeadOf(r: Repo, w: Worktree): Option<Commit> {
    match w.at
    case On(b) => if Head(b) in r.refs then Some(r.refs[Head(b)]) else None
    case Detached(c) => Some(c)
  }

  function IndexOf(ws: seq<Worktree>, path: string): (i: Option<nat>)
    ensures i.Some? ==> i.value < |ws| && ws[i.value].path == path
    ensures i.None? ==> forall k | 0 <= k < |ws| :: ws[k].path != path
  {
    if ws == [] then None
    else if ws[|ws| - 1].path == path then Some(|ws| - 1)
    else IndexOf(ws[..|ws| - 1], path)
  }

  predicate HasPath(r: Repo, path: string) {
    exists i | 0 <= i < |r.worktrees| :: r.worktrees[i].path == path
  }

  function Without(ws: seq<Worktree>, path: string): seq<Worktree> {
    if ws == [] then []
    else Without(ws[..|ws| - 1], path) + if ws[|ws| - 1].path == path then [] else [ws[|ws| - 1]]
  }

  // ------------------------------------------------------------- the verdict

  const RECENT_IDLE_THRESHOLD_HOURS: real := 24.0

  datatype CloseInput = CloseInput(
    path: string, branch: string, hasUpstream: bool, aheadOfRemote: nat, dirtyFileCount: nat,
    containedInIntegration: bool, isPrimaryClone: bool, retired: bool, done: bool, idleHours: real)

  datatype Reason = PrimaryClone | NoUpstream | Unpushed | Dirty | Recent | Unmerged

  datatype Verdict = Remove | RemoveKeepBranch | Refuse(reasons: seq<Reason>)

  /** The refusals, each with what it protects. */
  predicate Refused(i: CloseInput, reason: Reason) {
    match reason
    case PrimaryClone => i.isPrimaryClone
    case NoUpstream => !i.isPrimaryClone && !i.hasUpstream
    case Unpushed => !i.isPrimaryClone && i.aheadOfRemote > 0 && !i.containedInIntegration
    case Dirty => !i.isPrimaryClone && i.dirtyFileCount > 0
    case Recent =>
      !i.isPrimaryClone && i.idleHours < RECENT_IDLE_THRESHOLD_HOURS && !(i.done && i.containedInIntegration)
    case Unmerged => !i.isPrimaryClone && !i.containedInIntegration && !i.retired
  }

  function Listed(i: CloseInput, reason: Reason): seq<Reason> {
    if Refused(i, reason) then [reason] else []
  }

  function Reasons(i: CloseInput): seq<Reason> {
    Listed(i, PrimaryClone) + Listed(i, NoUpstream) + Listed(i, Unpushed) + Listed(i, Dirty) + Listed(i, Recent)
    + Listed(i, Unmerged)
  }

  function CloseVerdict(i: CloseInput): Verdict {
    if Reasons(i) != [] then Refuse(Reasons(i)) else if i.retired then RemoveKeepBranch else Remove
  }

  method DecideClose(input: CloseInput) returns (v: Verdict)
    ensures v == CloseVerdict(input)
  {
    if input.isPrimaryClone { return Refuse([PrimaryClone]); }
    var reasons: seq<Reason> := [];
    if !input.hasUpstream { reasons := reasons + [NoUpstream]; }
    if input.aheadOfRemote > 0 && !input.containedInIntegration { reasons := reasons + [Unpushed]; }
    if input.dirtyFileCount > 0 { reasons := reasons + [Dirty]; }
    var recencyWaived := input.done && input.containedInIntegration;
    if input.idleHours < RECENT_IDLE_THRESHOLD_HOURS && !recencyWaived { reasons := reasons + [Recent]; }
    if !input.containedInIntegration && !input.retired { reasons := reasons + [Unmerged]; }
    assert reasons == Reasons(input);
    if |reasons| > 0 { return Refuse(reasons); }
    if input.retired { return RemoveKeepBranch; }
    return Remove;
  }

  /** Refused exactly for the reasons that apply; a removal that also deletes the branch is
      cleared only for a clean, tracked, contained, idle worktree that is not the primary. */
  lemma VerdictMeans(i: CloseInput)
    ensures var v := CloseVerdict(i);
            && (v.Refuse? <==> exists reason :: Refused(i, reason))
            && (v.Refuse? ==> forall reason :: reason in v.reasons <==> Refused(i, reason))
            && (v.Remove? ==> i.containedInIntegration && !i.retired)
            && (v.RemoveKeepBranch? ==> i.retired && (i.containedInIntegration || i.aheadOfRemote == 0))
            && (!v.Refuse? ==>
                  !i.isPrimaryClone && i.hasUpstream && i.dirtyFileCount == 0
                  && (i.idleHours >= RECENT_IDLE_THRESHOLD_HOURS || (i.done && i.containedInIntegration)))
  {
    ReasonsAreRefusals(i);
    hide Reasons;
    var reasons := Reasons(i);
    assert reasons == [] || reasons[0] in reasons;
    assert Refused(i, Unmerged) <==> Unmerged in reasons;
    assert Refused(i, Unpushed) <==> Unpushed in reasons;
    assert Refused(i, Recent) <==> Recent in reasons;
    assert Refused(i, Dirty) <==> Dirty in reasons;
    assert Refused(i, NoUpstream) <==> NoUpstream in reasons;
    assert Refused(i, PrimaryClone) <==> PrimaryClone in reasons;
  }

  lemma ListedIs(i: CloseInput, other: Reason, reason: Reason)
    ensures reason in Listed(i, other) <==> reason == other && Refused(i, other)
  {
    hide Refused;
  }

  lemma ReasonsAreRefusals(i: CloseInput)
    ensures forall reason :: reason in Reasons(i) <==> Refused(i, reason)
  {
    hide Refused, Listed;
    forall reason ensures reason in Reasons(i) <==> Refused(i, reason) {
      forall other ensures reason in Listed(i, other) <==> reason == other && Refused(i, other) {
        ListedIs(i, other, reason);
      }
      match reason {
        case PrimaryClone =>
        case NoUpstream =>
        case Unpushed =>
        case Dirty =>
        case Recent =>
        case Unmerged =>
      }
    }
  }

  // ------------------------------------------------------- the plan and git's part

  datatype Command = WorktreeRemove(path: string) | BranchDelete(branch: string)

  function ClosePlan(v: Verdict, i: CloseInput): seq<Command> {
    match v
    case Refuse(_) => []
    case RemoveKeepBranch => [WorktreeRemove(i.path)]
    case Remove => [WorktreeRemove(i.path), BranchDelete(i.branch)]
  }

  predicate CheckedOut(r: Repo, branch: string) {
    exists i | 0 <= i < |r.worktrees| :: r.worktrees[i].at == On(branch)
  }

  /** What git does with one command; None where it fails and changes nothing. It never
      removes the main worktree, a locked one or an unclean one, nor deletes a branch that
      is checked out. */
  function Execute(r: Repo, cmd: Command): Option<Repo>
    requires Valid(r)
  {
    match cmd
    case WorktreeRemove(path) =>
      var i := IndexOf(r.worktrees, path);
      if i.None? || i.value == 0 || r.worktrees[i.value].locked || r.worktrees[i.value].dirty != {} then None
      else Some(r.(worktrees := Without(r.worktrees, path)))
    case BranchDelete(b) =>
      if Head(b) !in r.refs || CheckedOut(r, b) then None
      else Some(r.(refs := r.refs - {Head(b)}, upstream := r.upstream - {b}))
  }

  /** Which commands git carries out. */
  lemma ExecutedIff(r: Repo, name: string)
    requires Valid(r)
    ensures Execute(r, WorktreeRemove(name)).Some? <==>
              exists i | 1 <= i < |r.worktrees| ::
                r.worktrees[i].path == name && !r.worktrees[i].locked && r.worktrees[i].dirty == {}
    ensures Execute(r, BranchDelete(name)).Some? <==>
              Head(name) in r.refs && forall i | 0 <= i < |r.worktrees| :: r.worktrees[i].at != On(name)
  {
  }

  /** The same command run in the worktree `cwd`: once that directory is gone, nothing runs in it. */
  function ExecuteIn(r: Repo, cwd: string, cmd: Command): Option<Repo>
    requires Valid(r)
  {
    if HasPath(r, cwd) then Execute(r, cmd) else None
  }

  lemma {:induction false} WithoutKeeps(ws: seq<Worktree>, path: string)
    ensures forall w :: w in Without(ws, path) <==> w in ws && w.path != path
  {
    if ws != [] {
      WithoutKeeps(ws[..|ws| - 1], path);
      assert ws == ws[..|ws| - 1] + [ws[|ws| - 1]];
    }
  }

  predicate Distinct(ws: seq<Worktree>) {
    forall i, j | 0 <= i < j < |ws| ::
      ws[i].path != ws[j].path && (ws[i].at.On? && ws[j].at.On? ==> ws[i].at != ws[j].at)
  }

  lemma {:induction false} WithoutDistinct(ws: seq<Worktree>, path: string)
    requires Distinct(ws)
    ensures Distinct(Without(ws, path))
    ensures |ws| >= 1 && ws[0].path != path ==> Without(ws, path) != [] && Without(ws, path)[0] == ws[0]
  {
    if ws != [] {
      var init, last := ws[..|ws| - 1], ws[|ws| - 1];
      WithoutDistinct(init, path);
      WithoutKeeps(init, path);
      var kept := Without(init, path);
      forall k | 0 <= k < |kept|
        ensures kept[k].path != last.path && (kept[k].at.On? && last.at.On? ==> kept[k].at != last.at)
      {
        assert kept[k] in init;
      }
      assert |ws| >= 2 ==> init[0] == ws[0];
    }
  }

  lemma ExecuteKeepsValid(r: Repo, cmd: Command)
    requires Valid(r) && Execute(r, cmd).Some?
    ensures Valid(Execute(r, cmd).value)
    ensures Execute(r, cmd).value.worktrees[0] == r.worktrees[0]
  {
    if cmd.WorktreeRemove? {
      var i := IndexOf(r.worktrees, cmd.path);
      assert r.worktrees[0].path != r.worktrees[i.value].path;
      WithoutDistinct(r.worktrees, cmd.path);
      WithoutKeeps(r.worktrees, cmd.path);
      var after := Execute(r, cmd).value.worktrees;
      forall k | 0 <= k < |after| ensures after[k] in r.worktrees {
        assert after[k] in after;
      }
    }
  }

  // --------------------------------------------------------------- one close

  function UpstreamOf(r: Repo, w: Worktree): Option<Commit> {
    if w.at.On? && w.at.branch in r.upstream && r.upstream[w.at.branch] in r.refs
    then Some(r.refs[r.upstream[w.at.branch]])
    else None
  }

  /** Hours since the newest reflog entry: zero when there is none or it lies ahead. */
  function IdleHours(w: Worktree, now: int): (h: real)
    ensures h >= 0.0
  {
    if w.lastActive.None? || now < w.lastActive.value then 0.0
    else (now - w.lastActive.value) as real / 3600.0
  }

  function AheadOf(r: Repo, head: Commit, upstream: Option<Commit>): nat
    requires Valid(r) && head < |r.parents| && (upstream.Some? ==> upstream.value < |r.parents|)
  {
    if upstream.None? then 0 else |Ancestors(r.parents, head) - Ancestors(r.parents, upstream.value)|
  }

  predicate Contained(r: Repo, head: Commit)
    requires Valid(r) && head < |r.parents| && INTEGRATION in r.refs
  {
    Ancestors(r.parents, head) <= Ancestors(r.parents, r.refs[INTEGRATION])
  }

  datatype Flags = Flags(retired: bool, done: bool, dryRun: bool)

  /** What the driver gathers about a worktree; None where a git read fails and it throws. */
  function Observe(r: Repo, w: Worktree, primaryPath: string, flags: Flags, now: int): Option<CloseInput>
    requires Valid(r) && w in r.worktrees
  {
    var head := HeadOf(r, w);
    if head.None? || INTEGRATION !in r.refs then None
    else
      var upstream := UpstreamOf(r, w);
      var branch := match w.at case On(b) => b case Detached(_) => "HEAD";
      Some(CloseInput(w.path, branch, upstream.Some?, AheadOf(r, head.value, upstream), |w.dirty|,
                      Contained(r, head.value), w.path == primaryPath, flags.retired, flags.done, IdleHours(w, now)))
  }

  /** Where the close command runs its plan: the primary clone; `parent` is the target's parent. */
  function PlanCwd(ws: seq<Worktree>, parent: string): string {
    if ws != [] && ws[0].path != "" then ws[0].path else parent
  }

  /** `verdict` is None where the driver threw, before or in the middle of the plan. */
  datatype Closed = Closed(repo: Repo, verdict: Option<Verdict>)

  function RunPlan(r: Repo, cwd: string, plan: seq<Command>): (res: (Repo, bool))
    requires Valid(r)
    ensures Valid(res.0)
    decreases |plan|
  {
    if plan == [] then (r, true)
    else
      var next := ExecuteIn(r, cwd, plan[0]);
      if next.None? then (r, false)
      else ExecuteKeepsValid(r, plan[0]); RunPlan(next.value, cwd, plan[1..])
  }

  /** One close whose plan runs in `cwd`. */
  function CloseOne(r: Repo, path: string, primaryPath: string, cwd: string, flags: Flags, now: int): Closed
    requires Valid(r)
  {
    var i := IndexOf(r.worktrees, path);
    if i.None? then Closed(r, None)
    else
      var input := Observe(r, r.worktrees[i.value], primaryPath, flags, now);
      if input.None? then Closed(r, None)
      else
        var v := CloseVerdict(input.value);
        if flags.dryRun then Closed(r, Some(v))
        else
          var (after, ok) := RunPlan(r, cwd, ClosePlan(v, input.value));
          Closed(after, if ok then Some(v) else None)
  }

  // -------------------------------------------------------- what one close keeps

  lemma RemovingWorktreeKeepsReachable(r: Repo, path: string)
    requires Valid(r) && Execute(r, WorktreeRemove(path)).Some?
    requires forall w | w in r.worktrees && w.path == path :: w.at.On?
    ensures Valid(Execute(r, WorktreeRemove(path)).value)
    ensures forall c | Reachable(r, c) :: Reachable(Execute(r, WorktreeRemove(path)).value, c)
  {
    var after := Execute(r, WorktreeRemove(path)).value;
    ExecuteKeepsValid(r, WorktreeRemove(path));
    WithoutKeeps(r.worktrees, path);
    forall c | Reachable(r, c) ensures Reachable(after, c) {
      if !exists x | x in r.refs :: c in Ancestors(r.parents, r.refs[x]) {
        var i :| 0 <= i < |r.worktrees| && r.worktrees[i].at.Detached?
                 && c in Ancestors(r.parents, r.worktrees[i].at.commit);
        assert r.worktrees[i] in after.worktrees;
      }
    }
  }

  /** Deleting a branch that the integration ref contains leaves every commit reachable. */
  lemma DeletingContainedKeepsReachable(r: Repo, b: string)
    requires Valid(r) && INTEGRATION in r.refs && Head(b) in r.refs && Contained(r, r.refs[Head(b)])
    requires Execute(r, BranchDelete(b)).Some?
    ensures Valid(Execute(r, BranchDelete(b)).value)
    ensures forall c | Reachable(r, c) :: Reachable(Execute(r, BranchDelete(b)).value, c)
  {
    hide Ancestors;
    var after := Execute(r, BranchDelete(b)).value;
    ExecuteKeepsValid(r, BranchDelete(b));
    forall c | Reachable(r, c) ensures Reachable(after, c) {
      if x :| x in r.refs && c in Ancestors(r.parents, r.refs[x]) {
        if x == Head(b) {
          assert c in Ancestors(after.parents, after.refs[INTEGRATION]);
        } else {
          assert c in Ancestors(after.parents, after.refs[x]);
        }
      }
    }
  }

  /** `x` is the branch of the worktree at `path`, and the integration ref contains it. */
  ghost predicate OwnContained(r: Repo, path: string, x: Ref)
    requires Valid(r) && x in r.refs
  {
    && INTEGRATION in r.refs && Contained(r, r.refs[x])
    && x.Head? && exists w | w in r.worktrees :: w.path == path && w.at == On(x.name)
  }

  /** What closing one worktree may change. */
  ghost predicate ClosedFrom(r: Repo, after: Repo, path: string)
    requires Valid(r)
  {
    && Valid(after) && after.parents == r.parents
    && after.worktrees[0] == r.worktrees[0]
    && (forall w | w in after.worktrees :: w in r.worktrees)
    && (forall w | w in r.worktrees :: w in after.worktrees || w.path == path)
    && (forall x | x in after.refs :: x in r.refs && after.refs[x] == r.refs[x])
    && (forall x | x in r.refs && x !in after.refs :: OwnContained(r, path, x))
    && (forall x | x in r.refs && x.Remote? :: x in after.refs)
    && (forall w | w in r.worktrees && w in after.worktrees && w.at.On? && Head(w.at.branch) in r.refs ::
          Head(w.at.branch) in after.refs)
    && (forall b | b in after.upstream :: b in r.upstream && after.upstream[b] == r.upstream[b])
    && (forall b | b in r.upstream && b !in after.upstream :: Head(b) in r.refs && Head(b) !in after.refs)
    && (forall w | w in after.worktrees && w.at.On? && w.at.branch in r.upstream :: w.at.branch in after.upstream)
    && (forall c | Reachable(r, c) :: Reachable(after, c))
  }

  lemma UnchangedIsClosed(r: Repo, path: string)
    requires Valid(r)
    ensures ClosedFrom(r, r, path)
  {
  }

  lemma Closable(r: Repo, w: Worktree, primaryPath: string, flags: Flags, now: int)
    requires Valid(r) && w in r.worktrees && Observe(r, w, primaryPath, flags, now).Some?
    requires !CloseVerdict(Observe(r, w, primaryPath, flags, now).value).Refuse?
    ensures w.at.On? && w.path != primaryPath && w.dirty == {}
    ensures Observe(r, w, primaryPath, flags, now).value.branch == w.at.branch && Head(w.at.branch) in r.refs
    ensures CloseVerdict(Observe(r, w, primaryPath, flags, now).value).Remove? ==>
              INTEGRATION in r.refs && Contained(r, r.refs[Head(w.at.branch)])
  {
    hide CloseVerdict, Contained, AheadOf, IdleHours;
    VerdictMeans(Observe(r, w, primaryPath, flags, now).value);
  }

  lemma RemovedFrom(r: Repo, w: Worktree)
    requires Valid(r) && w in r.worktrees && w.at.On?
    requires Execute(r, WorktreeRemove(w.path)).Some?
    ensures ClosedFrom(r, Execute(r, WorktreeRemove(w.path)).value, w.path)
    ensures !CheckedOut(Execute(r, WorktreeRemove(w.path)).value, w.at.branch)
    ensures Execute(r, WorktreeRemove(w.path)).value == r.(worktrees := Without(r.worktrees, w.path))
  {
    hide Ancestors;
    var after := Execute(r, WorktreeRemove(w.path)).value;
    RemovingWorktreeKeepsReachable(r, w.path);
    ExecuteKeepsValid(r, WorktreeRemove(w.path));
    WithoutKeeps(r.worktrees, w.path);
    var j :| 0 <= j < |r.worktrees| && r.worktrees[j] == w;
    forall k | 0 <= k < |after.worktrees| ensures after.worktrees[k].at != w.at {
      assert after.worktrees[k] in r.worktrees;
      var i :| 0 <= i < |r.worktrees| && r.worktrees[i] == after.worktrees[k];
      assert i != j;
      assert i < j || j < i;
    }
  }

  lemma DeletedFrom(r: Repo, mid: Repo, w: Worktree)
    requires Valid(r) && w in r.worktrees && w.at.On? && ClosedFrom(r, mid, w.path)
    requires mid == r.(worktrees := Without(r.worktrees, w.path))
    requires INTEGRATION in r.refs && Head(w.at.branch) in r.refs && Contained(r, r.refs[Head(w.at.branch)])
    requires !CheckedOut(mid, w.at.branch)
    ensures Execute(mid, BranchDelete(w.at.branch)).Some?
    ensures ClosedFrom(r, Execute(mid, BranchDelete(w.at.branch)).value, w.path)
  {
    hide Ancestors, Reachable;
    assert Contained(mid, mid.refs[Head(w.at.branch)]);
    hide Contained, Acyclic, CheckedOut;
    DeletingContainedKeepsReachable(mid, w.at.branch);
    ExecuteKeepsValid(mid, BranchDelete(w.at.branch));
    var after := Execute(mid, BranchDelete(w.at.branch)).value;
    assert OwnContained(r, w.path, Head(w.at.branch));
    NotOthers(mid, w);
    forall v | v in r.worktrees && v in after.worktrees && v.at.On? && Head(v.at.branch) in r.refs
      ensures Head(v.at.branch) in after.refs
    {
      assert v.at != On(w.at.branch);
    }
  }

  lemma NotOthers(r: Repo, w: Worktree)
    requires w.at.On? && !CheckedOut(r, w.at.branch)
    ensures forall v | v in r.worktrees :: v.at != On(w.at.branch)
  {
  }

  lemma OneCommand(r: Repo, cwd: string, plan: seq<Command>)
    requires Valid(r) && |plan| == 1 && ExecuteIn(r, cwd, plan[0]).Some?
    ensures RunPlan(r, cwd, plan) == (Execute(r, plan[0]).value, true)
  {
    hide Execute, Valid;
    ExecuteKeepsValid(r, plan[0]);
    assert plan[1..] == [];
  }

  lemma TwoCommands(r: Repo, cwd: string, plan: seq<Command>)
    requires Valid(r) && |plan| == 2 && ExecuteIn(r, cwd, plan[0]).Some?
    ensures Valid(Execute(r, plan[0]).value)
    ensures var mid := Execute(r, plan[0]).value;
            RunPlan(r, cwd, plan) ==
            if ExecuteIn(mid, cwd, plan[1]).Some? then (Execute(mid, plan[1]).value, true) else (mid, false)
  {
    hide Execute, Valid, HasPath;
    ExecuteKeepsValid(r, plan[0]);
    var mid := Execute(r, plan[0]).value;
    if ExecuteIn(mid, cwd, plan[1]).Some? { OneCommand(mid, cwd, plan[1..]); }
  }

  lemma OtherPathsStay(r: Repo, after: Repo, path: string)
    requires Valid(r) && after.worktrees == Without(r.worktrees, path)
    ensures forall p :: HasPath(after, p) <==> p != path && HasPath(r, p)
  {
    hide Valid;
    WithoutKeeps(r.worktrees, path);
    forall p | p != path && HasPath(r, p) ensures HasPath(after, p) {
      var i :| 0 <= i < |r.worktrees| && r.worktrees[i].path == p;
      assert r.worktrees[i] in after.worktrees;
    }
    forall p | HasPath(after, p) ensures p != path && HasPath(r, p) {
      var i :| 0 <= i < |after.worktrees| && after.worktrees[i].path == p;
      assert after.worktrees[i] in after.worktrees;
    }
  }

  /** The worktree at `path`. */
  function WorktreeAt(r: Repo, path: string): (w: Worktree)
    requires HasPath(r, path)
    ensures w in r.worktrees && w.path == path
  {
    r.worktrees[IndexOf(r.worktrees, path).value]
  }

  /** `decideClose` clears the worktree at `path`. */
  predicate Cleared(r: Repo, path: string, primaryPath: string, flags: Flags, now: int)
    requires Valid(r)
  {
    HasPath(r, path)
    && var input := Observe(r, WorktreeAt(r, path), primaryPath, flags, now);
    input.Some? && !CloseVerdict(input.value).Refuse?
  }

  /** The whole story of a cleared close: nothing happens where the worktree is locked; else it is
      removed, and a branch to delete is deleted unless the plan runs in the worktree it removed. */
  lemma ClearedCloseHappens(r: Repo, path: string, cwd: string, flags: Flags, now: int)
    requires Valid(r) && !flags.dryRun && HasPath(r, cwd) && Cleared(r, path, r.worktrees[0].path, flags, now)
    ensures var w, c := WorktreeAt(r, path), CloseOne(r, path, r.worktrees[0].path, cwd, flags, now);
            && w.dirty == {} && w.at.On? && Head(w.at.branch) in r.refs && path != r.worktrees[0].path
            && ClosedFrom(r, c.repo, path)
            && (w.locked ==> c == Closed(r, None))
            && (!w.locked ==> forall p :: HasPath(c.repo, p) <==> p != path && HasPath(r, p))
            && (!w.locked && flags.retired ==> c.verdict == Some(RemoveKeepBranch) && c.repo.refs == r.refs)
            && (!w.locked && !flags.retired && cwd != path ==>
                  c.verdict == Some(Remove) && c.repo.refs == r.refs - {Head(w.at.branch)})
            && (!w.locked && !flags.retired && cwd == path ==> c.verdict == None && c.repo.refs == r.refs)
  {
    hide Ancestors, Reachable, CloseVerdict, Contained, AheadOf, IdleHours, Valid, HasPath, ClosedFrom;
    var w := WorktreeAt(r, path);
    var input := Observe(r, w, r.worktrees[0].path, flags, now).value;
    Closable(r, w, r.worktrees[0].path, flags, now);
    ClearedVerdict(input);
    UnchangedIsClosed(r, path);
    var plan := ClosePlan(CloseVerdict(input), input);
    if !w.locked {
      RemovedFrom(r, w);
      var mid := Execute(r, WorktreeRemove(path)).value;
      OtherPathsStay(r, mid, path);
      if flags.retired {
        OneCommand(r, cwd, plan);
      } else {
        DeletedFrom(r, mid, w);
        TwoCommands(r, cwd, plan);
        SamePaths(mid, Execute(mid, BranchDelete(w.at.branch)).value);
      }
    }
  }

  lemma SamePaths(r: Repo, after: Repo)
    requires after.worktrees == r.worktrees
    ensures forall p :: HasPath(after, p) <==> HasPath(r, p)
  {
  }

  lemma ClearedVerdict(i: CloseInput)
    requires !CloseVerdict(i).Refuse?
    ensures CloseVerdict(i) == if i.retired then RemoveKeepBranch else Remove
  {
    hide Reasons;
  }

  lemma NothingToRun(r: Repo, path: string, primaryPath: string, cwd: string, flags: Flags, now: int)
    requires Valid(r)
    requires || flags.dryRun || !Cleared(r, path, primaryPath, flags, now) || !HasPath(r, cwd)
             || path == r.worktrees[0].path
    ensures CloseOne(r, path, primaryPath, cwd, flags, now).repo == r
  {
    hide CloseVerdict, Observe, Acyclic, RunPlan;
    var i := IndexOf(r.worktrees, path);
    assert i.Some? ==> HasPath(r, path);
    if !flags.dryRun && i.Some? && Observe(r, r.worktrees[i.value], primaryPath, flags, now).Some? {
      var input := Observe(r, r.worktrees[i.value], primaryPath, flags, now).value;
      var plan := ClosePlan(CloseVerdict(input), input);
      if Cleared(r, path, primaryPath, flags, now) {
        SamePath(r, r.worktrees[i.value], primaryPath, flags, now);
        assert plan[0] == WorktreeRemove(path);
      }
      FirstFails(r, cwd, plan);
    }
  }

  lemma NotCleared(r: Repo, path: string, primaryPath: string, cwd: string, flags: Flags, now: int)
    requires Valid(r) && !Cleared(r, path, primaryPath, flags, now)
    ensures var v := CloseOne(r, path, primaryPath, cwd, flags, now).verdict;
            v.None? || v.value.Refuse?
  {
    hide CloseVerdict, Observe, Acyclic, RunPlan;
    var i := IndexOf(r.worktrees, path);
    assert i.Some? ==> HasPath(r, path);
  }

  lemma SamePath(r: Repo, w: Worktree, primaryPath: string, flags: Flags, now: int)
    requires Valid(r) && w in r.worktrees && Observe(r, w, primaryPath, flags, now).Some?
    ensures Observe(r, w, primaryPath, flags, now).value.path == w.path
  {
    hide Valid, Contained, AheadOf, IdleHours;
  }

  lemma FirstFails(r: Repo, cwd: string, plan: seq<Command>)
    requires Valid(r) && (plan == [] || ExecuteIn(r, cwd, plan[0]).None?)
    ensures RunPlan(r, cwd, plan).0 == r
  {
    hide Valid, ExecuteIn;
  }

  /** For a worktree that is neither, it does not matter which path is called the primary's. */
  lemma EitherPrimary(r: Repo, path: string, a: string, b: string, cwd: string, flags: Flags, now: int)
    requires Valid(r) && path != b && Cleared(r, path, a, flags, now)
    ensures Cleared(r, path, b, flags, now)
    ensures CloseOne(r, path, a, cwd, flags, now) == CloseOne(r, path, b, cwd, flags, now)
  {
    hide CloseVerdict, Valid, Contained, AheadOf, IdleHours, RunPlan;
    Closable(r, WorktreeAt(r, path), a, flags, now);
  }

  lemma ClearedIsThere(r: Repo, path: string, primaryPath: string, flags: Flags, now: int)
    requires Valid(r) && Cleared(r, path, primaryPath, flags, now)
    ensures HasPath(r, path) && path != primaryPath
  {
    hide CloseVerdict, Valid, Contained, AheadOf, IdleHours, HasPath;
    Closable(r, WorktreeAt(r, path), primaryPath, flags, now);
  }

  /** One close removes at most its own worktree and that worktree's branch, the branch only if
      it is contained, and keeps every commit reachable; a refusal or a dry run changes nothing. */
  lemma CloseKeeps(r: Repo, path: string, primaryPath: string, cwd: string, flags: Flags, now: int)
    requires Valid(r)
    ensures var c := CloseOne(r, path, primaryPath, cwd, flags, now);
            && ClosedFrom(r, c.repo, path)
            && (flags.dryRun || (c.verdict.Some? && c.verdict.value.Refuse?) ==> c.repo == r)
  {
    hide CloseOne, ClosedFrom, Acyclic, Cleared, HasPath;
    if Cleared(r, path, primaryPath, flags, now) { ClearedIsThere(r, path, primaryPath, flags, now); }
    if || flags.dryRun || !Cleared(r, path, primaryPath, flags, now) || !HasPath(r, cwd)
       || path == r.worktrees[0].path {
      NothingToRun(r, path, primaryPath, cwd, flags, now);
      UnchangedIsClosed(r, path);
    } else {
      EitherPrimary(r, path, primaryPath, r.worktrees[0].path, cwd, flags, now);
      ClearedCloseHappens(r, path, cwd, flags, now);
    }
  }

  /** Halfway: the driver threw with part of its plan done. */
  predicate Halfway(r: Repo, c: Closed) {
    c.verdict.None? && c.repo != r
  }

  lemma HalfwayWhere(r: Repo, path: string, cwd: string, flags: Flags, now: int)
    requires Valid(r)
    ensures Halfway(r, CloseOne(r, path, r.worktrees[0].path, cwd, flags, now)) <==>
              && cwd == path && !flags.dryRun && !flags.retired
              && Cleared(r, path, r.worktrees[0].path, flags, now) && !WorktreeAt(r, path).locked
  {
    hide CloseOne, ClosedFrom, Acyclic, Cleared, HasPath;
    var primaryPath := r.worktrees[0].path;
    if Cleared(r, path, primaryPath, flags, now) { ClearedIsThere(r, path, primaryPath, flags, now); }
    if flags.dryRun || !Cleared(r, path, primaryPath, flags, now) || !HasPath(r, cwd) {
      NothingToRun(r, path, primaryPath, cwd, flags, now);
    } else {
      ClearedCloseHappens(r, path, cwd, flags, now);
    }
  }

  /** Where a close throws it has changed nothing, except exactly where it removed the directory
      its own plan runs in. The close command runs it in the primary clone, so there it is always
      all or nothing. */
  lemma AllOrNothingIff(r: Repo, path: string, cwd: string, parent: string, flags: Flags, now: int)
    requires Valid(r)
    ensures Halfway(r, CloseOne(r, path, r.worktrees[0].path, cwd, flags, now)) <==>
              && cwd == path && !flags.dryRun && !flags.retired
              && Cleared(r, path, r.worktrees[0].path, flags, now) && !WorktreeAt(r, path).locked
    ensures !Halfway(r, CloseOne(r, path, r.worktrees[0].path, PlanCwd(r.worktrees, parent), flags, now))
  {
    var primaryPath := r.worktrees[0].path;
    assert PlanCwd(r.worktrees, parent) == primaryPath;
    HalfwayWhere(r, path, cwd, flags, now);
    HalfwayWhere(r, path, primaryPath, flags, now);
    hide CloseOne, Acyclic, Cleared, HasPath;
    if Cleared(r, path, primaryPath, flags, now) { ClearedIsThere(r, path, primaryPath, flags, now); }
  }

  // ------------------------------------------ the verdict, on the graph and the clock

  /** The newest reflog entry is there and at least `seconds` older than `now`. */
  predicate IdleFor(w: Worktree, now: int, seconds: nat) {
    w.lastActive.Some? && now - w.lastActive.value >= seconds
  }

  /** An hour of 3,600 seconds since the newest entry, and the threshold at 86,400 of them. */
  lemma IdleHoursMeans(w: Worktree, now: int)
    ensures IdleFor(w, now, 0) ==> IdleHours(w, now) * 3_600.0 == (now - w.lastActive.value) as real
    ensures !IdleFor(w, now, 0) ==> IdleHours(w, now) == 0.0
    ensures IdleHours(w, now) >= RECENT_IDLE_THRESHOLD_HOURS <==> IdleFor(w, now, 86_400)
    ensures IdleHours(w, now) > RECENT_IDLE_THRESHOLD_HOURS <==> IdleFor(w, now, 86_401)
  {
  }

  /** The ref `x` leads to the commit the worktree stands on. */
  predicate TipIn(r: Repo, w: Worktree, x: Ref)
    requires Valid(r) && w in r.worktrees
  {
    x in r.refs
    && match w.at
       case On(b) => Head(b) in r.refs && r.refs[Head(b)] in Ancestors(r.parents, r.refs[x])
       case Detached(c) => c in Ancestors(r.parents, r.refs[x])
  }

  predicate Tracked(r: Repo, w: Worktree) {
    w.at.On? && w.at.branch in r.upstream && r.upstream[w.at.branch] in r.refs
  }

  /** What stands against removing a worktree, in terms of the repository and the clock. */
  predicate Objection(r: Repo, w: Worktree, primaryPath: string, flags: Flags, now: int, reason: Reason)
    requires Valid(r) && w in r.worktrees
  {
    match reason
    case PrimaryClone => w.path == primaryPath
    case NoUpstream => w.path != primaryPath && !Tracked(r, w)
    case Unpushed =>
      && w.path != primaryPath && !TipIn(r, w, Remote("develop"))
      && Tracked(r, w) && !TipIn(r, w, r.upstream[w.at.branch])
    case Dirty => w.path != primaryPath && exists file :: file in w.dirty
    case Recent =>
      && w.path != primaryPath && !IdleFor(w, now, 86_400)
      && !(flags.done && TipIn(r, w, Remote("develop")))
    case Unmerged => w.path != primaryPath && !TipIn(r, w, Remote("develop")) && !flags.retired
  }

  lemma NoneLeft(s: set<Commit>, t: set<Commit>)
    ensures |s - t| == 0 <==> s <= t
  {
    if s - t == {} {
      forall x | x in s ensures x in t {
        assert x !in s - t;
      }
    }
  }

  /** What the driver throws on: a head or an integration ref it cannot read. */
  lemma ThrowsIff(r: Repo, w: Worktree, primaryPath: string, flags: Flags, now: int)
    requires Valid(r) && w in r.worktrees
    ensures Observe(r, w, primaryPath, flags, now).None? <==>
              (w.at.On? && Head(w.at.branch) !in r.refs) || Remote("develop") !in r.refs
  {
    hide Valid, Contained, AheadOf, IdleHours;
  }

  lemma RefusedIsObjection(r: Repo, w: Worktree, primaryPath: string, flags: Flags, now: int, reason: Reason)
    requires Valid(r) && w in r.worktrees && Observe(r, w, primaryPath, flags, now).Some?
    ensures Refused(Observe(r, w, primaryPath, flags, now).value, reason) <==>
            Objection(r, w, primaryPath, flags, now, reason)
  {
    hide Ancestors, Acyclic;
    IdleHoursMeans(w, now);
    hide IdleHours, IdleFor;
    var head := HeadOf(r, w).value;
    ContainsByTip(r.parents, head, r.refs[INTEGRATION]);
    if UpstreamOf(r, w).Some? {
      var upstream := UpstreamOf(r, w).value;
      NoneLeft(Ancestors(r.parents, head), Ancestors(r.parents, upstream));
      ContainsByTip(r.parents, head, upstream);
    }
  }

  /** The whole verdict on a worktree the driver can read: refused exactly for the objections
      there are, and with none removed, the branch kept exactly for a retired one. */
  lemma VerdictIs(r: Repo, w: Worktree, primaryPath: string, flags: Flags, now: int)
    requires Valid(r) && w in r.worktrees && Observe(r, w, primaryPath, flags, now).Some?
    ensures var v := CloseVerdict(Observe(r, w, primaryPath, flags, now).value);
            && (v.Refuse? <==> exists reason :: Objection(r, w, primaryPath, flags, now, reason))
            && (v.Refuse? ==> forall reason :: reason in v.reasons <==>
                                Objection(r, w, primaryPath, flags, now, reason))
            && (!v.Refuse? ==> (v.RemoveKeepBranch? <==> flags.retired))
  {
    hide Valid, Objection, Refused, CloseVerdict;
    var input := Observe(r, w, primaryPath, flags, now).value;
    VerdictMeans(input);
    if !CloseVerdict(input).Refuse? { ClearedVerdict(input); }
    FlagsAreGiven(r, w, primaryPath, flags, now);
    hide Observe;
    forall reason ensures Refused(input, reason) <==> Objection(r, w, primaryPath, flags, now, reason) {
      RefusedIsObjection(r, w, primaryPath, flags, now, reason);
    }
  }

  lemma FlagsAreGiven(r: Repo, w: Worktree, primaryPath: string, flags: Flags, now: int)
    requires Valid(r) && w in r.worktrees && Observe(r, w, primaryPath, flags, now).Some?
    ensures var input := Observe(r, w, primaryPath, flags, now).value;
            input.path == w.path && input.retired == flags.retired && input.done == flags.done
  {
    hide Valid, Contained, AheadOf, IdleHours;
  }

  /** A worktree whose newest reflog entry is less than 86,400 seconds old, lies ahead, or is
      absent is never closed without `done`: the repository comes out as it went in. */
  lemma RecentStays(r: Repo, path: string, primaryPath: string, cwd: string, flags: Flags, now: int)
    requires Valid(r) && HasPath(r, path) && !flags.done && !IdleFor(WorktreeAt(r, path), now, 86_400)
    ensures CloseOne(r, path, primaryPath, cwd, flags, now).repo == r
    ensures var v := CloseOne(r, path, primaryPath, cwd, flags, now).verdict; v.None? || v.value.Refuse?
  {
    hide Valid, CloseVerdict, Observe, Ancestors, IdleFor, CloseOne;
    var w := WorktreeAt(r, path);
    if Observe(r, w, primaryPath, flags, now).Some? {
      VerdictIs(r, w, primaryPath, flags, now);
      assert Objection(r, w, primaryPath, flags, now, if path == primaryPath then PrimaryClone else Recent);
    }
    NothingToRun(r, path, primaryPath, cwd, flags, now);
    NotCleared(r, path, primaryPath, cwd, flags, now);
  }
}
