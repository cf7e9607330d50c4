/** The preservation sweep: committing uncommitted work to its own branch through a port that
    may fail at any call (scripts/worktree-preserve-runner.ts, scripts/worktree-preserve.ts). */
module Preserve {
  import opened Text

  datatype DirtyEntry = DirtyEntry(path: string, staged: bool, untracked: bool)

  datatype Target = Target(path: string, branch: Option<string>, entries: seq<DirtyEntry>)

  datatype Plan = Skip | Refuse | Preserve(fileCount: nat)

  function ClassifyPreservation(t: Target): Plan {
    if |t.entries| == 0 then Skip else if t.branch.None? then Refuse else Preserve(|t.entries|)
  }

  // ------------------------------------------------------------------- the port

  /** One call on the port; a commit message carries the branch and the file count. */
  datatype Call =
    | StageAll(path: string)
    | Commit(path: string, branch: string, fileCount: nat)
    | CountCommitted(path: string)
    | PushBranch(path: string, branch: string)

  /** A call returns, returns a number, or throws. */
  datatype Reply = Done | Counted(n: Num) | Threw

  /** A JavaScript number: an integer, or anything else. */
  datatype Num = Integer(value: int) | NotInteger

  const MAX_SAFE: int := 0x1F_FFFF_FFFF_FFFF

  /** The schema takes safe integers from zero up; None where it throws. */
  function ParseCount(r: Reply): Option<nat> {
    if r.Counted? && r.n.Integer? && 0 <= r.n.value <= MAX_SAFE then Some(r.n.value) else None
  }

  datatype Verdict = Verified | Shortfall(missing: nat) | Surplus(extra: nat)

  function VerifyPreservation(wanted: nat, committed: nat): Verdict {
    if committed < wanted then Shortfall(wanted - committed)
    else if committed > wanted then Surplus(committed - wanted)
    else Verified
  }

  /** The verdict on a count says by how much it is off. */
  lemma VerdictMeans(wanted: nat, committed: nat)
    ensures match VerifyPreservation(wanted, committed)
            case Verified => committed == wanted
            case Shortfall(missing) => missing > 0 && committed + missing == wanted
            case Surplus(extra) => extra > 0 && committed == wanted + extra
  {
  }

  /** What the port answers to its latest call, given every call so far. */
  type Port = seq<Call> -> Reply

  // ----------------------------------------------------------------- one target

  datatype Outcome = Skipped | Refused | Planned | Preserved | Failed | Short

  /** The calls one target causes after `before`, and how it ends. */
  function Handle(t: Target, port: Port, execute: bool, before: seq<Call>): (seq<Call>, Outcome) {
    match ClassifyPreservation(t)
    case Skip => ([], Skipped)
    case Refuse => ([], Refused)
    case Preserve(n) =>
      if !execute then ([], Planned)
      else
        var branch := t.branch.value;
        var staged := [StageAll(t.path)];
        if port(before + staged).Threw? then (staged, Failed)
        else
          var committed := staged + [Commit(t.path, branch, n)];
          if port(before + committed).Threw? then (committed, Failed)
          else
            var counted := committed + [CountCommitted(t.path)];
            var count := ParseCount(port(before + counted));
            if count.None? then (counted, Failed)
            else if !VerifyPreservation(n, count.value).Verified? then (counted, Short)
            else
              var pushed := counted + [PushBranch(t.path, branch)];
              if port(before + pushed).Threw? then (pushed, Failed) else (pushed, Preserved)
  }

  /** Every call of the first n targets. */
  function CallsOf(targets: seq<Target>, port: Port, execute: bool, n: nat): seq<Call>
    requires n <= |targets|
  {
    if n == 0 then []
    else
      var before := CallsOf(targets, port, execute, n - 1);
      before + Handle(targets[n - 1], port, execute, before).0
  }

  function OutcomeOf(targets: seq<Target>, port: Port, execute: bool, i: nat): Outcome
    requires i < |targets|
  {
    Handle(targets[i], port, execute, CallsOf(targets, port, execute, i)).1
  }

  datatype Summary = Summary(preserved: nat, refused: nat, failed: nat, shortfall: nat, skipped: nat)

  function Tally(targets: seq<Target>, port: Port, execute: bool, o: Outcome, n: nat): nat
    requires n <= |targets|
  {
    if n == 0 then 0
    else Tally(targets, port, execute, o, n - 1) + if OutcomeOf(targets, port, execute, n - 1) == o then 1 else 0
  }

  function SummaryOf(targets: seq<Target>, port: Port, execute: bool, n: nat): Summary
    requires n <= |targets|
  {
    Summary(Tally(targets, port, execute, Preserved, n), Tally(targets, port, execute, Refused, n),
            Tally(targets, port, execute, Failed, n), Tally(targets, port, execute, Short, n),
            Tally(targets, port, execute, Skipped, n))
  }

  function PreserveExitCode(s: Summary): int {
    if s.shortfall > 0 then 3 else if s.failed > 0 then 4 else if s.refused > 0 then 1 else 0
  }

  // ------------------------------------------------------------------ the sweep

  /** The write port as the sweep meets it: every call is made through `Ask` and recorded. */
  class Recorder {
    var calls: seq<Call>
    const port: Port

    constructor (port: Port)
      ensures calls == [] && this.port == port
    {
      calls := [];
      this.port := port;
    }

    method Ask(call: Call) returns (reply: Reply)
      modifies this
      ensures calls == old(calls) + [call] && reply == port(calls)
    {
      calls := calls + [call];
      reply := port(calls);
    }

    /** The body of the try block for one target. */
    method Attempt(t: Target, n: nat) returns (o: Outcome)
      requires ClassifyPreservation(t) == Preserve(n)
      modifies this
      ensures calls == old(calls) + Handle(t, port, true, old(calls)).0
      ensures o == Handle(t, port, true, old(calls)).1
    {
      ghost var before := calls;
      var branch := t.branch.value;
      var reply := Ask(StageAll(t.path));
      if reply.Threw? { return Failed; }
      reply := Ask(Commit(t.path, branch, n));
      assert calls == before + ([StageAll(t.path)] + [Commit(t.path, branch, n)]);
      if reply.Threw? { return Failed; }
      reply := Ask(CountCommitted(t.path));
      assert calls == before + ([StageAll(t.path)] + [Commit(t.path, branch, n)] + [CountCommitted(t.path)]);
      var count := ParseCount(reply);
      if count.None? { return Failed; }
      var verdict := VerifyPreservation(n, count.value);
      if !verdict.Verified? { return Short; }
      reply := Ask(PushBranch(t.path, branch));
      assert calls == before + ([StageAll(t.path)] + [Commit(t.path, branch, n)] + [CountCommitted(t.path)]
                                + [PushBranch(t.path, branch)]);
      if reply.Threw? { return Failed; }
      return Preserved;
    }

    method RunPreserve(targets: seq<Target>, execute: bool) returns (planned: nat, summary: Summary, exitCode: int)
      requires calls == []
      modifies this
      ensures calls == CallsOf(targets, port, execute, |targets|)
      ensures summary == SummaryOf(targets, port, execute, |targets|) && exitCode == PreserveExitCode(summary)
      ensures planned == |targets| - summary.skipped - summary.refused
    {
      summary := Summary(0, 0, 0, 0, 0);
      planned := 0;
      for i := 0 to |targets|
        invariant calls == CallsOf(targets, port, execute, i)
        invariant summary == SummaryOf(targets, port, execute, i)
        invariant planned == i - summary.skipped - summary.refused
      {
        var t := targets[i];
        var plan := ClassifyPreservation(t);
        assert calls + [] == calls;
        if plan.Skip? {
          summary := summary.(skipped := summary.skipped + 1);
          continue;
        }
        if plan.Refuse? {
          summary := summary.(refused := summary.refused + 1);
          continue;
        }
        planned := planned + 1;
        if !execute { continue; }
        var o := Attempt(t, plan.fileCount);
        match o {
          case Short => summary := summary.(shortfall := summary.shortfall + 1);
          case Preserved => summary := summary.(preserved := summary.preserved + 1);
          case Failed => summary := summary.(failed := summary.failed + 1);
          case _ =>
        }
      }
      exitCode := PreserveExitCode(summary);
    }
  }

  // --------------------------------------------------------------- main results

  /** The shape of one target's calls, whatever the port answers. */
  lemma HandleShape(t: Target, port: Port, execute: bool, before: seq<Call>)
    ensures var (calls, o) := Handle(t, port, execute, before);
            && (calls != [] <==> execute && ClassifyPreservation(t).Preserve?)
            && |calls| <= 4
            && (|calls| >= 1 ==> calls[0] == StageAll(t.path) && t.branch.Some?)
            && (|calls| >= 2 ==> calls[1] == Commit(t.path, t.branch.value, |t.entries|))
            && (|calls| >= 3 ==> calls[2] == CountCommitted(t.path))
            && (|calls| == 4 ==>
                  calls[3] == PushBranch(t.path, t.branch.value)
                  && ParseCount(port(before + calls[..3])) == Some(|t.entries|))
            && (o == Preserved <==> |calls| == 4 && !port(before + calls).Threw?)
            && (o == Short ==> |calls| == 3 && ParseCount(port(before + calls)).Some?
                               && ParseCount(port(before + calls)) != Some(|t.entries|))
            && (!execute ==> o in {Skipped, Refused, Planned})
            && (execute ==> o != Planned)
  {
    var calls := Handle(t, port, execute, before).0;
    if |calls| == 4 {
      assert calls[..3] ==
             [StageAll(t.path)] + [Commit(t.path, t.branch.value, |t.entries|)] + [CountCommitted(t.path)];
    }
  }

  lemma {:induction false} CallsGrow(targets: seq<Target>, port: Port, execute: bool, m: nat, n: nat)
    requires m <= n <= |targets|
    ensures CallsOf(targets, port, execute, m) <= CallsOf(targets, port, execute, n)
  {
    hide Handle;
    if m < n { CallsGrow(targets, port, execute, m, n - 1); }
  }

  /** The target that made the i-th call. */
  lemma {:induction false} CallBelongs(targets: seq<Target>, port: Port, execute: bool, n: nat, i: nat) returns (k: nat)
    requires n <= |targets| && i < |CallsOf(targets, port, execute, n)|
    ensures k < n
    ensures |CallsOf(targets, port, execute, k)| <= i < |CallsOf(targets, port, execute, k + 1)|
    ensures CallsOf(targets, port, execute, k + 1) <= CallsOf(targets, port, execute, n)
  {
    hide Handle;
    if i < |CallsOf(targets, port, execute, n - 1)| {
      k := CallBelongs(targets, port, execute, n - 1, i);
      CallsGrow(targets, port, execute, n - 1, n);
    } else {
      k := n - 1;
    }
  }

  /** The whole rescue of one worktree: stage, commit, count, push. */
  function Rescue(t: Target): seq<Call>
    requires t.branch.Some?
  {
    [StageAll(t.path), Commit(t.path, t.branch.value, |t.entries|), CountCommitted(t.path),
     PushBranch(t.path, t.branch.value)]
  }

  /** The port gave the number `n`, and it is a safe integer from zero up. */
  predicate CountRead(reply: Reply, n: int) {
    reply == Counted(Integer(n)) && 0 <= n <= 9_007_199_254_740_991
  }

  lemma ParsedIsRead(reply: Reply, n: nat)
    ensures ParseCount(reply) == Some(n) <==> CountRead(reply, n)
    ensures ParseCount(reply).None? <==> forall m :: !CountRead(reply, m)
  {
    if ParseCount(reply).Some? { assert CountRead(reply, ParseCount(reply).value); }
  }

  /** How a target ends, reply by reply. Skipped: nothing is dirty. Refused: dirty on no branch. Its
      calls are the rescue as far as no reply stopped it. Short: the count reads as another number than
      that of the dirty files. Failed: the last call threw, or the count does not read. Else preserved. */
  lemma OutcomeMeans(t: Target, port: Port, execute: bool, before: seq<Call>)
    ensures var (calls, o) := Handle(t, port, execute, before);
            && (o == Skipped <==> t.entries == [])
            && (o == Refused <==> t.entries != [] && t.branch.None?)
            && (o == Planned <==> t.entries != [] && t.branch.Some? && !execute)
            && (t.entries != [] && t.branch.Some? && execute ==>
                  && var rescue, made := Rescue(t), |calls|;
                  && 1 <= made <= 4 && calls == rescue[..made]
                  && (made >= 2 <==> !port(before + rescue[..1]).Threw?)
                  && (made >= 3 <==> made >= 2 && !port(before + rescue[..2]).Threw?)
                  && (made >= 4 <==> made >= 3 && CountRead(port(before + rescue[..3]), |t.entries|))
                  && var last := port(before + calls);
                  && (o == Short <==> made == 3 && exists n :: CountRead(last, n) && n != |t.entries|)
                  && (o == Failed <==> last.Threw? || (made == 3 && !exists n :: CountRead(last, n)))
                  && (o == Preserved <==> made == 4 && !last.Threw?))
  {
    if t.entries != [] && t.branch.Some? && execute {
      var rescue, branch := Rescue(t), t.branch.value;
      assert rescue[..1] == [StageAll(t.path)];
      assert rescue[..2] == [StageAll(t.path)] + [Commit(t.path, branch, |t.entries|)];
      assert rescue[..3] == [StageAll(t.path)] + [Commit(t.path, branch, |t.entries|)] + [CountCommitted(t.path)];
      assert rescue[..4] == rescue[..3] + [PushBranch(t.path, branch)];
      ParsedIsRead(port(before + rescue[..3]), |t.entries|);
    }
  }

  lemma PushEndsRescue(t: Target, port: Port, execute: bool, before: seq<Call>, j: nat)
    requires j < |Handle(t, port, execute, before).0| && Handle(t, port, execute, before).0[j].PushBranch?
    ensures j == 3 && t.branch.Some? && t.entries != []
    ensures Handle(t, port, execute, before).0 == Rescue(t)
    ensures ParseCount(port(before + Rescue(t)[..3])) == Some(|t.entries|)
  {
    HandleShape(t, port, execute, before);
    hide Handle;
    var calls := Handle(t, port, execute, before).0;
    assert |calls| == 4;
    assert calls == Rescue(t);
  }

  lemma BlockInLog(calls: seq<Call>, before: seq<Call>, block: seq<Call>, i: nat)
    requires |block| == 4 && before + block <= calls && i == |before| + 3
    ensures i < |calls| && calls[i - 3..i + 1] == block && calls[..i] == before + block[..3]
  {
  }

  /** A push always directly follows the stage, the commit and the count of its own target,
      and that count equalled the target's number of dirty files. */
  lemma PushFollowsMatchingCount(targets: seq<Target>, port: Port, execute: bool, i: nat) returns (k: nat)
    requires i < |CallsOf(targets, port, execute, |targets|)|
    requires CallsOf(targets, port, execute, |targets|)[i].PushBranch?
    ensures k < |targets| && targets[k].branch.Some? && targets[k].entries != []
    ensures i >= 3 && CallsOf(targets, port, execute, |targets|)[i - 3..i + 1] == Rescue(targets[k])
    ensures ParseCount(port(CallsOf(targets, port, execute, |targets|)[..i])) == Some(|targets[k].entries|)
  {
    var calls := CallsOf(targets, port, execute, |targets|);
    k := CallBelongs(targets, port, execute, |targets|, i);
    var before := CallsOf(targets, port, execute, k);
    var block := Handle(targets[k], port, execute, before).0;
    assert CallsOf(targets, port, execute, k + 1) == before + block;
    hide Handle, CallsOf, Rescue;
    assert calls[i] == (before + block)[i] == block[i - |before|];
    PushEndsRescue(targets[k], port, execute, before, i - |before|);
    assert |block| == 4 by { RescueLength(targets[k]); }
    BlockInLog(calls, before, block, i);
  }

  lemma RescueLength(t: Target)
    requires t.branch.Some?
    ensures |Rescue(t)| == 4
  {
  }

  /** A dry run never calls the port. */
  lemma {:induction false} DryRunIsInert(targets: seq<Target>, port: Port, n: nat)
    requires n <= |targets|
    ensures CallsOf(targets, port, false, n) == []
  {
    if n > 0 { DryRunIsInert(targets, port, n - 1); }
  }

  /** One target's failure never keeps another from being attempted: with consent, the log is
      one block per target in order, and the block is empty only for a clean or detached one. */
  lemma EveryTargetIsAttempted(targets: seq<Target>, port: Port, k: nat)
    requires k < |targets|
    ensures var before, after := CallsOf(targets, port, true, k), CallsOf(targets, port, true, k + 1);
            && before <= after <= CallsOf(targets, port, true, |targets|)
            && (ClassifyPreservation(targets[k]).Preserve? <==> before != after)
            && (before != after ==> after[|before|] == StageAll(targets[k].path))
  {
    CallsGrow(targets, port, true, k + 1, |targets|);
    HandleShape(targets[k], port, true, CallsOf(targets, port, true, k));
    hide Handle;
  }

  // ------------------------------------------------- one target apart from the rest

  /** The calls made on one worktree. */
  function Own(calls: seq<Call>, path: string): seq<Call> {
    if calls == [] then []
    else Own(calls[..|calls| - 1], path) + if calls[|calls| - 1].path == path then [calls[|calls| - 1]] else []
  }

  /** A port in which worktrees do not meet: the answer depends on what was asked of the same
      worktree, failures included, and on nothing else. */
  ghost predicate Local(port: Port) {
    forall calls: seq<Call> :: |calls| > 0 ==> port(calls) == port(Own(calls, calls[|calls| - 1].path))
  }

  predicate Only(calls: seq<Call>, path: string) {
    forall i | 0 <= i < |calls| :: calls[i].path == path
  }

  lemma {:induction false} OwnCat(a: seq<Call>, b: seq<Call>, path: string)
    ensures Own(a + b, path) == Own(a, path) + Own(b, path)
    decreases |b|
  {
    if b == [] {
      assert a + b == a;
    } else {
      OwnCat(a, b[..|b| - 1], path);
      assert (a + b)[..|a + b| - 1] == a + b[..|b| - 1];
    }
  }

  lemma {:induction false} OwnOnly(calls: seq<Call>, path: string, other: string)
    requires Only(calls, path)
    ensures Own(calls, other) == if path == other then calls else []
  {
    if calls != [] {
      OwnOnly(calls[..|calls| - 1], path, other);
      assert calls == calls[..|calls| - 1] + [calls[|calls| - 1]];
    }
  }

  lemma AnswersAlone(port: Port, before: seq<Call>, calls: seq<Call>, path: string)
    requires Local(port) && Own(before, path) == [] && Only(calls, path) && calls != []
    ensures port(before + calls) == port([] + calls)
  {
    OwnCat(before, calls, path);
    OwnOnly(calls, path, path);
    var all := before + calls;
    assert all[|all| - 1] == calls[|calls| - 1];
    assert [] + calls == calls;
  }

  lemma HandleAlone(t: Target, port: Port, execute: bool, before: seq<Call>)
    requires Local(port) && Own(before, t.path) == []
    ensures Handle(t, port, execute, before) == Handle(t, port, execute, [])
    ensures Only(Handle(t, port, execute, []).0, t.path)
  {
    hide Local, Own;
    if execute && ClassifyPreservation(t).Preserve? {
      var staged := [StageAll(t.path)];
      var committed := staged + [Commit(t.path, t.branch.value, |t.entries|)];
      var counted := committed + [CountCommitted(t.path)];
      var pushed := counted + [PushBranch(t.path, t.branch.value)];
      AnswersAlone(port, before, staged, t.path);
      AnswersAlone(port, before, committed, t.path);
      AnswersAlone(port, before, counted, t.path);
      AnswersAlone(port, before, pushed, t.path);
    }
  }

  predicate DistinctPaths(targets: seq<Target>) {
    forall i, j | 0 <= i < j < |targets| :: targets[i].path != targets[j].path
  }

  lemma OnlyNothing(path: string)
    ensures Only([], path) && forall other :: Own([], other) == []
  {
  }

  lemma {:induction false} OwnCallsOf(targets: seq<Target>, port: Port, execute: bool, n: nat, k: nat)
    requires Local(port) && DistinctPaths(targets) && n <= |targets| && k < |targets|
    ensures Own(CallsOf(targets, port, execute, n), targets[k].path) ==
            if k < n then Handle(targets[k], port, execute, []).0 else []
  {
    hide Handle, Local, Own, Only;
    if n == 0 {
      OnlyNothing("");
    } else {
      OwnCallsOf(targets, port, execute, n - 1, k);
      OwnCallsOf(targets, port, execute, n - 1, n - 1);
      var before, t := CallsOf(targets, port, execute, n - 1), targets[n - 1];
      HandleAlone(t, port, execute, before);
      OwnCat(before, Handle(t, port, execute, before).0, targets[k].path);
      OwnOnly(Handle(t, port, execute, []).0, t.path, targets[k].path);
      assert k != n - 1 ==> targets[k].path != targets[n - 1].path;
    }
  }

  /** With distinct worktrees, each target's calls and its outcome are those it would have had
      alone: nothing another target does, or suffers, alters them. */
  lemma TargetsAreIndependent(targets: seq<Target>, port: Port, execute: bool, k: nat)
    requires Local(port) && DistinctPaths(targets) && k < |targets|
    ensures Own(CallsOf(targets, port, execute, |targets|), targets[k].path) == CallsOf([targets[k]], port, execute, 1)
    ensures OutcomeOf(targets, port, execute, k) == OutcomeOf([targets[k]], port, execute, 0)
  {
    hide Handle, Local;
    OwnCallsOf(targets, port, execute, |targets|, k);
    OwnCallsOf(targets, port, execute, k, k);
    HandleAlone(targets[k], port, execute, CallsOf(targets, port, execute, k));
    var alone := Handle(targets[k], port, execute, []).0;
    assert CallsOf([targets[k]], port, execute, 0) == [];
    assert [] + alone == alone;
  }

  // -------------------------------------------------------------------- counters

  /** When executing, the five counters sum to the number of targets; in a dry run only
      clean and detached ones are counted, the rest are planned. */
  lemma {:induction false} CountersSum(targets: seq<Target>, port: Port, execute: bool, n: nat)
    requires n <= |targets|
    ensures var s := SummaryOf(targets, port, execute, n);
            && (execute ==> s.preserved + s.refused + s.failed + s.shortfall + s.skipped == n)
            && (!execute ==> s.preserved == s.failed == s.shortfall == 0 && s.refused + s.skipped <= n)
  {
    hide Handle;
    if n > 0 {
      CountersSum(targets, port, execute, n - 1);
      HandleShape(targets[n - 1], port, execute, CallsOf(targets, port, execute, n - 1));
    }
  }

  lemma {:induction false} TallyPositive(targets: seq<Target>, port: Port, execute: bool, o: Outcome, n: nat)
    requires n <= |targets|
    ensures Tally(targets, port, execute, o, n) > 0 <==>
              exists i: nat | i < n :: OutcomeOf(targets, port, execute, i) == o
  {
    hide OutcomeOf;
    if n > 0 { TallyPositive(targets, port, execute, o, n - 1); }
  }

  /** The exit code names the worst thing that happened to any target: files may be gone (3),
      git failed and the work is still uncommitted (4), a detached worktree was left (1). */
  lemma ExitNamesTheWorst(targets: seq<Target>, port: Port, execute: bool)
    ensures var code := PreserveExitCode(SummaryOf(targets, port, execute, |targets|));
            && (code == 3 <==> exists i: nat | i < |targets| :: OutcomeOf(targets, port, execute, i) == Short)
            && (code == 4 <==> (exists i: nat | i < |targets| :: OutcomeOf(targets, port, execute, i) == Failed)
                               && forall i: nat | i < |targets| :: OutcomeOf(targets, port, execute, i) != Short)
            && (code == 0 <==> forall i: nat | i < |targets| ::
                  OutcomeOf(targets, port, execute, i) in {Skipped, Planned, Preserved})
            && code in {0, 1, 3, 4}
  {
    hide OutcomeOf;
    TallyPositive(targets, port, execute, Short, |targets|);
    TallyPositive(targets, port, execute, Failed, |targets|);
    TallyPositive(targets, port, execute, Refused, |targets|);
  }
}
