/** Merging a pull request when its checks allow it: check verdicts, the four-way reading of
    a rollup, and the poll loop (scripts/check-conclusion.ts, scripts/check-rollup-source.ts,
    scripts/pr-automerge.ts). */
module AutoMerge {
  import opened Text

  // ------------------------------------------------------------------- verdicts

  const PASSING: set<string> := {"SUCCESS", "SKIPPED", "NEUTRAL"}
  const FAILING: set<string> := {"FAILURE", "STARTUP_FAILURE", "ACTION_REQUIRED"}
  const INDETERMINATE: set<string> := {"CANCELLED", "STALE", "TIMED_OUT"}

  datatype Verdict = Pass | Fail | Indeterminate | Pending | Unclassified

  datatype CheckRun = CheckRun(name: string, conclusion: Option<string>)

  function VerdictFor(conclusion: Option<string>): Verdict {
    if conclusion.None? then Pending
    else if conclusion.value in PASSING then Pass
    else if conclusion.value in FAILING then Fail
    else if conclusion.value in INDETERMINATE then Indeterminate
    else Unclassified
  }

  function NamesWith(runs: seq<CheckRun>, v: Verdict): seq<string> {
    if runs == [] then []
    else
      var last := runs[|runs| - 1];
      NamesWith(runs[..|runs| - 1], v) + if VerdictFor(last.conclusion) == v then [last.name] else []
  }

  datatype Summary = Summary(
    total: nat, passed: seq<string>, failed: seq<string>, indeterminate: seq<string>,
    pending: seq<string>, unclassified: seq<string>, settled: bool, green: bool, needsRerun: bool)

  function SummaryOf(runs: seq<CheckRun>): Summary {
    var failed, indeterminate := NamesWith(runs, Fail), NamesWith(runs, Indeterminate);
    var pending, unclassified := NamesWith(runs, Pending), NamesWith(runs, Unclassified);
    Summary(|runs|, NamesWith(runs, Pass), failed, indeterminate, pending, unclassified, pending == [],
            pending == [] && failed == [] && indeterminate == [] && unclassified == [] && |runs| > 0,
            pending == [] && failed == [] && unclassified == [] && indeterminate != [])
  }

  method SummarizeRollup(runs: seq<CheckRun>) returns (s: Summary)
    ensures s == SummaryOf(runs)
  {
    hide VerdictFor;
    var passed: seq<string>, failed: seq<string>, indeterminate: seq<string> := [], [], [];
    var pending: seq<string>, unclassified: seq<string> := [], [];
    for i := 0 to |runs|
      invariant passed == NamesWith(runs[..i], Pass) && failed == NamesWith(runs[..i], Fail)
      invariant indeterminate == NamesWith(runs[..i], Indeterminate)
      invariant pending == NamesWith(runs[..i], Pending) && unclassified == NamesWith(runs[..i], Unclassified)
    {
      assert runs[..i + 1][..i] == runs[..i];
      var name := runs[i].name;
      match VerdictFor(runs[i].conclusion) {
        case Pass => passed := passed + [name];
        case Fail => failed := failed + [name];
        case Indeterminate => indeterminate := indeterminate + [name];
        case Pending => pending := pending + [name];
        case Unclassified => unclassified := unclassified + [name];
      }
    }
    assert runs[..|runs|] == runs;
    var settled := |pending| == 0;
    var green := settled && |failed| == 0 && |indeterminate| == 0 && |unclassified| == 0 && |runs| > 0;
    var needsRerun := settled && |failed| == 0 && |unclassified| == 0 && |indeterminate| > 0;
    s := Summary(|runs|, passed, failed, indeterminate, pending, unclassified, settled, green, needsRerun);
  }

  predicate Has(runs: seq<CheckRun>, v: Verdict) {
    exists i | 0 <= i < |runs| :: VerdictFor(runs[i].conclusion) == v
  }

  lemma {:induction false} NamesWithIs(runs: seq<CheckRun>, v: Verdict)
    ensures NamesWith(runs, v) != [] <==> Has(runs, v)
    ensures forall n :: n in NamesWith(runs, v) <==>
              exists i | 0 <= i < |runs| :: runs[i].name == n && VerdictFor(runs[i].conclusion) == v
  {
    hide VerdictFor;
    if runs != [] {
      var init := runs[..|runs| - 1];
      NamesWithIs(init, v);
      assert forall i | 0 <= i < |init| :: init[i] == runs[i];
    }
  }

  /** Every check is in exactly one of the five lists. */
  lemma {:induction false} ListsPartition(runs: seq<CheckRun>)
    ensures |NamesWith(runs, Pass)| + |NamesWith(runs, Fail)| + |NamesWith(runs, Indeterminate)|
            + |NamesWith(runs, Pending)| + |NamesWith(runs, Unclassified)| == |runs|
  {
    hide VerdictFor;
    if runs != [] { ListsPartition(runs[..|runs| - 1]); }
  }

  // ------------------------------------------------------ the conclusions themselves

  predicate Passes(c: CheckRun) {
    c.conclusion == Some("SUCCESS") || c.conclusion == Some("SKIPPED") || c.conclusion == Some("NEUTRAL")
  }

  predicate Fails(c: CheckRun) {
    || c.conclusion == Some("FAILURE") || c.conclusion == Some("STARTUP_FAILURE")
    || c.conclusion == Some("ACTION_REQUIRED")
  }

  /** Concluded without a verdict on the code. */
  predicate Undecided(c: CheckRun) {
    c.conclusion == Some("CANCELLED") || c.conclusion == Some("STALE") || c.conclusion == Some("TIMED_OUT")
  }

  predicate AllPass(runs: seq<CheckRun>) {
    runs != [] && forall i | 0 <= i < |runs| :: Passes(runs[i])
  }

  predicate SomeFails(runs: seq<CheckRun>) {
    exists i | 0 <= i < |runs| :: Fails(runs[i])
  }

  /** Nothing fails, waits or cannot be read, and something is undecided. */
  predicate RerunDue(runs: seq<CheckRun>) {
    (exists i | 0 <= i < |runs| :: Undecided(runs[i]))
    && forall i | 0 <= i < |runs| :: Passes(runs[i]) || Undecided(runs[i])
  }

  /** Which conclusion carries which verdict: three each, none is pending, any other unknown. */
  lemma VerdictMeans(c: CheckRun)
    ensures VerdictFor(c.conclusion) == Pass <==> Passes(c)
    ensures VerdictFor(c.conclusion) == Fail <==> Fails(c)
    ensures VerdictFor(c.conclusion) == Indeterminate <==> Undecided(c)
    ensures VerdictFor(c.conclusion) == Pending <==> c.conclusion == None
  {
  }

  lemma HasMeans(runs: seq<CheckRun>)
    ensures Has(runs, Fail) <==> SomeFails(runs)
    ensures Has(runs, Indeterminate) <==> exists i | 0 <= i < |runs| :: Undecided(runs[i])
  {
    hide VerdictFor, Fails, Undecided;
    forall c: CheckRun
      ensures VerdictFor(c.conclusion) == Fail <==> Fails(c)
      ensures VerdictFor(c.conclusion) == Indeterminate <==> Undecided(c)
    {
      VerdictMeans(c);
    }
  }

  /** The lists are those of the conclusions, green is at least one check and every one concluded
      SUCCESS, SKIPPED or NEUTRAL, and a rerun is due exactly when all passed or were cancelled, went
      stale or timed out, and some did not pass. */
  lemma SummaryMeans(runs: seq<CheckRun>)
    ensures SummaryOf(runs).green <==> AllPass(runs)
    ensures SummaryOf(runs).needsRerun <==> RerunDue(runs)
    ensures SummaryOf(runs).settled <==> forall i | 0 <= i < |runs| :: runs[i].conclusion != None
    ensures SummaryOf(runs).failed != [] <==> SomeFails(runs)
    ensures SummaryOf(runs).total == |runs|
  {
    hide VerdictFor, NamesWith, Passes, Fails, Undecided;
    NamesWithIs(runs, Fail);
    NamesWithIs(runs, Indeterminate);
    NamesWithIs(runs, Pending);
    NamesWithIs(runs, Unclassified);
    HasMeans(runs);
    forall i | 0 <= i < |runs|
      ensures VerdictFor(runs[i].conclusion) == Pass <==> Passes(runs[i])
      ensures VerdictFor(runs[i].conclusion) == Indeterminate <==> Undecided(runs[i])
      ensures VerdictFor(runs[i].conclusion) == Pending <==> runs[i].conclusion == None
      ensures VerdictFor(runs[i].conclusion) != Pass ==>
                Has(runs, Fail) || Has(runs, Indeterminate) || Has(runs, Pending) || Has(runs, Unclassified)
    {
      VerdictMeans(runs[i]);
      match VerdictFor(runs[i].conclusion) {
        case Pass =>
        case Fail =>
        case Indeterminate =>
        case Pending =>
        case Unclassified =>
      }
    }
  }

  // ------------------------------------------------------------ reading a rollup

  /** One value of the JSON gh prints, as far as the schema looks at it. */
  datatype Field = Absent | Null | Str(text: string) | Other

  datatype RawCheck = NotAnObject | RawCheck(name: Field, status: Field, conclusion: Field)

  datatype RollupValue = NoValue | NotAnArray | Checks(checks: seq<RawCheck>)

  datatype Payload = NotJson | NotObject | Object(rollup: RollupValue)

  datatype Classification = Runs(runs: seq<CheckRun>) | NoneYet | Unavailable | Unparseable

  /** Three spellings of "not concluded yet"; beyond them only the known conclusions pass. */
  function ParseCheck(c: RawCheck): Option<CheckRun> {
    if c.NotAnObject? || !c.name.Str? || !c.status.Str? then None
    else
      match c.conclusion
      case Absent => Some(CheckRun(c.name.text, None))
      case Null => Some(CheckRun(c.name.text, None))
      case Other => None
      case Str(t) =>
        if t == "" then Some(CheckRun(c.name.text, None))
        else if t in PASSING + FAILING + INDETERMINATE then Some(CheckRun(c.name.text, Some(t)))
        else None
  }

  function ParseChecks(cs: seq<RawCheck>): (r: Option<seq<CheckRun>>)
    ensures r.Some? <==> forall i | 0 <= i < |cs| :: ParseCheck(cs[i]).Some?
    ensures r.Some? ==> |r.value| == |cs| && forall i | 0 <= i < |cs| :: ParseCheck(cs[i]) == Some(r.value[i])
  {
    if cs == [] then Some([])
    else
      var init, last := ParseChecks(cs[..|cs| - 1]), ParseCheck(cs[|cs| - 1]);
      if init.None? || last.None? then None else Some(init.value + [last.value])
  }

  function ClassifyRollup(raw: string, exitCode: Option<int>, parse: string -> Payload): Classification {
    if Trim(raw) == "" then
      if exitCode.Some? && exitCode.value != 0 then Unavailable else NoneYet
    else
      match parse(raw)
      case NotJson => Unparseable
      case NotObject => Unparseable
      case Object(NoValue) => NoneYet
      case Object(NotAnArray) => Unparseable
      case Object(Checks(cs)) =>
        var runs := ParseChecks(cs);
        if runs.None? then Unparseable else if runs.value == [] then NoneYet else Runs(runs.value)
  }

  /** A check the schema accepts, and the run it stands for: its own name, no conclusion for the three
      spellings of "not yet", or one of the nine known ones. */
  predicate ReadFrom(c: RawCheck, run: CheckRun) {
    && c.RawCheck? && c.name == Str(run.name) && c.status.Str?
    && if run.conclusion == None
       then c.conclusion == Absent || c.conclusion == Null || c.conclusion == Str("")
       else c.conclusion == Str(run.conclusion.value) && (Passes(run) || Fails(run) || Undecided(run))
  }

  lemma CheckIsRead(c: RawCheck, run: CheckRun)
    ensures ParseCheck(c) == Some(run) <==> ReadFrom(c, run)
  {
  }

  ghost predicate Acceptable(c: RawCheck) {
    exists run :: ReadFrom(c, run)
  }

  lemma AcceptedIff(c: RawCheck)
    ensures ParseCheck(c).Some? <==> Acceptable(c)
    ensures ParseCheck(c).Some? ==> ReadFrom(c, ParseCheck(c).value)
  {
    hide ParseCheck, ReadFrom;
    if ParseCheck(c).Some? { CheckIsRead(c, ParseCheck(c).value); }
    if run :| ReadFrom(c, run) { CheckIsRead(c, run); }
  }

  /** The four readings, exactly. Checks reach the decision only whole, never empty, each as its own
      run; one the schema refuses makes the rollup unparseable; no output is transient only where gh
      failed. */
  lemma ClassificationMeans(raw: string, exitCode: Option<int>, parse: string -> Payload)
    ensures var c, blank := ClassifyRollup(raw, exitCode, parse), Trim(raw) == "";
            && (c.Unavailable? <==> blank && exitCode != None && exitCode != Some(0))
            && (c.NoneYet? <==>
                  if blank then exitCode == None || exitCode == Some(0)
                  else parse(raw) == Object(NoValue) || parse(raw) == Object(Checks([])))
            && (c.Runs? <==>
                  && !blank && parse(raw).Object? && parse(raw).rollup.Checks? && parse(raw).rollup.checks != []
                  && forall k | 0 <= k < |parse(raw).rollup.checks| :: Acceptable(parse(raw).rollup.checks[k]))
            && (c.Runs? ==>
                  && |c.runs| == |parse(raw).rollup.checks|
                  && forall k | 0 <= k < |c.runs| :: ReadFrom(parse(raw).rollup.checks[k], c.runs[k]))
  {
    hide Trim, ParseCheck, ReadFrom, Acceptable;
    if parse(raw).Object? && parse(raw).rollup.Checks? {
      var cs := parse(raw).rollup.checks;
      forall k | 0 <= k < |cs|
        ensures ParseCheck(cs[k]).Some? <==> Acceptable(cs[k])
        ensures ParseCheck(cs[k]).Some? ==> ReadFrom(cs[k], ParseCheck(cs[k]).value)
      {
        AcceptedIff(cs[k]);
      }
    }
  }

  // ------------------------------------------------------------------ the decisions

  datatype PrView = PrView(state: string, isDraft: bool, mergeable: string, autoMergeEnabled: bool)

  datatype Precondition = Enable | Skip | PreBlocked

  /** `upper` is `toUpperCase`, of which nothing is assumed. */
  type Upper = string -> string

  function DecideAutoMerge(pr: PrView, upper: Upper): Precondition {
    if upper(pr.state) == "MERGED" || upper(pr.state) == "CLOSED" || pr.autoMergeEnabled then Skip
    else if pr.isDraft || upper(pr.mergeable) == "CONFLICTING" then PreBlocked
    else Enable
  }

  datatype Ready = Merge | UpdateBranch | Rerun | Wait | Blocked

  function DecideMergeReady(sum: Summary, mergeStateStatus: string, upper: Upper): Ready {
    var mss := upper(mergeStateStatus);
    if |sum.failed| > 0 then Blocked
    else if mss == "DIRTY" then Blocked
    else if sum.needsRerun then Rerun
    else if !sum.green then Wait
    else if mss == "CLEAN" || mss == "HAS_HOOKS" then Merge
    else if mss == "BEHIND" then UpdateBranch
    else Wait
  }

  /** What each decision says about the checks themselves. */
  lemma ReadyMeans(runs: seq<CheckRun>, mss: string, upper: Upper)
    ensures var r := DecideMergeReady(SummaryOf(runs), mss, upper);
            && (r == Merge <==> AllPass(runs) && (upper(mss) == "CLEAN" || upper(mss) == "HAS_HOOKS"))
            && (r == UpdateBranch <==> AllPass(runs) && upper(mss) == "BEHIND")
            && (r == Blocked <==> SomeFails(runs) || upper(mss) == "DIRTY")
            && (r == Rerun <==> RerunDue(runs) && upper(mss) != "DIRTY")
  {
    SummaryMeans(runs);
    VerdictsApart(runs);
    hide SummaryOf, AllPass, SomeFails, RerunDue;
  }

  lemma VerdictsApart(runs: seq<CheckRun>)
    ensures !(AllPass(runs) && SomeFails(runs)) && !(AllPass(runs) && RerunDue(runs))
    ensures !(RerunDue(runs) && SomeFails(runs))
  {
  }

  // -------------------------------------------------------------------- the poll loop

  datatype Config = Config(timeoutMinutes: nat, intervalSeconds: nat, maxReruns: nat)

  datatype View = View(pr: Option<PrView>, mergeStateStatus: string)

  /** What one poll meets: the rollup, the view, how `gh pr merge` would answer, and the
      clock at the end of the poll. */
  datatype Poll = Poll(rollup: Classification, view: View, mergeCode: int, now: int)

  /** One poll's effect: the command it issues, and the exit code it stops with. */
  datatype Step = Step(act: Option<Ready>, stop: Option<int>)

  function ActOnChecks(cfg: Config, runs: seq<CheckRun>, poll: Poll, reruns: nat, upper: Upper): Step {
    match DecideMergeReady(SummaryOf(runs), poll.view.mergeStateStatus, upper)
    case Blocked => Step(None, Some(1))
    case Rerun => if reruns >= cfg.maxReruns then Step(None, Some(1)) else Step(Some(Rerun), None)
    case UpdateBranch => Step(Some(UpdateBranch), None)
    case Merge => Step(Some(Merge), if poll.mergeCode == 0 then Some(0) else None)
    case Wait => Step(None, None)
  }

  predicate Merged(poll: Poll, upper: Upper) {
    poll.view.pr.Some? && upper(poll.view.pr.value.state) == "MERGED"
  }

  function PollStep(cfg: Config, poll: Poll, reruns: nat, deadline: int, upper: Upper): Step {
    if Merged(poll, upper) then Step(None, Some(0))
    else
      var s := match poll.rollup
               case Unparseable => Step(None, Some(1))
               case Unavailable => Step(None, None)
               case NoneYet => Step(None, None)
               case Runs(runs) => ActOnChecks(cfg, runs, poll, reruns, upper);
      if s.stop.None? && poll.now >= deadline then s.(stop := Some(3)) else s
  }

  type World = nat -> Poll

  /** Reruns issued in the first n polls of a run that has not stopped. */
  function RerunCount(cfg: Config, world: World, n: nat, deadline: int, upper: Upper): nat {
    if n == 0 then 0
    else
      var before := RerunCount(cfg, world, n - 1, deadline, upper);
      before + if PollStep(cfg, world(n - 1), before, deadline, upper).act == Some(Rerun) then 1 else 0
  }

  function StepAt(cfg: Config, world: World, k: nat, deadline: int, upper: Upper): Step {
    PollStep(cfg, world(k), RerunCount(cfg, world, k, deadline, upper), deadline, upper)
  }

  /** The commands issued in the first n polls, each with its poll. */
  function Log(cfg: Config, world: World, n: nat, deadline: int, upper: Upper): seq<(nat, Ready)> {
    if n == 0 then []
    else
      var act := StepAt(cfg, world, n - 1, deadline, upper).act;
      Log(cfg, world, n - 1, deadline, upper) + if act.Some? then [(n - 1, act.value)] else []
  }

  /** Each pause advances the clock by the interval. */
  ghost predicate ClockRuns(cfg: Config, world: World, start: int) {
    world(0).now >= start && forall k: nat :: Advances(cfg, world, k)
  }

  predicate Advances(cfg: Config, world: World, k: nat) {
    world(k + 1).now >= world(k).now + cfg.intervalSeconds * 1000
  }

  lemma {:induction false} ClockAtPoll(cfg: Config, world: World, start: int, k: nat)
    requires ClockRuns(cfg, world, start)
    ensures world(k).now >= start + k * (cfg.intervalSeconds * 1000)
  {
    if k > 0 {
      ClockAtPoll(cfg, world, start, k - 1);
      assert Advances(cfg, world, k - 1);
      assert k * (cfg.intervalSeconds * 1000) == (k - 1) * (cfg.intervalSeconds * 1000) + cfg.intervalSeconds * 1000;
    }
  }

  /** The whole command after argument parsing. `polls` is 0 where it ends before polling. */
  method PollUntilDone(cfg: Config, first: View, world: World, start: int, upper: Upper)
    returns (code: int, polls: nat, log: seq<(nat, Ready)>)
    requires cfg.intervalSeconds > 0 && ClockRuns(cfg, world, start)
    ensures polls > 0 <==>
              && first.pr.Some?
              && var pr := first.pr.value;
              && upper(pr.state) != "MERGED" && upper(pr.state) != "CLOSED" && !pr.autoMergeEnabled
              && !pr.isDraft && upper(pr.mergeable) != "CONFLICTING"
    ensures polls == 0 && code == 0 <==>
              && first.pr.Some?
              && var pr := first.pr.value;
              upper(pr.state) == "MERGED" || upper(pr.state) == "CLOSED" || pr.autoMergeEnabled
    ensures polls == 0 ==> code == 0 || code == 1
    ensures var deadline := start + cfg.timeoutMinutes * 60_000;
            && log == Log(cfg, world, polls, deadline, upper)
            && (polls > 0 ==> StepAt(cfg, world, polls - 1, deadline, upper).stop == Some(code))
            && forall k: nat | k < polls - 1 :: StepAt(cfg, world, k, deadline, upper).stop.None?
  {
    hide PollStep, ClockRuns;
    polls, log := 0, [];
    if first.pr.None? { return 1, 0, []; }
    var pre := DecideAutoMerge(first.pr.value, upper);
    if pre.Skip? { return 0, 0, []; }
    if pre.PreBlocked? { return 1, 0, []; }
    var deadline := start + cfg.timeoutMinutes * 60_000;
    var reruns := 0;
    while true
      invariant reruns == RerunCount(cfg, world, polls, deadline, upper)
      invariant log == Log(cfg, world, polls, deadline, upper)
      invariant forall k: nat | k < polls :: StepAt(cfg, world, k, deadline, upper).stop.None?
      invariant polls > 0 ==> polls - 1 < cfg.timeoutMinutes * 60_000
      decreases cfg.timeoutMinutes * 60_000 - polls
    {
      var step := PollStep(cfg, world(polls), reruns, deadline, upper);
      assert step == StepAt(cfg, world, polls, deadline, upper);
      if step.act == Some(Rerun) { reruns := reruns + 1; }
      if step.act.Some? { log := log + [(polls, step.act.value)]; }
      polls := polls + 1;
      if step.stop.Some? { return step.stop.value, polls, log; }
      StopsByDeadline(cfg, world, start, polls - 1, upper);
    }
  }

  /** A poll that goes on was before the deadline, so polls are bounded by the clock. */
  lemma StopsByDeadline(cfg: Config, world: World, start: int, k: nat, upper: Upper)
    requires cfg.intervalSeconds > 0 && ClockRuns(cfg, world, start)
    requires StepAt(cfg, world, k, start + cfg.timeoutMinutes * 60_000, upper).stop.None?
    ensures world(k).now < start + cfg.timeoutMinutes * 60_000
    ensures k * (cfg.intervalSeconds * 1000) < cfg.timeoutMinutes * 60_000
    ensures k < cfg.timeoutMinutes * 60_000
  {
    hide DecideMergeReady, SummaryOf;
    ClockAtPoll(cfg, world, start, k);
    assert k <= k * (cfg.intervalSeconds * 1000) by { ProductGrows(k, cfg.intervalSeconds * 1000); }
  }

  lemma ProductGrows(k: nat, m: nat)
    requires m >= 1
    ensures k <= k * m
  {
  }

  // ----------------------------------------------------------------- over whole runs

  /** A merge is issued only in a poll that shows at least one check, every check passing,
      and GitHub's state CLEAN or HAS_HOOKS; likewise for the other commands. */
  lemma {:induction false} CommandsAreWarranted(cfg: Config, world: World, n: nat, deadline: int, upper: Upper, i: nat)
    requires i < |Log(cfg, world, n, deadline, upper)|
    ensures var (k, act) := Log(cfg, world, n, deadline, upper)[i];
            && k < n && !Merged(world(k), upper) && world(k).rollup.Runs?
            && var runs, mss := world(k).rollup.runs, upper(world(k).view.mergeStateStatus);
            && (act == Merge ==> AllPass(runs) && (mss == "CLEAN" || mss == "HAS_HOOKS"))
            && (act == UpdateBranch ==> AllPass(runs) && mss == "BEHIND")
            && (act == Rerun ==> RerunDue(runs) && mss != "DIRTY")
            && act != Wait && act != Blocked
  {
    hide SummaryOf, DecideMergeReady, AllPass, RerunDue, SomeFails;
    if i == |Log(cfg, world, n, deadline, upper)| - 1 && StepAt(cfg, world, n - 1, deadline, upper).act.Some? {
      var runs := world(n - 1).rollup.runs;
      ReadyMeans(runs, world(n - 1).view.mergeStateStatus, upper);
    } else {
      CommandsAreWarranted(cfg, world, n - 1, deadline, upper, i);
    }
  }

  /** Never more reruns than the budget. */
  lemma {:induction false} RerunsWithinBudget(cfg: Config, world: World, n: nat, deadline: int, upper: Upper)
    ensures RerunCount(cfg, world, n, deadline, upper) <= cfg.maxReruns
  {
    hide DecideMergeReady, SummaryOf;
    if n > 0 { RerunsWithinBudget(cfg, world, n - 1, deadline, upper); }
  }

  function CountOf(log: seq<(nat, Ready)>, act: Ready): nat {
    if log == [] then 0 else CountOf(log[..|log| - 1], act) + if log[|log| - 1].1 == act then 1 else 0
  }

  lemma {:induction false} LoggedReruns(cfg: Config, world: World, n: nat, deadline: int, upper: Upper)
    ensures CountOf(Log(cfg, world, n, deadline, upper), Rerun) == RerunCount(cfg, world, n, deadline, upper)
    ensures RerunCount(cfg, world, n, deadline, upper) <= cfg.maxReruns
  {
    hide PollStep;
    RerunsWithinBudget(cfg, world, n, deadline, upper);
    if n > 0 {
      LoggedReruns(cfg, world, n - 1, deadline, upper);
      var log := Log(cfg, world, n, deadline, upper);
      var act := StepAt(cfg, world, n - 1, deadline, upper).act;
      var before := Log(cfg, world, n - 1, deadline, upper);
      if act.Some? {
        assert log == before + [(n - 1, act.value)] && log[..|log| - 1] == before;
      } else {
        assert log == before;
      }
    }
  }

  /** The exit code of a poll, exactly. 0: the request is merged, or this poll merged it. 1: the
      rollup cannot be read, a check failed, the branch is dirty, or a rerun is due beyond the budget.
      3: none of these, at or past the deadline. Otherwise the loop goes on. */
  lemma ExitMeans(cfg: Config, world: World, k: nat, deadline: int, upper: Upper)
    ensures var step, poll := StepAt(cfg, world, k, deadline, upper), world(k);
            var merged := poll.view.pr.Some? && upper(poll.view.pr.value.state) == "MERGED";
            var mss := upper(poll.view.mergeStateStatus);
            var merges := poll.rollup.Runs? && AllPass(poll.rollup.runs) && (mss == "CLEAN" || mss == "HAS_HOOKS");
            var stuck := || poll.rollup.Unparseable?
                         || (poll.rollup.Runs?
                             && var runs := poll.rollup.runs;
                             || SomeFails(runs) || mss == "DIRTY"
                             || (RerunDue(runs) && RerunCount(cfg, world, k, deadline, upper) == cfg.maxReruns));
            && (step.stop == Some(0) <==> merged || (merges && poll.mergeCode == 0))
            && (step.stop == Some(1) <==> !merged && stuck)
            && (step.stop == Some(3) <==>
                  !merged && !stuck && !(merges && poll.mergeCode == 0) && poll.now >= deadline)
            && (step.stop == None <==>
                  !merged && !stuck && !(merges && poll.mergeCode == 0) && poll.now < deadline)
            && (step.act == Some(Merge) <==> !merged && merges)
            && (step.act == Some(UpdateBranch) <==>
                  !merged && poll.rollup.Runs? && AllPass(poll.rollup.runs) && mss == "BEHIND")
            && (step.act == Some(Rerun) <==>
                  !merged && !stuck && poll.rollup.Runs? && RerunDue(poll.rollup.runs))
  {
    hide SummaryOf, DecideMergeReady, AllPass, SomeFails, RerunDue;
    RerunsWithinBudget(cfg, world, k, deadline, upper);
    if world(k).rollup.Runs? {
      ReadyMeans(world(k).rollup.runs, world(k).view.mergeStateStatus, upper);
      VerdictsApart(world(k).rollup.runs);
    }
  }
}
