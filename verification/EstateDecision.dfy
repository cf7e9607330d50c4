/** The policy that turns readings into reasons, and the decision over a whole estate
    (scripts/estate-policy.ts, scripts/estate-vocabulary.ts, scripts/estate-action.ts,
    scripts/estate-verify.ts). */
module EstateDecision {
  import opened Text
  import opened Ordering
  import opened EstateDigest

  // ------------------------------------------------------------------- the policy

  datatype Reason = Dirty | Unpushed | Stash | Prunable | Locked
  datatype Kind = WorkInProgress | Structural
  datatype Field = DirtyFileCount | AheadOfRemote | StashCount | PrunableFlag | LockedFlag

  const ESTATE_REASONS: seq<Reason> := [Dirty, Unpushed, Stash, Prunable, Locked]

  datatype Policy = Policy(
    kind: Reason -> Kind, trigger: Reason -> Field, suppressed: seq<Reason>, precedence: seq<Kind>)

  const BASE_KIND: Reason -> Kind :=
    (r: Reason) => match r case Dirty => WorkInProgress case Unpushed => WorkInProgress case Stash => WorkInProgress
                           case Prunable => Structural case Locked => Structural

  const BASE_TRIGGER: Reason -> Field :=
    (r: Reason) => match r case Dirty => DirtyFileCount case Unpushed => AheadOfRemote case Stash => StashCount
                           case Prunable => PrunableFlag case Locked => LockedFlag

  const ESTATE_POLICY: Policy := Policy(BASE_KIND, BASE_TRIGGER, [], [Structural, WorkInProgress])
  const PUSH_POLICY: Policy := Policy(BASE_KIND, BASE_TRIGGER, [Unpushed], [Structural, WorkInProgress])

  /** The reading is not its default: a count above zero, a flag that is set. */
  predicate NonDefault(s: State, f: Field) {
    match f
    case DirtyFileCount => s.dirtyFileCount > 0
    case AheadOfRemote => s.aheadOfRemote > 0
    case StashCount => s.stashCount > 0
    case PrunableFlag => s.prunable
    case LockedFlag => s.locked
  }

  predicate Raises(s: State, policy: Policy, r: Reason) {
    r !in policy.suppressed && NonDefault(s, policy.trigger(r))
  }

  function Those(keep: Reason -> bool, n: nat): (rs: seq<Reason>)
    requires n <= |ESTATE_REASONS|
    ensures forall r :: r in rs <==> r in ESTATE_REASONS[..n] && keep(r)
  {
    if n == 0 then []
    else
      assert ESTATE_REASONS[..n] == ESTATE_REASONS[..n - 1] + [ESTATE_REASONS[n - 1]];
      Those(keep, n - 1) + if keep(ESTATE_REASONS[n - 1]) then [ESTATE_REASONS[n - 1]] else []
  }

  /** The reasons that pass a test, in declaration order. */
  function Filtered(keep: Reason -> bool): (rs: seq<Reason>)
    ensures forall r :: r in rs <==> keep(r)
  {
    EveryReason();
    Those(keep, 5)
  }

  lemma EveryReason()
    ensures forall r: Reason :: r in ESTATE_REASONS
    ensures ESTATE_REASONS[..5] == ESTATE_REASONS
  {
    forall r: Reason ensures r in ESTATE_REASONS {
      assert ESTATE_REASONS[0] == Dirty && ESTATE_REASONS[1] == Unpushed && ESTATE_REASONS[2] == Stash
             && ESTATE_REASONS[3] == Prunable && ESTATE_REASONS[4] == Locked;
      match r { case Dirty => case Unpushed => case Stash => case Prunable => case Locked => }
    }
  }

  lemma {:induction false} SameTestSameReasons(a: Reason -> bool, b: Reason -> bool, n: nat)
    requires n <= |ESTATE_REASONS| && forall r :: a(r) == b(r)
    ensures Those(a, n) == Those(b, n)
  {
    if n > 0 { SameTestSameReasons(a, b, n - 1); }
  }

  function ReasonsUnder(s: State, policy: Policy): seq<Reason> {
    Filtered((r: Reason) => Raises(s, policy, r))
  }

  datatype Problem = Problem(path: string, branch: string, reasons: seq<Reason>)

  function Problems(states: seq<State>, policy: Policy): seq<Problem> {
    if states == [] then []
    else
      var s := states[|states| - 1];
      var reasons := ReasonsUnder(s, policy);
      Problems(states[..|states| - 1], policy) + if reasons != [] then [Problem(s.path, s.branch, reasons)] else []
  }

  const PROBLEM_PATH: Problem -> string := (p: Problem) => p.path

  /** `clean` is `problems == []`. */
  datatype Verdict = Verdict(checked: nat, problems: seq<Problem>)

  function Classified(states: seq<State>, policy: Policy): Verdict {
    Verdict(|states|, SortBy(Problems(states, policy), PROBLEM_PATH))
  }

  method ClassifyEstate(states: seq<State>, policy: Policy) returns (verdict: Verdict)
    ensures verdict == Classified(states, policy)
  {
    hide ReasonsUnder;
    var problems: seq<Problem> := [];
    for i := 0 to |states|
      invariant problems == Problems(states[..i], policy)
    {
      var reasons := ReasonsUnder(states[i], policy);
      if |reasons| > 0 {
        problems := problems + [Problem(states[i].path, states[i].branch, reasons)];
      }
      assert states[..i + 1][..i] == states[..i];
    }
    assert states[..|states|] == states;
    problems := SortBy(problems, PROBLEM_PATH);
    verdict := Verdict(|states|, problems);
  }

  predicate Reported(problems: seq<Problem>, r: Reason) {
    exists i | 0 <= i < |problems| :: r in problems[i].reasons
  }

  function ReasonsAcross(problems: seq<Problem>): seq<Reason> {
    Filtered((r: Reason) => Reported(problems, r))
  }

  method CollectReasons(problems: seq<Problem>) returns (reasons: seq<Reason>)
    ensures reasons == ReasonsAcross(problems)
  {
    var seen: set<Reason> := {};
    for i := 0 to |problems|
      invariant forall r :: r in seen <==> Reported(problems[..i], r)
    {
      var p := problems[i];
      for j := 0 to |p.reasons|
        invariant forall r :: r in seen <==> Reported(problems[..i], r) || r in p.reasons[..j]
      {
        seen := seen + {p.reasons[j]};
      }
      ReportedSnoc(problems[..i], p);
      assert problems[..i + 1] == problems[..i] + [p];
      assert p.reasons[..|p.reasons|] == p.reasons;
    }
    assert problems[..|problems|] == problems;
    reasons := Filtered((r: Reason) => r in seen);
    SameTestSameReasons((r: Reason) => r in seen, (r: Reason) => Reported(problems, r), 5);
  }

  lemma ReportedSnoc(problems: seq<Problem>, p: Problem)
    ensures forall r :: Reported(problems + [p], r) <==> Reported(problems, r) || r in p.reasons
  {
    var more := problems + [p];
    forall r ensures Reported(more, r) <==> Reported(problems, r) || r in p.reasons {
      if r in p.reasons { assert r in more[|problems|].reasons; }
      if Reported(problems, r) {
        var i :| 0 <= i < |problems| && r in problems[i].reasons;
        assert r in more[i].reasons;
      }
    }
  }

  predicate HasKind(reasons: seq<Reason>, policy: Policy, k: Kind) {
    exists i | 0 <= i < |reasons| :: policy.kind(reasons[i]) == k
  }

  function KindsFrom(reasons: seq<Reason>, policy: Policy, i: nat): seq<Kind>
    requires i <= |policy.precedence|
    decreases |policy.precedence| - i
  {
    if i == |policy.precedence| then []
    else (if HasKind(reasons, policy, policy.precedence[i]) then [policy.precedence[i]] else [])
         + KindsFrom(reasons, policy, i + 1)
  }

  datatype Action = Proceed | HaltWorkInProgress | HaltStructural | RereadEstate | RepairTooling

  function ActionUnder(reasons: seq<Reason>, policy: Policy): Action {
    if reasons == [] then Proceed
    else
      var kinds := KindsFrom(reasons, policy, 0);
      if kinds != [] && kinds[0] == Structural then HaltStructural else HaltWorkInProgress
  }

  function ExitCodeFor(a: Action): int {
    match a
    case Proceed => 0
    case HaltWorkInProgress => 1
    case HaltStructural => 1
    case RereadEstate => 4
    case RepairTooling => 3
  }

  // ----------------------------------------------------------------- the decision

  datatype Unreadable = GitFailed | NoRecords | RecordRejected

  datatype Observation =
    | Observed(source: string, states: seq<State>)
    | Unobservable(reason: Unreadable, evidence: Option<string>)

  datatype Decision =
    | Unread(reason: Unreadable, evidence: Option<string>)
    | Stale(expected: string, actual: string)
    | Verified(verdict: Verdict, reasons: seq<Reason>, action: Action, digest: string, source: string)

  function ExitCode(d: Decision): int {
    match d
    case Unread(_, _) => ExitCodeFor(RepairTooling)
    case Stale(_, _) => ExitCodeFor(RereadEstate)
    case Verified(_, _, action, _, _) => ExitCodeFor(action)
  }

  /** `digest` is SHA-256, of which nothing is assumed. */
  function DecideEstate(o: Observation, pinned: Option<string>, policy: Policy, digest: string -> string): Decision {
    match o
    case Unobservable(reason, source) => Unread(reason, source)
    case Observed(source, states) =>
      var actual := digest(DigestPreimage(states));
      if pinned.Some? && pinned.value != actual then Stale(pinned.value, actual)
      else
        var verdict := Classified(states, policy);
        var reasons := ReasonsAcross(verdict.problems);
        Verified(verdict, reasons, ActionUnder(reasons, policy), actual, source)
  }

  // ------------------------------------------- the order of the states is forgotten

  predicate ProblemOf(p: Problem, s: State, policy: Policy) {
    p == Problem(s.path, s.branch, ReasonsUnder(s, policy)) && p.reasons != []
  }

  lemma {:induction false} ProblemsAre(states: seq<State>, policy: Policy)
    ensures forall p :: p in Problems(states, policy) <==>
              exists i | 0 <= i < |states| :: ProblemOf(p, states[i], policy)
  {
    hide ReasonsUnder;
    if states != [] {
      var init := states[..|states| - 1];
      ProblemsAre(init, policy);
      assert forall i | 0 <= i < |init| :: init[i] == states[i];
    }
  }

  lemma {:induction false} ProblemsKeepDistinct(states: seq<State>, policy: Policy)
    requires DistinctKeys(states, PATH_OF)
    ensures DistinctKeys(Problems(states, policy), PROBLEM_PATH)
  {
    hide ReasonsUnder;
    if states != [] {
      var init, s := states[..|states| - 1], states[|states| - 1];
      ProblemsKeepDistinct(init, policy);
      ProblemsAre(init, policy);
      var ps := Problems(init, policy);
      forall k | 0 <= k < |ps| ensures ps[k].path != s.path {
        assert ps[k] in ps;
        var i :| 0 <= i < |init| && ProblemOf(ps[k], init[i], policy);
        assert PATH_OF(states[i]) != PATH_OF(states[|states| - 1]);
      }
    }
  }

  lemma ProblemsForgetOrder(a: seq<State>, b: seq<State>, policy: Policy)
    requires SameMembers(a, b)
    ensures SameMembers(Problems(a, policy), Problems(b, policy))
  {
    hide ReasonsUnder, Problems, ProblemOf;
    ProblemsAre(a, policy);
    ProblemsAre(b, policy);
    forall p ensures p in Problems(a, policy) <==> p in Problems(b, policy) {
      if i :| 0 <= i < |a| && ProblemOf(p, a[i], policy) {
        assert a[i] in b;
        var j :| 0 <= j < |b| && b[j] == a[i];
        assert ProblemOf(p, b[j], policy);
      }
      if i :| 0 <= i < |b| && ProblemOf(p, b[i], policy) {
        assert b[i] in a;
        var j :| 0 <= j < |a| && a[j] == b[i];
        assert ProblemOf(p, a[j], policy);
      }
    }
  }

  lemma SameLength(a: seq<State>, b: seq<State>)
    requires DistinctKeys(a, PATH_OF) && DistinctKeys(b, PATH_OF) && SameMembers(a, b)
    ensures |a| == |b|
  {
    SortKeepsMembers(a, PATH_OF);
    SortKeepsMembers(b, PATH_OF);
    SortForgetsOrder(a, b, PATH_OF);
  }

  /** The whole decision, problem list and digest included, does not depend on the order in
      which git listed the worktrees. */
  lemma DecisionForgetsOrder(source: string, a: seq<State>, b: seq<State>, pinned: Option<string>, policy: Policy,
                             digest: string -> string)
    requires DistinctKeys(a, PATH_OF) && DistinctKeys(b, PATH_OF) && SameMembers(a, b)
    ensures DecideEstate(Observed(source, a), pinned, policy, digest) ==
            DecideEstate(Observed(source, b), pinned, policy, digest)
  {
    hide SortBy, Problems, ReasonsAcross, ActionUnder, Line, SameMembers, DistinctKeys;
    SortForgetsOrder(a, b, PATH_OF);
    SameLength(a, b);
    ProblemsKeepDistinct(a, policy);
    ProblemsKeepDistinct(b, policy);
    ProblemsForgetOrder(a, b, policy);
    SortForgetsOrder(Problems(a, policy), Problems(b, policy), PROBLEM_PATH);
  }

  // ------------------------------------------------------------ what exit 0 means

  lemma UnderAre(s: State, policy: Policy)
    ensures forall r :: r in ReasonsUnder(s, policy) <==> Raises(s, policy, r)
  {
    hide Raises, Those;
  }

  lemma CollectedAre(problems: seq<Problem>)
    ensures forall r :: r in ReasonsAcross(problems) <==> Reported(problems, r)
  {
    hide Reported, Those;
  }

  lemma AcrossAre(states: seq<State>, policy: Policy, r: Reason)
    ensures r in ReasonsAcross(Classified(states, policy).problems) <==>
              exists i | 0 <= i < |states| :: Raises(states[i], policy, r)
  {
    hide Problems, SortBy, Raises, ReasonsUnder, ReasonsAcross;
    ProblemsAre(states, policy);
    var ps := Problems(states, policy);
    SortKeepsMembers(ps, PROBLEM_PATH);
    var sorted := SortBy(ps, PROBLEM_PATH);
    CollectedAre(sorted);
    if Reported(sorted, r) {
      var k :| 0 <= k < |sorted| && r in sorted[k].reasons;
      assert sorted[k] in ps;
      var i :| 0 <= i < |states| && ProblemOf(sorted[k], states[i], policy);
      UnderAre(states[i], policy);
      assert Raises(states[i], policy, r);
    }
    if i :| 0 <= i < |states| && Raises(states[i], policy, r) {
      UnderAre(states[i], policy);
      var p := Problem(states[i].path, states[i].branch, ReasonsUnder(states[i], policy));
      assert r in p.reasons && ProblemOf(p, states[i], policy);
      assert p in sorted;
      var k :| 0 <= k < |sorted| && sorted[k] == p;
      assert Reported(sorted, r);
    }
  }

  /** Exit 0 exactly when the estate was read, is the expected one, and no state raises a
      reason the policy does not suppress. */
  lemma ExitZeroMeans(o: Observation, pinned: Option<string>, policy: Policy, digest: string -> string)
    ensures ExitCode(DecideEstate(o, pinned, policy, digest)) == 0 <==>
              && o.Observed?
              && (pinned.None? || pinned.value == digest(DigestPreimage(o.states)))
              && forall i, r | 0 <= i < |o.states| :: !Raises(o.states[i], policy, r)
  {
    hide Raises, ReasonsAcross, Classified, DigestPreimage, KindsFrom;
    if o.Observed? {
      var reasons := ReasonsAcross(Classified(o.states, policy).problems);
      FirstIsMember(reasons);
      forall r ensures r in reasons <==> exists i | 0 <= i < |o.states| :: Raises(o.states[i], policy, r) {
        AcrossAre(o.states, policy, r);
      }
      assert reasons == [] <==> forall i, r | 0 <= i < |o.states| :: !Raises(o.states[i], policy, r) by {
        if reasons != [] {
          var i :| 0 <= i < |o.states| && Raises(o.states[i], policy, reasons[0]);
        }
        if i, r :| 0 <= i < |o.states| && Raises(o.states[i], policy, r) {
          assert r in reasons;
        }
      }
    }
  }

  // ----------------------------------------------------------- the two policies

  lemma PushRaises(s: State)
    ensures forall r :: Raises(s, PUSH_POLICY, r) <==> Raises(s, ESTATE_POLICY, r) && r != Unpushed
  {
    hide NonDefault;
  }

  /** The push policy reports the default reasons minus `unpushed`, in the same order. */
  lemma PushDropsUnpushed(s: State)
    ensures forall r :: Raises(s, PUSH_POLICY, r) <==> Raises(s, ESTATE_POLICY, r) && r != Unpushed
    ensures ReasonsUnder(s, PUSH_POLICY) ==
            Filtered((r: Reason) => r in ReasonsUnder(s, ESTATE_POLICY) && r != Unpushed)
  {
    PushRaises(s);
    hide Raises, Those, NonDefault;
    UnderAre(s, ESTATE_POLICY);
    SameTestSameReasons((r: Reason) => Raises(s, PUSH_POLICY, r),
                        (r: Reason) => r in ReasonsUnder(s, ESTATE_POLICY) && r != Unpushed, 5);
  }

  lemma BaseAction(reasons: seq<Reason>, policy: Policy)
    requires policy == ESTATE_POLICY || policy == PUSH_POLICY
    ensures ActionUnder(reasons, policy) ==
            if reasons == [] then Proceed
            else if Prunable in reasons || Locked in reasons then HaltStructural
            else HaltWorkInProgress
  {
    FirstIsMember(reasons);
    assert policy.precedence == [Structural, WorkInProgress];
    assert HasKind(reasons, policy, Structural) <==> Prunable in reasons || Locked in reasons by {
      if Prunable in reasons {
        var i :| 0 <= i < |reasons| && reasons[i] == Prunable;
        assert policy.kind(reasons[i]) == Structural;
      }
      if Locked in reasons {
        var i :| 0 <= i < |reasons| && reasons[i] == Locked;
        assert policy.kind(reasons[i]) == Structural;
      }
    }
    var kinds := KindsFrom(reasons, policy, 0);
    assert kinds == (if HasKind(reasons, policy, Structural) then [Structural] else []) + KindsFrom(reasons, policy, 1);
    assert KindsFrom(reasons, policy, 1) ==
           (if HasKind(reasons, policy, WorkInProgress) then [WorkInProgress] else []) + KindsFrom(reasons, policy, 2);
  }

  // ------------------------------------------------- the reasons, on the readings

  /** What is wrong with a worktree, on its readings. */
  predicate Shows(s: State, r: Reason) {
    match r
    case Dirty => s.dirtyFileCount > 0
    case Unpushed => s.aheadOfRemote > 0
    case Stash => s.stashCount > 0
    case Prunable => s.prunable
    case Locked => s.locked
  }

  lemma RaisedIsShown(s: State, r: Reason)
    ensures Raises(s, ESTATE_POLICY, r) <==> Shows(s, r)
    ensures Raises(s, PUSH_POLICY, r) <==> Shows(s, r) && r != Unpushed
  {
  }

  predicate SomeShows(states: seq<State>, r: Reason) {
    exists i | 0 <= i < |states| :: Shows(states[i], r)
  }

  lemma AcrossIsShown(states: seq<State>, r: Reason)
    ensures r in ReasonsAcross(Classified(states, ESTATE_POLICY).problems) <==> SomeShows(states, r)
    ensures r in ReasonsAcross(Classified(states, PUSH_POLICY).problems) <==> SomeShows(states, r) && r != Unpushed
  {
    hide Raises, ReasonsAcross, Classified, Shows;
    AcrossAre(states, ESTATE_POLICY, r);
    AcrossAre(states, PUSH_POLICY, r);
    forall i | 0 <= i < |states|
      ensures Raises(states[i], ESTATE_POLICY, r) <==> Shows(states[i], r)
      ensures Raises(states[i], PUSH_POLICY, r) <==> Shows(states[i], r) && r != Unpushed
    {
      RaisedIsShown(states[i], r);
    }
  }

  /** The problems name each worktree with something wrong, by its path and branch, with exactly
      what is wrong with it, and nothing else. */
  lemma ProblemsMean(states: seq<State>, p: Problem)
    ensures var v := Classified(states, ESTATE_POLICY);
            && v.checked == |states|
            && (p in v.problems ==> exists i | 0 <= i < |states| ::
                  && p.path == states[i].path && p.branch == states[i].branch && p.reasons != []
                  && forall r :: r in p.reasons <==> Shows(states[i], r))
            && (forall i, r | 0 <= i < |states| && Shows(states[i], r) ::
                  exists q | q in v.problems :: q.path == states[i].path && r in q.reasons)
  {
    hide SortBy, ReasonsUnder, Raises, Shows, Problems;
    var ps := Problems(states, ESTATE_POLICY);
    ProblemsAre(states, ESTATE_POLICY);
    SortKeepsMembers(ps, PROBLEM_PATH);
    forall i | 0 <= i < |states|
      ensures forall r :: r in ReasonsUnder(states[i], ESTATE_POLICY) <==> Shows(states[i], r)
    {
      UnderAre(states[i], ESTATE_POLICY);
      forall r ensures Raises(states[i], ESTATE_POLICY, r) <==> Shows(states[i], r) {
        RaisedIsShown(states[i], r);
      }
    }
    if p in ps {
      var i :| 0 <= i < |states| && ProblemOf(p, states[i], ESTATE_POLICY);
    }
    forall i, r | 0 <= i < |states| && Shows(states[i], r)
      ensures exists q | q in ps :: q.path == states[i].path && r in q.reasons
    {
      var q := Problem(states[i].path, states[i].branch, ReasonsUnder(states[i], ESTATE_POLICY));
      assert r in q.reasons;
      assert ProblemOf(q, states[i], ESTATE_POLICY);
    }
  }

  /** Over a whole estate, on the readings: the default policy proceeds exactly when nothing is
      dirty, ahead, stashed, prunable or locked; the push policy lets what is ahead pass; and both
      halt structurally exactly when something is prunable or locked. */
  lemma PushPolicyOnEstate(states: seq<State>)
    ensures forall r :: r in ReasonsAcross(Classified(states, PUSH_POLICY).problems) <==>
                          r in ReasonsAcross(Classified(states, ESTATE_POLICY).problems) && r != Unpushed
    ensures var push := ActionUnder(ReasonsAcross(Classified(states, PUSH_POLICY).problems), PUSH_POLICY);
            var normal := ActionUnder(ReasonsAcross(Classified(states, ESTATE_POLICY).problems), ESTATE_POLICY);
            && (push == Proceed <==> forall s | s in states ::
                  s.dirtyFileCount == 0 && s.stashCount == 0 && !s.prunable && !s.locked)
            && (normal == Proceed <==> push == Proceed && forall s | s in states :: s.aheadOfRemote == 0)
            && (push == HaltStructural <==> exists s | s in states :: s.prunable || s.locked)
            && (normal == HaltStructural <==> exists s | s in states :: s.prunable || s.locked)
            && push in {Proceed, HaltStructural, HaltWorkInProgress}
            && normal in {Proceed, HaltStructural, HaltWorkInProgress}
  {
    hide ReasonsAcross, Classified, KindsFrom, ActionUnder, SomeShows;
    var normal := ReasonsAcross(Classified(states, ESTATE_POLICY).problems);
    var push := ReasonsAcross(Classified(states, PUSH_POLICY).problems);
    forall r
      ensures r in normal <==> SomeShows(states, r)
      ensures r in push <==> SomeShows(states, r) && r != Unpushed
    {
      AcrossIsShown(states, r);
    }
    BaseAction(normal, ESTATE_POLICY);
    BaseAction(push, PUSH_POLICY);
    FirstIsMember(push);
    FirstIsMember(normal);
    OnReadings(states);
    assert push == [] <==> forall r :: r !in push;
    assert normal == [] <==> forall r :: r !in normal;
    assert (forall r :: r !in push) <==>
           Dirty !in push && Stash !in push && Prunable !in push && Locked !in push by { Five(push); }
    assert (forall r :: r !in normal) <==>
           Dirty !in normal && Unpushed !in normal && Stash !in normal && Prunable !in normal && Locked !in normal
    by { Five(normal); }
  }

  lemma Five(rs: seq<Reason>)
    ensures (forall r :: r !in rs) <==>
              Dirty !in rs && Unpushed !in rs && Stash !in rs && Prunable !in rs && Locked !in rs
  {
    if Dirty !in rs && Unpushed !in rs && Stash !in rs && Prunable !in rs && Locked !in rs {
      forall r ensures r !in rs {
        match r { case Dirty => case Unpushed => case Stash => case Prunable => case Locked => }
      }
    }
  }

  lemma OnReadings(states: seq<State>)
    ensures SomeShows(states, Dirty) <==> exists s | s in states :: s.dirtyFileCount > 0
    ensures SomeShows(states, Unpushed) <==> exists s | s in states :: s.aheadOfRemote > 0
    ensures SomeShows(states, Stash) <==> exists s | s in states :: s.stashCount > 0
    ensures SomeShows(states, Prunable) <==> exists s | s in states :: s.prunable
    ensures SomeShows(states, Locked) <==> exists s | s in states :: s.locked
  {
    forall i | 0 <= i < |states| ensures states[i] in states {}
  }

  /** The exit code of the default policy, on what was read: 3 exactly for an unreadable estate, 4
      exactly for one whose digest is not the pinned one, and otherwise 1 exactly when a worktree
      is dirty, ahead, stashed, prunable or locked. */
  lemma ExitMeans(o: Observation, pinned: Option<string>, digest: string -> string)
    ensures var d := DecideEstate(o, pinned, ESTATE_POLICY, digest);
            && (ExitCode(d) == 3 <==> o.Unobservable?)
            && (ExitCode(d) == 4 <==>
                  o.Observed? && pinned.Some? && pinned.value != digest(DigestPreimage(o.states)))
            && (ExitCode(d) in {0, 1} <==> d.Verified?)
            && (d.Verified? ==> o.Observed? && d.source == o.source && d.digest == digest(DigestPreimage(o.states)))
            && (d.Verified? ==>
                  (ExitCode(d) == 1 <==> exists s | s in o.states ::
                      s.dirtyFileCount > 0 || s.aheadOfRemote > 0 || s.stashCount > 0 || s.prunable || s.locked))
  {
    hide ReasonsAcross, Classified, DigestPreimage, ActionUnder;
    if o.Observed? { PushPolicyOnEstate(o.states); }
  }
}
