/** The coverage gate's cross-worktree lock: a directory made by mkdir, an owner record
    inside it, and reclaim by PID liveness (scripts/gate-coverage.ts and
    scripts/gate-coverage-lock.ts). */
module GateLock {
  import opened Text

  const LOCK_WAIT_MS: int := 7200 * 1000
  const LOCK_POLL_MS: int := 1000
  const FOREIGN_LOCK_STALE_MS: int := 4 * 3600 * 1000

  datatype LockOwner = LockOwner(pid: nat, host: string, startedAt: int)

  datatype ReclaimInput = ReclaimInput(
    owner: Option<LockOwner>, thisHost: string, ownerAlive: Option<bool>, ageMs: int)

  /** The record is of this host, and whether its process lives is known. */
  predicate Probed(input: ReclaimInput) {
    input.owner.Some? && input.owner.value.host == input.thisHost && input.ownerAlive.Some?
  }

  /** Reclaim needs positive evidence, and this is all of it: a recorded owner of this host that is
      dead, or, where that cannot be known, an age over four hours. So an owner of this host known to be
      alive is never reclaimed, however old, and another host's never for what is probed here. */
  function DecideReclaim(input: ReclaimInput): (reclaim: bool)
    ensures Probed(input) ==> (reclaim <==> input.ownerAlive == Some(false))
    ensures !Probed(input) ==> (reclaim <==> input.ageMs > 14_400_000)
  {
    if input.owner.None? then input.ageMs > FOREIGN_LOCK_STALE_MS
    else if input.owner.value.host == input.thisHost && input.ownerAlive.Some? then !input.ownerAlive.value
    else input.ageMs > FOREIGN_LOCK_STALE_MS
  }

  // ------------------------------------------------------------- the machine

  /** One run of the gate. Two runs may get the same PID, but not while both are alive. */
  type Instance = nat

  /** `Seen`: it has read the owner record of a lock it could not make. `Removing`: it has
      decided to reclaim and not yet removed. `Released`: the lock is given back, the
      process has not exited and its signal handlers are still installed. */
  datatype Phase =
    | Trying
    | Blocked
    | Seen(owner: Option<LockOwner>)
    | Removing
    | Made(at: int)
    | Holding
    | Released

  datatype Process = Process(pid: nat, alive: bool, phase: Phase)

  /** `maker` is who called mkdir; no process can read it. */
  datatype Lock = Free | Dir(maker: Instance, owner: Option<LockOwner>, mtime: int)

  datatype State = State(host: string, procs: map<Instance, Process>, lock: Lock, clock: int)

  datatype Step =
    | Spawn(i: Instance, pid: nat)
    | Mkdir(i: Instance)
    | WriteOwner(i: Instance)
    | Read(i: Instance)
    | Judge(i: Instance)
    | Remove(i: Instance)
    | Release(i: Instance)
    | SignalRelease(i: Instance)
    | LateSignal(i: Instance)
    | Crash(i: Instance)
    | Tick(ms: nat)

  predicate Live(s: State, i: Instance) {
    i in s.procs && s.procs[i].alive
  }

  predicate At(s: State, i: Instance, phase: Phase) {
    Live(s, i) && s.procs[i].phase == phase
  }

  /** `kill(pid, 0)`: some live process has that PID. */
  predicate PidAlive(s: State, pid: nat) {
    exists i | i in s.procs :: s.procs[i].alive && s.procs[i].pid == pid
  }

  function Record(lock: Lock): Option<LockOwner> {
    if lock.Free? then None else lock.owner
  }

  /** Age zero when the directory is gone. */
  function AgeMs(s: State): int {
    if s.lock.Free? then 0 else s.clock - s.lock.mtime
  }

  function Evidence(s: State, owner: Option<LockOwner>): ReclaimInput {
    ReclaimInput(owner, s.host, if owner.None? then None else Some(PidAlive(s, owner.value.pid)), AgeMs(s))
  }

  /** A process that has made the directory writes its record before the stale age is up. */
  predicate RecordInTime(s: State, now: int) {
    forall i | i in s.procs :: s.procs[i].alive && s.procs[i].phase.Made? ==>
      now - s.procs[i].phase.at <= FOREIGN_LOCK_STALE_MS
  }

  predicate Enabled(s: State, step: Step) {
    match step
    case Spawn(i, pid) => i !in s.procs && !PidAlive(s, pid)
    case Mkdir(i) => At(s, i, Trying)
    case WriteOwner(i) => Live(s, i) && s.procs[i].phase.Made?
    case Read(i) => At(s, i, Blocked)
    case Judge(i) => Live(s, i) && s.procs[i].phase.Seen?
    case Remove(i) => At(s, i, Removing)
    case Release(i) => At(s, i, Holding)
    case SignalRelease(i) => At(s, i, Holding)
    case LateSignal(i) => At(s, i, Released)
    case Crash(i) => Live(s, i)
    case Tick(ms) => RecordInTime(s, s.clock + ms)
  }

  function Moved(s: State, i: Instance, phase: Phase): State
    requires i in s.procs
  {
    s.(procs := s.procs[i := s.procs[i].(phase := phase)])
  }

  function Dead(s: State, i: Instance): State
    requires i in s.procs
  {
    s.(procs := s.procs[i := s.procs[i].(alive := false)])
  }

  function After(s: State, step: Step): State
    requires Enabled(s, step)
  {
    match step
    case Spawn(i, pid) => s.(procs := s.procs[i := Process(pid, true, Trying)])
    case Mkdir(i) =>
      if s.lock.Free? then Moved(s, i, Made(s.clock)).(lock := Dir(i, None, s.clock)) else Moved(s, i, Blocked)
    case WriteOwner(i) =>
      // The record goes to whatever directory stands at the path; with none the write throws.
      if s.lock.Free? then Dead(s, i)
      else Moved(s, i, Holding).(lock := Dir(s.lock.maker, Some(LockOwner(s.procs[i].pid, s.host, s.clock)), s.clock))
    case Read(i) => Moved(s, i, Seen(Record(s.lock)))
    case Judge(i) => Moved(s, i, if DecideReclaim(Evidence(s, s.procs[i].phase.owner)) then Removing else Trying)
    case Remove(i) => Moved(s, i, Trying).(lock := Free)
    case Release(i) => Moved(s, i, Released).(lock := Free)
    case SignalRelease(i) => Dead(s, i).(lock := Free)
    case LateSignal(i) => Dead(s, i).(lock := Free)
    case Crash(i) => Dead(s, i)
    case Tick(ms) => s.(clock := s.clock + ms)
  }

  predicate Allowed(s: State, steps: seq<Step>)
    decreases |steps|
  {
    steps == [] || (Enabled(s, steps[0]) && Allowed(After(s, steps[0]), steps[1..]))
  }

  function Run(s: State, steps: seq<Step>): State
    requires Allowed(s, steps)
    decreases |steps|
  {
    if steps == [] then s else Run(After(s, steps[0]), steps[1..])
  }

  function Ticks(steps: seq<Step>): nat {
    if steps == [] then 0 else (if steps[0].Tick? then steps[0].ms else 0) + Ticks(steps[1..])
  }

  /** Time passes by ticks alone, and never backwards; the host stays what it is. */
  lemma {:induction false} ClockIsTicks(s: State, steps: seq<Step>)
    requires Allowed(s, steps)
    ensures Run(s, steps).clock == s.clock + Ticks(steps) && Run(s, steps).host == s.host
    decreases |steps|
  {
    if steps != [] {
      ClockIsTicks(After(s, steps[0]), steps[1..]);
      hide Enabled;
    }
  }

  function Start(host: string, clock: int): State {
    State(host, map[], Free, clock)
  }

  predicate InWindow(s: State, i: Instance) {
    Live(s, i) && (s.procs[i].phase.Seen? || s.procs[i].phase.Removing?)
  }

  predicate HasLock(s: State, i: Instance) {
    Live(s, i) && (s.procs[i].phase.Made? || s.procs[i].phase.Holding?)
  }

  /** What the code leaves to chance: that one contender at a time is between its look and
      its removal; that the lock does not change between reading the record and judging it;
      that no signal arrives after the lock was given back. */
  datatype Rule = OneLooks | LookIsOneStep | NoLateSignal

  predicate Guarded(s: State, step: Step, waived: set<Rule>)
    requires Enabled(s, step)
  {
    && (OneLooks in waived || (step.Read? ==> forall i | i in s.procs :: !InWindow(s, i)))
    && (LookIsOneStep in waived
        || (After(s, step).lock != s.lock ==> forall i | i in s.procs :: !(Live(s, i) && s.procs[i].phase.Seen?)))
    && (NoLateSignal in waived || !step.LateSignal?)
  }

  predicate AllGuarded(s: State, steps: seq<Step>, waived: set<Rule>)
    requires Allowed(s, steps)
    decreases |steps|
  {
    steps == [] || (Guarded(s, steps[0], waived) && AllGuarded(After(s, steps[0]), steps[1..], waived))
  }

  // ---------------------------------------------------- what guarded steps keep

  /** Whoever has the lock made the directory that stands there, and the record is theirs. */
  predicate HoldersOwn(s: State) {
    forall i | i in s.procs :: HasLock(s, i) ==>
      && s.lock.Dir? && s.lock.maker == i
      && match s.procs[i].phase
         case Made(at) => s.lock.owner.None? && s.lock.mtime == at && s.clock - at <= FOREIGN_LOCK_STALE_MS
         case _ => s.lock.owner.Some?
  }

  /** A live process never leaves the directory behind, and a record names its maker. */
  predicate LockAccounted(s: State) {
    s.lock.Dir? ==>
      && s.lock.maker in s.procs
      && (s.procs[s.lock.maker].alive ==> HasLock(s, s.lock.maker))
      && (s.lock.owner.Some? ==>
            s.lock.owner.value.pid == s.procs[s.lock.maker].pid && s.lock.owner.value.host == s.host)
  }

  /** A contender that has looked saw the record that still stands. */
  predicate SeenStands(s: State) {
    forall i | i in s.procs :: Live(s, i) && s.procs[i].phase.Seen? ==> s.procs[i].phase.owner == Record(s.lock)
  }

  /** A contender about to remove is facing a dead maker. */
  predicate RemoversFaceDead(s: State) {
    forall i | i in s.procs :: At(s, i, Removing) ==> s.lock.Dir? && !Live(s, s.lock.maker)
  }

  predicate OneInWindow(s: State) {
    forall i, j | i in s.procs && j in s.procs :: InWindow(s, i) && InWindow(s, j) ==> i == j
  }

  predicate Safe(s: State) {
    HoldersOwn(s) && LockAccounted(s) && SeenStands(s) && RemoversFaceDead(s) && OneInWindow(s)
  }

  /** A look that says "reclaim" proves the maker of the directory dead. */
  lemma ReclaimMeansDead(s: State, i: Instance)
    requires Safe(s) && Enabled(s, Judge(i)) && DecideReclaim(Evidence(s, s.procs[i].phase.owner))
    ensures s.lock.Dir? && !Live(s, s.lock.maker)
  {
  }

  lemma KeepsHoldersOwn(s: State, step: Step)
    requires Safe(s) && Enabled(s, step) && Guarded(s, step, {})
    ensures HoldersOwn(After(s, step))
  {
  }

  lemma KeepsLockAccounted(s: State, step: Step)
    requires Safe(s) && Enabled(s, step) && Guarded(s, step, {})
    ensures LockAccounted(After(s, step))
  {
  }

  lemma KeepsSeenStands(s: State, step: Step)
    requires Safe(s) && Enabled(s, step) && Guarded(s, step, {})
    ensures SeenStands(After(s, step))
  {
  }

  lemma KeepsRemoversFaceDead(s: State, step: Step)
    requires Safe(s) && Enabled(s, step) && Guarded(s, step, {})
    ensures RemoversFaceDead(After(s, step))
  {
    if step.Judge? && DecideReclaim(Evidence(s, s.procs[step.i].phase.owner)) {
      ReclaimMeansDead(s, step.i);
    }
  }

  lemma KeepsOneInWindow(s: State, step: Step)
    requires Safe(s) && Enabled(s, step) && Guarded(s, step, {})
    ensures OneInWindow(After(s, step))
  {
  }

  lemma KeepsSafe(s: State, step: Step)
    requires Safe(s) && Enabled(s, step) && Guarded(s, step, {})
    ensures Safe(After(s, step))
  {
    hide HoldersOwn, LockAccounted, SeenStands, RemoversFaceDead, OneInWindow, Enabled, After, Guarded;
    KeepsHoldersOwn(s, step);
    KeepsLockAccounted(s, step);
    KeepsSeenStands(s, step);
    KeepsRemoversFaceDead(s, step);
    KeepsOneInWindow(s, step);
  }

  lemma {:induction false} RunKeepsSafe(s: State, steps: seq<Step>)
    requires Safe(s) && Allowed(s, steps) && AllGuarded(s, steps, {})
    ensures Safe(Run(s, steps))
    decreases |steps|
  {
    hide Safe, Enabled, After, Guarded;
    if steps != [] {
      KeepsSafe(s, steps[0]);
      RunKeepsSafe(After(s, steps[0]), steps[1..]);
    }
  }

  // ------------------------------------------------------------- main results

  /** At most one live process has the lock, in every state of every guarded run. */
  lemma AtMostOneHolder(host: string, clock: int, steps: seq<Step>, i: Instance, j: Instance)
    requires Allowed(Start(host, clock), steps) && AllGuarded(Start(host, clock), steps, {})
    requires HasLock(Run(Start(host, clock), steps), i) && HasLock(Run(Start(host, clock), steps), j)
    ensures i == j
  {
    hide Run, Allowed, AllGuarded;
    RunKeepsSafe(Start(host, clock), steps);
  }

  /** While its maker lives, the directory disappears only by the maker's own release. */
  lemma LiveLockIsNeverReclaimed(host: string, clock: int, steps: seq<Step>, step: Step)
    requires Allowed(Start(host, clock), steps) && AllGuarded(Start(host, clock), steps, {})
    requires var s := Run(Start(host, clock), steps);
             Enabled(s, step) && Guarded(s, step, {}) && s.lock.Dir? && Live(s, s.lock.maker)
    ensures var s := Run(Start(host, clock), steps);
            || (After(s, step).lock.Dir? && After(s, step).lock.maker == s.lock.maker)
            || step == Release(s.lock.maker) || step == SignalRelease(s.lock.maker)
  {
    hide Run, Allowed, AllGuarded;
    RunKeepsSafe(Start(host, clock), steps);
  }

  lemma {:induction false} RunThen(s: State, first: seq<Step>, rest: seq<Step>, waived: set<Rule>)
    requires Allowed(s, first) && Allowed(Run(s, first), rest)
    ensures Allowed(s, first + rest) && Run(s, first + rest) == Run(Run(s, first), rest)
    ensures AllGuarded(s, first + rest, waived) <==>
              AllGuarded(s, first, waived) && AllGuarded(Run(s, first), rest, waived)
    decreases |first|
  {
    hide Enabled, After, Guarded;
    if first == [] {
      assert first + rest == rest;
    } else {
      RunThen(After(s, first[0]), first[1..], rest, waived);
      assert (first + rest)[1..] == first[1..] + rest;
    }
  }

  lemma Single(s: State, step: Step, waived: set<Rule>)
    requires Enabled(s, step)
    ensures Allowed(s, [step]) && Run(s, [step]) == After(s, step)
    ensures AllGuarded(s, [step], waived) <==> Guarded(s, step, waived)
  {
    hide Enabled, After, Guarded;
    assert [step][1..] == [];
    assert Allowed(After(s, step), []);
  }

  /** One more step at the end of a run. */
  lemma Next(s: State, steps: seq<Step>, step: Step, waived: set<Rule>) returns (more: seq<Step>)
    requires Allowed(s, steps) && Enabled(Run(s, steps), step)
    ensures more == steps + [step]
    ensures Allowed(s, more) && Run(s, more) == After(Run(s, steps), step)
    ensures AllGuarded(s, more, waived) <==> AllGuarded(s, steps, waived) && Guarded(Run(s, steps), step, waived)
  {
    hide Enabled, After, Guarded, Run, Allowed, AllGuarded;
    Single(Run(s, steps), step, waived);
    RunThen(s, steps, [step], waived);
    more := steps + [step];
  }

  lemma Nothing(s: State, waived: set<Rule>)
    ensures Allowed(s, []) && Run(s, []) == s && AllGuarded(s, [], waived)
  {
  }

  /** A lock whose recorded owner is dead is taken over by the first contender that looks. */
  lemma DeadOwnersLockIsTakenOver(s: State, i: Instance) returns (steps: seq<Step>)
    requires At(s, i, Trying) && s.lock.Dir? && s.lock.owner.Some?
    requires s.lock.owner.value.host == s.host && !PidAlive(s, s.lock.owner.value.pid)
    ensures Allowed(s, steps) && HasLock(Run(s, steps), i)
    ensures (forall j | j in s.procs :: !InWindow(s, j)) ==> AllGuarded(s, steps, {})
  {
    hide Run, Allowed, AllGuarded;
    var looked := LooksAndWillRemove(s, i);
    var now := Run(s, looked);
    var after := After(now, Remove(i));
    steps := Next(s, looked, Remove(i), {});
    steps := Next(s, steps, Mkdir(i), {});
    assert HasLock(After(after, Mkdir(i)), i);
  }

  lemma LooksAndWillRemove(s: State, i: Instance) returns (steps: seq<Step>)
    requires At(s, i, Trying) && s.lock.Dir? && s.lock.owner.Some?
    requires s.lock.owner.value.host == s.host && !PidAlive(s, s.lock.owner.value.pid)
    ensures Allowed(s, steps) && Run(s, steps) == Moved(s, i, Removing)
    ensures (forall j | j in s.procs :: !InWindow(s, j)) ==> AllGuarded(s, steps, {})
  {
    hide Run, Allowed, AllGuarded;
    var s1 := After(s, Mkdir(i));
    var s2 := After(s1, Read(i));
    assert !PidAlive(s2, s.lock.owner.value.pid);
    assert After(s2, Judge(i)) == Moved(s, i, Removing);
    Nothing(s, {});
    steps := Next(s, [], Mkdir(i), {});
    steps := Next(s, steps, Read(i), {});
    steps := Next(s, steps, Judge(i), {});
  }

  // ------------------------------------------------ a look taken as one step

  /** A run in which each contender looks and reclaims without interruption. */
  datatype Move = Plain(step: Step) | Look(i: Instance)

  predicate Possible(s: State, move: Move) {
    match move
    case Plain(step) => Enabled(s, step) && !step.Read? && !step.Judge? && !step.Remove? && !step.LateSignal?
    case Look(i) => At(s, i, Blocked)
  }

  /** The steps of one move: a look removes the directory when it says "reclaim". */
  function Expand(s: State, move: Move): seq<Step>
    requires Possible(s, move)
  {
    match move
    case Plain(step) => [step]
    case Look(i) =>
      if DecideReclaim(Evidence(s, Record(s.lock))) then [Read(i), Judge(i), Remove(i)] else [Read(i), Judge(i)]
  }

  predicate NobodyInWindow(s: State) {
    forall i | i in s.procs :: !InWindow(s, i)
  }

  lemma MoveIsGuarded(s: State, move: Move)
    requires Possible(s, move) && NobodyInWindow(s)
    ensures Allowed(s, Expand(s, move)) && AllGuarded(s, Expand(s, move), {})
    ensures NobodyInWindow(Run(s, Expand(s, move)))
  {
    match move {
      case Plain(step) =>
        PlainKeepsWindowEmpty(s, step);
        Single(s, step, {});
      case Look(i) =>
        LookIsGuarded(s, i);
    }
  }

  lemma PlainKeepsWindowEmpty(s: State, step: Step)
    requires Possible(s, Plain(step)) && NobodyInWindow(s)
    ensures Guarded(s, step, {}) && NobodyInWindow(After(s, step))
  {
  }

  lemma MovingKeepsPids(s: State, i: Instance, phase: Phase)
    requires i in s.procs
    ensures forall pid :: PidAlive(Moved(s, i, phase), pid) == PidAlive(s, pid)
  {
    var t := Moved(s, i, phase);
    forall pid ensures PidAlive(t, pid) == PidAlive(s, pid) {
      if PidAlive(s, pid) {
        var j :| j in s.procs && s.procs[j].alive && s.procs[j].pid == pid;
        assert t.procs[j].alive && t.procs[j].pid == pid;
      }
      if PidAlive(t, pid) {
        var j :| j in t.procs && t.procs[j].alive && t.procs[j].pid == pid;
        assert s.procs[j].alive && s.procs[j].pid == pid;
      }
    }
  }

  lemma LookIsGuarded(s: State, i: Instance)
    requires Possible(s, Look(i)) && NobodyInWindow(s)
    ensures Allowed(s, Expand(s, Look(i))) && AllGuarded(s, Expand(s, Look(i)), {})
    ensures NobodyInWindow(Run(s, Expand(s, Look(i))))
  {
    hide Run, Allowed, AllGuarded, DecideReclaim;
    var s1 := After(s, Read(i));
    MovingKeepsPids(s, i, Seen(Record(s.lock)));
    assert Evidence(s1, Record(s.lock)) == Evidence(s, Record(s.lock));
    var s2 := After(s1, Judge(i));
    Nothing(s, {});
    var steps := Next(s, [], Read(i), {});
    steps := Next(s, steps, Judge(i), {});
    if DecideReclaim(Evidence(s, Record(s.lock))) {
      assert At(s2, i, Removing);
      steps := Next(s, steps, Remove(i), {});
      assert steps == Expand(s, Look(i));
      assert NobodyInWindow(After(s2, Remove(i)));
    } else {
      assert steps == Expand(s, Look(i));
      assert NobodyInWindow(s2);
    }
  }

  ghost predicate MovesTo(s: State, moves: seq<Move>, end: State)
    decreases |moves|
  {
    if moves == [] then s == end
    else Possible(s, moves[0]) && Allowed(s, Expand(s, moves[0]))
         && MovesTo(Run(s, Expand(s, moves[0])), moves[1..], end)
  }

  /** When observing and reclaiming is one step, exclusion needs no other assumption about
      who looks when. */
  lemma {:induction false} OneStepReclaimIsSafe(s: State, moves: seq<Move>, end: State, i: Instance, j: Instance)
    requires Safe(s) && NobodyInWindow(s) && MovesTo(s, moves, end)
    requires HasLock(end, i) && HasLock(end, j)
    ensures i == j
    decreases |moves|
  {
    if moves != [] {
      hide Possible, Expand, NobodyInWindow, Allowed, AllGuarded, Run, HasLock, Safe;
      var steps := Expand(s, moves[0]);
      MoveIsGuarded(s, moves[0]);
      RunKeepsSafe(s, steps);
      OneStepReclaimIsSafe(Run(s, steps), moves[1..], end, i, j);
    }
  }

  // ---------------------------------------------- each rule is needed: broken runs

  /** Three gate runs on one host, at time zero. */
  function Three(a: Process, b: Process, c: Process, lock: Lock): State {
    State("host", map[0 := a, 1 := b, 2 := c], lock, 0)
  }

  function P(i: nat, phase: Phase): Process {
    Process(i, true, phase)
  }

  function LockOf(i: nat): Lock {
    Dir(i, Some(LockOwner(i, "host", 0)), 0)
  }

  /** One more step of a run whose last state is known. */
  lemma Go(s: State, steps: seq<Step>, waived: set<Rule>, now: State, step: Step, after: State)
    returns (more: seq<Step>)
    requires Allowed(s, steps) && Run(s, steps) == now && AllGuarded(s, steps, waived)
    requires Enabled(now, step) && After(now, step) == after && Guarded(now, step, waived)
    ensures Allowed(s, more) && Run(s, more) == after && AllGuarded(s, more, waived)
  {
    hide Enabled, After, Guarded, Run, Allowed, AllGuarded;
    more := Next(s, steps, step, waived);
  }

  lemma ThreeStart(waived: set<Rule>) returns (steps: seq<Step>)
    ensures var s := Start("host", 0);
            Allowed(s, steps) && AllGuarded(s, steps, waived)
            && Run(s, steps) == Three(P(0, Trying), P(1, Trying), P(2, Trying), Free)
  {
    hide Run, Allowed, AllGuarded;
    var s := Start("host", 0);
    Nothing(s, waived);
    var s1 := s.(procs := map[0 := P(0, Trying)]);
    var s2 := s.(procs := map[0 := P(0, Trying), 1 := P(1, Trying)]);
    steps := Go(s, [], waived, s, Spawn(0, 0), s1);
    steps := Go(s, steps, waived, s1, Spawn(1, 1), s2);
    steps := Go(s, steps, waived, s2, Spawn(2, 2), Three(P(0, Trying), P(1, Trying), P(2, Trying), Free));
  }

  /** Process 0 takes the lock and writes its record. */
  lemma ZeroHolds(waived: set<Rule>) returns (steps: seq<Step>)
    ensures var s := Start("host", 0);
            Allowed(s, steps) && AllGuarded(s, steps, waived)
            && Run(s, steps) == Three(P(0, Holding), P(1, Trying), P(2, Trying), LockOf(0))
  {
    hide Run, Allowed, AllGuarded;
    var s := Start("host", 0);
    steps := ThreeStart(waived);
    var made := Three(P(0, Made(0)), P(1, Trying), P(2, Trying), Dir(0, None, 0));
    steps := Go(s, steps, waived, Three(P(0, Trying), P(1, Trying), P(2, Trying), Free), Mkdir(0), made);
    steps := Go(s, steps, waived, made, WriteOwner(0), Three(P(0, Holding), P(1, Trying), P(2, Trying), LockOf(0)));
  }

  lemma TwoBlocked() returns (steps: seq<Step>)
    ensures var s := Start("host", 0);
            Allowed(s, steps) && AllGuarded(s, steps, {OneLooks})
            && Run(s, steps) == Three(Process(0, false, Holding), P(1, Blocked), P(2, Blocked), LockOf(0))
  {
    hide Run, Allowed, AllGuarded;
    var s, w, dead := Start("host", 0), {OneLooks}, Process(0, false, Holding);
    steps := ZeroHolds(w);
    steps := Go(s, steps, w, Three(P(0, Holding), P(1, Trying), P(2, Trying), LockOf(0)), Crash(0),
                Three(dead, P(1, Trying), P(2, Trying), LockOf(0)));
    steps := Go(s, steps, w, Three(dead, P(1, Trying), P(2, Trying), LockOf(0)), Mkdir(1),
                Three(dead, P(1, Blocked), P(2, Trying), LockOf(0)));
    steps := Go(s, steps, w, Three(dead, P(1, Blocked), P(2, Trying), LockOf(0)), Mkdir(2),
                Three(dead, P(1, Blocked), P(2, Blocked), LockOf(0)));
  }

  lemma TwoSeen() returns (steps: seq<Step>)
    ensures var s, seen := Start("host", 0), Seen(LockOf(0).owner);
            Allowed(s, steps) && AllGuarded(s, steps, {OneLooks})
            && Run(s, steps) == Three(Process(0, false, Holding), P(1, seen), P(2, seen), LockOf(0))
  {
    hide Run, Allowed, AllGuarded;
    var s, w, dead, seen := Start("host", 0), {OneLooks}, Process(0, false, Holding), Seen(LockOf(0).owner);
    steps := TwoBlocked();
    steps := Go(s, steps, w, Three(dead, P(1, Blocked), P(2, Blocked), LockOf(0)), Read(1),
                Three(dead, P(1, seen), P(2, Blocked), LockOf(0)));
    steps := Go(s, steps, w, Three(dead, P(1, seen), P(2, Blocked), LockOf(0)), Read(2),
                Three(dead, P(1, seen), P(2, seen), LockOf(0)));
  }

  lemma TwoRemoving() returns (steps: seq<Step>)
    ensures var s := Start("host", 0);
            Allowed(s, steps) && AllGuarded(s, steps, {OneLooks})
            && Run(s, steps) == Three(Process(0, false, Holding), P(1, Removing), P(2, Removing), LockOf(0))
  {
    hide Run, Allowed, AllGuarded;
    var s, w, dead, seen := Start("host", 0), {OneLooks}, Process(0, false, Holding), Seen(LockOf(0).owner);
    steps := TwoSeen();
    steps := Go(s, steps, w, Three(dead, P(1, seen), P(2, seen), LockOf(0)), Judge(1),
                Three(dead, P(1, Removing), P(2, seen), LockOf(0)));
    steps := Go(s, steps, w, Three(dead, P(1, Removing), P(2, seen), LockOf(0)), Judge(2),
                Three(dead, P(1, Removing), P(2, Removing), LockOf(0)));
  }

  lemma FirstRemoves() returns (steps: seq<Step>)
    ensures var s := Start("host", 0);
            Allowed(s, steps) && AllGuarded(s, steps, {OneLooks})
            && Run(s, steps) == Three(Process(0, false, Holding), P(1, Made(0)), P(2, Removing), Dir(1, None, 0))
  {
    hide Run, Allowed, AllGuarded;
    var s, w, dead := Start("host", 0), {OneLooks}, Process(0, false, Holding);
    steps := TwoRemoving();
    steps := Go(s, steps, w, Three(dead, P(1, Removing), P(2, Removing), LockOf(0)), Remove(1),
                Three(dead, P(1, Trying), P(2, Removing), Free));
    steps := Go(s, steps, w, Three(dead, P(1, Trying), P(2, Removing), Free), Mkdir(1),
                Three(dead, P(1, Made(0)), P(2, Removing), Dir(1, None, 0)));
  }

  /** Two contenders that both look before either removes: the second removes the lock the
      first has just made. */
  lemma TwoLookersBreakExclusion() returns (steps: seq<Step>)
    ensures var s := Start("host", 0);
            Allowed(s, steps) && AllGuarded(s, steps, {OneLooks})
            && HasLock(Run(s, steps), 1) && HasLock(Run(s, steps), 2)
  {
    hide Run, Allowed, AllGuarded;
    var s, w, dead := Start("host", 0), {OneLooks}, Process(0, false, Holding);
    steps := FirstRemoves();
    steps := Go(s, steps, w, Three(dead, P(1, Made(0)), P(2, Removing), Dir(1, None, 0)), Remove(2),
                Three(dead, P(1, Made(0)), P(2, Trying), Free));
    steps := Go(s, steps, w, Three(dead, P(1, Made(0)), P(2, Trying), Free), Mkdir(2),
                Three(dead, P(1, Made(0)), P(2, Made(0)), Dir(2, None, 0)));
  }

  lemma ReadBeforeRelease() returns (steps: seq<Step>)
    ensures var s := Start("host", 0);
            Allowed(s, steps) && AllGuarded(s, steps, {LookIsOneStep})
            && Run(s, steps) == Three(P(0, Holding), P(1, Seen(LockOf(0).owner)), P(2, Trying), LockOf(0))
  {
    hide Run, Allowed, AllGuarded;
    var s, w := Start("host", 0), {LookIsOneStep};
    steps := ZeroHolds(w);
    steps := Go(s, steps, w, Three(P(0, Holding), P(1, Trying), P(2, Trying), LockOf(0)), Mkdir(1),
                Three(P(0, Holding), P(1, Blocked), P(2, Trying), LockOf(0)));
    steps := Go(s, steps, w, Three(P(0, Holding), P(1, Blocked), P(2, Trying), LockOf(0)), Read(1),
                Three(P(0, Holding), P(1, Seen(LockOf(0).owner)), P(2, Trying), LockOf(0)));
  }

  /** A single contender that reads the record, and probes it after the owner has finished
      and another run has taken the lock, removes that run's lock. */
  lemma SlowLookBreaksExclusion() returns (steps: seq<Step>)
    ensures var s := Start("host", 0);
            Allowed(s, steps) && AllGuarded(s, steps, {LookIsOneStep})
            && HasLock(Run(s, steps), 1) && HasLock(Run(s, steps), 2)
  {
    hide Run, Allowed, AllGuarded;
    var s, w, seen := Start("host", 0), {LookIsOneStep}, Seen(LockOf(0).owner);
    steps := ReadBeforeRelease();
    steps := Go(s, steps, w, Three(P(0, Holding), P(1, seen), P(2, Trying), LockOf(0)), Release(0),
                Three(P(0, Released), P(1, seen), P(2, Trying), Free));
    steps := Go(s, steps, w, Three(P(0, Released), P(1, seen), P(2, Trying), Free), Crash(0),
                Three(Process(0, false, Released), P(1, seen), P(2, Trying), Free));
    steps := SlowLookGoesOn(steps);
  }

  lemma SlowLookGoesOn(before: seq<Step>) returns (steps: seq<Step>)
    requires var s := Start("host", 0);
             Allowed(s, before) && AllGuarded(s, before, {LookIsOneStep})
             && Run(s, before) == Three(Process(0, false, Released), P(1, Seen(LockOf(0).owner)), P(2, Trying), Free)
    ensures var s := Start("host", 0);
            Allowed(s, steps) && AllGuarded(s, steps, {LookIsOneStep})
            && HasLock(Run(s, steps), 1) && HasLock(Run(s, steps), 2)
  {
    hide Run, Allowed, AllGuarded;
    var s, w := Start("host", 0), {LookIsOneStep};
    var dead, seen, yours := Process(0, false, Released), Seen(LockOf(0).owner), Dir(2, None, 0);
    steps := Go(s, before, w, Three(dead, P(1, seen), P(2, Trying), Free), Mkdir(2),
                Three(dead, P(1, seen), P(2, Made(0)), yours));
    steps := Go(s, steps, w, Three(dead, P(1, seen), P(2, Made(0)), yours), Judge(1),
                Three(dead, P(1, Removing), P(2, Made(0)), yours));
    steps := Go(s, steps, w, Three(dead, P(1, Removing), P(2, Made(0)), yours), Remove(1),
                Three(dead, P(1, Trying), P(2, Made(0)), Free));
    steps := Go(s, steps, w, Three(dead, P(1, Trying), P(2, Made(0)), Free), Mkdir(1),
                Three(dead, P(1, Made(0)), P(2, Made(0)), Dir(1, None, 0)));
  }

  lemma ReleasedAndTaken(waived: set<Rule>) returns (steps: seq<Step>)
    ensures var s := Start("host", 0);
            Allowed(s, steps) && AllGuarded(s, steps, waived)
            && Run(s, steps) == Three(P(0, Released), P(1, Made(0)), P(2, Trying), Dir(1, None, 0))
  {
    hide Run, Allowed, AllGuarded;
    var s := Start("host", 0);
    steps := ZeroHolds(waived);
    steps := Go(s, steps, waived, Three(P(0, Holding), P(1, Trying), P(2, Trying), LockOf(0)), Release(0),
                Three(P(0, Released), P(1, Trying), P(2, Trying), Free));
    steps := Go(s, steps, waived, Three(P(0, Released), P(1, Trying), P(2, Trying), Free), Mkdir(1),
                Three(P(0, Released), P(1, Made(0)), P(2, Trying), Dir(1, None, 0)));
  }

  /** The handlers outlive the release: a signal before exit removes the next run's lock. */
  lemma LateSignalBreaksExclusion() returns (steps: seq<Step>)
    ensures var s := Start("host", 0);
            Allowed(s, steps) && AllGuarded(s, steps, {NoLateSignal})
            && HasLock(Run(s, steps), 1) && HasLock(Run(s, steps), 2)
  {
    hide Run, Allowed, AllGuarded;
    var s, w, dead := Start("host", 0), {NoLateSignal}, Process(0, false, Released);
    steps := ReleasedAndTaken(w);
    steps := Go(s, steps, w, Three(P(0, Released), P(1, Made(0)), P(2, Trying), Dir(1, None, 0)), LateSignal(0),
                Three(dead, P(1, Made(0)), P(2, Trying), Free));
    steps := Go(s, steps, w, Three(dead, P(1, Made(0)), P(2, Trying), Free), Mkdir(2),
                Three(dead, P(1, Made(0)), P(2, Made(0)), Dir(2, None, 0)));
  }

  // ------------------------------------------- one process against the directory

  predicate ByOther(step: Step, i: Instance) {
    match step
    case Tick(_) => true
    case Spawn(j, _) => j != i
    case Mkdir(j) => j != i
    case WriteOwner(j) => j != i
    case Read(j) => j != i
    case Judge(j) => j != i
    case Remove(j) => j != i
    case Release(j) => j != i
    case SignalRelease(j) => j != i
    case LateSignal(j) => j != i
    case Crash(j) => j != i
  }

  datatype LockOutcome = Acquired | Retry | Timeout

  function DecideLockAttempt(acquired: bool, elapsedMs: int): LockOutcome {
    if acquired then Acquired else if elapsedMs > LOCK_WAIT_MS then Timeout else Retry
  }

  lemma HolderIsAlone(start: State, steps: seq<Step>, i: Instance)
    requires Allowed(start, steps) && HasLock(Run(start, steps), i)
    ensures start == Start(start.host, start.clock) && AllGuarded(start, steps, {}) ==>
              forall j | HasLock(Run(start, steps), j) :: j == i
  {
    hide Run, Allowed, AllGuarded, HasLock;
    if start == Start(start.host, start.clock) && AllGuarded(start, steps, {}) {
      forall j | HasLock(Run(start, steps), j) ensures j == i {
        AtMostOneHolder(start.host, start.clock, steps, i, j);
      }
    }
  }

  datatype Tried = Won | Lost | Threw

  /** What others do in one round of the wait: between mkdir and the record, between reading the
      record and probing it, before the removal, and while the contender sleeps. */
  datatype Round = Round(made: seq<Step>, read: seq<Step>, judged: seq<Step>, asleep: seq<Step>)

  datatype Waited = Held | GaveUp | Died | StillWaiting

  /** The host as one gate process meets it: others may act between any two of its own
      system calls. `ran` is the run so far, from `start`. */
  class Host {
    var s: State

    constructor (initial: State)
      ensures s == initial
    {
      s := initial;
    }

    method Do(step: Step, ghost start: State, ghost done: seq<Step>) returns (ghost ran: seq<Step>)
      requires Enabled(s, step) && Allowed(start, done) && s == Run(start, done)
      modifies this
      ensures ran == done + [step] && Allowed(start, ran) && s == Run(start, ran)
      ensures s == After(old(s), step)
    {
      hide Enabled, After, Run, Allowed;
      ran := Next(start, done, step, {});
      s := After(s, step);
    }

    method Others(i: Instance, moves: seq<Step>, ghost start: State, ghost done: seq<Step>)
      returns (ghost ran: seq<Step>)
      requires i in s.procs && Allowed(start, done) && s == Run(start, done)
      modifies this
      ensures Allowed(start, ran) && s == Run(start, ran)
      ensures i in s.procs && s.procs[i] == old(s).procs[i]
      ensures moves == [] ==> s == old(s)
    {
      hide Run, Allowed, DecideReclaim;
      ran := done;
      for k := 0 to |moves|
        invariant Allowed(start, ran) && s == Run(start, ran)
        invariant i in s.procs && s.procs[i] == old(s).procs[i]
        invariant moves == [] ==> s == old(s)
      {
        if ByOther(moves[k], i) && Enabled(s, moves[k]) {
          ran := Do(moves[k], start, ran);
        }
      }
    }

    /** `tryAcquire`: mkdir, then the owner record. It throws only where the directory it made
        is gone by the time it writes. */
    method TryAcquire(i: Instance, between: seq<Step>, ghost start: State, ghost done: seq<Step>)
      returns (r: Tried, ghost ran: seq<Step>)
      requires At(s, i, Trying) && Allowed(start, done) && s == Run(start, done)
      modifies this
      ensures Allowed(start, ran) && s == Run(start, ran)
      ensures r.Lost? <==> old(s).lock.Dir?
      ensures r.Lost? ==> At(s, i, Blocked) && s.lock == old(s).lock
      ensures r.Won? ==> At(s, i, Holding) && Record(s.lock) == Some(LockOwner(s.procs[i].pid, s.host, s.clock))
      ensures r.Threw? ==> !Live(s, i) && s.lock.Free?
    {
      hide Run, Allowed;
      ran := Do(Mkdir(i), start, done);
      if s.procs[i].phase.Blocked? { return Lost, ran; }
      ran := Others(i, between, start, ran);
      ran := Do(WriteOwner(i), start, ran);
      r := if s.procs[i].alive then Won else Threw;
    }

    /** The look of a contender: read, probe, and remove when the verdict is to reclaim. What it saw of
        the record decides: undisturbed between read and probe it reclaims a lock of this host exactly
        if no live process has the recorded PID, any other exactly if it is over four hours old. */
    method Reclaim(i: Instance, between: seq<Step>, before: seq<Step>, ghost start: State, ghost done: seq<Step>)
      returns (reclaimed: bool, ghost ran: seq<Step>)
      requires At(s, i, Blocked) && Allowed(start, done) && s == Run(start, done)
      modifies this
      ensures Allowed(start, ran) && s == Run(start, ran)
      ensures At(s, i, Trying)
      ensures reclaimed ==> s.lock.Free?
      ensures old(s).lock.Dir? && between == [] ==>
                var owner := old(s).lock.owner;
                reclaimed <==>
                  if owner.Some? && owner.value.host == old(s).host then !PidAlive(old(s), owner.value.pid)
                  else old(s).clock - old(s).lock.mtime > 14_400_000
    {
      hide Run, Allowed, DecideReclaim, PidAlive;
      MovingKeepsPids(s, i, Seen(Record(s.lock)));
      ran := Do(Read(i), start, done);
      ran := Others(i, between, start, ran);
      ran := Do(Judge(i), start, ran);
      if s.procs[i].phase.Trying? { return false, ran; }
      ran := Others(i, before, start, ran);
      ran := Do(Remove(i), start, ran);
      reclaimed := true;
    }

    /** `acquireLock`, over as many rounds as `rounds` tells of. It answers `Held` only where the
        process is in possession, its own record in the directory, and in a guarded run nobody else
        is; it gives up only past the wait, empty-handed. */
    method Acquire(i: Instance, rounds: seq<Round>, ghost start: State, ghost done: seq<Step>)
      returns (r: Waited, ghost ran: seq<Step>)
      requires At(s, i, Trying) && Allowed(start, done) && s == Run(start, done)
      modifies this
      ensures Allowed(start, ran) && s == Run(start, ran)
      ensures r.Held? ==> At(s, i, Holding) && Record(s.lock) == Some(LockOwner(s.procs[i].pid, s.host, s.clock))
      ensures r.Held? && start == Start(start.host, start.clock) && AllGuarded(start, ran, {}) ==>
                forall j | HasLock(s, j) :: j == i
      ensures r.GaveUp? ==> At(s, i, Blocked) && s.lock.Dir? && s.clock - old(s).clock > 7_200_000
      ensures r.Died? ==> !Live(s, i)
      ensures r.StillWaiting? ==> At(s, i, Trying)
    {
      hide Run, Allowed, AllGuarded, DecideReclaim;
      ran := done;
      var startedAt := s.clock;
      for k := 0 to |rounds|
        invariant Allowed(start, ran) && s == Run(start, ran) && At(s, i, Trying)
      {
        var tried;
        tried, ran := TryAcquire(i, rounds[k].made, start, ran);
        if tried.Threw? { return Died, ran; }
        var decision := DecideLockAttempt(tried.Won?, s.clock - startedAt);
        if decision.Acquired? {
          HolderIsAlone(start, ran, i);
          return Held, ran;
        }
        if decision.Timeout? { return GaveUp, ran; }
        var reclaimed;
        reclaimed, ran := Reclaim(i, rounds[k].read, rounds[k].judged, start, ran);
        if !reclaimed { ran := Others(i, rounds[k].asleep, start, ran); }
      }
      r := StillWaiting;
    }

    /** The `finally` of the gate: the directory goes, the process lives on. */
    method ReleaseLock(i: Instance, ghost start: State, ghost done: seq<Step>) returns (ghost ran: seq<Step>)
      requires At(s, i, Holding) && Allowed(start, done) && s == Run(start, done)
      modifies this
      ensures Allowed(start, ran) && s == Run(start, ran)
      ensures At(s, i, Released) && s.lock.Free?
    {
      hide Run, Allowed;
      ran := Do(Release(i), start, done);
    }
  }

  /** In a safe state the record always lands in the directory its writer made. */
  lemma OwnerRecordLands(s: State, i: Instance)
    requires Safe(s) && Enabled(s, WriteOwner(i))
    ensures At(After(s, WriteOwner(i)), i, Holding)
    ensures After(s, WriteOwner(i)).lock == Dir(i, Some(LockOwner(s.procs[i].pid, s.host, s.clock)), s.clock)
  {
  }

  // ------------------------------------------------------------ the polling loop

  /** What the k-th attempt meets: whether mkdir won, the clock right after it, and what the
      look at the standing lock says. */
  datatype Attempt = Attempt(made: bool, now: int, look: ReclaimInput)

  predicate Reclaims(a: Attempt) {
    DecideReclaim(a.look)
  }

  function ReclaimCount(world: nat -> Attempt, n: nat): nat {
    if n == 0 then 0 else ReclaimCount(world, n - 1) + if Reclaims(world(n - 1)) then 1 else 0
  }

  /** A sleep advances the clock by at least the poll interval; a reclaim does not sleep. */
  predicate Advances(world: nat -> Attempt, k: nat) {
    world(k + 1).now >= world(k).now + if Reclaims(world(k)) then 0 else LOCK_POLL_MS
  }

  ghost predicate ClockRuns(world: nat -> Attempt, startedAt: int) {
    startedAt <= world(0).now && forall k: nat :: Advances(world, k)
  }

  lemma {:induction false} ElapsedByAttempt(world: nat -> Attempt, startedAt: int, k: nat)
    requires ClockRuns(world, startedAt)
    ensures world(k).now - startedAt >= LOCK_POLL_MS * (k - ReclaimCount(world, k))
  {
    hide Reclaims;
    if k > 0 {
      ElapsedByAttempt(world, startedAt, k - 1);
      assert Advances(world, k - 1);
    }
  }

  lemma CountGrows(world: nat -> Attempt, n: nat)
    ensures n > 0 ==> ReclaimCount(world, n - 1) <= ReclaimCount(world, n)
  {
  }

  predicate GivesUp(world: nat -> Attempt, startedAt: int, k: nat) {
    world(k).now - startedAt > LOCK_WAIT_MS
  }

  /** The wait ends at the first attempt that makes the directory or finds the time used
      up, true exactly when it made it, and after at most 7202 attempts beside the reclaims. */
  method AcquireLock(world: nat -> Attempt, startedAt: int, ghost mostReclaims: nat)
    returns (held: bool, attempts: nat)
    requires ClockRuns(world, startedAt)
    requires forall n :: ReclaimCount(world, n) <= mostReclaims
    ensures attempts >= 1 && held == world(attempts - 1).made
    ensures !held ==> world(attempts - 1).now - startedAt > LOCK_WAIT_MS
    ensures forall k: nat | k < attempts - 1 :: !world(k).made && !GivesUp(world, startedAt, k)
    ensures attempts <= 7202 + ReclaimCount(world, attempts - 1)
  {
    hide DecideReclaim, ClockRuns, ReclaimCount, Reclaims;
    attempts := 0;
    while true
      invariant attempts > 0 ==> attempts <= 7201 + ReclaimCount(world, attempts - 1)
      invariant forall k: nat | k < attempts :: !world(k).made && !GivesUp(world, startedAt, k)
      decreases 7201 + mostReclaims - attempts
    {
      CountGrows(world, attempts);
      var attempt := world(attempts);
      attempts := attempts + 1;
      var decision := DecideLockAttempt(attempt.made, attempt.now - startedAt);
      if decision.Acquired? { return true, attempts; }
      if decision.Timeout? { return false, attempts; }
      ElapsedByAttempt(world, startedAt, attempts - 1);
      assert attempts - 1 <= 7200 + ReclaimCount(world, attempts - 1);
    }
  }
}
