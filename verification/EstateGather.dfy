/** Gathering an estate, fail-closed, from git's own text, and what the verifier's exit code
    says about that text (scripts/estate-gather.ts). */
module EstateGather {
  import opened Text
  import opened Ordering
  import opened EstateDigest
  import opened EstateDecision
  import Porcelain

  /** One git reading: what it printed, or that it could not run. */
  datatype Outcome = Ran(text: string) | Failed

  datatype Readings = Readings(upstream: Outcome, ahead: Outcome, status: Outcome, stash: Outcome)

  /** `Number(text)`: not a number, not an integer, or an integer. */
  datatype Parsed = NaN | Fraction | Whole(value: int)

  datatype Gathered = Gathered(state: State) | GitBroke | Rejected

  function CountLines(s: string): nat {
    if s == "" then 0 else |Split(s, NL)|
  }

  predicate HasUpstream(r: Readings) {
    r.upstream.Ran? && r.upstream.text != ""
  }

  function AheadCount(r: Readings, number: string -> Parsed): Parsed
    requires HasUpstream(r) ==> r.ahead.Ran?
  {
    if HasUpstream(r) then number(if r.ahead.text == "" then "0" else r.ahead.text) else Whole(0)
  }

  function GatherOneFrom(rec: Porcelain.Record, r: Readings, number: string -> Parsed, resolve: string -> string):
    Gathered
  {
    if r.status.Failed? || r.stash.Failed? then GitBroke
    else if HasUpstream(r) && r.ahead.Failed? then GitBroke
    else
      var ahead := AheadCount(r, number);
      if !ahead.Whole? || ahead.value < 0 then GitBroke
      else
        var state := State(rec.path, rec.branch, CountLines(r.status.text), ahead.value, CountLines(r.stash.text),
                           rec.prunable, rec.locked);
        if ValidState(state, resolve) then Gathered(state) else Rejected
  }

  type Reader = Porcelain.Record -> Readings

  function GatherAll(recs: seq<Porcelain.Record>, readFor: Reader, number: string -> Parsed, resolve: string -> string):
    (r: seq<Gathered>)
    ensures |r| == |recs|
    ensures forall i | 0 <= i < |r| :: r[i] == GatherOneFrom(recs[i], readFor(recs[i]), number, resolve)
  {
    if recs == [] then []
    else
      var last := recs[|recs| - 1];
      GatherAll(recs[..|recs| - 1], readFor, number, resolve) + [GatherOneFrom(last, readFor(last), number, resolve)]
  }

  function States(gs: seq<Gathered>): (r: seq<State>)
    requires forall i | 0 <= i < |gs| :: gs[i].Gathered?
    ensures |r| == |gs| && forall i | 0 <= i < |r| :: r[i] == gs[i].state
  {
    if gs == [] then [] else States(gs[..|gs| - 1]) + [gs[|gs| - 1].state]
  }

  /** The observation of an estate, fail-closed: one broken reading or one rejected record
      makes the whole of it unobservable. */
  function ObserveEstate(porcelain: string, readFor: Reader, number: string -> Parsed, resolve: string -> string,
                         digest: string -> string): Observation
  {
    var records := Porcelain.Records(porcelain, resolve);
    var source := digest(porcelain);
    if records == [] then Unobservable(NoRecords, Some(source))
    else
      var gathered := GatherAll(records, readFor, number, resolve);
      if exists i | 0 <= i < |gathered| :: gathered[i].GitBroke? then Unobservable(GitFailed, Some(source))
      else if exists i | 0 <= i < |gathered| :: gathered[i].Rejected? then Unobservable(RecordRejected, Some(source))
      else Observed(source, States(gathered))
  }

  /** How far a worktree is ahead: nothing without an upstream, else what the count reads as. */
  predicate AheadIs(r: Readings, number: string -> Parsed, n: int) {
    if r.upstream == Failed || r.upstream == Ran("") then n == 0
    else r.ahead.Ran? && number(if r.ahead.text == "" then "0" else r.ahead.text) == Whole(n) && n >= 0
  }

  /** A record the schema takes: an absolute canonical path, and only printable characters. */
  predicate Proper(rec: Porcelain.Record, resolve: string -> string) {
    && rec.path != "" && rec.path[0] == '/' && rec.path == resolve(rec.path)
    && (forall i | 0 <= i < |rec.path| :: Printable(rec.path[i]))
    && (forall i | 0 <= i < |rec.branch| :: Printable(rec.branch[i]))
  }

  /** A worktree that was read in full and has nothing in flight and nothing wrong with it. */
  predicate Idle(rec: Porcelain.Record, r: Readings, number: string -> Parsed, resolve: string -> string) {
    && r.status == Ran("") && r.stash == Ran("") && AheadIs(r, number, 0)
    && !rec.prunable && !rec.locked && Proper(rec, resolve)
  }

  /** A text of `n` lines, none for the empty text. */
  predicate LineCount(o: Outcome, n: nat) {
    o.Ran? && n == if o.text == "" then 0 else |Split(o.text, "\n")|
  }

  /** One worktree, reading by reading: broken exactly where status or stash failed or the count of an
      upstream that is there cannot be read, rejected exactly for an improper record, and else a
      state with the record's own path, branch and marks and the counts that were read. */
  lemma GatheredIs(rec: Porcelain.Record, r: Readings, number: string -> Parsed, resolve: string -> string)
    ensures var g := GatherOneFrom(rec, r, number, resolve);
            && (g == GitBroke <==> r.status.Failed? || r.stash.Failed? || forall n :: !AheadIs(r, number, n))
            && (g == Rejected <==> g != GitBroke && !Proper(rec, resolve))
            && (g.Gathered? ==>
                  && g.state.path == rec.path && g.state.branch == rec.branch
                  && g.state.prunable == rec.prunable && g.state.locked == rec.locked
                  && LineCount(r.status, g.state.dirtyFileCount) && LineCount(r.stash, g.state.stashCount)
                  && AheadIs(r, number, g.state.aheadOfRemote))
  {
    hide Split;
    ControlsAre(rec.path);
    ControlsAre(rec.branch);
    hide NoControls, Printable;
    if !(r.status.Failed? || r.stash.Failed? || (HasUpstream(r) && r.ahead.Failed?)) {
      var ahead := AheadCount(r, number);
      if ahead.Whole? && ahead.value >= 0 { assert AheadIs(r, number, ahead.value); }
    }
  }

  /** Why an estate cannot be observed: there is no record, or a reading of some worktree broke, or,
      with none broken, some record was rejected. Every answer carries the digest of the listing. */
  lemma ObservationIs(porcelain: string, readFor: Reader, number: string -> Parsed, resolve: string -> string,
                      digest: string -> string)
    ensures var records := Porcelain.Records(porcelain, resolve);
            var one := (rec: Porcelain.Record) => GatherOneFrom(rec, readFor(rec), number, resolve);
            var o := ObserveEstate(porcelain, readFor, number, resolve, digest);
            && (o == Unobservable(NoRecords, Some(digest(porcelain))) <==> records == [])
            && (o == Unobservable(GitFailed, Some(digest(porcelain))) <==>
                  exists rec | rec in records :: one(rec).GitBroke?)
            && (o == Unobservable(RecordRejected, Some(digest(porcelain))) <==>
                  && (exists rec | rec in records :: one(rec).Rejected?)
                  && forall rec | rec in records :: !one(rec).GitBroke?)
            && (o.Observed? <==> records != [] && forall rec | rec in records :: one(rec).Gathered?)
            && (o.Observed? ==>
                  o.source == digest(porcelain) && |o.states| == |records|
                  && forall i | 0 <= i < |records| :: one(records[i]) == Gathered(o.states[i]))
  {
    hide GatherOneFrom;
    var records := Porcelain.Records(porcelain, resolve);
    hide Porcelain.Records;
    forall i | 0 <= i < |records| ensures records[i] in records {}
  }

  lemma QuietMeansIdle(rec: Porcelain.Record, r: Readings, number: string -> Parsed, resolve: string -> string)
    ensures Idle(rec, r, number, resolve) <==>
              var g := GatherOneFrom(rec, r, number, resolve);
              g.Gathered? && forall reason :: !Raises(g.state, ESTATE_POLICY, reason)
  {
    GatheredIs(rec, r, number, resolve);
    hide Split, Proper;
    var g := GatherOneFrom(rec, r, number, resolve);
    hide GatherOneFrom;
    if g.Gathered? {
      assert (forall reason :: !Raises(g.state, ESTATE_POLICY, reason)) <==>
             !Raises(g.state, ESTATE_POLICY, Dirty) && !Raises(g.state, ESTATE_POLICY, Unpushed)
             && !Raises(g.state, ESTATE_POLICY, Stash) && !Raises(g.state, ESTATE_POLICY, Prunable)
             && !Raises(g.state, ESTATE_POLICY, Locked) by { FiveReasons(g.state, ESTATE_POLICY); }
      assert LineCount(r.status, 0) <==> r.status == Ran("");
      assert LineCount(r.stash, 0) <==> r.stash == Ran("");
    }
  }

  lemma FiveReasons(s: State, policy: Policy)
    ensures (forall reason :: !Raises(s, policy, reason)) <==>
              !Raises(s, policy, Dirty) && !Raises(s, policy, Unpushed) && !Raises(s, policy, Stash)
              && !Raises(s, policy, Prunable) && !Raises(s, policy, Locked)
  {
    hide Raises;
    if !Raises(s, policy, Dirty) && !Raises(s, policy, Unpushed) && !Raises(s, policy, Stash)
       && !Raises(s, policy, Prunable) && !Raises(s, policy, Locked) {
      forall reason ensures !Raises(s, policy, reason) {
        match reason { case Dirty => case Unpushed => case Stash => case Prunable => case Locked => }
      }
    }
  }

  /** From git's own text to the exit code: the verifier says "proceed" exactly when at least
      one worktree was listed and every listed one was read in full and is idle. */
  lemma ProceedMeansEveryWorktreeIdle(porcelain: string, readFor: Reader, number: string -> Parsed,
                                      resolve: string -> string, digest: string -> string)
    ensures var records := Porcelain.Records(porcelain, resolve);
            var o := ObserveEstate(porcelain, readFor, number, resolve, digest);
            ExitCode(DecideEstate(o, None, ESTATE_POLICY, digest)) == 0 <==>
              records != [] && forall i | 0 <= i < |records| :: Idle(records[i], readFor(records[i]), number, resolve)
  {
    hide ValidState, CountLines, AheadCount, Idle, Raises, GatherOneFrom, DecideEstate, ExitCode;
    var records := Porcelain.Records(porcelain, resolve);
    var o := ObserveEstate(porcelain, readFor, number, resolve, digest);
    ExitZeroMeans(o, None, ESTATE_POLICY, digest);
    if records != [] {
      var gathered := GatherAll(records, readFor, number, resolve);
      forall i | 0 <= i < |records|
        ensures Idle(records[i], readFor(records[i]), number, resolve) <==>
                  gathered[i].Gathered? && forall reason :: !Raises(gathered[i].state, ESTATE_POLICY, reason)
      {
        QuietMeansIdle(records[i], readFor(records[i]), number, resolve);
      }
      if o.Observed? {
        assert forall i | 0 <= i < |gathered| :: gathered[i].Gathered? && o.states[i] == gathered[i].state;
      } else {
        var i :| 0 <= i < |gathered| && !gathered[i].Gathered?;
        assert !Idle(records[i], readFor(records[i]), number, resolve);
      }
    }
  }
}
