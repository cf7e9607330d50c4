/** The billable-minute ledger of CI runs (scripts/ci/ci-minutes-audit.ts,
    scripts/ci/ci-minutes-fetch.ts). */
module CiMinutes {
  import opened Text

  // ------------------------------------------------------------------------ jobs

  /** `hasRunner` is false where the wire says that no runner was ever assigned. */
  datatype Job = Job(id: int, startedAt: Option<string>, completedAt: Option<string>, hasRunner: bool)

  datatype RunEntry = RunEntry(workflowName: string, runId: int, jobs: seq<Job>)

  /** `Date.parse` in milliseconds; None for NaN. Nothing is assumed of it. */
  type Clock = string -> Option<int>

  /** Execution time; None where a timestamp is missing or cannot be read. */
  function ElapsedMs(job: Job, clock: Clock): Option<int> {
    if job.startedAt.None? || job.completedAt.None? then None
    else
      var start, end := clock(job.startedAt.value), clock(job.completedAt.value);
      if start.None? || end.None? then None else Some(end.value - start.value)
  }

  /** Billable minutes of one job; None where the code throws. */
  function BillableMinutesForJob(job: Job, clock: Clock): (m: Option<nat>)
    ensures m.Some? ==> ElapsedMs(job, clock).Some?
    ensures m.Some? && ElapsedMs(job, clock).value >= 0 ==>
              ElapsedMs(job, clock).value <= 60_000 * m.value < ElapsedMs(job, clock).value + 60_000
    ensures m.Some? && ElapsedMs(job, clock).value < 0 ==> m.value == 0 && !job.hasRunner
    ensures m.None? <==> ElapsedMs(job, clock).None? || (ElapsedMs(job, clock).value < 0 && job.hasRunner)
  {
    var ms := ElapsedMs(job, clock);
    if ms.None? then None
    else if ms.value < 0 then (if job.hasRunner then None else Some(0))
    else if ms.value == 0 then Some(0)
    else Some((ms.value + 59_999) / 60_000)
  }

  /** When the clock reads a timestamp that is there. */
  predicate ReadAs(stamp: Option<string>, clock: Clock, ms: int) {
    stamp.Some? && clock(stamp.value) == Some(ms)
  }

  /** The bill of one job from its two timestamps: the time in between in whole minutes, rounded up,
      for a job that did not end before it started; nothing for one that did and never had a runner;
      and a refusal for every other. */
  lemma JobMinutes(job: Job, clock: Clock, start: int, end: int)
    ensures ReadAs(job.startedAt, clock, start) && ReadAs(job.completedAt, clock, end) ==>
              var m := BillableMinutesForJob(job, clock);
              && (start <= end ==> m.Some? && 60_000 * m.value - 60_000 < end - start <= 60_000 * m.value)
              && (end < start && !job.hasRunner ==> m == Some(0))
              && (end < start && job.hasRunner ==> m.None?)
    ensures (forall ms :: !ReadAs(job.startedAt, clock, ms)) || (forall ms :: !ReadAs(job.completedAt, clock, ms)) ==>
              BillableMinutesForJob(job, clock).None?
  {
    var elapsed := ElapsedMs(job, clock);
    if elapsed.Some? {
      assert ReadAs(job.startedAt, clock, clock(job.startedAt.value).value);
      assert ReadAs(job.completedAt, clock, clock(job.completedAt.value).value);
    }
  }

  function MinutesOfJobs(jobs: seq<Job>, clock: Clock): Option<nat> {
    if jobs == [] then Some(0)
    else
      var init, last := MinutesOfJobs(jobs[..|jobs| - 1], clock), BillableMinutesForJob(jobs[|jobs| - 1], clock);
      if init.None? || last.None? then None else Some(init.value + last.value)
  }

  // ------------------------------------------------------------------ the summary

  datatype Cost = Cost(billableMinutes: nat, runs: nat, jobs: nat)

  datatype WorkflowCost = WorkflowCost(workflowName: string, cost: Cost)

  /** A JavaScript Map: its entries in insertion order, each key once. */
  type Ledger = seq<WorkflowCost>

  function Find(l: Ledger, name: string): Option<nat> {
    if l == [] then None
    else if l[|l| - 1].workflowName == name then Some(|l| - 1)
    else Find(l[..|l| - 1], name)
  }

  lemma {:induction false} FindIs(l: Ledger, name: string)
    ensures Find(l, name).Some? ==> Find(l, name).value < |l| && l[Find(l, name).value].workflowName == name
    ensures Find(l, name).None? <==> forall i | 0 <= i < |l| :: l[i].workflowName != name
  {
    if l != [] {
      FindIs(l[..|l| - 1], name);
      assert forall i | 0 <= i < |l| - 1 :: l[..|l| - 1][i] == l[i];
    }
  }

  function CostOf(l: Ledger, name: string): Cost {
    FindIs(l, name);
    var i := Find(l, name);
    if i.Some? then l[i.value].cost else Cost(0, 0, 0)
  }

  /** `acc.set(name, cost)`. */
  function Put(l: Ledger, name: string, cost: Cost): Ledger {
    FindIs(l, name);
    var i := Find(l, name);
    if i.Some? then l[i.value := WorkflowCost(name, cost)] else l + [WorkflowCost(name, cost)]
  }

  function Add(a: Cost, b: Cost): Cost {
    Cost(a.billableMinutes + b.billableMinutes, a.runs + b.runs, a.jobs + b.jobs)
  }

  function EntryCost(e: RunEntry, clock: Clock): Option<Cost> {
    var m := MinutesOfJobs(e.jobs, clock);
    if m.None? then None else Some(Cost(m.value, 1, |e.jobs|))
  }

  /** The ledger after the first runs; None once a job throws. */
  function LedgerOf(entries: seq<RunEntry>, clock: Clock): Option<Ledger> {
    if entries == [] then Some([])
    else
      var e := entries[|entries| - 1];
      var init, cost := LedgerOf(entries[..|entries| - 1], clock), EntryCost(e, clock);
      if init.None? || cost.None? then None
      else Some(Put(init.value, e.workflowName, Add(CostOf(init.value, e.workflowName), cost.value)))
  }

  /** `collate(a, b)`: `a.localeCompare(b) < 0`, of which nothing is assumed. */
  type Collate = (string, string) -> bool

  predicate Before(a: WorkflowCost, b: WorkflowCost, collate: Collate) {
    a.cost.billableMinutes > b.cost.billableMinutes
    || (a.cost.billableMinutes == b.cost.billableMinutes && collate(a.workflowName, b.workflowName))
  }

  function Insert(l: Ledger, w: WorkflowCost, collate: Collate): Ledger {
    if l != [] && Before(w, l[|l| - 1], collate)
    then Insert(l[..|l| - 1], w, collate) + [l[|l| - 1]]
    else l + [w]
  }

  function Sort(l: Ledger, collate: Collate): Ledger {
    if l == [] then [] else Insert(Sort(l[..|l| - 1], collate), l[|l| - 1], collate)
  }

  function TotalOf(l: Ledger): nat {
    if l == [] then 0 else TotalOf(l[..|l| - 1]) + l[|l| - 1].cost.billableMinutes
  }

  datatype Report = Report(totalBillableMinutes: nat, byWorkflow: Ledger)

  function ReportOf(entries: seq<RunEntry>, clock: Clock, collate: Collate): Option<Report> {
    var l := LedgerOf(entries, clock);
    if l.None? then None
    else Some(Report(TotalOf(Sort(l.value, collate)), Sort(l.value, collate)))
  }

  method SummarizeBillableMinutes(entries: seq<RunEntry>, clock: Clock, collate: Collate)
    returns (report: Option<Report>)
    ensures report == ReportOf(entries, clock, collate)
  {
    hide BillableMinutesForJob, Put, CostOf;
    var acc: Ledger := [];
    for i := 0 to |entries|
      invariant LedgerOf(entries[..i], clock) == Some(acc)
    {
      assert entries[..i + 1][..i] == entries[..i];
      var e := entries[i];
      var prev := CostOf(acc, e.workflowName);
      var minutes := 0;
      for j := 0 to |e.jobs|
        invariant MinutesOfJobs(e.jobs[..j], clock) == Some(minutes)
      {
        assert e.jobs[..j + 1][..j] == e.jobs[..j];
        var m := BillableMinutesForJob(e.jobs[j], clock);
        if m.None? {
          ThrowsStay(e.jobs, clock, j + 1);
          LedgerThrowsStay(entries, clock, i + 1);
          return None;
        }
        minutes := minutes + m.value;
      }
      assert e.jobs[..|e.jobs|] == e.jobs;
      acc := Put(acc, e.workflowName, Add(prev, Cost(minutes, 1, |e.jobs|)));
    }
    assert entries[..|entries|] == entries;
    var byWorkflow := Sort(acc, collate);
    var total := 0;
    for k := 0 to |byWorkflow|
      invariant total == TotalOf(byWorkflow[..k])
    {
      assert byWorkflow[..k + 1][..k] == byWorkflow[..k];
      total := total + byWorkflow[k].cost.billableMinutes;
    }
    assert byWorkflow[..|byWorkflow|] == byWorkflow;
    report := Some(Report(total, byWorkflow));
  }

  lemma {:induction false} ThrowsStay(jobs: seq<Job>, clock: Clock, n: nat)
    requires n <= |jobs| && MinutesOfJobs(jobs[..n], clock).None?
    ensures MinutesOfJobs(jobs, clock).None?
    decreases |jobs|
  {
    if n < |jobs| {
      assert jobs[..|jobs| - 1][..n] == jobs[..n];
      ThrowsStay(jobs[..|jobs| - 1], clock, n);
    } else {
      assert jobs[..n] == jobs;
    }
  }

  lemma {:induction false} LedgerThrowsStay(entries: seq<RunEntry>, clock: Clock, n: nat)
    requires n <= |entries| && LedgerOf(entries[..n], clock).None?
    ensures LedgerOf(entries, clock).None?
    decreases |entries|
  {
    hide Put, CostOf, EntryCost;
    if n < |entries| {
      assert entries[..|entries| - 1][..n] == entries[..n];
      LedgerThrowsStay(entries[..|entries| - 1], clock, n);
    } else {
      assert entries[..n] == entries;
    }
  }

  // ------------------------------------------------- what the ledger says per workflow

  predicate NamesOnce(l: Ledger) {
    forall i, j | 0 <= i < j < |l| :: l[i].workflowName != l[j].workflowName
  }

  predicate Lists(l: Ledger, name: string) {
    exists i | 0 <= i < |l| :: l[i].workflowName == name
  }

  /** What the runs of one workflow cost together. */
  function WorkflowTotal(entries: seq<RunEntry>, clock: Clock, name: string): Cost {
    if entries == [] then Cost(0, 0, 0)
    else
      var e := entries[|entries| - 1];
      var init := WorkflowTotal(entries[..|entries| - 1], clock, name);
      var cost := EntryCost(e, clock);
      if e.workflowName == name && cost.Some? then Add(init, cost.value) else init
  }

  predicate Readable(entries: seq<RunEntry>, clock: Clock) {
    forall i | 0 <= i < |entries| :: EntryCost(entries[i], clock).Some?
  }

  lemma PutIs(l: Ledger, name: string, cost: Cost)
    requires NamesOnce(l)
    ensures NamesOnce(Put(l, name, cost))
    ensures forall other :: CostOf(Put(l, name, cost), other) == if other == name then cost else CostOf(l, other)
    ensures forall other :: Lists(Put(l, name, cost), other) <==> Lists(l, other) || other == name
  {
    FindIs(l, name);
    var p := Put(l, name, cost);
    assert NamesOnce(p);
    assert Lists(p, name) by {
      assert if Find(l, name).Some? then p[Find(l, name).value].workflowName == name else p[|l|].workflowName == name;
    }
    forall other
      ensures CostOf(p, other) == if other == name then cost else CostOf(l, other)
      ensures Lists(p, other) <==> Lists(l, other) || other == name
    {
      FindIs(l, other);
      FindIs(p, other);
      if Lists(l, other) {
        var i :| 0 <= i < |l| && l[i].workflowName == other;
        assert p[i].workflowName == other;
      }
      if Lists(p, other) && other != name {
        var i :| 0 <= i < |p| && p[i].workflowName == other;
        assert i < |l| && l[i].workflowName == other;
      }
    }
  }

  /** Each workflow appears once, exactly if it has a run, with the sums over its runs; the
      ledger exists exactly when every job can be scored. */
  lemma {:induction false} LedgerIs(entries: seq<RunEntry>, clock: Clock)
    ensures LedgerOf(entries, clock).Some? <==> Readable(entries, clock)
    ensures LedgerOf(entries, clock).Some? ==>
              var l := LedgerOf(entries, clock).value;
              && NamesOnce(l)
              && (forall name :: CostOf(l, name) == WorkflowTotal(entries, clock, name))
              && (forall name :: Lists(l, name) <==> exists i | 0 <= i < |entries| :: entries[i].workflowName == name)
  {
    hide EntryCost, Put, CostOf, NamesOnce, Lists;
    if entries == [] {
      EmptyLedger();
    } else {
      var init, e := entries[..|entries| - 1], entries[|entries| - 1];
      LedgerIs(init, clock);
      assert forall i | 0 <= i < |init| :: init[i] == entries[i];
      if LedgerOf(entries, clock).Some? {
        var before := LedgerOf(init, clock).value;
        PutIs(before, e.workflowName, Add(CostOf(before, e.workflowName), EntryCost(e, clock).value));
        forall name
          ensures Lists(LedgerOf(entries, clock).value, name) <==>
                    exists i | 0 <= i < |entries| :: entries[i].workflowName == name
        {
          assert Lists(before, name) <==> exists i | 0 <= i < |init| :: init[i].workflowName == name;
        }
      }
    }
  }

  lemma EmptyLedger()
    ensures NamesOnce([]) && forall name :: CostOf([], name) == Cost(0, 0, 0) && !Lists([], name)
  {
  }

  // ----------------------------------------------------------------------- sorting

  lemma {:induction false} InsertIs(l: Ledger, w: WorkflowCost, collate: Collate)
    ensures multiset(Insert(l, w, collate)) == multiset(l) + multiset{w}
    ensures |Insert(l, w, collate)| == |l| + 1
  {
    hide Before;
    if l != [] && Before(w, l[|l| - 1], collate) {
      InsertIs(l[..|l| - 1], w, collate);
      assert l == l[..|l| - 1] + [l[|l| - 1]];
    }
  }

  lemma {:induction false} InsertOrders(l: Ledger, w: WorkflowCost, collate: Collate)
    requires CostliestFirst(l)
    ensures CostliestFirst(Insert(l, w, collate))
  {
    if l != [] && Before(w, l[|l| - 1], collate) {
      var init, last := l[..|l| - 1], l[|l| - 1];
      InsertOrders(init, w, collate);
      InsertMembers(init, w, collate, last.cost.billableMinutes);
      assert Insert(l, w, collate) == Insert(init, w, collate) + [last];
    }
  }

  lemma {:induction false} InsertMembers(l: Ledger, w: WorkflowCost, collate: Collate, least: nat)
    requires w.cost.billableMinutes >= least && forall i | 0 <= i < |l| :: l[i].cost.billableMinutes >= least
    ensures forall i | 0 <= i < |Insert(l, w, collate)| :: Insert(l, w, collate)[i].cost.billableMinutes >= least
  {
    if l != [] && Before(w, l[|l| - 1], collate) {
      InsertMembers(l[..|l| - 1], w, collate, least);
    }
  }

  predicate CostliestFirst(l: Ledger) {
    forall i, j | 0 <= i < j < |l| :: l[i].cost.billableMinutes >= l[j].cost.billableMinutes
  }

  lemma NothingToOrder()
    ensures CostliestFirst([])
  {
  }

  lemma {:induction false} SortIs(l: Ledger, collate: Collate)
    ensures CostliestFirst(Sort(l, collate)) && multiset(Sort(l, collate)) == multiset(l)
    ensures |Sort(l, collate)| == |l|
  {
    hide Insert, CostliestFirst;
    if l == [] {
      assert CostliestFirst([]) by { NothingToOrder(); }
    } else {
      SortIs(l[..|l| - 1], collate);
      InsertIs(Sort(l[..|l| - 1], collate), l[|l| - 1], collate);
      InsertOrders(Sort(l[..|l| - 1], collate), l[|l| - 1], collate);
      assert l == l[..|l| - 1] + [l[|l| - 1]];
    }
  }

  /** Never both ways round. */
  ghost predicate Asymmetric(collate: Collate) {
    forall a, b :: !(collate(a, b) && collate(b, a))
  }

  /** Neighbours of equal cost stand in the order of their names. */
  predicate TiesByName(l: Ledger, collate: Collate) {
    forall i | 0 <= i < |l| - 1 ::
      l[i].cost.billableMinutes == l[i + 1].cost.billableMinutes ==> !collate(l[i + 1].workflowName, l[i].workflowName)
  }

  lemma {:induction false} InsertByName(l: Ledger, w: WorkflowCost, collate: Collate)
    requires TiesByName(l, collate) && Asymmetric(collate)
    ensures TiesByName(Insert(l, w, collate), collate)
    ensures var r := Insert(l, w, collate); r != [] && (r[|r| - 1] == w || (l != [] && r[|r| - 1] == l[|l| - 1]))
  {
    if l != [] && Before(w, l[|l| - 1], collate) {
      var init := l[..|l| - 1];
      InsertByName(init, w, collate);
      assert init != [] ==> init[|init| - 1] == l[|l| - 2];
    }
  }

  lemma {:induction false} TiesAreByName(l: Ledger, collate: Collate)
    requires Asymmetric(collate)
    ensures TiesByName(Sort(l, collate), collate)
  {
    hide Insert, Asymmetric;
    if l != [] {
      TiesAreByName(l[..|l| - 1], collate);
      InsertByName(Sort(l[..|l| - 1], collate), l[|l| - 1], collate);
    }
  }

  lemma TotalSnoc(l: Ledger, w: WorkflowCost)
    ensures TotalOf(l + [w]) == TotalOf(l) + w.cost.billableMinutes
  {
    assert (l + [w])[..|l + [w]| - 1] == l;
  }

  lemma {:induction false} InsertTotal(l: Ledger, w: WorkflowCost, collate: Collate)
    ensures TotalOf(Insert(l, w, collate)) == TotalOf(l) + w.cost.billableMinutes
  {
    if l != [] && Before(w, l[|l| - 1], collate) {
      InsertTotal(l[..|l| - 1], w, collate);
      TotalSnoc(Insert(l[..|l| - 1], w, collate), l[|l| - 1]);
    } else {
      TotalSnoc(l, w);
    }
  }

  lemma {:induction false} SortTotal(l: Ledger, collate: Collate)
    ensures TotalOf(Sort(l, collate)) == TotalOf(l)
  {
    if l != [] {
      SortTotal(l[..|l| - 1], collate);
      InsertTotal(Sort(l[..|l| - 1], collate), l[|l| - 1], collate);
    }
  }

  // ------------------------------------------------------------------ conservation

  function RunsIn(l: Ledger): nat {
    if l == [] then 0 else RunsIn(l[..|l| - 1]) + l[|l| - 1].cost.runs
  }

  function JobsIn(l: Ledger): nat {
    if l == [] then 0 else JobsIn(l[..|l| - 1]) + l[|l| - 1].cost.jobs
  }

  function JobCount(entries: seq<RunEntry>): nat {
    if entries == [] then 0 else JobCount(entries[..|entries| - 1]) + |entries[|entries| - 1].jobs|
  }

  /** All billable minutes, job by job. */
  function AllMinutes(entries: seq<RunEntry>, clock: Clock): nat {
    if entries == [] then 0
    else
      var m := MinutesOfJobs(entries[|entries| - 1].jobs, clock);
      AllMinutes(entries[..|entries| - 1], clock) + if m.Some? then m.value else 0
  }

  lemma SetOneTotals(l: Ledger, i: nat, w: WorkflowCost)
    requires i < |l|
    ensures TotalOf(l[i := w]) == TotalOf(l) - l[i].cost.billableMinutes + w.cost.billableMinutes
    ensures RunsIn(l[i := w]) == RunsIn(l) - l[i].cost.runs + w.cost.runs
    ensures JobsIn(l[i := w]) == JobsIn(l) - l[i].cost.jobs + w.cost.jobs
    decreases |l|
  {
    if i < |l| - 1 {
      SetOneTotals(l[..|l| - 1], i, w);
      assert l[i := w][..|l| - 1] == l[..|l| - 1][i := w];
    } else {
      assert l[i := w][..|l| - 1] == l[..|l| - 1];
    }
  }

  lemma PutTotals(l: Ledger, name: string, cost: Cost)
    ensures var p, was := Put(l, name, cost), CostOf(l, name);
            && TotalOf(p) == TotalOf(l) - was.billableMinutes + cost.billableMinutes
            && RunsIn(p) == RunsIn(l) - was.runs + cost.runs
            && JobsIn(p) == JobsIn(l) - was.jobs + cost.jobs
  {
    FindIs(l, name);
    if Find(l, name).Some? {
      SetOneTotals(l, Find(l, name).value, WorkflowCost(name, cost));
    } else {
      assert (l + [WorkflowCost(name, cost)])[..|l|] == l;
    }
  }

  /** Nothing is lost or invented in the ledger: its minutes, runs and jobs add up to those of
      the runs it was made from. */
  lemma {:induction false} LedgerConserves(entries: seq<RunEntry>, clock: Clock)
    requires LedgerOf(entries, clock).Some?
    ensures TotalOf(LedgerOf(entries, clock).value) == AllMinutes(entries, clock)
    ensures RunsIn(LedgerOf(entries, clock).value) == |entries|
    ensures JobsIn(LedgerOf(entries, clock).value) == JobCount(entries)
  {
    hide Put, CostOf, MinutesOfJobs;
    if entries != [] {
      var init, e := entries[..|entries| - 1], entries[|entries| - 1];
      LedgerConserves(init, clock);
      var before := LedgerOf(init, clock).value;
      PutTotals(before, e.workflowName, Add(CostOf(before, e.workflowName), EntryCost(e, clock).value));
    }
  }

  /** The report: its total is the sum of every job's billable minutes, each workflow is listed
      once with the sums over its own runs, costliest first, and it exists exactly when every
      job can be scored. */
  lemma ReportMeans(entries: seq<RunEntry>, clock: Clock, collate: Collate)
    ensures ReportOf(entries, clock, collate).Some? <==> Readable(entries, clock)
    ensures ReportOf(entries, clock, collate).Some? ==>
              var r := ReportOf(entries, clock, collate).value;
              && r.totalBillableMinutes == AllMinutes(entries, clock)
              && CostliestFirst(r.byWorkflow) && (Asymmetric(collate) ==> TiesByName(r.byWorkflow, collate))
              && (forall w :: w in r.byWorkflow <==>
                    w.cost == WorkflowTotal(entries, clock, w.workflowName)
                    && exists i | 0 <= i < |entries| :: entries[i].workflowName == w.workflowName)
              && NamesOnce(r.byWorkflow)
  {
    hide EntryCost, WorkflowTotal, Sort, LedgerOf, TotalOf, CostliestFirst, Readable, AllMinutes, Asymmetric,
         TiesByName;
    LedgerIs(entries, clock);
    if LedgerOf(entries, clock).Some? {
      var l := LedgerOf(entries, clock).value;
      LedgerConserves(entries, clock);
      SortTotal(l, collate);
      SortIs(l, collate);
      if Asymmetric(collate) { TiesAreByName(l, collate); }
      var sorted := Sort(l, collate);
      SameMembersOnce(l, sorted);
      forall w ensures w in sorted <==> w.cost == WorkflowTotal(entries, clock, w.workflowName)
                                        && exists i | 0 <= i < |entries| :: entries[i].workflowName == w.workflowName
      {
        assert w in multiset(sorted) <==> w in multiset(l);
        MemberIs(l, w);
      }
    }
  }

  lemma MemberIs(l: Ledger, w: WorkflowCost)
    requires NamesOnce(l)
    ensures w in l <==> Lists(l, w.workflowName) && CostOf(l, w.workflowName) == w.cost
  {
    FindIs(l, w.workflowName);
    var i := Find(l, w.workflowName);
    if w in l {
      var k :| 0 <= k < |l| && l[k] == w;
      assert l[k].workflowName == w.workflowName;
      assert i.value == k;
    }
    if i.Some? && CostOf(l, w.workflowName) == w.cost {
      assert l[i.value] == w;
    }
  }

  lemma SameMembersOnce(l: Ledger, sorted: Ledger)
    requires NamesOnce(l) && multiset(sorted) == multiset(l)
    ensures NamesOnce(sorted)
  {
    forall i, j | 0 <= i < j < |sorted| ensures sorted[i].workflowName != sorted[j].workflowName {
      if sorted[i].workflowName == sorted[j].workflowName {
        assert sorted[i] in multiset(l) && sorted[j] in multiset(l);
        var a := sorted[i];
        OneByName(l, a, sorted[j]);
        TwiceCounted(sorted, i, j);
        OnceCounted(l, a);
      }
    }
  }

  lemma TwiceCounted(s: Ledger, i: nat, j: nat)
    requires i < j < |s|
    ensures s[i] == s[j] ==> multiset(s)[s[i]] >= 2
  {
    var a, b := s[..j], s[j..];
    assert s == a + b;
    assert a[i] in a && b[0] in b;
    assert multiset(s) == multiset(a) + multiset(b);
  }

  lemma OneByName(l: Ledger, v: WorkflowCost, w: WorkflowCost)
    requires NamesOnce(l) && v in l && w in l && v.workflowName == w.workflowName
    ensures v == w
  {
    var i :| 0 <= i < |l| && l[i] == v;
    var j :| 0 <= j < |l| && l[j] == w;
    assert !(i < j) && !(j < i);
  }

  lemma {:induction false} OnceCounted(l: Ledger, w: WorkflowCost)
    requires NamesOnce(l)
    ensures multiset(l)[w] <= 1
  {
    if l != [] {
      var init, last := l[..|l| - 1], l[|l| - 1];
      OnceCounted(init, w);
      assert l == init + [last];
      assert multiset(l) == multiset(init) + multiset{last};
      assert forall k | 0 <= k < |init| :: init[k] == l[k] && l[k].workflowName != last.workflowName;
    }
  }

  // ------------------------------------------------------------ windows and order

  lemma CutLast(a: seq<RunEntry>, b: seq<RunEntry>)
    requires b != []
    ensures a + b != [] && (a + b)[..|a + b| - 1] == a + b[..|b| - 1] && (a + b)[|a + b| - 1] == b[|b| - 1]
  {
  }

  lemma {:induction false} MinutesAdd(a: seq<RunEntry>, b: seq<RunEntry>, clock: Clock)
    ensures AllMinutes(a + b, clock) == AllMinutes(a, clock) + AllMinutes(b, clock)
    decreases |b|
  {
    hide MinutesOfJobs;
    if b == [] {
      assert a + b == a;
    } else {
      MinutesAdd(a, b[..|b| - 1], clock);
      CutLast(a, b);
    }
  }

  lemma {:induction false} SharesAdd(a: seq<RunEntry>, b: seq<RunEntry>, clock: Clock, name: string)
    ensures WorkflowTotal(a + b, clock, name) == Add(WorkflowTotal(a, clock, name), WorkflowTotal(b, clock, name))
    decreases |b|
  {
    hide EntryCost;
    if b == [] {
      assert a + b == a;
    } else {
      SharesAdd(a, b[..|b| - 1], clock, name);
      CutLast(a, b);
    }
  }

  /** Two windows audited apart add up to the two audited together. */
  lemma WindowsAdd(a: seq<RunEntry>, b: seq<RunEntry>, clock: Clock, collate: Collate)
    requires ReportOf(a, clock, collate).Some? && ReportOf(b, clock, collate).Some?
    ensures ReportOf(a + b, clock, collate).Some?
    ensures ReportOf(a + b, clock, collate).value.totalBillableMinutes ==
            ReportOf(a, clock, collate).value.totalBillableMinutes
            + ReportOf(b, clock, collate).value.totalBillableMinutes
  {
    hide EntryCost, ReportOf, AllMinutes;
    ReportMeans(a, clock, collate);
    ReportMeans(b, clock, collate);
    ReportMeans(a + b, clock, collate);
    assert Readable(a + b, clock);
    MinutesAdd(a, b, clock);
  }

  lemma TakeOut(xs: seq<RunEntry>, x: RunEntry) returns (k: nat)
    requires x in xs
    ensures k < |xs| && xs[k] == x && xs == xs[..k] + ([x] + xs[k + 1..])
    ensures multiset(xs[..k] + xs[k + 1..]) == multiset(xs) - multiset{x}
  {
    k :| 0 <= k < |xs| && xs[k] == x;
    var before, after := xs[..k], xs[k + 1..];
    assert xs == before + ([x] + after);
    assert multiset(xs) == multiset(before) + (multiset{x} + multiset(after));
  }

  lemma MovedToEnd(before: seq<RunEntry>, x: RunEntry, after: seq<RunEntry>, clock: Clock, name: string)
    ensures AllMinutes(before + ([x] + after), clock) == AllMinutes(before + after + [x], clock)
    ensures WorkflowTotal(before + ([x] + after), clock, name) == WorkflowTotal(before + after + [x], clock, name)
  {
    hide MinutesOfJobs, EntryCost, AllMinutes, WorkflowTotal;
    MinutesAdd(before, [x] + after, clock);
    MinutesAdd([x], after, clock);
    MinutesAdd(before, after, clock);
    MinutesAdd(before + after, [x], clock);
    SharesAdd(before, [x] + after, clock, name);
    SharesAdd([x], after, clock, name);
    SharesAdd(before, after, clock, name);
    SharesAdd(before + after, [x], clock, name);
  }

  /** Neither the total nor any workflow's share depends on the order of the runs. */
  lemma {:induction false} OrderDoesNotMatter(a: seq<RunEntry>, b: seq<RunEntry>, clock: Clock, name: string)
    requires multiset(a) == multiset(b)
    ensures AllMinutes(a, clock) == AllMinutes(b, clock)
    ensures WorkflowTotal(a, clock, name) == WorkflowTotal(b, clock, name)
    decreases |a|
  {
    hide MinutesOfJobs, EntryCost, AllMinutes, WorkflowTotal, Add;
    if a == [] {
      assert |multiset(b)| == 0;
      assert b == [];
    } else {
      var init, x := a[..|a| - 1], a[|a| - 1];
      assert a == init + [x];
      assert x in multiset(b);
      var k := TakeOut(b, x);
      var before, after := b[..k], b[k + 1..];
      assert multiset(init) == multiset(a) - multiset{x};
      OrderDoesNotMatter(init, before + after, clock, name);
      MovedToEnd(before, x, after, clock, name);
      MinutesAdd(init, [x], clock);
      SharesAdd(init, [x], clock, name);
      MinutesAdd(before + after, [x], clock);
      SharesAdd(before + after, [x], clock, name);
    }
  }

  // ------------------------------------------------------------- minutes and time

  /** Execution milliseconds, a job that never ran counting for none. */
  function RanMs(job: Job, clock: Clock): nat {
    var ms := ElapsedMs(job, clock);
    if ms.Some? && ms.value >= 0 then ms.value else 0
  }

  function RanMsOf(jobs: seq<Job>, clock: Clock): nat {
    if jobs == [] then 0 else RanMsOf(jobs[..|jobs| - 1], clock) + RanMs(jobs[|jobs| - 1], clock)
  }

  function AllMs(entries: seq<RunEntry>, clock: Clock): nat {
    if entries == [] then 0
    else AllMs(entries[..|entries| - 1], clock) + RanMsOf(entries[|entries| - 1].jobs, clock)
  }

  lemma {:induction false} JobsBounds(jobs: seq<Job>, clock: Clock)
    requires MinutesOfJobs(jobs, clock).Some?
    ensures RanMsOf(jobs, clock) <= 60_000 * MinutesOfJobs(jobs, clock).value <= RanMsOf(jobs, clock) + 60_000 * |jobs|
  {
    hide BillableMinutesForJob;
    if jobs != [] { JobsBounds(jobs[..|jobs| - 1], clock); }
  }

  /** The bill is never below the time executed and exceeds it by less than a minute a job. */
  lemma {:induction false} BillBoundsTime(entries: seq<RunEntry>, clock: Clock)
    requires Readable(entries, clock)
    ensures AllMs(entries, clock) <= 60_000 * AllMinutes(entries, clock)
    ensures 60_000 * AllMinutes(entries, clock) <= AllMs(entries, clock) + 60_000 * JobCount(entries)
  {
    hide MinutesOfJobs, RanMsOf;
    if entries != [] {
      var init, e := entries[..|entries| - 1], entries[|entries| - 1];
      forall i | 0 <= i < |init| ensures EntryCost(init[i], clock).Some? {
        assert init[i] == entries[i];
      }
      BillBoundsTime(init, clock);
      assert EntryCost(entries[|entries| - 1], clock).Some?;
      JobsBounds(e.jobs, clock);
    }
  }

  // --------------------------------------------------------------------- fetching

  datatype WorkflowRun = WorkflowRun(id: int, name: Option<string>)

  function EntryFor(run: WorkflowRun, jobs: seq<Job>): RunEntry {
    RunEntry(if run.name.Some? then run.name.value else "(unnamed workflow)", run.id, jobs)
  }

  /** Joining runs to their jobs; None where the code throws. */
  function ToRunEntries(runs: seq<WorkflowRun>, jobsByRunId: map<int, seq<Job>>): Option<seq<RunEntry>> {
    if runs == [] then Some([])
    else
      var init, last := ToRunEntries(runs[..|runs| - 1], jobsByRunId), runs[|runs| - 1];
      if init.None? || last.id !in jobsByRunId then None
      else Some(init.value + [EntryFor(last, jobsByRunId[last.id])])
  }

  predicate EntryOf(e: RunEntry, run: WorkflowRun, jobs: seq<Job>) {
    && e.runId == run.id && e.jobs == jobs
    && (run.name.Some? ==> e.workflowName == run.name.value)
    && (run.name.None? ==> e.workflowName == "(unnamed workflow)")
  }

  /** No run is dropped: there is one entry per run, in order, with the run's own id, name and
      jobs, and the join is refused exactly when some run has no jobs record. */
  lemma {:induction false} EveryRunIsJoined(runs: seq<WorkflowRun>, jobsByRunId: map<int, seq<Job>>)
    ensures var r := ToRunEntries(runs, jobsByRunId);
            && (r.Some? <==> forall i | 0 <= i < |runs| :: runs[i].id in jobsByRunId)
            && (r.Some? ==> |r.value| == |runs| && forall i | 0 <= i < |runs| ::
                  EntryOf(r.value[i], runs[i], jobsByRunId[runs[i].id]))
  {
    if runs != [] {
      var init := runs[..|runs| - 1];
      EveryRunIsJoined(init, jobsByRunId);
      if runs[|runs| - 1].id in jobsByRunId { EntryIs(runs[|runs| - 1], jobsByRunId[runs[|runs| - 1].id]); }
      hide EntryOf, EntryFor;
      assert forall i | 0 <= i < |init| :: init[i] == runs[i];
    }
  }

  lemma EntryIs(run: WorkflowRun, jobs: seq<Job>)
    ensures EntryOf(EntryFor(run, jobs), run, jobs)
  {
  }

  const PER_PAGE: nat := 100

  datatype Page = Page(runs: seq<WorkflowRun>, totalCount: int)

  function Pages(world: nat -> Page, n: nat): seq<WorkflowRun> {
    if n == 0 then [] else Pages(world, n - 1) + world(n - 1).runs
  }

  /** Reads pages up to the first short one, and refuses a list shorter than the count the
      last page states. `last` is some page that is short. */
  method FetchAllRuns(world: nat -> Page, ghost last: nat) returns (runs: Option<seq<WorkflowRun>>, pages: nat)
    requires |world(last).runs| < 100
    ensures 1 <= pages <= last + 1 && |world(pages - 1).runs| < 100
    ensures forall k: nat | k < pages - 1 :: |world(k).runs| >= 100
    ensures runs == if world(pages - 1).totalCount > |Pages(world, pages)| then None else Some(Pages(world, pages))
  {
    var out: seq<WorkflowRun> := [];
    pages := 0;
    while true
      invariant pages <= last && out == Pages(world, pages)
      invariant forall k: nat | k < pages :: |world(k).runs| >= PER_PAGE
      decreases last - pages
    {
      var page := world(pages);
      out := out + page.runs;
      pages := pages + 1;
      if |page.runs| < PER_PAGE {
        if page.totalCount > |out| { return None, pages; }
        return Some(out), pages;
      }
    }
  }
}
