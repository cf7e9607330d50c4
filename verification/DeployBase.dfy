/** Which commit a deploy compares itself with, and what that keeps live
    (scripts/ci/resolve-ci-sha.ts). */
module DeployBase {
  import opened Text

  predicate IsSha(s: string) {
    |s| == 40 && forall i | 0 <= i < 40 :: '0' <= s[i] <= '9' || 'a' <= s[i] <= 'f'
  }

  /** Forty lower-case hex digits. */
  lemma ShaIs(s: string)
    ensures IsSha(s) <==> |s| == 40 && forall c | c in s :: c in "0123456789abcdef"
  {
    if IsSha(s) {
      forall c | c in s ensures c in "0123456789abcdef" {
        HexIs(c);
      }
    } else if |s| == 40 {
      var i :| 0 <= i < 40 && !('0' <= s[i] <= '9' || 'a' <= s[i] <= 'f');
      HexIs(s[i]);
      assert s[i] in s;
    }
  }

  lemma HexIs(c: char)
    ensures '0' <= c <= '9' || 'a' <= c <= 'f' <==> c in "0123456789abcdef"
  {
    var digits := "0123456789abcdef";
    assert forall i | 0 <= i < 16 :: '0' <= digits[i] <= '9' || 'a' <= digits[i] <= 'f';
    if '0' <= c <= '9' { assert digits[c as int - 48] == c; }
    if 'a' <= c <= 'f' { assert digits[c as int - 87] == c; }
  }

  datatype Run = Run(id: int, headSha: string, conclusion: Option<string>)

  // ------------------------------------------------------------- the resolution

  datatype Strategy = LastDeployed | Parent | SelfFallback

  function Present(sha: Option<string>): Option<string> {
    if sha == Some("") then None else sha
  }

  function ResolveBaseSha(current: string, parent: Option<string>, lastDeployed: Option<string>): (string, Strategy) {
    var deployed := Present(lastDeployed);
    if deployed.Some? && deployed.value != current then (deployed.value, LastDeployed)
    else if Present(parent).Some? then (Present(parent).value, Parent)
    else (current, SelfFallback)
  }

  /** The base is the last deployed commit where it is known and another one; else the parent where
      there is one; else the commit itself. An empty string is no commit. */
  lemma ResolvedIs(current: string, parent: Option<string>, lastDeployed: Option<string>)
    ensures var (base, strategy) := ResolveBaseSha(current, parent, lastDeployed);
            var deployed := lastDeployed.Some? && lastDeployed.value != "" && lastDeployed.value != current;
            var hasParent := parent.Some? && parent.value != "";
            && (deployed ==> strategy == LastDeployed && base == lastDeployed.value)
            && (!deployed && hasParent ==> strategy == Parent && base == parent.value)
            && (!deployed && !hasParent ==> strategy == SelfFallback && base == current)
  {
  }

  predicate Usable(run: Run, current: string, runId: Option<int>) {
    run.conclusion == Some("success") && runId != Some(run.id) && run.headSha != current && IsSha(run.headSha)
  }

  /** The first usable run of a page, newest first. */
  function Lookup(page: seq<Run>, current: string, runId: Option<int>): (sha: Option<string>)
    ensures sha.Some? ==> IsSha(sha.value) && sha.value != current
  {
    if page == [] then None
    else if Usable(page[0], current, runId) then Some(page[0].headSha)
    else Lookup(page[1..], current, runId)
  }

  /** The search over the page the API answered with; `runId` is None where it is not a number. */
  method TryGetLastDeployedSha(page: seq<Run>, current: string, runId: Option<int>) returns (sha: Option<string>)
    ensures sha == Lookup(page, current, runId)
    ensures sha.None? <==> forall i | 0 <= i < |page| :: !Usable(page[i], current, runId)
    ensures sha.Some? ==> exists i | 0 <= i < |page| ::
              page[i].headSha == sha.value && Usable(page[i], current, runId)
              && forall j | 0 <= j < i :: !Usable(page[j], current, runId)
  {
    hide IsSha;
    assert page[0..] == page;
    for i := 0 to |page|
      invariant Lookup(page, current, runId) == Lookup(page[i..], current, runId)
      invariant forall j | 0 <= j < i :: !Usable(page[j], current, runId)
    {
      assert page[i..][1..] == page[i + 1..];
      var run := page[i];
      if run.conclusion != Some("success") { continue; }
      if runId == Some(run.id) { continue; }
      if run.headSha == current { continue; }
      if IsSha(run.headSha) { return Some(run.headSha); }
    }
    sha := None;
  }

  // -------------------------------------------------------- deploys over one history

  type Service = string

  /** What a service is built from at a commit. */
  type Sources = (string, Service) -> int

  /** `history` is newest first; `live` is what each service runs. */
  datatype System = System(history: seq<Run>, live: Service -> int)

  const PAGE: nat := 20

  /** The runs concluded with success, newest first. */
  function Successes(history: seq<Run>): seq<Run> {
    if history == [] then []
    else (if history[0].conclusion == Some("success") then [history[0]] else []) + Successes(history[1..])
  }

  /** What the query `status=success&per_page=20` answers. */
  function PageOf(history: seq<Run>): seq<Run> {
    var runs := Successes(history);
    if |runs| <= PAGE then runs else runs[..PAGE]
  }

  /** The page is the newest twenty successes, or all of them. */
  lemma PageIs(history: seq<Run>)
    ensures PageOf(history) <= Successes(history)
    ensures |PageOf(history)| == 20 || (|PageOf(history)| < 20 && PageOf(history) == Successes(history))
  {
  }

  /** `parent` is absent in a clone too shallow to have it. */
  datatype Deploy = Deploy(id: int, sha: string, parent: Option<string>, succeeds: bool)

  function BaseOf(history: seq<Run>, d: Deploy): string {
    ResolveBaseSha(d.sha, d.parent, Lookup(PageOf(history), d.sha, Some(d.id))).0
  }

  /** Rebuilding exactly the services that differ between `from` and `to`. */
  function Rebuilt(live: Service -> int, from: string, to: string, src: Sources): Service -> int {
    (s: Service) => if src(from, s) != src(to, s) then src(to, s) else live(s)
  }

  /** Where a run stands in the history, by its id. */
  function Place(history: seq<Run>, id: int): (k: Option<nat>)
    ensures k.Some? ==> k.value < |history| && history[k.value].id == id
    ensures k.None? ==> forall i | 0 <= i < |history| :: history[i].id != id
  {
    if history == [] then None
    else if history[0].id == id then Some(0)
    else
      var k := Place(history[1..], id);
      assert history == [history[0]] + history[1..];
      if k.None? then None else Some(k.value + 1)
  }

  /** A new run goes in front; a re-run keeps its id and its place and replaces its conclusion. */
  function Recorded(history: seq<Run>, run: Run): seq<Run> {
    var k := Place(history, run.id);
    if k.None? then [run] + history else history[..k.value] + [run] + history[k.value + 1..]
  }

  /** A deploy succeeds as a whole or changes nothing. */
  function After(s: System, d: Deploy, src: Sources): System {
    if d.succeeds
    then System(Recorded(s.history, Run(d.id, d.sha, Some("success"))),
                Rebuilt(s.live, BaseOf(s.history, d), d.sha, src))
    else System(Recorded(s.history, Run(d.id, d.sha, Some("failure"))), s.live)
  }

  ghost predicate LiveAt(live: Service -> int, sha: string, src: Sources) {
    forall s: Service :: live(s) == src(sha, s)
  }

  ghost predicate SameSources(a: string, b: string, src: Sources) {
    forall s: Service :: src(a, s) == src(b, s)
  }

  /** Some deploy has succeeded, and every service runs its source at the newest one. */
  ghost predicate Consistent(s: System, src: Sources) {
    Successes(s.history) != [] && IsSha(Successes(s.history)[0].headSha)
    && LiveAt(s.live, Successes(s.history)[0].headSha, src)
  }

  /** A run, re-run or not, is of one commit. */
  predicate OwnCommit(history: seq<Run>, d: Deploy) {
    IsSha(d.sha) && forall i | 0 <= i < |history| && history[i].id == d.id :: history[i].headSha == d.sha
  }

  lemma {:induction false} SuccessesAre(history: seq<Run>)
    ensures forall i | 0 <= i < |Successes(history)| ::
              Successes(history)[i] in history && Successes(history)[i].conclusion == Some("success")
  {
    if history != [] { SuccessesAre(history[1..]); }
  }

  lemma SuccessesCons(run: Run, history: seq<Run>)
    ensures Successes([run] + history) == (if run.conclusion == Some("success") then [run] else []) + Successes(history)
  {
    assert ([run] + history)[1..] == history;
  }

  lemma {:induction false} SuccessesJoin(a: seq<Run>, b: seq<Run>)
    ensures Successes(a + b) == Successes(a) + Successes(b)
  {
    if a == [] {
      assert a + b == b;
    } else {
      assert a + b == [a[0]] + (a[1..] + b);
      assert a == [a[0]] + a[1..];
      SuccessesCons(a[0], a[1..] + b);
      SuccessesCons(a[0], a[1..]);
      SuccessesJoin(a[1..], b);
    }
  }

  /** The lookup answers with the newest successful deploy unless that is the current commit. */
  lemma LookupFindsNewest(s: System, d: Deploy, src: Sources)
    requires Consistent(s, src) && OwnCommit(s.history, d) && Successes(s.history)[0].headSha != d.sha
    ensures BaseOf(s.history, d) == Successes(s.history)[0].headSha
  {
    hide IsSha;
    SuccessesAre(s.history);
    var newest := Successes(s.history)[0];
    assert newest in s.history;
    assert PageOf(s.history)[0] == newest;
    assert newest.headSha != "" by { ShaIsNotEmpty(newest.headSha); }
  }

  lemma ShaIsNotEmpty(sha: string)
    requires IsSha(sha)
    ensures sha != ""
  {
  }

  /** What a run must not be to keep the history truthful: a re-run that succeeds behind a newer
      success from other sources, or a re-run of the newest success that fails, unless the next
      older one has the same sources. A first attempt is never either. */
  ghost predicate Harmless(history: seq<Run>, d: Deploy, src: Sources) {
    var k := Place(history, d.id);
    k.Some? ==>
      var newer, older := Successes(history[..k.value]), Successes(history[k.value + 1..]);
      if d.succeeds then newer == [] || SameSources(newer[0].headSha, d.sha, src)
      else
        || newer != [] || history[k.value].conclusion != Some("success")
        || (older != [] && IsSha(older[0].headSha) && SameSources(older[0].headSha, d.sha, src))
  }

  /** A successful deploy, new or re-run, leaves every service at its commit. */
  lemma SuccessIsLive(s: System, d: Deploy, src: Sources)
    requires Consistent(s, src) && OwnCommit(s.history, d)
    ensures LiveAt(Rebuilt(s.live, BaseOf(s.history, d), d.sha, src), d.sha, src)
  {
    hide IsSha;
    if Successes(s.history)[0].headSha != d.sha { LookupFindsNewest(s, d, src); }
  }

  lemma LiveAtBoth(live: Service -> int, a: string, b: string, src: Sources)
    requires LiveAt(live, a, src)
    ensures LiveAt(live, b, src) <==> SameSources(b, a, src)
  {
    if SameSources(b, a, src) {
      forall s: Service ensures live(s) == src(b, s) {
        assert src(b, s) == src(a, s);
      }
    }
    if LiveAt(live, b, src) {
      forall s: Service ensures src(b, s) == src(a, s) {
        assert live(s) == src(a, s);
      }
    }
  }

  function One(run: Run): seq<Run> {
    if run.conclusion == Some("success") then [run] else []
  }

  lemma SuccessesAround(newer: seq<Run>, run: Run, older: seq<Run>)
    ensures Successes(newer + [run] + older) == Successes(newer) + One(run) + Successes(older)
  {
    SuccessesJoin(newer + [run], older);
    SuccessesJoin(newer, [run]);
    SuccessesCons(run, []);
    assert [run] + [] == [run];
  }

  /** One deploy keeps the system consistent exactly when it is harmless. */
  lemma DeployKeepsConsistentIff(s: System, d: Deploy, src: Sources)
    requires Consistent(s, src) && OwnCommit(s.history, d)
    ensures Consistent(After(s, d, src), src) <==> Harmless(s.history, d, src)
    ensures d.succeeds ==> LiveAt(After(s, d, src).live, d.sha, src)
  {
    hide IsSha, Rebuilt, BaseOf, Successes;
    SuccessIsLive(s, d, src);
    var h, k := s.history, Place(s.history, d.id);
    var run := Run(d.id, d.sha, Some(if d.succeeds then "success" else "failure"));
    if k.None? {
      SuccessesCons(run, h);
    } else {
      var newer, older := h[..k.value], h[k.value + 1..];
      assert h == newer + [h[k.value]] + older;
      SuccessesAround(newer, h[k.value], older);
      SuccessesAround(newer, run, older);
      hide LiveAt, SameSources;
      var newest := Successes(h)[0].headSha;
      if d.succeeds {
        LiveAtBoth(After(s, d, src).live, d.sha, newest, src);
      } else if Successes(newer) == [] && Successes(older) != [] {
        LiveAtBoth(s.live, newest, Successes(older)[0].headSha, src);
      }
    }
  }

  function Deployed(s: System, ds: seq<Deploy>, src: Sources): System
    decreases |ds|
  {
    if ds == [] then s else Deployed(After(s, ds[0], src), ds[1..], src)
  }

  /** Each deploy is of the commit its run id stands for, at its turn. */
  predicate OwnCommits(s: System, ds: seq<Deploy>, src: Sources)
    decreases |ds|
  {
    ds == [] || (OwnCommit(s.history, ds[0]) && OwnCommits(After(s, ds[0], src), ds[1..], src))
  }

  ghost predicate AllHarmless(s: System, ds: seq<Deploy>, src: Sources)
    decreases |ds|
  {
    ds == [] || (Harmless(s.history, ds[0], src) && AllHarmless(After(s, ds[0], src), ds[1..], src))
  }

  ghost predicate AlwaysConsistent(s: System, ds: seq<Deploy>, src: Sources)
    decreases |ds|
  {
    Consistent(s, src) && (ds != [] ==> AlwaysConsistent(After(s, ds[0], src), ds[1..], src))
  }

  /** Over every sequence of deploys and re-runs that each succeed or change nothing, every live
      service equals its source at the last deployed commit after each of them, exactly when each
      re-run is harmless at its turn. The page limit notwithstanding. */
  lemma {:induction false} DeploysKeepConsistentIff(s: System, ds: seq<Deploy>, src: Sources)
    requires Consistent(s, src) && OwnCommits(s, ds, src)
    ensures AlwaysConsistent(s, ds, src) <==> AllHarmless(s, ds, src)
    decreases |ds|
  {
    hide After, Consistent, Harmless, OwnCommit;
    if ds != [] {
      DeployKeepsConsistentIff(s, ds[0], src);
      if Harmless(s.history, ds[0], src) { DeploysKeepConsistentIff(After(s, ds[0], src), ds[1..], src); }
    }
  }

  predicate FirstAttempts(history: seq<Run>, ds: seq<Deploy>) {
    && (forall k, i | 0 <= k < |ds| && 0 <= i < |history| :: history[i].id != ds[k].id)
    && (forall j, k | 0 <= j < k < |ds| :: ds[j].id != ds[k].id)
    && (forall k | 0 <= k < |ds| :: IsSha(ds[k].sha))
  }

  /** Without re-runs, all is always well. */
  lemma {:induction false} FirstAttemptsKeepConsistent(s: System, ds: seq<Deploy>, src: Sources)
    requires Consistent(s, src) && FirstAttempts(s.history, ds)
    ensures AlwaysConsistent(s, ds, src) && Consistent(Deployed(s, ds, src), src)
    decreases |ds|
  {
    hide Consistent, IsSha, BaseOf, Rebuilt;
    if ds != [] {
      DeployKeepsConsistentIff(s, ds[0], src);
      var after := After(s, ds[0], src);
      forall k, i | 0 <= k < |ds[1..]| && 0 <= i < |after.history| ensures after.history[i].id != ds[1..][k].id {
        if i > 0 { assert after.history[i] == s.history[i - 1]; }
      }
      FirstAttemptsKeepConsistent(after, ds[1..], src);
    }
  }

  /** Reading the whole history instead of one page would leave the same services live. */
  lemma PageLimitIsHarmless(s: System, d: Deploy, src: Sources, service: Service)
    requires Consistent(s, src) && OwnCommit(s.history, d)
    ensures var everything := ResolveBaseSha(d.sha, d.parent, Lookup(Successes(s.history), d.sha, Some(d.id))).0;
            Rebuilt(s.live, BaseOf(s.history, d), d.sha, src)(service) ==
            Rebuilt(s.live, everything, d.sha, src)(service)
  {
    hide IsSha;
    SuccessesAre(s.history);
    var newest := Successes(s.history)[0];
    assert newest in s.history;
    if newest.headSha != d.sha {
      LookupFindsNewest(s, d, src);
      ShaIsNotEmpty(newest.headSha);
    }
  }

  // --------------------------------------------------------- where the promise ends

  /** Comparing with a commit `from` leaves everything at `to` exactly when no service that is
      unchanged between the two is live at something else. */
  lemma RebuildIsCompleteIff(live: Service -> int, from: string, to: string, src: Sources)
    ensures LiveAt(Rebuilt(live, from, to, src), to, src) <==>
              forall s: Service :: src(from, s) == src(to, s) ==> live(s) == src(to, s)
  {
    var after := Rebuilt(live, from, to, src);
    if LiveAt(after, to, src) {
      forall s: Service ensures src(from, s) == src(to, s) ==> live(s) == src(to, s) {
        assert after(s) == src(to, s);
      }
    }
  }

  /** When the lookup gives no answer the parent is used; that is complete exactly when every
      service changed since the last deploy also changed in the last commit. */
  lemma UnansweredLookup(s: System, d: Deploy, src: Sources)
    requires Consistent(s, src) && d.parent.Some? && d.parent.value != ""
    ensures var base := ResolveBaseSha(d.sha, d.parent, None).0;
            LiveAt(Rebuilt(s.live, base, d.sha, src), d.sha, src) <==>
              forall v: Service :: src(Successes(s.history)[0].headSha, v) != src(d.sha, v) ==>
                src(d.parent.value, v) != src(d.sha, v)
  {
    hide IsSha;
    RebuildIsCompleteIff(s.live, d.parent.value, d.sha, src);
    var last := Successes(s.history)[0].headSha;
    assert forall v: Service :: s.live(v) == src(last, v);
  }

  /** A run that deployed only some of its services and then failed, so that it is not recorded. */
  function Partly(live: Service -> int, done: set<Service>, at: string, src: Sources): Service -> int {
    (s: Service) => if s in done then src(at, s) else live(s)
  }

  /** After a run at `at` that stopped part-way, the next full run restores every service
      exactly when none it deployed has gone back to what it was before. */
  lemma PartialDeployHealsIff(s: System, done: set<Service>, at: string, d: Deploy, src: Sources)
    requires Consistent(s, src) && OwnCommit(s.history, d) && Successes(s.history)[0].headSha != d.sha
    ensures var last := Successes(s.history)[0].headSha;
            LiveAt(Rebuilt(Partly(s.live, done, at, src), BaseOf(s.history, d), d.sha, src), d.sha, src) <==>
              forall v: Service :: v in done && src(last, v) == src(d.sha, v) ==> src(at, v) == src(d.sha, v)
  {
    hide IsSha;
    LookupFindsNewest(s, d, src);
    var last := Successes(s.history)[0].headSha;
    var partly := Partly(s.live, done, at, src);
    RebuildIsCompleteIff(partly, last, d.sha, src);
    assert forall v: Service :: s.live(v) == src(last, v);
    forall v: Service
      ensures (src(last, v) == src(d.sha, v) ==> partly(v) == src(d.sha, v)) <==>
              (v in done && src(last, v) == src(d.sha, v) ==> src(at, v) == src(d.sha, v))
    {
    }
  }

  function Hex(c: char): string {
    seq(40, _ => c)
  }

  lemma HexIsSha(c: char)
    requires '0' <= c <= '9' || 'a' <= c <= 'f'
    ensures IsSha(Hex(c)) && Hex(c)[0] == c
  {
  }

  /** A change shipped half-way and then reverted stays live: the comparison with the last
      successful deploy sees nothing to rebuild. */
  lemma RevertAfterPartialDeployStaysStale() returns (s: System, src: Sources, d: Deploy, at: string)
    ensures Consistent(s, src) && OwnCommit(s.history, d) && Successes(s.history)[0].headSha != d.sha
    ensures !LiveAt(Rebuilt(Partly(s.live, {"api"}, at, src), BaseOf(s.history, d), d.sha, src), d.sha, src)
  {
    at := Hex('b');
    src := (sha: string, v: Service) => if sha == Hex('b') then 1 else 0;
    s := System([Run(1, Hex('a'), Some("success"))], (v: Service) => 0);
    d := Deploy(2, Hex('c'), None, true);
    HexIsSha('a');
    HexIsSha('b');
    HexIsSha('c');
    hide IsSha, Hex;
    SuccessesCons(s.history[0], []);
    assert s.history == [s.history[0]] + [];
    PartialDeployHealsIff(s, {"api"}, at, d, src);
    assert "api" in {"api"} && src(at, "api") == 1;
  }

  /** Run 1 deployed commit a, run 2 commit b. Run 1 is run again and everything is back at a, but
      run 2 still stands first: the next deploy compares with b and leaves stale every service that
      is the same at b and at the new commit. */
  lemma RerunOfOlderRunLeavesStale() returns (s: System, src: Sources, again: Deploy, next: Deploy)
    ensures Consistent(s, src) && OwnCommits(s, [again, next], src) && again.succeeds && next.succeeds
    ensures !Harmless(s.history, again, src)
    ensures LiveAt(After(s, again, src).live, again.sha, src)
    ensures !LiveAt(Deployed(s, [again, next], src).live, next.sha, src)
  {
    src := (sha: string, v: Service) => if sha == Hex('a') then 1 else 0;
    var older, newer := Run(1, Hex('a'), Some("success")), Run(2, Hex('b'), Some("success"));
    s := System([newer, older], (v: Service) => 0);
    again := Deploy(1, Hex('a'), None, true);
    next := Deploy(3, Hex('c'), None, true);
    HexIsSha('a');
    HexIsSha('b');
    HexIsSha('c');
    hide IsSha, Hex;
    SuccessesAround([], newer, [older]);
    SuccessesCons(older, []);
    assert [older] + [] == [older] && [] + [newer] + [older] == [newer, older];
    assert s.history[..1] == [newer] && s.history[2..] == [];
    DeployKeepsConsistentIff(s, again, src);
    var mid := After(s, again, src);
    assert mid.history == [newer, older];
    NextTakesNewest(mid, next, newer, older, src);
    TwoDeploys(s, again, next, src);
    assert mid.live("api") == 1 && After(mid, next, src).live("api") == 1;
  }

  lemma TwoDeploys(s: System, a: Deploy, b: Deploy, src: Sources)
    ensures Deployed(s, [a, b], src) == After(After(s, a, src), b, src)
    ensures OwnCommits(s, [a, b], src) <==> OwnCommit(s.history, a) && OwnCommit(After(s, a, src).history, b)
  {
    hide After, OwnCommit;
    var mid := After(s, a, src);
    assert [a, b][1..] == [b] && [b][1..] == [];
    assert Deployed(mid, [b], src) == After(mid, b, src);
    assert OwnCommits(mid, [b], src) <==> OwnCommit(mid.history, b);
  }

  lemma NextTakesNewest(s: System, d: Deploy, newer: Run, older: Run, src: Sources)
    requires s.history == [newer, older] && newer.conclusion == Some("success")
    requires newer.id != d.id && IsSha(newer.headSha) && newer.headSha != d.sha
    ensures BaseOf(s.history, d) == newer.headSha
  {
    hide IsSha;
    SuccessesCons(newer, [older]);
    ShaIsNotEmpty(newer.headSha);
    assert [newer] + [older] == [newer, older];
  }
}
