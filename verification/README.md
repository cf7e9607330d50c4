# Verified model of the operations toolkit

A Dafny model of the repository's operations scripts, with proofs of what they promise over
whole runs. Each module stands for one group of scripts.

| module | models |
|---|---|
| `TerminalRegistry` | terminal numbers claimed by many machines through one remote ref namespace |
| `GateLock` | the coverage gate's mkdir lock with crashes, signals and reclaim by PID liveness |
| `WorktreeClose`, `WorktreeSweep`, `StaleGate` | closing, sweeping and gating worktrees over a commit graph |
| `WorktreeSync` | bringing worktrees up to date, over the same commit graph: the fetch and the loop |
| `Porcelain` | the three readers of `git worktree list --porcelain` |
| `Ordering`, `EstateDigest`, `EstateDecision`, `EstateGather` | the estate verifier: sorting, canonical digest text, policy and decision, gathering |
| `AutoMerge` | check verdicts, rollup reading and the auto-merge poll loop |
| `Preserve`, `Reconcile` | the two sweeps over an injected port that may fail at any call |
| `TurboExcludes`, `ComposeEnv`, `ManifestBump` | three text rewriters and their laws |
| `CiMinutes`, `DeployBase` | the billable-minute ledger and the deploy window |
| `Text` | the JavaScript string operations the scripts use, with their laws |

`dafny verify dfyconfig.toml` checks the whole project.

## How to read it

- A script that changes things step by step is a method with loops, or a class whose methods
  change its fields. Its `ensures` ties the result to a specification function, and the
  lemmas state what the script promises about that function.
- A protocol is a state machine: `Enabled` says when a step can happen, `After` what it does,
  `Allowed` and `Run` fold them over any sequence of steps. The lemmas quantify over all runs.
  `TerminalRegistry.World` and `GateLock.Host` run the scripts' own commands on that machine,
  with other processes acting between any two of them.
- What a script gets from outside (git, gh, pnpm, clocks, JSON, hashes, `toUpperCase`,
  `localeCompare`, `Date.parse`) is a parameter about which nothing, or only what a lemma's
  `requires` names, is assumed.
- An exception is `None` or a named outcome, never a precondition.

## Assumptions that carry weight

- Terminal registry: "distinct blobs" means that each claim writes a blob that did not exist
  before. Blobs are compared by content, so the object hash is taken as collision-free. Only
  claims write to the namespace, and no other remote of a clone carries terminal refs. A claim's
  own fetch is one step; the sync script and the census may change the same tracking refs at any
  time (`Refresh`).
- Gate lock: one host; no two live processes share a PID (a dead one's may be reused); the
  probe answers for a live process; a live process writes its owner record within the four
  hours after which a record-less lock is reclaimed. `Guarded` names the three things the code
  leaves to chance, and for each there is a run that breaks exclusion when it fails. The
  middle one is not in the script's comments: a single contender is enough.
- Worktrees: a branch is checked out in at most one worktree. Other processes may do anything
  append-only between two candidates; inside one close `WorktreeSweep.LateWorkSurvivesIff` says
  what they may do. A sync run is append-only only under `WorktreeSync.RunGrowsIff`, because it
  fetches with prune. A dirty file is one that `git status` lists. A script is started in one of
  the repository's worktrees, and no command runs in a directory that is gone. A commit is
  reachable from a branch, a remote ref or a detached worktree. In the close, the sweep and the
  sync a git read that has an answer gets it; in the gate any read may fail.
- Sync: the first fetch makes the remote refs exactly the remote's branches, with whatever commits
  those need, adds the tags it follows, and prunes the tracking refs of terminals, which the
  default refspec does not map. The second makes those the published ones; where it fails there
  are none. Where the first throws it may have got part of the way.
- Deploys: one at a time, with the lookup answered and one successful deploy to start from. A run
  id stands for one commit. A re-run keeps its id and its place in the list and replaces its
  conclusion.

## Where code and documentation differ

- `injectEnv` is documented as idempotent (scripts/compose-identity.ts:80). It is so on exactly
  the contents `ComposeEnv.IdempotentIffClean` names.
- The sweep's comment promises that a dry run prints what a real run would do
  (scripts/sweep-worktrees-cli.ts:175-180). `WorktreeSweep.DryRunPredicts` is the exact condition;
  `WorktreeSweep.LocalUpstreamMisleadsDryRun`, `WorktreeSweep.LockedMisleadsDryRun` and
  `WorktreeSweep.SweepFromInsideStopsHalfway` are inputs that break it.
- The close command runs its plan in the primary clone so that it is never half done
  (scripts/worktree-close-cli.ts:153-175). The sweep runs the same plan in the process directory
  (scripts/sweep-worktrees-cli.ts:202); `WorktreeClose.AllOrNothingIff` is the difference.
- The sync script says a dry run previews the planned actions and mutates nothing
  (scripts/sync-worktrees.ts:10). It fetches with prune, and it announces every action from the same
  refs where a real run moves refs between one worktree and the next:
  `WorktreeSync.DryRunMutatesNothingIff`, `WorktreeSync.DryRunMovesTerminals`,
  `WorktreeSync.PrunedCommitIsLost`, `WorktreeSync.PreviewsIff`,
  `WorktreeSync.FollowerMisleadsPreview`.
- That prune can also fall between a claim's fetch and its listing in the same clone. No number is
  issued twice all the same, but a gap can be filled: `TerminalRegistry.ContiguousInAllRunsIff`,
  `TerminalRegistry.GapIsFilled`.
- Both reclaim comments speak of direct evidence (scripts/gate-coverage-lock.ts:101-106). Read,
  probe and removal are three steps, and the evidence can be stale by the third.
- The sync run's summary reads as one count per worktree; `WorktreeSync.TallySums` shows when a
  worktree is counted twice (scripts/sync-worktrees.ts:424-440).
- The stale gate says it cannot manufacture a candidate from a failed measurement
  (scripts/stale-worktree-gate.ts:78-80). A failed containment read counts as contained and a
  failed status read as clean (scripts/stale-worktree-gate-cli.ts:95-97):
  `StaleGate.FlagIsBackedIff`, `StaleGate.MissingIntegrationMisleadsTheGate`,
  `StaleGate.FailedStatusMisleadsTheGate`.
- The deploy base is described as the complete change set since the last deploy
  (scripts/ci/resolve-ci-sha.ts:16-20). A re-run of an older run ships that run's commit and is not
  found as the last one: `DeployBase.DeploysKeepConsistentIff`,
  `DeployBase.RerunOfOlderRunLeavesStale`.

## Model

| member | source | states |
|---|---|---|
| `TerminalRegistry.ParseTerminalRefs` | scripts/terminal-registry.ts:53-61 | The loop returns the numbers of the listed refs in order, skipping every name that is not a terminal ref |
| `TerminalRegistry.TrackingRefReadsBack` | scripts/terminal-registry.ts:33-61 | Print and parse: the tracking ref of terminal n, under any remote name, reads back as n |
| `TerminalRegistry.RefNamePublishes` | scripts/terminal-registry.ts:39-46 | The ref name of every number from 1 up, fetched by any clone, is parsed as that number; there is none for any other |
| `TerminalRegistry.ReadsOnlyTrackingRefs` | scripts/terminal-registry.ts:48-61 | A name that reads as a number is exactly refs/remotes/one segment/terminals/digits; nothing malformed is coerced |
| `TerminalRegistry.NextTerminalNumber` | scripts/terminal-registry.ts:63-69 | Above every published number and one past one of them; 1 only for none |
| `TerminalRegistry.ListedNumber` | scripts/terminal-registry-cli.ts:79-87 | What a clone reads from its listing, other refs mixed in, is exactly the set of terminals it tracks |
| `TerminalRegistry.ClaimBlobsDiffer` | scripts/terminal-registry.ts:91-97 | Equal claim blobs come from the same host at the same time, even when a host name contains " at " |
| `TerminalRegistry.DirNamesDiffer` | scripts/terminal-registry.ts:71-85 | Two terminals never get the same worktree directory, whatever the worktree numbers and slugs |
| `TerminalRegistry.DirNameMeans` | scripts/terminal-registry.ts:72-85 | There is a directory name exactly for numbers from 1 up and a kebab-case slug, and it is t, the number, -wt, the worktree, a dash and the slug |
| `TerminalRegistry.KeepsContiguous` | scripts/terminal-registry-cli.ts:104-161 | Every step of any process but a refresh between a claim's fetch and listing keeps: published is the start plus an unbroken stretch above its ceiling, every snapshot lies between the two, and nobody plans beyond one past the top |
| `TerminalRegistry.KeepsRooted` | scripts/terminal-registry-cli.ts:104-161 | Every step, refreshes included, keeps: each published number is of the start or follows a published one, snapshots are published, and plans follow a published number |
| `TerminalRegistry.KeepsExclusive` | scripts/terminal-registry.ts:111-128 | Every step with a new blob keeps: a pending blob is nobody else's and on no ref, issued numbers are published and distinct; a win is a creation |
| `TerminalRegistry.NoNumberIssuedTwice` | scripts/terminal-registry-cli.ts:104-161 | Over every interleaving with distinct blobs, tracking refs refreshed at any time, no number is issued twice, and none that was published at the start |
| `TerminalRegistry.PublishedStayRooted` | scripts/terminal-registry-cli.ts:104-161 | Over every interleaving, other commands refreshing the tracking refs at any time, each published number was there at the start or follows a published one |
| `TerminalRegistry.PublishedStayContiguous` | scripts/terminal-registry-cli.ts:104-161 | Over every interleaving the published numbers are those at the start and all from its ceiling up to some top, if the start has no gap or no clone is refreshed between a claim's fetch and its listing |
| `TerminalRegistry.ContiguousInAllRunsIff` | scripts/sync-worktrees.ts:404-411 | With refreshes at any time that holds of every run exactly when the numbers at the start have no gap |
| `TerminalRegistry.GapIsFilled` | scripts/sync-worktrees.ts:404-411 | For any gap at the start there is a run that fills it: the sync script prunes tracking refs between a claim's fetch and its listing |
| `TerminalRegistry.CreationTakesTheNext` | scripts/terminal-registry-cli.ts:127-144 | However stale the view it planned from, a push that creates a ref takes exactly max(remote) + 1 at that moment, under the same condition |
| `TerminalRegistry.CreationFollowsPublished` | scripts/terminal-registry-cli.ts:127-144 | With refreshes at any time a push that creates a ref takes an unpublished number whose predecessor is published |
| `TerminalRegistry.IssueIsCreation` | scripts/terminal-registry.ts:111-128 | With distinct blobs a push that reports success created its ref: the "up to date" exit 0 cannot occur |
| `TerminalRegistry.RegistryOnlyGrows` | scripts/terminal-registry.ts:24-26 | Over every run no published number is withdrawn or changes its blob |
| `TerminalRegistry.EmptyRegistryRefuses` | scripts/terminal-registry-cli.ts:113-125 | Against an empty registry every claim is refused: nothing is ever published or issued |
| `TerminalRegistry.SameBlobIssuesTwice` | scripts/terminal-registry.ts:118-124 | Without distinct blobs there is a run that issues terminal 2 to two machines |
| `TerminalRegistry.UndisturbedClaimWins` | scripts/terminal-registry-cli.ts:104-161 | A claim nobody disturbs, with a new blob, issues and publishes exactly the number after the highest |
| `TerminalRegistry.World.Claim` | scripts/terminal-registry-cli.ts:104-161 | The command, others acting between its git calls, is a run of the protocol; it exits 0 exactly when it won and the slug is kebab-case, prints a ref that once fetched reads back as its number, and left alone wins the number after the highest |
| `GateLock.DecideReclaim` | scripts/gate-coverage-lock.ts:101-122 | Reclaimed exactly: a recorded owner of this host, probed, only if dead; otherwise (no record, another host, no answer) only past 14,400,000 ms |
| `GateLock.ReclaimMeansDead` | scripts/gate-coverage.ts:227-238 | In a safe state a look that says "reclaim" proves the maker of the directory dead, record or no record |
| `GateLock.KeepsSafe` | scripts/gate-coverage.ts:199-246 | Every guarded step keeps the five invariants: holders made the directory that stands, its record names its maker, looks are current, removers face a dead maker, one contender in the window |
| `GateLock.AtMostOneHolder` | scripts/gate-coverage.ts:199-246 | In every state of every guarded run of any number of processes at most one live process has the lock |
| `GateLock.LiveLockIsNeverReclaimed` | scripts/gate-coverage-lock.ts:107-122 | In guarded runs a directory whose maker lives disappears only by that maker's own release or signal handler |
| `GateLock.OneStepReclaimIsSafe` | scripts/gate-coverage.ts:227-238 | When observing and reclaiming is one step, exclusion holds over all runs with no other condition on who looks when |
| `GateLock.DeadOwnersLockIsTakenOver` | scripts/gate-coverage-lock.ts:21-26 | A lock recorded by a dead local process is taken over by the first contender that looks |
| `GateLock.OwnerRecordLands` | scripts/gate-coverage.ts:205-209 | In a safe state the owner record lands in the directory its writer made: the write neither throws nor overwrites another's |
| `GateLock.TwoLookersBreakExclusion` | scripts/gate-coverage.ts:227-238 | With two contenders between look and removal there is a run after which two live processes have the lock |
| `GateLock.SlowLookBreaksExclusion` | scripts/gate-coverage.ts:227-238 | A single contender that reads the record and probes it only after the lock changed hands breaks exclusion |
| `GateLock.LateSignalBreaksExclusion` | scripts/gate-coverage.ts:269-283 | A signal after the release and before exit removes the next run's lock and breaks exclusion |
| `GateLock.Host.TryAcquire` | scripts/gate-coverage.ts:199-210 | One attempt with others between mkdir and the record: lost exactly when a directory stood, won means holding with one's own record, throws only where the directory is gone |
| `GateLock.Host.Reclaim` | scripts/gate-coverage.ts:227-239 | Read, probe, remove with others between, as steps of the machine; undisturbed, a lock of this host is reclaimed exactly if no live process has the recorded PID, any other exactly past four hours |
| `GateLock.Host.Acquire` | scripts/gate-coverage.ts:214-246 | The wait as steps of the machine with others in between: held means in possession with one's own record, alone in a guarded run; it gives up only past 7,200,000 ms and empty-handed |
| `GateLock.Host.ReleaseLock` | scripts/gate-coverage.ts:211-213 | The path is free afterwards and the releasing process lives on with its handlers |
| `GateLock.ElapsedByAttempt` | scripts/gate-coverage-lock.ts:34-38 | By attempt k at least one poll interval has passed for every attempt that did not reclaim |
| `GateLock.AcquireLock` | scripts/gate-coverage.ts:217-246 | Stops at the first attempt that made the directory or found over 7,200,000 ms gone, true exactly when it made it, after at most 7202 attempts beside the reclaims |
| `WorktreeClose.DecideClose` | scripts/close-worktree.ts:107-143 | The stepwise decision equals the verdict function whose reasons VerdictMeans characterises, in order |
| `WorktreeClose.VerdictMeans` | scripts/close-worktree.ts:107-143 | Refused exactly for the reasons that apply; removal with branch only if contained; keep-branch only if retired and contained or not ahead; either only if clean, tracked, not primary and idle or done and contained |
| `WorktreeClose.IdleHoursMeans` | scripts/worktree-close.ts:71-89 | Hours are seconds since the newest reflog entry over 3,600, zero where it is absent or ahead; the threshold is met exactly at 86,400 seconds and passed at 86,401 |
| `WorktreeClose.VerdictIs` | scripts/close-worktree.ts:107-143 | On the graph and the clock: refused exactly for the objections there are, each stated by refs, ancestry, dirty paths and seconds idle; without any it is removed, the branch kept exactly if retired |
| `WorktreeClose.RecentStays` | scripts/close-worktree.ts:119-137 | Without done, a worktree whose newest reflog entry is less than 86,400 seconds old, ahead or absent is refused or throws, and the repository comes out unchanged |
| `WorktreeClose.CloseKeeps` | scripts/close-worktree.ts:145-157 | On any commit graph one close, wherever its plan runs, keeps every commit reachable and removes at most its own worktree and that worktree's branch, the branch only if contained; a refusal or dry run changes nothing |
| `WorktreeClose.AllOrNothingIff` | scripts/worktree-close-cli.ts:153-179 | A close that throws has changed something exactly if it was cleared, not locked, to delete the branch too, and ran its plan in the very worktree it removed; run where planCwd says it never has |
| `WorktreeClose.DeletingContainedKeepsReachable` | scripts/close-worktree.ts:50-61 | Deleting a branch contained in the integration ref leaves every commit reachable |
| `WorktreeClose.ClearedCloseHappens` | scripts/worktree-close-cli.ts:264-268 | A cleared close does nothing if the worktree is locked; else it removes exactly that worktree, and deletes exactly its branch unless retired or run from inside it |
| `WorktreeSweep.CandidatesAre` | scripts/sweep-worktrees-cli.ts:116-126 | No candidate is detached, the primary clone or on main, master, develop, staging or production; with the primary on a branch, all others are candidates |
| `WorktreeSweep.SweepLosesNothing` | scripts/sweep-worktrees-cli.ts:181-230 | With anything append-only between candidates, a sweep keeps every commit reachable, the primary, and every worktree it did not target |
| `WorktreeSweep.SweepRemovesSafely` | scripts/sweep-worktrees-cli.ts:181-205 | An attempt that changes anything, a half-done one included, was on a clean tracked non-primary worktree, idle for 86,400 seconds unless declared done, and the only ref it can delete is that worktree's contained branch |
| `WorktreeSweep.GoneRefsWereContained` | scripts/sweep-worktrees-cli.ts:181-230 | Every ref missing after a sweep was deleted by one of its attempts as the contained branch of the worktree that attempt closed |
| `WorktreeSweep.ProtectedSurvive` | scripts/sweep-worktrees.ts:35-42 | The primary clone, detached worktrees and worktrees on protected branches survive every sweep |
| `WorktreeSweep.Repository.SweepOne` | scripts/sweep-worktrees-cli.ts:181-205 | Gathers, decides and executes in the process directory exactly as the close specification; it changes nothing but what RemovedSafely allows, which without done spares any worktree not idle for 86,400 seconds |
| `WorktreeSweep.Repository.MainSweep` | scripts/sweep-worktrees-cli.ts:207-230 | The loop over candidates, others acting before each, equals the sweep specification and loses nothing |
| `WorktreeSweep.LateWorkSurvivesIff` | scripts/sweep-worktrees-cli.ts:200-204 | Whatever happened between verdict and plan, a plan that succeeds loses no commit exactly when something else leads to the tip of the branch it deletes and to the commit of a worktree detached by then |
| `WorktreeSweep.StillContainedIsSafe` | scripts/close-worktree.ts:50-61 | So a plan is safe, whatever happened since its verdict, while the integration ref contains what it takes away |
| `WorktreeSweep.CommitDuringCloseIsLost` | scripts/sweep-worktrees-cli.ts:181-205 | A commit between the verdict and the plan is lost: a concrete repository where the plan succeeds and the commit becomes unreachable |
| `WorktreeSweep.DryRunPredicts` | scripts/sweep-worktrees-cli.ts:175-180 | With nobody else acting a dry run gives the real run's candidates, verdicts and end exactly when no removal it announces is locked or the run's own directory and no judged candidate follows the branch of an earlier one it announces |
| `WorktreeSweep.LocalUpstreamMisleadsDryRun` | scripts/sweep-worktrees-cli.ts:175-180 | An input that breaks that promise: with a local branch as upstream the dry run announces a removal the real run refuses |
| `WorktreeSweep.LockedMisleadsDryRun` | scripts/sweep-worktrees-cli.ts:200-204 | Another: the dry run announces two removals, the real run throws at the first, which is locked, and never tries the second |
| `WorktreeSweep.SweepFromInsideStopsHalfway` | scripts/sweep-worktrees-cli.ts:200-204 | Another: a sweep started inside a finished worktree removes it, throws and leaves its branch; started in the primary clone it deletes both |
| `StaleGate.GateNamesFlagged` | scripts/stale-worktree-gate.ts:67-91 | However the git reads fare, the gate names exactly the worktrees decideClose would remove on its observation and that it read to be idle for more than 24 hours |
| `StaleGate.GateMeans` | scripts/stale-worktree-gate.ts:67-91 | A threshold that is not positive is refused; else exactly the closeable worktrees idle for longer are listed, clean exactly if there is none |
| `StaleGate.CleanIff` | scripts/stale-worktree-gate.ts:67-91 | However the git reads fare, the gate is clean exactly when no worktree is flagged |
| `StaleGate.FlaggedIff` | scripts/stale-worktree-gate-cli.ts:79-114 | What a flag rests on, read by read: failed upstream, count and reflog reads protect, a failed status read passes for clean and a failed containment read for contained; idle means more than 86,400 seconds |
| `StaleGate.GateAgreesWithClose` | scripts/stale-worktree-gate-cli.ts:79-114 | With the integration ref there, a flag resting on no misread is equivalent to: the protecting reads got through, the close's own verdict is remove and the worktree is idle for more than 86,400 seconds |
| `StaleGate.FlaggedAfterSweepIsProtected` | scripts/stale-worktree-gate-cli.ts:79-114 | After one full undisturbed sweep at the same clock, whatever the gate still flags stands on a protected branch or was misread |
| `StaleGate.FlagIsBackedIff` | scripts/stale-worktree-gate.ts:77-80 | A flagged worktree is one the close would remove exactly when the integration ref is there and no dirty tree or unmerged work was misread; a close whose reads fail alike removes it exactly when neither failed |
| `StaleGate.MissingIntegrationMisleadsTheGate` | scripts/stale-worktree-gate-cli.ts:96-97 | Without the integration ref the gate flags a worktree whose close throws: a failed read counts as contained |
| `StaleGate.FailedStatusMisleadsTheGate` | scripts/stale-worktree-gate-cli.ts:95-95 | With the ref in place a failed status read makes a dirty worktree a candidate: a close that can read refuses it, one that cannot throws |
| `WorktreeSync.DecisionIsTheGraph` | scripts/sync-worktrees.ts:60-77 | With an upstream the decision is exactly how the two tips lie in the commit graph: equal, ahead, behind (fast-forward if clean, blocked if dirty) or diverged |
| `WorktreeSync.DecisionWithoutUpstream` | scripts/sync-worktrees.ts:60-77 | Without an upstream that stands a detached worktree is left alone, a branch the remote has is tracked and any other is published; only a tracked branch without a commit throws |
| `WorktreeSync.SyncOneGrows` | scripts/sync-worktrees.ts:199-275 | Syncing one worktree only adds refs and moves them to descendants; a dry run or a throw changes nothing |
| `WorktreeSync.ActionSettles` | scripts/sync-worktrees.ts:225-265 | A fast-forwarded or published worktree is in sync at the next look; a fast-forward was of a clean tree to its upstream's commit; a new upstream is compared with from then on |
| `WorktreeSync.SyncFirstGrows` | scripts/sync-worktrees.ts:424-440 | However its steps fare, the loop over the worktrees, after the fetch, loses no commit, ref or worktree; in a dry run it changes nothing |
| `WorktreeSync.RunSurvivors` | scripts/sync-worktrees.ts:403-440 | After a whole run, dry or not, a commit that was here is reachable exactly if a local branch, a detached worktree or a branch the remote still has leads to it: the opening fetch prunes |
| `WorktreeSync.RunGrowsIff` | scripts/sync-worktrees.ts:403-440 | A whole run is append-only, as a sweep beside it relies on, exactly when the fetch neither drops nor rewinds a remote ref, or the loop publishes a dropped one again from a branch holding its old tip |
| `WorktreeSync.DryRunGrowsIff` | scripts/sync-worktrees.ts:403-440 | A dry run fetches and does nothing else, and is append-only exactly when the fetch drops and rewinds no remote ref |
| `WorktreeSync.DryRunMutatesNothingIff` | scripts/sync-worktrees.ts:10-10 | "Mutates nothing" holds of a dry run exactly when commits and branches are up to date, each tag to follow is here, and the terminal tracking refs are as published, or none if the second fetch fails |
| `WorktreeSync.DryRunMovesTerminals` | scripts/sync-worktrees.ts:404-411 | Two inputs that break it with no branch news: a newly claimed terminal gains a tracking ref; a failing second fetch leaves no terminal |
| `WorktreeSync.PrunedCommitIsLost` | scripts/sync-worktrees.ts:403-404 | A commit only a remote branch led to is unreachable after any run once the remote has dropped the branch |
| `WorktreeSync.PreviewsIff` | scripts/sync-worktrees.ts:10-10 | After the fetch the loop does to each worktree what a dry run announces exactly when each announced action gets through and no announced fast-forward or publication changes the tip a later worktree follows |
| `WorktreeSync.FollowerMisleadsPreview` | scripts/sync-worktrees.ts:424-440 | An input that breaks the preview: a worktree that follows the local branch of one to be fast-forwarded |
| `WorktreeSync.TallySums` | scripts/sync-worktrees.ts:424-440 | The tally counts each worktree once, and once more each time the dependency report threw after its action was counted |
| `WorktreeSync.Checkout.SyncAll` | scripts/sync-worktrees.ts:424-440 | The loop over the listed worktrees computes the repository and the tally the lemmas speak of |
| `WorktreeSync.Checkout.SyncCommand` | scripts/sync-worktrees.ts:396-440 | Two fetches, the second allowed to fail, then the loop compute the whole-run specification; where the first throws the loop does not run |
| `Porcelain.ParseWorktreePorcelain` | scripts/worktree-close.ts:20-41 | The loop computes the entry list the lemmas below speak of |
| `Porcelain.ListWorktrees` | scripts/sync-worktrees.ts:124-140 | The loop computes the tree list the lemmas below speak of |
| `Porcelain.ParseWorktreeRecords` | scripts/estate-gather.ts:110-137 | The loop computes the record list the lemmas below speak of |
| `Porcelain.SyncReadsNamedEntries` | scripts/sync-worktrees.ts:124-140 | On every text the sync reader lists exactly the close reader's entries whose path is not empty |
| `Porcelain.CloseAndSyncAgree` | scripts/sync-worktrees.ts:124-140 | The two readers agree exactly on the texts without an empty worktree line |
| `Porcelain.CloseAndEstateAgree` | scripts/estate-gather.ts:107-137 | On every text both see the same worktrees in order, with the same branches exactly when no detached line overrules a branch line in a record |
| `Porcelain.PrintThenRead` | scripts/estate-gather.ts:107-137 | Printing any worktrees in git's form, each with its own commit, lock reason and prune reason, and reading gives the list back: paths, branches, locks, prunable marks |
| `Porcelain.PrintThenReadElsewhere` | scripts/worktree-close.ts:20-41 | The close and sync readers read the same worktrees back from what git prints, each with its own commit and reasons |
| `Porcelain.ReadsBackIff` | scripts/estate-gather.ts:107-137 | A printed listing reads back exactly when no path has a line break in it |
| `Porcelain.ReadsBackElsewhereIff` | scripts/worktree-close.ts:20-41 | The same of the close reader |
| `EstateDigest.DigestIsCanonical` | scripts/estate-verify.ts:326-349 | For valid states with distinct paths two estates have the same hashed text exactly when they hold the same states in any order |
| `EstateDigest.PreimageReadsBack` | scripts/estate-verify.ts:326-349 | The hashed text split at U+0001 gives one line per state, in path order, and each line split at U+0000 gives the state's seven cells |
| `EstateDigest.LineInjective` | scripts/estate-events.ts:199-252 | The schema's ban on control characters makes one state's line determine the state: no field can forge the separator |
| `EstateDigest.ControlCharactersForge` | scripts/estate-events.ts:220-245 | Without that ban two different estates have the same hashed text |
| `Ordering.SortForgetsOrder` | scripts/estate-verify.ts:335-336 | Sorted lists with distinct keys are equal exactly when the members are the same |
| `EstateDecision.ClassifyEstate` | scripts/estate-verify.ts:168-191 | The loop and sort compute the verdict the lemmas below speak of |
| `EstateDecision.CollectReasons` | scripts/estate-vocabulary.ts:101-110 | The nested loops collect exactly the reported reasons, in declaration order |
| `EstateDecision.ProblemsMean` | scripts/estate-verify.ts:168-191 | The problems name each worktree with something wrong by its path and branch with exactly what its readings show, and nothing else |
| `EstateDecision.DecisionForgetsOrder` | scripts/estate-verify.ts:427-477 | The whole decision, problem list, reasons, action and digest, is the same for any order of the states |
| `EstateDecision.ExitZeroMeans` | scripts/estate-verify.ts:427-477 | For every estate: exit 0 exactly when it was read, is the pinned one if any, and no state raises an unsuppressed reason |
| `EstateDecision.ExitMeans` | scripts/estate-action.ts:70-76 | On what was read: exit 3 exactly for an unreadable estate, 4 exactly for one that is not the pinned one, else 1 exactly when a worktree is dirty, ahead, stashed, prunable or locked |
| `EstateDecision.PushDropsUnpushed` | scripts/estate-policy.ts:146-161 | The push policy raises the default reasons minus unpushed, in the same order |
| `EstateDecision.PushPolicyOnEstate` | scripts/estate-policy.ts:201-234 | On the readings: push proceeds exactly when nothing is dirty, stashed, prunable or locked, the default policy when nothing is ahead either, and both halt structurally exactly for something prunable or locked |
| `EstateGather.GatheredIs` | scripts/estate-gather.ts:144-190 | One worktree: broken exactly if status or stash failed or the count of an upstream that is there cannot be read, rejected exactly for an improper record, else its own path, branch, marks and the counts read |
| `EstateGather.ObservationIs` | scripts/estate-gather.ts:192-240 | Unobservable exactly for no record, some broken reading, or, with none broken, some rejected record; else one state per record, in order; every answer carries the digest of the listing |
| `EstateGather.ProceedMeansEveryWorktreeIdle` | scripts/estate-gather.ts:144-225 | From git's text to the exit code: 0 exactly when at least one worktree was listed and every one was read in full, is valid, and has nothing dirty, unpushed, stashed, prunable or locked |
| `AutoMerge.SummarizeRollup` | scripts/check-conclusion.ts:157-217 | The five-list loop computes the summary SummaryMeans characterises |
| `AutoMerge.VerdictMeans` | scripts/check-conclusion.ts:122-152 | Which conclusion carries which verdict, by name: pass, fail and indeterminate have theirs, none is pending |
| `AutoMerge.NamesWithIs` | scripts/check-conclusion.ts:164-184 | Each list holds exactly the names of the checks with its verdict, and is empty exactly if there is none |
| `AutoMerge.ListsPartition` | scripts/check-conclusion.ts:157-184 | Every check is in exactly one of the five lists |
| `AutoMerge.SummaryMeans` | scripts/check-conclusion.ts:186-204 | Green exactly for at least one check and all concluded SUCCESS, SKIPPED or NEUTRAL; a rerun is due exactly when all passed or were cancelled, went stale or timed out, and some did not pass; settled exactly with no pending one |
| `AutoMerge.ClassificationMeans` | scripts/check-rollup-source.ts:162-219 | The four readings exactly: runs only for whole, non-empty, acceptable checks, each as its own run; nothing yet; unavailable where gh failed without output; else unparseable |
| `AutoMerge.ReadyMeans` | scripts/pr-automerge.ts:128-172 | On the checks and the state: merge, update, blocked and rerun, each with its exact condition |
| `AutoMerge.CommandsAreWarranted` | scripts/pr-automerge.ts:272-324 | Over any stream a merge is issued only in a poll with at least one check, all passing, and state CLEAN or HAS_HOOKS; updates and reruns likewise only when due |
| `AutoMerge.LoggedReruns` | scripts/pr-automerge.ts:286-303 | Over any stream the number of rerun commands issued never exceeds the budget |
| `AutoMerge.ExitMeans` | scripts/pr-automerge.ts:326-412 | A poll ends with 0 exactly if merged or its merge succeeded, 1 exactly for an unreadable rollup, a failed check, a dirty branch or a rerun beyond the budget, 3 exactly past the deadline otherwise; and which command it issues |
| `AutoMerge.StopsByDeadline` | scripts/pr-automerge.ts:345-411 | A poll after which the loop goes on ended before the deadline, which bounds the number of polls |
| `AutoMerge.PollUntilDone` | scripts/pr-automerge.ts:326-412 | Polls exactly for a request that is neither merged nor closed, not set to auto-merge, no draft and not conflicting; exit 0 unpolled exactly for the first three; polls to the first stop, issuing the logged commands |
| `Preserve.Recorder.RunPreserve` | scripts/worktree-preserve-runner.ts:74-162 | The sweep's calls, counters, planned count and exit code are those of the per-target specification, for any port |
| `Preserve.Recorder.Attempt` | scripts/worktree-preserve-runner.ts:125-159 | One target's calls in order with the failure of any call, as specified |
| `Preserve.OutcomeMeans` | scripts/worktree-preserve-runner.ts:106-159 | Skipped exactly if clean, refused exactly if dirty on no branch; else the rescue as far as its replies carry it: short exactly for a readable count that differs, failed exactly for a throw or an unreadable count |
| `Preserve.VerdictMeans` | scripts/worktree-preserve.ts:88-97 | A count is verified exactly if equal, and else short or in excess by exactly the difference |
| `Preserve.PushFollowsMatchingCount` | scripts/worktree-preserve-runner.ts:121-155 | For any targets and any port a push directly follows stage, commit and count of the same target, and the count equalled its number of dirty files |
| `Preserve.DryRunIsInert` | scripts/worktree-preserve-runner.ts:106-119 | A dry run never calls the port |
| `Preserve.EveryTargetIsAttempted` | scripts/worktree-preserve-runner.ts:122-159 | Whatever fails, every dirty target on a branch is staged, in order; the log is one block per target |
| `Preserve.TargetsAreIndependent` | scripts/worktree-preserve-runner.ts:122-159 | With distinct worktrees a target's calls and outcome are those it would have had alone |
| `Preserve.CountersSum` | scripts/worktree-preserve-runner.ts:79-85 | When executing the five counters sum to the number of targets |
| `Preserve.ExitNamesTheWorst` | scripts/worktree-preserve.ts:128-158 | Exit 3 exactly if some target fell short, 4 exactly if some failed and none fell short, 0 exactly if none fell short, failed or was refused |
| `Reconcile.BuildProbeEnv` | scripts/worktree-deps-status.ts:162-173 | The loop builds the environment EnvironmentIs characterises |
| `Reconcile.EnvironmentIs` | scripts/worktree-deps-status.ts:140-173 | The verify key is forced to error; beside it exactly the defined inherited variables survive that neither configure pnpm (npm_, pnpm_config_) nor mark a nested run, with their values |
| `Reconcile.FindRecord` | scripts/deps-reconcile.ts:111-124 | Finds the first line that is an error record, or none if no line is |
| `Reconcile.FailsClosed` | scripts/deps-reconcile.ts:125-154 | Only exit 0 passes either reader, and a killed install has failed |
| `Reconcile.ProbeMeans` | scripts/worktree-deps-status.ts:110-136 | A failed probe is drift exactly when the first line that is an error record carries the verify code or, with no record, a line opens with the verify tag or none with the error tag; else the toolchain is blocked |
| `Reconcile.DivergentMeans` | scripts/deps-reconcile.ts:128-154 | Divergent exactly when the first line that is an error record carries ERR_PNPM_OUTDATED_LOCKFILE, or no line is a record and some line mentions it |
| `Reconcile.OutputIsBoth` | scripts/worktree-deps-status.ts:50-53 | What the readers see is the lines of stderr followed by those of stdout, and one alone where the other is empty |
| `Reconcile.Recorder.RunReconcile` | scripts/deps-reconcile-runner.ts:84-153 | The sweep's spawns, counters, planned count and exit code are those of the per-target specification, for any spawn results |
| `Reconcile.OutcomeMeans` | scripts/deps-reconcile-runner.ts:97-153 | A stale target is divergent exactly if its heal exits with an error whose lines blame the lockfile, failed exactly if the heal fails otherwise or is killed or the re-read fails, reconciled exactly if both exit 0 |
| `Reconcile.ReconciledMeansReread` | scripts/deps-reconcile-runner.ts:113-137 | A target counts as reconciled exactly when its heal exited 0 and the next spawn, in the same directory, exited 0 too |
| `Reconcile.DryRunNeverSpawns` | scripts/deps-reconcile-runner.ts:106-112 | A dry run never spawns |
| `Reconcile.EverySpawnIsSanitised` | scripts/deps-reconcile-runner.ts:92-125 | Every spawn of a run carries the one sanitised environment and the time bound |
| `Reconcile.EveryStaleTargetIsHealed` | scripts/deps-reconcile-runner.ts:118-137 | Whatever fails, every stale target is healed, in order |
| `Reconcile.CountersSum` | scripts/deps-reconcile-runner.ts:88-90 | When executing the four counters sum to the number of targets |
| `Reconcile.ExitNamesTheWorst` | scripts/deps-reconcile.ts:188-221 | Exit 3 exactly if some target failed; 0 exactly if none failed or diverged |
| `TurboExcludes.RewriteExcludeBlock` | scripts/bump-turbo.ts:119-146 | The line loop and splice compute the rewritten text the laws below speak of |
| `TurboExcludes.RewrittenLineByLine` | scripts/bump-turbo.ts:119-146 | Line by line, without the printer: each entry up to the last is carried over in its place, quoted exactly if scoped; then one entry per missing package at its indent, in order; then the rest as it was |
| `TurboExcludes.EntryIsPrinted` | scripts/turbo-release-age.ts:54-64 | An entry is indent, dash and space, then package, @ and the versions, in single quotes exactly if the package begins with @ |
| `TurboExcludes.SettledFileIsUnchanged` | scripts/bump-turbo.ts:119-146 | A file whose entries are in the printed form and all list the version, with every package or none, comes out unchanged |
| `TurboExcludes.EntryVersions` | scripts/turbo-release-age.ts:58-86 | Print and parse: reading the versions of a printed entry gives them back, quotes or not |
| `TurboExcludes.EntryPackage` | scripts/turbo-release-age.ts:39-64 | A printed entry is recognised as its own package and no other |
| `TurboExcludes.PackagesAre` | scripts/turbo-release-age.ts:39-47 | The seven packages by name, in order |
| `TurboExcludes.RewriteIsIdempotent` | scripts/bump-turbo.ts:108-146 | On any well-formed file running the rewrite twice at one version is running it once |
| `TurboExcludes.RewriteKeepsTheRest` | scripts/bump-turbo.ts:103-146 | All other lines stay, in order; the entries are the old ones with the version added where lacking, then one for each package that had none |
| `TurboExcludes.RewriteSatisfiesGuard` | scripts/turbo-release-age.ts:97-112 | On a well-formed file the guard finds nothing missing afterwards exactly when the file had a turbo entry to start from |
| `ComposeEnv.RenderBlock` | scripts/compose-identity.ts:67-78 | The loop computes the managed block the laws below speak of |
| `ComposeEnv.BlockIs` | scripts/compose-identity.ts:55-78 | The block of a key, line by line: base port 20000 plus twenty times the first four hex digits modulo 480, and each of the nine names at its own offset |
| `ComposeEnv.PortBlocksIdenticalOrDisjoint` | scripts/compose-identity.ts:55-60 | Two keys' nine-port blocks are identical or disjoint and lie in 20000..29599 |
| `ComposeEnv.LaterInjectionOverrides` | scripts/compose-identity.ts:80-92 | On clean content injecting b after a equals injecting b |
| `ComposeEnv.RestIsUntouched` | scripts/compose-identity.ts:80-92 | On clean content the first managed block is swapped for the new one, or one is appended, and everything before and after it survives |
| `ComposeEnv.IdempotentIffClean` | scripts/compose-identity.ts:80-92 | Idempotent exactly on content with no marker or with its first begin marker before its first end marker |
| `ComposeEnv.KeyedInjections` | scripts/compose-identity.ts:62-92 | For the identities of any two worktree keys: the later injection overrides on clean content, twice is once exactly on clean content, and the results differ exactly as the keys do |
| `ComposeEnv.OrphanEndMarkerGrows` | scripts/compose-identity.ts:80-92 | An input that breaks the promised idempotence: a lone end marker |
| `ManifestBump.ApplyManifestVersions` | scripts/bump-expo.ts:86-107 | The offset loop computes the text the laws below speak of, or refuses |
| `ManifestBump.DeclaredIff` | scripts/bump-expo.ts:84-103 | A name is declared exactly where its key occurs at one place only with a value in quotes that is not itself a key, and its spec is that value |
| `ManifestBump.DeclaredFound` | scripts/bump-expo.ts:91-103 | For a name declared once the occurrence count is one and the offset found is that of its key |
| `ManifestBump.PlannedSpecsAreWritten` | scripts/bump-expo.ts:76-107 | Every planned name ends up declared once with its expected spec |
| `ManifestBump.OtherSpecsAreKept` | scripts/bump-expo.ts:76-107 | Every other declared name keeps its declaration and its spec |
| `ManifestBump.LaterRunOverrides` | scripts/bump-expo.ts:84-107 | A later run over the same names overrides an earlier one exactly |
| `ManifestBump.Idempotent` | scripts/bump-expo.ts:84-107 | Applied twice equals applied once |
| `ManifestBump.WritingBackRestores` | scripts/bump-expo.ts:76-107 | No other character changes: writing the old specs back restores the file |
| `ManifestBump.OrderDoesNotMatter` | scripts/bump-expo.ts:86-107 | The order of the plan does not matter |
| `ManifestBump.WrittenIffDeclaredOnce` | scripts/bump-expo.ts:92-101 | A row is written exactly when its key stands in the text and nowhere a second time clear of the first; otherwise refused with nothing written |
| `ManifestBump.PlanApplies` | scripts/bump-expo.ts:63-107 | A plan made from a manifest applies whole: present names get their specs and no absent name is written in |
| `CiMinutes.BillableMinutesForJob` | scripts/ci/ci-minutes-audit.ts:55-101 | Minutes cover the execution time and exceed it by less than one; zero for a job that never had a runner and ran backwards; refused exactly for missing, unreadable or impossible times |
| `CiMinutes.JobMinutes` | scripts/ci/ci-minutes-audit.ts:55-101 | From the two timestamps: whole minutes, rounded up, of a job that ended no earlier than it started; zero for one that did and never had a runner; refused for every other |
| `CiMinutes.SummarizeBillableMinutes` | scripts/ci/ci-minutes-audit.ts:103-129 | The loops over runs and jobs compute the report ReportMeans characterises, or throw |
| `CiMinutes.LedgerConserves` | scripts/ci/ci-minutes-audit.ts:104-115 | Over the ledger minutes, runs and jobs add up to those of the runs |
| `CiMinutes.ReportMeans` | scripts/ci/ci-minutes-audit.ts:103-129 | Total is the sum of all jobs' minutes; each workflow with a run is listed once with the sums of its runs, costliest first and ties by name; exists exactly when every job can be scored |
| `CiMinutes.WindowsAdd` | scripts/ci/ci-minutes-audit.ts:103-129 | Two windows audited apart add up to the two together |
| `CiMinutes.OrderDoesNotMatter` | scripts/ci/ci-minutes-audit.ts:103-129 | Neither the total nor a workflow's share depends on the order of the runs |
| `CiMinutes.BillBoundsTime` | scripts/ci/ci-minutes-audit.ts:97-101 | 60000 times the total lies between the summed execution time and that sum plus 60000 per job |
| `CiMinutes.EveryRunIsJoined` | scripts/ci/ci-minutes-fetch.ts:126-149 | One entry per run, in order, with its id, its name or (unnamed workflow), and its own jobs; refused exactly when a run has no jobs record |
| `CiMinutes.FetchAllRuns` | scripts/ci/ci-minutes-fetch.ts:180-201 | Returns all runs up to the first page of fewer than 100, and refuses when the stated total exceeds them |
| `DeployBase.TryGetLastDeployedSha` | scripts/ci/resolve-ci-sha.ts:191-199 | The loop finds the first run of the page that succeeded, is not this run, is not the current commit and names a full SHA |
| `DeployBase.ResolvedIs` | scripts/ci/resolve-ci-sha.ts:84-98 | The base is the last deployed commit if known and another one, else the parent if there is one, else the commit itself, with the strategy named so; an empty string is no commit |
| `DeployBase.LookupFindsNewest` | scripts/ci/resolve-ci-sha.ts:84-98 | From a consistent state, in a first attempt or a re-run, the base is the newest deployed commit unless that is the current one |
| `DeployBase.DeployKeepsConsistentIff` | scripts/ci/resolve-ci-sha.ts:108-120 | One run or re-run leaves every service at the newest successful commit exactly unless it is a re-run that succeeds behind a newer success from other sources or fails as the newest success with other sources below it |
| `DeployBase.DeploysKeepConsistentIff` | scripts/ci/resolve-ci-sha.ts:10-20 | Over every sequence of runs and re-runs that succeed or change nothing, live services equal their sources at the newest successful commit throughout exactly when each re-run is harmless at its turn, under the twenty-run page |
| `DeployBase.FirstAttemptsKeepConsistent` | scripts/ci/resolve-ci-sha.ts:10-20 | Without re-runs that holds over every sequence |
| `DeployBase.RerunOfOlderRunLeavesStale` | scripts/ci/resolve-ci-sha.ts:191-196 | An input that breaks it: after a successful re-run of an older run the next deploy compares with the wrong commit and leaves a service stale |
| `DeployBase.PageLimitIsHarmless` | scripts/ci/resolve-ci-sha.ts:143-149 | In a first attempt or a re-run, reading the whole history instead of one page would leave the same services live |
| `DeployBase.UnansweredLookup` | scripts/ci/resolve-ci-sha.ts:71-98 | When the lookup fails, the parent base is complete exactly when every service changed since the last deploy changed in the last commit |
| `DeployBase.PartialDeployHealsIff` | scripts/ci/resolve-ci-sha.ts:10-20 | After a run that stopped part-way the next full run, re-run or not, is complete exactly when nothing it deployed went back to what it was |
| `DeployBase.RevertAfterPartialDeployStaysStale` | scripts/ci/resolve-ci-sha.ts:10-20 | A change shipped half-way and then reverted stays live after the next successful run |

## Left out

- Spawning git, gh, pnpm, curl, docker, railway and eas, file and network reads: each is an arbitrary value or an environment step.
- Report text, usage lines, colours, log lines and the argv planners: true on a single reading. The reasons a failed install or probe is reported with are modelled but nothing is proved of their wording.
- SHA-256, UUIDs, trace ids and event envelopes: opaque; only the hashed texts matter. The policy digest is not modelled.
- JSON and schema parsing: a parameter that says which of the outcomes the code distinguishes occurred.
- Owner record text of the gate lock (`renderOwner`, `parseOwner`): the record is a value, a malformed one is an absent one.
- Locks from another host: `GateLock.DecideReclaim` covers them, the state machine is one host.
- Running the coverage suite and the preflight of the gate: they change no lock state.
- Ignored files in a worktree, stashes and reflogs: `git worktree remove` discards ignored files, and the model's dirty set does not contain them.
- Tags as roots of commits, and what a fetch writes beside refs (objects, `FETCH_HEAD`): not part of the repository state.
- Path resolution: the identity on canonical paths, a parameter in the estate reader.
- Detached worktrees under the single close command: it throws where the sweep refuses; `WorktreeClose.CloseOne` refuses, and nothing changes either way.
- Terminal numbers above 2^53 and the floating point behind `Number` and `Math.max`: integers are unbounded.
- Idle hours: real numbers instead of floating point, and a reflog date too large to be finite does not occur.
- Strings: a `char` stands for one UTF-16 code unit, and `\s` and `trim` use ECMAScript's white space.
- Commit message text of the preservation sweep: the commit call carries the branch and the file count it is made from.
- `parseDirtyEntries`, `parseAheadBehind`, `countDirtyFiles`, the text half of `parseReflogIdleHours`: the model takes the counts and times read from the text.
- The census command and the summary text of the sync run: they read and print.
- `fetchJobsForRun`: reads pages as `fetchAllRuns` does, without the total check.
- `selectTarget`: path lookup. A working directory is the worktree it lies in.
- Dependency drift detection by file times in the sync run: a flag that says whether its report threw.
- `pickCurrentSha` and the call failures of the deploy lookup: one conditional, and an unanswered lookup.
- The command-line parsers and the exit printing of every script: no state.
- The one-branch classifiers and tables (eas freshness, audit artifact, machine doctor, keycloak policy): true on a single reading.
- TerminalRegistry.PublishedStayContiguous: does not hold over a start with gaps when a clone is refreshed between a claim's fetch and its listing; ContiguousInAllRunsIff and PublishedStayRooted say what does.
- TerminalRegistry.CreationTakesTheNext: the same; CreationFollowsPublished holds regardless.
- WorktreeSweep.SweepLosesNothing: speaks of append-only interference between candidates only; what interference inside one close can lose is LateWorkSurvivesIff.
- TurboExcludes.RewriteIsIdempotent: for entries written with a dash, one '@' after the package name, quotes only around the whole and versions without quotes; other turbo lines are hand-made errors the rewriter does not promise to keep.
- ManifestBump.PlannedSpecsAreWritten: for names whose one declaration has a quoted value that is not itself followed by a colon, as in any JSON object.
