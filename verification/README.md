# Mothership, verified

A Dafny model of the parts of Mothership (`mship`) in which a mistake loses work, touches somebody else's
resources or lets an unapproved plan through, with proofs of what they promise. `dafny verify dfyconfig.toml`
checks all of it.

| part | files | what it is about |
|---|---|---|
| Android sessions | `SessionProtocol`, `SessionSafety`, `SessionTheorems`, `SessionRecovery`, `SessionLimit`, `SessionConfig`, `AdbServer`, `AndroidOwner`, `FixtureListing`, `SessionJournal` | owners of port mappings and apps on a shared device, with a journal that survives crashes |
| `finish` and `close` | `PrGroups`, `FinishRuns`, `FinishTheorems`, `FinishOutcome`, `FinishHost`, `CloseGate` | pull requests across interrupted runs, and the gates before a teardown |
| Dependencies | `Digraph`, `RepoGraph`, `TaskGraph`, `TaskStore`, `TaskCommands` | acyclic repositories and acyclic tasks |
| Assumptions | `AssumptionTable`, `AssumptionParser`, `AssumptionDocument`, `PlanCheck`, `PlanApproval`, `PlanGate` | a table that is printed and read back, and approvals bound to what they were given for |
| Settings and storage | `HookGroups`, `HookSettings`, `ClaudeHooks`, `CodexHooks`, `DaemonCredentials`, `SpecMigration`, `SpecMigrationRun`, `SpecMigrationAgain`, `SpecFolders` | reconciling hooks, rolling credentials back, moving specs between representations |
| Shared | `Basics`, `Text` | options, JSON values, Python's string operations |

**How the Android part works.** `SessionProtocol` gives every atomic step of the protocol as an event: a
journal write, the issue of an adb command, its effect on the adb server, its return to the caller, a
listing, a lock, a crash, a restart. Mapping commands are asynchronous: an issued command stays on the wire
until the server performs it, even when its sender has given up or crashed. `Run` folds `Apply` over any
sequence of events of any number of sessions. `AndroidOwner` is the class as it is written in Python; each
of its methods is proved to make only steps of the protocol, and `At` ties its fields to the protocol's
process, so that the theorems about runs speak about the code. Between any two of its steps anything may
happen: `AdbHost.Elapse` plays a script of faults and of events of everybody else, which the method cannot
see in advance. No operation succeeds after a call of its own that failed or was answered the other way (`Heeded`),
and when nothing of the kind happens and nobody interferes (`troubled`), each succeeds exactly in the cases that
its contract names.

**Failures.** The other parts take the outcome of every outside call from a script too: it works, fails
before or after it took effect, or never returns. Every theorem holds for all scripts unless it says
otherwise.

## Where the code differs from what it promises

- `AssumptionStore.save` refuses a line feed or a carriage return in a cell. `str.splitlines`, which `load`
  uses, breaks at eight more characters. `SavedRowsLoad` gives the exact condition and `GuardMissesABreak` a
  form feed that is saved and does not come back.
- `_reconcile_event` for Codex keeps a group with extra keys whose handlers are all our own, so the event is
  not registered after an install, nor after any later one. `CodexInstallRegisters` says exactly when,
  `SealedGroup` gives an input. Claude's installer, which empties such a group, has no such case.
- `install_codex_hooks` lets a JSON null pass as the groups of an event and then iterates over it; it raises a
  `TypeError` before anything is written (`CodexSettings.Install`); `NullPassesTheGuard` gives such settings.
- `list_pr_for_branch` returns None when the call fails, which reads like "no pull request". GitHub refuses a
  second open pull request for a branch and a base, and `create_pr` then takes the one there is; but it accepts
  one when the first was closed or merged, or goes into another base. `SecondPrOfAGroup`, `SecondPrOfARun` and
  `SecondPrExactly` say exactly when a repository gets another pull request: in one round, over a run, and over
  any runs with any changes by others between them. `MissedLookupDuplicates` gives two runs that do it.
- The journal can be written with more than 64 receipts, but not loaded again. `JournalRoundTrip` gives the
  limit, `OversizedJournalIsDead` what follows from it, and `BusySessionsDie` a run that gets there: 65
  fixtures, created and cleaned one after the other, and a crash.
- `close --detach-downstream` takes the edges to the closed task off its dependents. They are gone already:
  the edges cascade with the row of the task (`src/mship/core/persistence/schema.py:272-281`), forced close or
  not (`DetachIsRedundant`). For the same reason no edge ever dangles, and the search for cycles before a spawn
  cannot find one (`NothingReachesAFreshSlug`).
- `daemon start`, `restart` and `install` catch errors of the operating system and of the supervisor. When the
  supervisor's step ends with any other error, an interrupt say, the command fails and the new credentials
  stay, under `install` with the new settings (`KeepsOverrides`, `InterruptedSupervisorKeepsOverrides`).
  Persisting the credentials takes its own writes back after every error. `FailedStartRollsBack` and
  `FailedInstallRollsBack` say exactly when a failed command leaves everything as it was.
- A failed `spec migrate-storage` says to resolve the state of git and to run it again. If it stopped with the
  new file of a spec written and the old one not removed, running it again is refused, now and until one of the
  two files is deleted by hand. `StoppedMigrationsRunAgain` says exactly when, `FailedRemovalIsRefused` gives an input. If a `git rm` deleted a plaintext file and then
  could not write the index, the next run succeeds, and the plaintext stays tracked.
  `NoPlaintextAfterASecondRun` says exactly when, `HalfRemovalStaysTracked` gives an input.

## Model

| member | source | states |
|---|---|---|
| SessionTheorems.EveryClosedRunKeepsMappings | src/mship/core/android_session.py:960-1038 | the mapping invariant holds after every run of any sessions with crashes and restarts in which mappings do not vanish by themselves |
| SessionTheorems.EveryRunKeepsApps | src/mship/core/android_session.py:754-862 | the app and lease invariant holds after every run |
| SessionTheorems.RemovalsHitOnlyOwnMappings | src/mship/core/android_session.py:1006-1038 | a removal still on its way, however late and whoever crashed since, finds the mapping that the very receipt it was issued for created |
| SessionTheorems.OnlyItsOwnSessionRemovesAMapping | src/mship/core/android_session.py:979-1038 | a mapping disappears or changes only by its own session's removal of it |
| SessionTheorems.OwnershipNeedsAClosedWorld | src/mship/core/android_session.py:1006-1038 | a run in which one mapping vanishes by itself and a session then removes another session's mapping: the closed world is needed |
| SessionTheorems.MappingsAreJournaled | src/mship/core/android_session.py:960-1004 | write-ahead: at every point of every run, a mapping a session made has a persisted receipt for it that is not cleaned |
| SessionTheorems.RunningAppsAreJournaled | src/mship/core/android_session.py:801-822 | write-ahead: an app a session started and that runs is owed a stop by that session's persisted journal |
| SessionTheorems.CrashLeavesDoubt | src/mship/core/android_session.py:551-618 | a crash puts every receipt that announced an effect in doubt |
| SessionTheorems.DoubtIsAbsorbing | src/mship/core/android_session.py:1006-1020 | a receipt in doubt stays so through every further run: it is never created or cleaned, and no command is issued for it |
| SessionTheorems.DoubtfulMappingsStay | src/mship/core/android_session.py:1006-1020 | the mapping of a receipt in doubt, with no removal in flight, is never removed |
| SessionTheorems.CleanSessionsLeaveNothing | src/mship/core/android_session.py:1040-1055 | when everything is recorded as clean, no mapping, no command in flight and no running app of the session is left |
| SessionTheorems.LiveOwnersHoldTheLease | src/mship/core/android_session.py:754-758 | a session that believes its app active holds the lease, and nobody else does |
| SessionProtocol.AppsAre | src/mship/core/android_session.py:754-758 | sessions contend for one lease exactly when they have the same package on the same device |
| SessionTheorems.ForceStopSparesLiveOwners | src/mship/core/android_session.py:839-858 | whenever a session's force-stop ends a running app, the session holds the lease, and no other session that launched the app is live |
| SessionTheorems.StopsNeedALease | src/mship/core/android_session.py:839-858 | without a claim no force-stop of a session takes place |
| SessionTheorems.DebtEndsOnlyWithTheApp | src/mship/core/android_session.py:824-858 | a session's journal stops owing a stop only when the app that this session started is not running any more |
| SessionTheorems.OversizedJournalIsDead | src/mship/core/android_session.py:551-590 | a session without a process whose journal is too long to load never gets a process again |
| SessionRecovery.CleanOne | src/mship/core/android_session.py:1013-1037 | from any reachable state at rest, an owner can bring a created receipt to cleaned |
| SessionLimit.BusySessionsDie | src/mship/core/android_session.py:528-590 | for 65 fixtures and more, as long as the journal fits into the 128 KiB that can be written, a run from a fresh host in which one process creates and cleans them and crashes: all is clean, and no restart ever succeeds |
| SessionRecovery.CleanableExactlyWhenSettled | src/mship/core/android_session.py:1006-1038 | from a process at rest with its journal up to date, some continuation cleans every receipt exactly when none is in doubt |
| SessionRecovery.CleanableAfterACrash | src/mship/core/android_session.py:551-618 | after a crash at any point of any run, some continuation cleans every receipt of the session exactly when all are cleaned already, or none is in doubt and there are at most 64 |
| SessionConfig.EveryRunKeepsConfig | src/mship/core/android_session.py:960-1004 | every receipt of every run names a configured fixture exactly, and every mapping prints as one line of three fields |
| AndroidOwner.AndroidSessionOwner.constructor | src/mship/core/android_session.py:502-519 | a new process has the journal in memory, no claim and no live app |
| AndroidOwner.AndroidSessionOwner.Open | src/mship/core/android_session.py:502-618 | a process comes up exactly when its journal can be read, or there is none, and has at most 64 receipts; with the same receipts and debt, and never with a known cleanup |
| AndroidOwner.AndroidSessionOwner.Record | src/mship/core/android_session.py:528-549 | the fields replace the journal, or the operation is over with the error of the write, which leaves the old journal or, when only the directory could not be synced, the new one |
| AndroidOwner.AndroidSessionOwner.FixtureMappingState | src/mship/core/android_session.py:934-958 | the answer is that of a lookup in the endpoint-keyed table at the moment of the listing |
| AndroidOwner.AndroidSessionOwner.Fixture | src/mship/core/android_session.py:960-1004 | success adds one created receipt, on disk, with its mapping on the server; failure adds none, or one for the same fixture; an unknown or already created fixture touches nothing; undisturbed it succeeds exactly if the fixture is configured, not created yet and its endpoint free |
| AndroidOwner.AndroidSessionOwner.CleanReceipt | src/mship/core/android_session.py:1013-1037 | one round: a receipt in doubt is refused without touching anything, a cleaned one is passed over, a created one ends cleaned on disk or was at most put in doubt |
| AndroidOwner.AndroidSessionOwner.Cleanup | src/mship/core/android_session.py:1006-1038 | success cleans all receipts on disk; failure leaves a cleaned prefix, at most one receipt newly in doubt and an unchanged rest; when no call fails and nobody interferes it succeeds exactly if no receipt is in doubt |
| AndroidOwner.AndroidSessionOwner.ClaimApp | src/mship/core/android_session.py:754-758 | succeeds exactly when the lease is held afterwards, and keeps a lease that is held |
| AndroidOwner.AndroidSessionOwner.Launch | src/mship/core/android_session.py:801-822 | success means that during the call this session started the app, when the stop it owes was on disk already, and that the app is claimed and active; when no call fails and nobody interferes it succeeds exactly if the lease is held or free |
| AndroidOwner.AndroidSessionOwner.StopOwned | src/mship/core/android_session.py:839-858 | success means that during the call a probe of this session saw the app not running, and nothing is owed, on disk; a failure before that keeps the debt; undisturbed it succeeds exactly if the lease is held or the app is gone |
| AndroidOwner.AndroidSessionOwner.Shutdown | src/mship/core/android_session.py:1040-1055 | always lets go of the lease; true only if every receipt is cleaned, no stop is owed and nothing of the session is left anywhere; undisturbed it is true exactly if no receipt is in doubt and an owed stop can be made |
| AndroidOwner.AndroidSessionOwner.Handle | src/mship/core/android_session.py:1116-1195 | receipts only grow and move forward; a cleanup that succeeds cleaned all, one that fails is recorded as unknown; a fixture adds exactly its created receipt, with the mapping on the server; a launch and a stop were seen to take place; undisturbed each request succeeds exactly if it can be served |
| AndroidOwner.Lifetime | src/mship/core/android_session.py:1208-1245 | a process that loads its journal, serves any requests and shuts down answers true only if nothing of the session is left; it answers each request up to the first error of the operating system, and the device was confirmed at least once for each request that succeeded |
| FixtureListing.FixtureMappings | src/mship/core/android_session.py:142-169 | the line loop computes the rows of the listing, and fails on the first line without three fields |
| FixtureListing.ListingRoundTrip | src/mship/core/android_session.py:142-169 | reading a printed listing, in either column order, gives back the rows |
| FixtureListing.ListingAnswersLookup | src/mship/core/android_session.py:934-958 | exact, absent or unsafe over the rows is what a lookup by local key (forward) or remote key (reverse) says |
| SessionJournal.LoadJournal | src/mship/core/android_session.py:551-618 | accepts a journal exactly when its identity, shape and every receipt check, with cleanup never known |
| SessionJournal.ReceiptRoundTrip | src/mship/core/android_session.py:489-496 | a receipt reads back from what is written for it, and nothing else does |
| SessionJournal.JournalRoundTrip | src/mship/core/android_session.py:528-618 | a written journal loads, with the same receipts and debt, exactly when it has at most 64 receipts |
| SessionJournal.ForeignJournalIsRefused | src/mship/core/android_session.py:575-590 | a journal of another run, owner, generation or device is refused |
| PrGroups.BuildPrGroups | src/mship/cli/worktree.py:186-254 | the bucket loops succeed exactly when the members of each root share one base, and give one group per root |
| PrGroups.GroupsPartition | src/mship/cli/worktree.py:192-254 | every repository is in exactly one group, members keep their order and share root and base, and the root represents them if it is one, else the first |
| PrGroups.GroupsFollowCheckouts | src/mship/cli/worktree.py:192-254 | a directory of another repository of the task shares its group, which that repository represents; two checkouts of their own never share one |
| FinishOutcome.NewPrsGoWhereWanted | src/mship/cli/worktree.py:2354-2363 | whatever happens to its calls, a run leaves the pull requests there were alone, and every new one is open and goes into the base that all repositories of its checkout declare, or the default branch of the remote where they declare none |
| FinishOutcome.WorkingRun | src/mship/cli/worktree.py:1911-2480 | a run whose calls work, but for the stamp perhaps, is refused exactly for a missing base or when nothing was done, stops before anything exactly for two bases in one checkout, and else records exactly what was to be delivered with the newest pull request of its remote, opens a first one exactly where there was none, and completes exactly if the stamp works or is there already |
| FinishOutcome.RefusedCreation | src/mship/core/pr.py:190-195 | a creation that GitHub refuses opens nothing: the newest pull request of the branch is recorded, or, where its lookup fails, the run stops without a record |
| FinishHost.FinishWorkflow.Finish | src/mship/cli/worktree.py:1911-2480 | the imperative run computes the run function, whatever its outside calls do |
| FinishHost.FinishWorkflow.Survey | src/mship/cli/worktree.py:1926-1956 | the untouched repositories are those without a record and with zero commits past a base, unless some base is missing |
| FinishTheorems.GroupStepKeeps | src/mship/cli/worktree.py:2206-2386 | one group, interrupted anywhere: records stay consistent and unchanged, it goes on only when settled, and a truthful lookup excludes a second pull request |
| FinishTheorems.RunSettlesOrStops | src/mship/cli/worktree.py:2206-2480 | a run completes or stamps the task only when every group is skipped as a whole or has one recorded pull request |
| FinishTheorems.AtMostOnePr | src/mship/cli/worktree.py:2276-2380 | over any number of interrupted runs with truthful lookups, and any closing, merging or retargeting by others, a remote gets at most one pull request, and none where it had one |
| FinishTheorems.StampedWasSettled | src/mship/cli/worktree.py:2470-2480 | a stamped task was settled by the run that stamped it, and no record has changed since |
| FinishTheorems.GroupStepOpens | src/mship/core/pr.py:158-211 | a round adds exactly one open pull request, under an exact condition, or leaves all pull requests as they are |
| FinishTheorems.SecondPrOfAGroup | src/mship/core/pr.py:158-211 | a repository with a pull request gets another one in a round exactly when its group is reached, neither skipped nor recorded, the push works, the lookup fails, none is open for branch and base, and the creation takes effect |
| FinishTheorems.SecondPrOfARun | src/mship/cli/worktree.py:2206-2380 | the same over a run: exactly when such a round is reached, with the pull requests as the rounds before left them |
| FinishTheorems.SecondPrExactly | src/mship/core/pr.py:347-363 | the same over any runs and any closing, merging, reopening or retargeting by others between them |
| FinishTheorems.OpenPrsDiffer | src/mship/core/pr.py:190-195 | whatever the runs and others do, no two pull requests into one base are ever open at a time, if none were at first |
| FinishTheorems.MissedLookupDuplicates | src/mship/core/pr.py:347-363 | a run interrupted before its record, a pull request that somebody closes, and a run whose lookup fails leave two pull requests, of which the task knows the second |
| FinishTheorems.RetryFindsThePr | src/mship/cli/worktree.py:2286-2293 | after an interruption between creation and record, the next run records that pull request and creates none |
| FinishTheorems.CompletionHasAPr | src/mship/cli/worktree.py:1951-1970 | a completed run leaves some pull request recorded |
| CloseGate.CheckRecovery | src/mship/cli/worktree.py:823-900 | nothing is lost exactly when every repository is recoverable, what is listed as lost is not, and else the undelivered list is exactly the repositories not seen delivered, with the reason |
| CloseGate.Close | src/mship/cli/worktree.py:815-1188 | without force a teardown means that every repository is gone, could not be compared, or has no commits, merged ones, pushed ones or a pull request, and that no pull request is open or merged elsewhere; every refusal has one of seven stated grounds; the task counts as completed without pull requests exactly when all work was seen merged or there was none |
| CloseGate.MergingNeverBlocks | src/mship/cli/worktree.py:860-900 | merging a repository never turns an admissible close into a refused one |
| CloseGate.FinishedTasksCanBeClosed | src/mship/cli/worktree.py:822-985 | whatever `finish` completed passes the gates once its pull requests are no longer open |
| Digraph.ArcKeepsAcyclic | src/mship/core/task_graph.py:55-100 | one more arc keeps a graph acyclic exactly when its target does not reach its source |
| Digraph.FreshNodeCheck | src/mship/cli/worktree.py:629-636 | checking the targets of a new node one at a time, in the graph as it was, is exact |
| RepoGraph.ValidateNoCycles | src/mship/core/config.py:587-623 | accepts exactly the configurations whose graph of dependencies and git roots is acyclic, and then dequeues in a build order of all repositories |
| RepoGraph.OrderMeans | src/mship/core/config.py:587-623 | a build order holds every repository once, after each dependency and git root that it names |
| RepoGraph.AddGitRoots | src/mship/core/config.py:596-609 | the tables end up with exactly the edges of the graph, an implicit one only where there is no explicit one |
| RepoGraph.Validate | src/mship/core/config.py:574-643 | all three checks accept exactly the configurations with known references, flat git roots and no cycle |
| RepoGraph.GitRootCounts | src/mship/core/config.py:596-609 | a root that depends on its own directory service, or is its own root, makes a cycle |
| TaskGraph.FindCycle | src/mship/core/task_graph.py:55-100 | None exactly when the edge closes no cycle in any store, else a cycle through that very edge |
| TaskGraph.DownstreamOf | src/mship/core/task_graph.py:37-52 | exactly the tasks that depend on the slug, directly or not |
| TaskStore.SpawnKeepsSound | src/mship/core/persistence/task_repository.py:51-54 | a row that the constraints of the tables admit closes no cycle: the store stays acyclic without a search |
| TaskStore.DeletionTakesItsEdges | src/mship/core/persistence/schema.py:272-281 | deleting a row takes exactly the edges from and to it, and the store stays acyclic without dangling edges |
| TaskStore.EveryRunIsSound | src/mship/cli/depends.py:57-99 | every store reached by any commands is acyclic, without dangling or repeated edges |
| TaskStore.NothingReachesAFreshSlug | src/mship/cli/worktree.py:618-640 | no upstream of a new task reaches its slug |
| TaskStore.CloseLeavesNoEdge | src/mship/cli/worktree.py:1341-1371 | no edge to what a close removed is left, and every other edge is |
| TaskStore.CascadeKeepsTheRest | src/mship/cli/worktree.py:1350-1371 | a cascade leaves exactly the tasks that do not depend on the closed one, with the edges they had |
| TaskStore.DetachIsRedundant | src/mship/cli/worktree.py:1341-1349 | detaching changes nothing that deleting the row does not |
| TaskCommands.AddDependency | src/mship/cli/depends.py:45-74 | accepts exactly when both are tasks and the graph with the edge is acyclic; then the edge is the last of its task unless it was there, and every other edge is as before; a refusal changes nothing and shows the cycle |
| TaskCommands.RemoveDependency | src/mship/cli/depends.py:81-103 | accepts exactly when there is such an edge; then that edge is gone, the other edges of the task are kept in order and all other tasks are as before; a refusal changes nothing |
| TaskCommands.CheckUpstreams | src/mship/cli/worktree.py:629-636 | refuses exactly when some upstream reaches the slug |
| TaskCommands.SpawnTask | src/mship/cli/worktree.py:618-657 | registers the task exactly when its slug is new and its upstreams are distinct tasks, with exactly those edges and nothing else changed; never refuses for a cycle |
| TaskCommands.CloseTask | src/mship/cli/worktree.py:915-947 | accepts exactly when the task exists and nothing depends on it, or the close is forced or exactly one flag says what to do; exactly the task leaves, with a cascade its dependents too, and the other tasks lose the edge to it and no other |
| AssumptionTable.SplitUnescapedPipes | src/mship/core/assumptions.py:206-224 | the index loop cuts at every pipe that no backslash precedes |
| AssumptionTable.EscapedCellSplits | src/mship/core/assumptions.py:203-234 | an escaped cell splits back to itself whatever pipes and backslashes it has |
| AssumptionParser.TableRoundTrip | src/mship/core/assumptions.py:206-295 | a printed table reads back as its rows with trimmed cells exactly when no cell has a line boundary |
| AssumptionParser.BrokenRowNeverReadsBack | src/mship/core/assumptions.py:270-295 | a row with a boundary in a cell is never read back as itself |
| AssumptionParser.NoTableIsNoRows | src/mship/core/assumptions.py:270-283 | a text without a table is an empty store, one with only a header is malformed |
| AssumptionDocument.Read | src/mship/core/assumptions.py:270-295 | the loops compute the parsed table, or the error of a malformed one |
| AssumptionDocument.Render | src/mship/core/assumptions.py:227-234 | the loop prints the table |
| AssumptionDocument.HasDuplicateAxes | src/mship/core/assumptions.py:251-267 | finds out exactly whether two rows have one axis |
| AssumptionDocument.AssumptionStore.Load | src/mship/core/assumptions.py:118-124 | gives the rows of the document, none for none, or the error |
| AssumptionDocument.AssumptionStore.Save | src/mship/core/assumptions.py:141-168 | writes exactly what passes the guards, leaves the document alone otherwise, and warns above 20 rows |
| AssumptionDocument.SavedRowsLoad | src/mship/core/assumptions.py:118-168 | saved rows load as themselves, trimmed, exactly when no cell has a line boundary |
| AssumptionDocument.GuardMissesABreak | src/mship/core/assumptions.py:141-152 | rows that the guard accepts and that do not come back |
| AssumptionDocument.LoadedRowsSurviveASave | src/mship/core/assumptions.py:118-168 | whatever loads can be saved again and loads unchanged |
| PlanApproval.PlanCheckStore.RecordResult | src/mship/cli/plan_assumptions.py:181-247 | accepts exactly verdicts for different axes; the stored check is of this plan, rows and verdicts, with the flags of `FlagsOf` but for carried approvals; other checks are as before |
| PlanApproval.PlanCheckStore.ApproveFlag | src/mship/core/plan_assumptions_transition.py:34-58 | accepts exactly when there is a check of this plan and these rows with a flag of the axis; then one flag of the axis is approved, by this person if it was not before, and nothing else has changed |
| PlanApproval.FlagsFromVerdicts | src/mship/core/plan_check.py:109-137 | one flag for every row not covered or not mentioned |
| PlanApproval.CrossCheckRows | src/mship/core/plan_check.py:168-203 | one flag for every triggered row declared not applicable |
| PlanGate.FlagsAreRaised | src/mship/core/plan_check.py:109-203 | the flags of a check are exactly those with stated grounds: no verdict, a verdict of not covered with its reason, or a triggered row declared not applicable |
| PlanGate.FlaggedExactly | src/mship/core/plan_check.py:109-203 | a row has a flag exactly when it is neither covered nor declared not applicable without a trigger, and the checker raised it exactly when it gave no verdict or one of not covered |
| PlanGate.GateAfterCheck | src/mship/core/workitem_gate.py:188-233 | right after an accepted check the gate passes exactly when every row is cleared or its flag was approved in the check before for the same plan and definition |
| PlanCheck.FlagsDiffer | src/mship/core/plan_check.py:109-203 | every axis has at most one flag |
| PlanApproval.EveryApprovalIsTraced | src/mship/cli/plan_assumptions.py:209-244 | every approved flag of every reachable store traces to an approval for this plan and axis, and was held for the same plan, axis, source and definition ever since |
| PlanApproval.EditsDropApprovals | src/mship/cli/plan_assumptions.py:209-219 | no approval from before the store had another plan is left: reverting an edit resurrects nothing |
| PlanApproval.RecheckKeepsApprovals | src/mship/cli/plan_assumptions.py:217-236 | checking the same plan again keeps exactly the approvals of flags raised again for the same definition |
| PlanApproval.GateMeansSignOff | src/mship/core/workitem_gate.py:188-233 | when the gate passes, every assumption of today was disposed of by the checker or signed off for exactly this plan |
| HookGroups.Reconcile | src/mship/core/codex_hooks.py:416-436 | the loop computes the reconciled groups, and says whether they changed and held a handler of ours |
| HookGroups.ReconciledIsRegistered | src/mship/core/claude_settings.py:82-155 | after reconciling, exactly one handler of ours is there, in a group equal to the entry; where sealed groups are kept, exactly when there is none |
| HookGroups.ReconciledKeepsForeign | src/mship/core/claude_settings.py:129-151 | foreign handlers, with the other keys of their groups, and malformed groups stay, in order |
| HookGroups.OthersStay | src/mship/core/codex_hooks.py:416-436 | a handler that is not ours is in a group with the same other keys after a reconciliation exactly when it was before, and no malformed group is lost |
| HookGroups.ReconciledTwice | src/mship/core/codex_hooks.py:416-436 | reconciling twice is reconciling once |
| HookGroups.RegisteredHasNoSealed | src/mship/core/codex_hooks.py:416-420 | a registered event has no sealed group |
| ClaudeHooks.ClaudeSettings.InstallHookEntry | src/mship/core/claude_settings.py:102-155 | changes the file exactly when it can be read and the event is not registered |
| ClaudeHooks.ClaudeSettings.InstallAll | src/mship/cli/init.py:29-40 | the three installers in a row write the settings that the lemmas below are about, or nothing at all |
| ClaudeHooks.ClaudeEntriesAre | src/mship/core/claude_settings.py:16-60 | the three entries, with their commands and matcher |
| ClaudeHooks.ClaudeInstallRegistersAll | src/mship/core/claude_settings.py:82-155 | after the three installers nothing is missing, foreign handlers are kept, and nothing else has changed |
| ClaudeHooks.ClaudeInstallTwice | src/mship/core/claude_settings.py:127-129 | installing again changes nothing |
| CodexHooks.CodexSettings.Install | src/mship/core/codex_hooks.py:439-493 | all events are checked before any is changed; a null among them crashes the install and leaves the file; it reports an update exactly where a handler of ours was there before |
| CodexHooks.NullPassesTheGuard | src/mship/core/codex_hooks.py:460-479 | a null for the Stop event passes all checks and crashes the install |
| CodexHooks.CodexEntriesAre | src/mship/core/codex_hooks.py:34-65 | the three entries, with their commands, messages and matcher |
| CodexHooks.AcceptsTheSensible | src/mship/core/codex_hooks.py:439-479 | what passes the guards, in terms of the decoded file, and exactly which of it crashes |
| CodexHooks.CodexInstallRegisters | src/mship/core/codex_hooks.py:416-436 | all events are registered after an install exactly when no event had a sealed group |
| CodexHooks.CodexInstallKeepsForeign | src/mship/core/codex_hooks.py:424-434 | foreign handlers are kept, and installing again leaves every event as it is |
| CodexHooks.SealedNeverRegisters | src/mship/core/codex_hooks.py:433-434 | an event with a sealed group is registered neither after one install nor after two |
| CodexHooks.SealedGroup | src/mship/core/codex_hooks.py:433-434 | our own handler in a group with a timeout is such a group |
| DaemonCredentials.SnapshotCovers | src/mship/cli/daemon.py:34-39 | a snapshot taken before a write makes the write undone |
| DaemonCredentials.OverriddenFiles | src/mship/core/daemon/host_app.py:97-107 | which file holds what afterwards; the id and the key of the app are written together or not at all |
| DaemonCredentials.PersistsExactly | src/mship/cli/daemon.py:74-105 | the calls that have to work for persisting to be done |
| DaemonCredentials.DaemonHome.RestoreAll | src/mship/cli/daemon.py:42-53 | the reversed loop puts all snapshots back, and where it fails leaves each file alone or put back |
| DaemonCredentials.DaemonHome.Persist | src/mship/cli/daemon.py:74-105 | done exactly when all its calls work; any error leaves every credential file as it was, present or absent |
| DaemonCredentials.DaemonHome.Start | src/mship/cli/daemon.py:283-323 | a failure leaves every credential file as it was, except that the overrides stay exactly when persisting worked and the supervisor raised an error that is not caught; even where restoring fails each file has its old content or its override |
| DaemonCredentials.DaemonHome.Install | src/mship/cli/daemon.py:228-263 | files, settings and outcome for every way that the saving, persisting, starting and restoring of settings can go; even where restoring the files fails each has its old content or its override |
| DaemonCredentials.FailedStartRollsBack | src/mship/cli/daemon.py:283-323 | a failed start changes nothing exactly when it is not that case, or the overrides change nothing |
| DaemonCredentials.FailedInstallRollsBack | src/mship/cli/daemon.py:228-263 | exactly when a failed install leaves files and settings as they were |
| DaemonCredentials.InterruptedSupervisorKeepsOverrides | src/mship/cli/daemon.py:249-261 | an interrupted supervisor: the command fails, and the new token and the new settings stay |
| SpecMigration.ResolvingIsExact | src/mship/cli/spec.py:1011-1046 | resolving every id succeeds exactly when no two files hold one spec and every dated name tells its spec's id |
| SpecMigration.StepsKeepSpecs | src/mship/cli/spec.py:1048-1087 | wherever the migration stops, every scanned spec is still in some file |
| SpecMigrationRun.MigrationKeepsSpecs | src/mship/cli/spec.py:1010-1095 | a refusal changes nothing; success leaves every spec in one file of the configured representation, and no plaintext in the index under local and encrypted |
| SpecMigrationRun.MigratingTwice | src/mship/cli/spec.py:1048-1087 | after a success another migration changes nothing, whatever its calls do |
| SpecMigrationAgain.CleanFoldersMigrate | src/mship/cli/spec.py:1010-1095 | a migration is refused exactly for an unreadable file, a spec in two files or a name with another id; else, when its calls work, it goes through with every spec in its own file of the configured kind, the index and `.gitignore` as the kind wants them, and no other file |
| SpecMigrationAgain.StoppedMigrationsRunAgain | src/mship/cli/spec.py:1048-1087 | a migration that stopped is refused ever after exactly if it stopped with the new and the old file of one spec, and otherwise goes through when its calls do |
| SpecMigrationAgain.FailedRemovalIsRefused | src/mship/cli/spec.py:1061-1075 | one tracked plaintext spec and one `git rm` that fails: both files are left, and every further migration is refused and changes nothing |
| SpecMigrationAgain.TrackedAfterASecondRun | src/mship/cli/spec.py:1061-1087 | after a stopped migration and one that succeeds, a scanned plaintext file is still tracked exactly if its removal deleted the file and failed before the index |
| SpecMigrationAgain.NoPlaintextAfterASecondRun | src/mship/cli/spec.py:1061-1087 | so no plaintext of the first scan, or of the last folder, is tracked at the end exactly if no removal failed in that way |
| SpecMigrationAgain.HalfRemovalStaysTracked | src/mship/cli/spec.py:1061-1075 | one such removal: the next migration succeeds whatever the order of its files, and the plaintext is still tracked |
| SpecFolders.SpecFolder.Preflight | src/mship/cli/spec.py:1011-1046 | accepts exactly the clean and readable folders |
| SpecFolders.SpecFolder.MigrateStorage | src/mship/cli/spec.py:993-1095 | the command computes the migration, and touches nothing before the preflight is through |
| SpecFolders.FoundAgain | src/mship/cli/spec.py:1054-1061 | when its turn comes, a spec is found in the file where it was scanned and nowhere else |
| Text.JoinedLinesSplit | src/mship/core/assumptions.py:226-234 | lines without a boundary split back from their joined text |
| Text.BreaksAre | src/mship/core/assumptions.py:270-295 | the characters at which lines break: line feed, carriage return and eight more |

## Left out

- Android: `install`, captures, logs, instrumentation, `status` and the checks of owner capabilities; a launch that `run` or `install` asks for is the launch modelled here.
- Android: adb calls about apps are atomic (they take effect when they return, or not at all); only mapping commands outlive their caller.
- Android: one live process per session, as its private run directory provides.
- Android: the journal on the disk of the protocol is typed; `SessionJournal` proves its JSON form separately, and `Open` goes through it. The `installed` field is opaque.
- Android: foreign programs may hold mappings from the start, but a mapping that vanishes by itself is excluded by `ClosedWorld`.
- Android: signals, locks between threads of one process and the socket protocol.
- SessionLimit.BusySessionsDie: the limit of 128 KiB on a written journal (`src/mship/core/session_channel.py:86-95`) is not modelled; several hundred receipts reach it, and the write that would exceed it fails like any other failed write. 65 receipts of ordinary length are far below.
- SessionTheorems.ForceStopSparesLiveOwners: about force-stops; `am instrument`, which claims no lease and stops its target package, is not modelled.
- Hashes and encryption: session ids and device fingerprints are compared as values; plan, row and set hashes are functions left open, and `Collisionless` says where two sets must not collide.
- AssumptionDocument.AssumptionStore.Save: does not model the encrypted and local modes or the seed rows; the document is its decoded text.
- Assumptions: decoding of files (universal newlines change no line boundary), `str.lower` and the regular expressions of triggers.
- RepoGraph.Validate: the other validators of a configuration check single fields against sets of names.
- Tasks: everything in a task but its slug and edges; two commands at the same time.
- Finish: `--push-only` and `--handoff`, the audit, test-evidence and criteria gates, the text of pull requests; a repository's branch is one per task, others do not open or delete its pull requests, the default branch of a remote does not change, and creating a pull request over REST is a creation like any other.
- Close: prompts at a terminal (a prompt answers like a flag), app-run cleanup, lifecycle advances, hooks and the removal of worktrees itself.
- Hooks: `shlex.split` is a function left open that splits our own commands into their words; other texts of JSON objects than decoded ones; whether a rewritten file decodes to the same value.
- DaemonCredentials.DaemonHome.Start: where restoring a file fails as well, `TakenBack` says how far it got, but not which snapshots there were.
- DaemonCredentials.DaemonHome.Install: the same for restoring files (restoring the settings may fail); a file of settings that did not exist is restored as one with the default settings, as the code does; the checks before it are not part of this model.
- SpecMigrationRun.MigratingTwice: speaks of decoded specs; encryption draws a new nonce, so the bytes of an encrypted file change each time it is written.
- Spec migration: locks between writers, unsafe ids (they raise before anything is written) and the generation of a key.
