# Verified model of the online judge's core

This project models the parts of the judge in which a mistake would lose a submission, leak a frozen
verdict, mis-rank a contest, let a forbidden system call through or scramble imported test data, and
proves what those parts are for. `dafny verify dfyconfig.toml` checks all of it.

| Files | What they model |
|---|---|
| `Dispatch`, `DispatchSafety`, `DispatchRuns` | the dispatch protocol between API, queue and judge daemons as a state machine over its atomic steps, its invariant, and what holds of all runs |
| `DispatchLeases`, `DispatchCopies` | the lease scanner over whole runs, from the selection of a row to the write that follows; how many copies of a submission are under way, and when it is delivered exactly once |
| `Hub`, `Queue` | the hub's own methods over its fields, each shown to be a run of that state machine; the in-memory queue |
| `Freeze`, `Scoring`, `Ranking`, `Standings`, `BoardCells`, `BoardLaws`, `Reveal`, `Teams`, `TeamAttempts` | the contest board: freeze options, scoring pass, ranking, reveal, team board, and the laws they obey |
| `Seccomp` | the compiler from a system call whitelist to a classic-BPF program, against the interpreter of its test |
| `Judging`, `JudgingPool`, `Compare` | judging one submission: serial loop, stop on fail, the worker pool, the collapse of results, and the output comparison |
| `Text`, `FlatYaml`, `PackageMeta`, `NaturalOrder`, `Package`, `PackageRoundTrip`, `PackageShared` | exporting a problem as an archive, in full or shared, and importing it again |
| `Limiter` | the per-user sliding-window limiter, with its in-place slice compaction |
| `Options`, `Ordering` | absent values; what Go's sorts promise, and when that determines the result |

How the model reads the code:

- Code that changes things step by step is a class with the same fields or a method with the same loop,
  and is proved against a specification function; the laws are lemmas about that function.
- Concurrency is a state machine: every read or write of shared state is a step of its own, and the
  theorems quantify over all interleavings. An id that was popped but not marked, or a row that was reset
  but not pushed, is a state of its own.
- The order of a Go map iteration and the outcome of an unstable sort are left open; a theorem shows that
  they do not matter, or an example shows that they do.
- Instants are nanoseconds in the contest board and seconds in the protocol and the limiter. Integers are
  unbounded except where the width matters (the 32-bit words and 8-bit offsets of the BPF program, the
  64-bit range of parsed numbers).
- A text is a sequence of characters. Where the code limits a size, the model measures it in UTF-8 bytes.

Where the code and its documentation disagree, the model follows the code:

- `freezePoint`'s comment puts the automatic freeze first; the code takes the manual one first.
  `Freeze.AutomaticPointIff` says exactly when that makes a difference, `Freeze.LateLeverUnmasks` what a late
  pull of the lever unmasks.
- A contest created with `freeze_enabled` false is stored with the column's default, true. What that changes:
  `Freeze.DisabledAtCreation`.
- A contest that forbids the manual freeze can still end up frozen by hand when two requests overlap
  (`Freeze.StaleLeverReachable`), and exactly when a lever is written that was forbidden after its handler
  looked: `Freeze.ExclusiveRunIff`.
- The "true final board" of the reveal is unfrozen only by clearing the manual lever. It is the final board, and
  the revealed users are the last ones on it, for all submissions if and only if the automatic freeze has not set
  in or there is no problem: `Reveal.TrueBoardUnmaskedIff`, `Reveal.RevealedAreLastIff`;
  `Reveal.AutomaticFreezeRevealsOther` is an input.
- The IOI comment breaks ties by the earlier improvement. In the code no time of a submission has an influence
  but through the freeze (`BoardLaws.IOITimesAreIgnored`), and ties go by user id (`BoardLaws.IOITiesById`);
  `Reveal.EarlierImproverSecond` is an input.
- The board's query has no order. A cell solved on the frozen board keeps its deciding submission and its
  attempts without the freeze if and only if no masked AC or failure is listed before its first visible AC:
  `BoardCells.SolvedSurvivesIff`; `BoardCells.OrderMatters` is an input where it does not.
- `teamStandings`' comment promises the members' least number of attempts. What the code counts is
  `TeamAttempts.MergedAttempts`, when that is the least number `TeamAttempts.LeastAttemptsIff`, and when the order
  of the members does not matter `TeamAttempts.OrderFreeIff`; `TeamAttempts.LeastAttemptsFail` is an input.
- The scanner decides on a row and writes it later, without looking again. `DispatchLeases.ReclaimHitsYoungIff`
  says exactly when the write hits a dispatch that the decision would have spared,
  `DispatchLeases.LateReclaimHitsFreshLease` is such a run.
- `judgeCases` sets a cancelled run to SE, but the collapse that follows overwrites it with the verdict of the
  cases judged so far, AC if there are none. `Judging.CancelledVerdictIff` says exactly when that is the verdict
  of the whole run, `Judging.SpoiltVerdictIff` when the last judged case was spoilt.
- `exportProblem`'s comment promises that a round trip keeps the judge configuration. The importer passes over
  sources over 512 KiB: `PackageRoundTrip.RoundTrip` has the exact condition of every part,
  `PackageRoundTrip.LargeInteractorIsLost` is an input.

## Model

| member | source | states |
|---|---|---|
| DispatchSafety.NextInv | backend/internal/judgehub/tasks.go:39-98 | every atomic step of the protocol, in any interleaving, keeps the invariant: no submission lost, leases on exactly the JUDGING rows, counters accounted for, one open connection per name, no unknown id anywhere |
| DispatchRuns.NoSubmissionLost | backend/internal/judgehub/tasks.go:64-98 | after any run, from the start-up query on, a PENDING submission is queued or in the hand of a step about to push or mark it; and at all times exactly the JUDGING submissions hold a lease |
| DispatchRuns.CapacityRespected | backend/internal/daemon/daemon.go:84-106 | an open connection's counter equals its tasks being sent, buffered, on the wire, at the daemon or answered but unhandled; it stays within 0 and the capacity, and a daemon never runs more tasks than that |
| DispatchRuns.OneOpenConnectionPerName | backend/internal/judgehub/hub.go:126-148 | whatever the order of logins and drops, at most one connection of a daemon name is open |
| DispatchRuns.EverySubmissionCanBeJudged | backend/internal/judgehub/hub.go:76-98 | from every reachable state, whatever was lost, every submission without a verdict can still reach any verdict without a rejudge or restart |
| DispatchRuns.BootUp | backend/cmd/api/main.go:94-97 | a restart always completes: the start-up query and its pushes lead to a serving state with the same rows |
| DispatchLeases.ScanSparesYoungDispatches | backend/internal/judgehub/hub.go:76-86 | whatever happens after a submission is marked, no scan selects it until more than twice the lease duration has passed |
| DispatchLeases.WriteSparesYoungDispatches | backend/internal/judgehub/hub.go:76-98 | nor does the write that follows a selection: unless the submission is dispatched anew in between, the row the write finds is not a dispatch or is over-age |
| DispatchLeases.ReclaimHitsYoungIff | backend/internal/judgehub/hub.go:76-98 | whatever happens between selection and write, the write hits a dispatch at most twice the lease duration old exactly when the last write to the row since the selection is a mark not longer ago than that |
| DispatchLeases.LateReclaimHitsFreshLease | backend/internal/judgehub/hub.go:88-98 | such a run is reachable: the late write resets a row that was rejudged and dispatched anew, its lease at full length |
| DispatchCopies.Ledger | backend/internal/judgehub/tasks.go:39-98 | every step but a restart balances: copies of a submission (queued, about to be pushed, popped and unmarked) come from create, rejudge, the write of a reclaim and the restore only, and only a mark uses one up; a restart adds none |
| DispatchCopies.SecondCopyIff | backend/internal/judgehub/hub.go:88-98 | a step makes a second copy if and only if it rejudges, reclaims or restores a submission that has one already |
| DispatchCopies.SingleCopyIff | backend/internal/judgehub/hub.go:88-98 | a run has at most one copy of a submission throughout if and only if it never does that |
| DispatchCopies.DeliveredOnce | backend/internal/judgehub/tasks.go:39-98 | in every run without rejudge, scan, disconnect and restart a submission is PENDING with one copy and never dispatched, or not PENDING with no copy and dispatched exactly once |
| DispatchCopies.SecondCopyReachable | backend/internal/handler/admin_internal.go:44-59 | with a rejudge that fails: a rejudge of a queued submission puts a second copy in the queue |
| HubCode.Hub.Requeue | backend/internal/judgehub/hub.go:88-98 | the row is PENDING without a lease and the id is last in the queue |
| HubCode.Hub.RequeueExpired | backend/internal/judgehub/hub.go:76-86 | one scan reclaims only over-age rows, all of them up to 100, each exactly once; they are PENDING and queued, no other row changes, and the whole is a run of the protocol |
| HubCode.Hub.ScannerTicks | backend/internal/judgehub/hub.go:61-86 | lease recovery: each tick takes 100 over-age rows out of the set until it is empty, and every one of them is PENDING and queued |
| HubCode.Hub.ScannerOverTime | backend/internal/judgehub/hub.go:61-86 | lease recovery while the clock runs on between the ticks: once the ticks can take as many rows as were JUDGING at the start, every row that was over-age then is PENDING and queued, and only rows that were JUDGING were reset, once each |
| HubCode.Hub.RequeuePending | backend/internal/judgehub/tasks.go:20-35 | at start-up exactly the PENDING rows are pushed, once each and in id order, before service begins |
| HubCode.Hub.RegisterConn | backend/internal/judgehub/hub.go:126-148 | a duplicate login closes the stale connection and takes over the name |
| HubCode.Hub.DropConn | backend/internal/judgehub/hub.go:167-191 | a disconnect requeues exactly the tasks under the daemon's name that are still JUDGING, clears its table entries, and gives up the name only if it still holds it |
| HubCode.Hub.HandleResult | backend/internal/judgehub/hub.go:258-264 | the counter goes down, the id leaves the table, and its row gets the verdict and loses the lease, whatever the row said |
| HubCode.Hub.DispatchOne | backend/internal/judgehub/tasks.go:66-98 | a failed build puts the id back; otherwise the row is JUDGING under a fresh lease, counted and in the table, and the task is buffered, waiting, or left to the lease |
| HubCode.Hub.RequeueUnbuilt | backend/internal/judgehub/tasks.go:66-72 | the failure branch: the row is PENDING and its id at the end of the queue |
| HubCode.Hub.DispatchBuilt | backend/internal/judgehub/tasks.go:73-98 | the branch after a successful build: row marked, counter raised, table entry made, then buffered, waiting or given up |
| HubCode.ScanLeads | backend/internal/judgehub/hub.go:76-98 | a whole scan is a run of the protocol's atomic steps |
| HubCode.DropLeads | backend/internal/judgehub/hub.go:167-191 | a whole disconnect is a run of the protocol's atomic steps, in whatever order the table is walked |
| Queues.MemoryQueue.Push | backend/internal/queue/queue.go:52-64 | refuses when closed or full, else appends |
| Queues.MemoryQueue.Pop | backend/internal/queue/queue.go:66-73 | hands out the oldest id, also after a close; reports drained, cancelled or waiting otherwise |
| Queues.Fifo | backend/internal/queue/queue.go:52-73 | over any calls the accepted pushes are the popped ids followed by the queued ones, and never more than the capacity is queued |
| Queues.CloseDrains | backend/internal/queue/queue.go:79-87 | after a close every push is refused, every queued id is still handed out, oldest first, and only then is the queue drained |
| Freeze.FrozenIffPointAlways | backend/internal/handler/contests.go:711-719 | over all overlapping runs of create, update, set-freeze and set-time, the lever and its timestamp go together and at every instant the board is frozen exactly when it has an instant to mask from |
| Freeze.ExclusiveIffNotStale | backend/internal/handler/jury.go:353-381 | forbidding the lever excludes a manual freeze after a step if and only if the step is not a write of the lever that was forbidden after its handler looked |
| Freeze.ExclusiveRunIff | backend/internal/handler/jury.go:353-381 | over whole runs: the contest is never manually frozen while it forbids the lever if and only if no step of the run is such a write |
| Freeze.ExclusiveWithoutOverlap | backend/internal/handler/jury.go:353-381 | when handlers do not overlap, a contest that forbids the lever is never manually frozen |
| Freeze.StaleLeverReachable | backend/internal/handler/jury.go:353-381 | the excluded race is reachable |
| Freeze.AutomaticPointIff | backend/internal/handler/registration.go:219-234 | once the automatic freeze has set in, it is the masking instant if and only if the lever is off or was pulled at that instant |
| Freeze.LateLeverUnmasks | backend/internal/handler/registration.go:219-234 | for every contest, pull and instant: pulling the lever unmasks exactly what came in after the automatic instant and up to the pull, and hides exactly what came in after the pull and was not hidden |
| Freeze.ContestRecord.Create | backend/internal/handler/contests.go:90-119 | the freeze fields of a new contest as they are stored, the column default of freeze_enabled included |
| Freeze.DisabledAtCreation | backend/internal/model/model.go:204 | created without a freeze, a contest is not frozen by itself but can be by the lever unless that is forbidden; the same request as an update rules both out |
| Freeze.ContestRecord.FreezeOptions | backend/internal/handler/contests.go:57-77 | which options a request changes, and what switching the freeze or the lever off clears |
| Freeze.ContestRecord.Update | backend/internal/handler/contests.go:128-154 | an update rewrites the schedule and applies the options |
| Freeze.ContestRecord.SetFreeze | backend/internal/handler/jury.go:353-381 | the lever is refused where forbidden; otherwise lever and timestamp are set or cleared together |
| Freeze.ContestRecord.SetTime | backend/internal/handler/jury.go:407-432 | the window moves only to an end after its start, and nothing else changes |
| Scoring.ApplySolve | backend/internal/handler/contests.go:731-740 | a masked AC only counts as pending; a visible one solves the cell and adds its time to the row |
| Scoring.ScoreACM | backend/internal/handler/contests.go:652-694 | the one pass over the submissions equals an independent fold per user and label: solved cells counted, their times summed |
| Scoring.ScoreIOI | backend/internal/handler/contests.go:812-864 | the same for the IOI pass and its totals |
| Scoring.Totals | backend/internal/handler/contests.go:853-864 | in any map order, the total of the cells and the number of solved ones |
| BoardCells.SolvedCell | backend/internal/handler/contests.go:676-740 | a cell is decided by its first visible AC: time from the start plus 20 minutes per earlier visible failure; nothing later counts |
| BoardCells.UnsolvedCell | backend/internal/handler/contests.go:676-694 | without a visible AC a cell counts the visible failures and the masked submissions |
| BoardCells.SolvedIff | backend/internal/handler/contests.go:676-694 | a cell is solved exactly when one of its submissions is a visible AC |
| BoardCells.FreezeAddsNoSolve | backend/internal/handler/contests.go:676-694 | in any order the frozen and the thawed ACM board show the same users and cells, every cell solved on the frozen one is solved on the other, and nobody has more solved |
| BoardCells.FreezeOnlyHides | backend/internal/handler/contests.go:676-694 | where no cell has a masked submission before a visible one, as over chronological submissions, every solved frozen cell also keeps its time and attempts on the thawed board |
| BoardCells.SolvedSurvivesIff | backend/internal/handler/contests.go:676-694 | in any order: a cell solved on the frozen board keeps its deciding submission and attempts without the freeze if and only if no masked AC or failure precedes its first visible AC, and then loses only its pending count |
| BoardCells.OrderMatters | backend/internal/handler/contests.go:438-441 | an order in which the frozen and the thawed board time the same cell differently |
| BoardCells.IOIFreezeOnlyHides | backend/internal/handler/contests.go:836-864 | in any order, no shown IOI score or total exceeds the true one |
| BoardLaws.FrozenBoardSolvesNoMore | backend/internal/handler/contests.go:626-705 | of the boards themselves, with ranking, flags and reveal, and in any order: same users, same cells, nothing solved on the frozen board that is not solved without the freeze |
| BoardLaws.FrozenBoardHides | backend/internal/handler/contests.go:626-705 | where no cell has a masked submission before a visible one, every cell shown as solved is moreover the same without the freeze |
| BoardLaws.FrozenIOIBoardHides | backend/internal/handler/contests.go:790-893 | the same of IOI boards in any order: no shown score or total exceeds the thawed one |
| BoardLaws.FreezeHidesVerdicts | backend/internal/handler/contests.go:652-694 | with nothing revealed, boards of contests that differ only in verdicts and scores after the freeze point are identical: cells, totals, order and ranks, in both modes |
| BoardLaws.MaskedVerdictsStayHidden | backend/internal/handler/contests.go:812-852 | for a fixed reveal set, a user's row depends on no verdict or score that is masked for that user |
| BoardLaws.ReorderKeepsBoard | backend/internal/handler/contests.go:653-694 | any reordering that keeps the order within each cell gives the same board, reveal set and ranks included |
| BoardLaws.IOIPermutationKeepsBoard | backend/internal/handler/contests.go:814-892 | an IOI board is the same for every permutation of the submissions |
| BoardLaws.IOITimesAreIgnored | backend/internal/handler/contests.go:783-789 | the freeze aside, an IOI board does not depend on when anything was submitted |
| BoardLaws.IOITiesById | backend/internal/handler/contests.go:873-886 | on every IOI board rows of one tier with equal totals are ordered by user id |
| Reveal.EarlierImproverSecond | backend/internal/handler/contests.go:783-789 | an input where the user who improved earlier is listed second |
| Reveal.TrueBoardUnmaskedIff | backend/internal/handler/contests.go:640-651 | for a frozen contest, the board the reveal set comes from is the final board for all submissions if and only if the automatic freeze has not set in or there is no problem |
| Reveal.RevealedAreLastIff | backend/internal/handler/contests.go:640-651 | for a frozen contest, the revealed users are the last official ones of the final board, for all submissions and counts, if and only if the automatic freeze has not set in or there is no problem |
| Reveal.AutomaticFreezeRevealsOther | backend/internal/handler/contests.go:640-651 | an input where, under the automatic freeze, the revealed user is not the last one of the final board |
| BoardLaws.ThawedBoard | backend/internal/handler/contests.go:636-652 | a board that is not frozen masks and reveals nothing |
| Ranking.RankingIsUnique | backend/internal/handler/contests.go:744-781 | neither the map order of the rows nor the unstable sort matters: there is one board |
| Ranking.PlaceIsCount | backend/internal/handler/contests.go:761-774 | a row's place is the number of rows ahead of it |
| Ranking.OfficialFirst | backend/internal/handler/contests.go:744-758 | official rows come first, then starred and then cheated ones |
| Ranking.OfficialNumbers | backend/internal/handler/contests.go:775-780 | official rows are numbered 1, 2, 3 and so on without a gap, all others carry 0 |
| Ranking.RankRows | backend/internal/handler/contests.go:744-781 | the loops, the sort and the numbering yield that board, cheated users with an empty row included |
| Ranking.AddCheated | backend/internal/handler/contests.go:695-703 | every cheated user has a row, empty unless already there |
| Ranking.RankRowsIOI | backend/internal/handler/contests.go:872-892 | so does the second sort of the IOI board, by total score |
| Standings.ComputeStandings | backend/internal/handler/contests.go:626-705 | labels, freeze, reveal set from the recursive call, scoring and ranking together yield exactly the specified board |
| Standings.CollectRevealed | backend/internal/handler/contests.go:645-651 | the bottom-up loop collects exactly the official rows with fewer than the asked number of official rows below them |
| Standings.RollSize | backend/internal/handler/contests.go:645-651 | as many rows are revealed as asked for, or every official row when there are fewer |
| Teams.TeamStandings | backend/internal/handler/contests.go:482-599 | the team board is the ranking of the merged team rows, or the rows themselves without teams |
| Teams.CollectTeams | backend/internal/handler/contests.go:493-535 | the loop over the member rows merges every team's cells per label |
| Teams.MergedIsEarliest | backend/internal/handler/contests.go:514-534 | a team cell is solved exactly when some member solved it, at the least of their times |
| Teams.TeamSolvesEarliest | backend/internal/handler/contests.go:514-534 | on a team's row a problem is solved exactly when some member's row has it solved, at the least of their times |
| Teams.TeamScoreIgnoresOrder | backend/internal/handler/contests.go:500-561 | whatever the order of the member rows, solved cells, their times and the recomputed totals are the same |
| Teams.TeamOrderIgnoresOrder | backend/internal/handler/contests.go:553-598 | so every team has the same teams ahead of it |
| TeamAttempts.MergedAttempts | backend/internal/handler/contests.go:514-534 | a team cell's attempts are those of the first listed member if that one solved it, else the sum over the members listed before the first who solved it, or over all of them |
| TeamAttempts.LeastAttemptsIff | backend/internal/handler/contests.go:477-481 | they are the promised least number if and only if the first member has the least and at most one member is listed before the first who solved it, or none of those has an attempt |
| TeamAttempts.OrderFreeIff | backend/internal/handler/contests.go:514-534 | they are the same for every order of the members if and only if nobody solved it, or all have equally many attempts and at most one did not solve it or none has any |
| TeamAttempts.EvenTeamIgnoresOrder | backend/internal/handler/contests.go:500-535 | under that condition permuting the rows of the board leaves the attempts of the team's cell as they are |
| TeamAttempts.LeastAttemptsFail | backend/internal/handler/contests.go:477-481 | two members whose order decides whether the least number comes out |
| Seccomp.ProgramDecides | backend/pkg/sandbox/seccomp_linux.go:121-179 | for every whitelist, architecture and number the program answers ALLOW exactly for a listed number on x86_64, else the kill action, and never executes a trampoline |
| Seccomp.BuildSeccompProgram | backend/pkg/sandbox/seccomp_linux.go:121-179 | the nested loops emit exactly that program |
| Seccomp.OffsetsFit | backend/pkg/sandbox/seccomp_sim_test.go:102-113 | no offset exceeds 120 and every jump of every chunk lands inside the program |
| Seccomp.ProgramJumpsInside | backend/pkg/sandbox/seccomp_linux.go:121-179 | the same of the whole program, header included |
| Seccomp.TraceIsShort | backend/pkg/sandbox/seccomp_sim_test.go:18-50 | a run of any program is never longer than what is left of it |
| Seccomp.Simulate | backend/pkg/sandbox/seccomp_sim_test.go:18-50 | the test's interpreter agrees with the stepwise meaning, always for programs shorter than its budget |
| Judging.Result.Aggregate | backend/pkg/judge/judge.go:359-388 | the verdict is SE if any case is SE, AC if none failed, else that of a failing case of least index; credit of the accepted cases before an SE; maxima of time and memory |
| Judging.SortedVerdictDecides | backend/pkg/judge/judge.go:359-388 | the collapsed verdict is a property of the set of results and their indices |
| Judging.DecidesIsUnique | backend/pkg/judge/judge.go:359-388 | with distinct indices there is one such verdict |
| Judging.Collapse | backend/pkg/judge/judge.go:363-377 | the loop over the sorted results finds it |
| Judging.MaximaOfMembers | backend/pkg/judge/judge.go:380-387 | the maxima do not depend on the order of the cases |
| Judging.Result.JudgeSerially | backend/pkg/judge/judge_parallel.go:27-70 | the serial path: over the clipped list, up to a cancellation, it yields the full or the stop-on-fail report and reports each case once; a cancellation sets SE |
| Judging.Result.JudgeAndAggregate | backend/pkg/judge/judge.go:193-195 | judging followed by the collapse: the verdict and credit of the reported cases, whatever was set before |
| Judging.CancelledVerdictIff | backend/pkg/judge/judge_parallel.go:47-53 | for the case results of one and the same judging, so where the cancellation spoilt none: a cancelled or clipped run has the verdict of the whole run exactly when an SE was seen, or no SE was to come and either a failure was seen or none was to come |
| Judging.SpoiltVerdictIff | backend/pkg/judge/judge_parallel.go:47-70 | the same where the cancellation spoilt the last judged case, against the whole run with every case's own result: the exact condition on that result and those that were to come |
| Judging.CancelledAtOnce | backend/pkg/judge/judge_parallel.go:47-53 | a run cancelled before its first case ends as AC |
| Judging.Result.CaseFailed | backend/pkg/judge/judge_parallel.go:210-217 | the backward scan finds out whether some case failed |
| Judging.StopShape | backend/pkg/judge/judge_parallel.go:43-70 | a stop-on-fail report is accepted cases, at most one failing case, then only SKIPPED |
| Judging.StopVerdictIffNoHiddenSE | backend/pkg/judge/judge_parallel.go:43-70 | its verdict is the full run's exactly when no SE hides after the first failure |
| Judging.StopCredit | backend/pkg/judge/judge_parallel.go:43-70 | its credit is that of the accepted prefix and never above the full run's |
| Judging.ReportIsSorted | backend/pkg/judge/judge.go:359-362 | for the ascending lists the hub sends, the sort inside the collapse changes nothing |
| JudgingPool.NextInv | backend/pkg/judge/judge_parallel.go:81-120 | every step of every worker interleaving keeps the invariant: one worker per case, each result reported once, the first SE genuine |
| JudgingPool.NextUsesWork | backend/pkg/judge/judge_parallel.go:81-120 | the pool terminates, in at most four steps per case |
| JudgingPool.NeverStuck | backend/pkg/judge/judge_parallel.go:81-120 | with a worker, a state in which nothing can happen is finished |
| JudgingPool.DoneReportsEachOnce | backend/pkg/judge/judge_parallel.go:81-120 | every case is judged and OnCase fires exactly once for it |
| JudgingPool.DoneMatchesFullRun | backend/pkg/judge/judge_parallel.go:81-120 | an SE is reported exactly when some case's own verdict is SE; without one the results are the serial ones |
| JudgingPool.ParallelRefinesSerial | backend/pkg/judge/judge_parallel.go:27-121 | for every interleaving the collapsed verdict is the serial one, and unless it is SE so are credit, time and memory |
| Compare.EqualTokens | backend/pkg/judge/judge_cases.go:111-142 | the streaming comparison accepts exactly equal sequences of fields, for all byte strings, and terminates |
| Compare.DiffCase | backend/pkg/judge/judge_cases.go:97-109 | byte equality first never accepts more |
| Compare.JoinFields | backend/pkg/judge/compare_test.go:73-89 | the test's reference writes the fields separated by one space |
| Compare.SplitJoined | backend/pkg/judge/compare_test.go:73-89 | splitting what was joined gives the fields back |
| Compare.JoinedReference | backend/pkg/judge/compare_test.go:45-71 | comparing the joined texts is comparing the fields |
| NaturalOrder.NaturalLess | backend/internal/handler/problem_import.go:313-339 | the two-index loop decides the lexicographic order of the keys: numbers by value, text after numbers |
| NaturalOrder.NaturalIsStrictWeakOrder | backend/internal/handler/problem_import.go:313-339 | it is a strict weak order, and cannot tell two names apart exactly when their keys agree |
| NaturalOrder.CaseBeforeIsStrictWeakOrder | backend/internal/handler/problem_import.go:298-309 | so is the comparator by directory and then name |
| NaturalOrder.SortCases | backend/internal/handler/problem_import.go:298-309 | the cases come out permuted and in that order |
| FlatYaml.ParseFlatYAML | backend/internal/handler/problem_import.go:397-440 | the loops over lines and inline maps compute the fold the round trip is proved about |
| FlatYaml.ParseKV | backend/internal/handler/problem_import.go:442-444 | the same after every "=" became ": " |
| FlatYaml.PlainLine | backend/internal/handler/problem_import.go:397-440 | a line with a plain key sets that key to the stripped value whatever came before, unless the value is an inline map |
| PackageMeta.TitleIff | backend/internal/handler/problem_import.go:397-444 | the title read from meta.txt is the printed one exactly when it has no "=", no line break, nothing strippable at its ends and no surrounding braces |
| PackageMeta.LimitIff | backend/internal/handler/problem_import.go:446-453 | a printed limit comes back exactly when it lies inside the clamp |
| PackageMeta.ModeIff | backend/internal/handler/problem_import.go:269-281 | the mode comes back exactly when it matches the judge sources that travel with it |
| PackageMeta.MetaValues | backend/internal/handler/problem_extra.go:45-47 | whatever the title does to its own lines, the limits and the mode are read as printed |
| Text.AtoiOfDecInt | backend/internal/handler/problem_extra.go:46-47 | printing and parsing a machine integer are inverse |
| Package.ExportProblem | backend/internal/handler/problem_extra.go:41-88 | the archive: statement, meta.txt, the judge sources that are there, then every file of the data directory; a shared one has the samples instead of the files and no judge sources |
| Package.ScanArchive | backend/internal/handler/problem_import.go:141-192 | one walk collects meta.txt, problem.yaml, Markdown and TeX statements, judge sources and inputs; texts over 1 MiB and sources over 512 KiB are passed over |
| Package.PairCases | backend/internal/handler/problem_import.go:194-214 | every input is paired with the last entry that answers it, and dropped without one |
| Package.StoreCases | backend/internal/handler/problem_import.go:343-385 | the pairs are stored numbered from 1, and the first with an input or answer over 256 MiB fails the import |
| Package.ImportPackage | backend/internal/handler/problem_import.go:48-119 | an archive over 128 MiB, without pairs or with an oversized case is refused; otherwise the import is one the sort allows, from meta.txt first and problem.yaml second |
| Package.RefusedWhy | backend/internal/handler/problem_import.go:67-107 | which archives are refused for their size, which for want of pairs, and which are imported, whatever the sort does |
| PackageRoundTrip.RoundTrip | backend/internal/handler/problem_extra.go:41-88 | export then import: the statement comes back exactly up to 4 MiB and each judge source exactly up to 512 KiB; with a meta.txt up to 1 MiB title, limits and mode exactly under the stated conditions on the sources that arrive, with a larger one only the defaults; and the answered cases in numeric order, renumbered from 1 |
| PackageRoundTrip.LargeInteractorIsLost | backend/internal/handler/problem_extra.go:49-52 | a problem that comes back interactive without its interactor |
| PackageRoundTrip.SortedPairs | backend/internal/handler/problem_import.go:194-215 | however the directory was listed and whatever the sort does, the pairs are the answered cases in the order of their numbers |
| PackageRoundTrip.DecKey | backend/internal/handler/problem_import.go:311-339 | a printed number is its own key, so numbered names sort by number |
| PackageRoundTrip.RefusedIff | backend/internal/handler/problem_import.go:67-107 | an exported archive is refused exactly when it is over 128 MiB, no case has an answer, or an answered case has an input or answer over 256 MiB |
| PackageShared.SharedRoundTrip | backend/internal/handler/problem_extra.go:63-73 | shared export then import: the samples are the test data and there are no judge sources; the statement comes back exactly up to 4 MiB, the mode exactly with a meta.txt up to 1 MiB or as the default, title and limits as in a full export |
| PackageShared.SharedRefusedIff | backend/internal/handler/problem_extra.go:63-73 | a shared archive is refused exactly when it is over 128 MiB, there is no sample, or a sample is over 256 MiB |
| Limiter.Compact | backend/internal/handler/security.go:49-56 | the in-place compaction keeps exactly the hits inside the window, in order |
| Limiter.UserLimiter.Allow | backend/internal/handler/security.go:46-63 | one user's hits are compacted and the call recorded if accepted; nobody else's array is touched |
| Limiter.UserLimiter.Prune | backend/internal/handler/security.go:66-83 | in a table of 4096 users or more, stale users leave and everybody else keeps exactly the recent hits |
| Limiter.RefusedIff | backend/internal/handler/security.go:46-63 | on a clock that never goes back, a call is refused exactly when as many as allowed were accepted in the window before it |
| Limiter.PruneChangesNothing | backend/internal/handler/security.go:66-83 | pruning never changes an answer |
| Limiter.WindowBound | backend/internal/handler/security.go:32-63 | no interval of the window's length holds more accepted calls of one user than allowed |

## Left out

- Database writes, queue pushes and file writes that fail: they are taken to succeed. After a failed mark a popped id waits for a restart or a rejudge, and a failed push strands a PENDING row until the next start-up.
- gRPC, HTTP, Redis, GORM (but for the column default of freeze_enabled), JSON and the file system: their effects are steps on maps and sequences.
- WebSocket publishing, progress messages and heartbeats: they do not touch dispatch state.
- `buildTask` beyond its success or failure; its choice of stop-on-fail is a parameter of the judging run.
- JudgingPool.ParallelRefinesSerial: does not model a cancellation from outside the pool, after which every case may come to any result, nor an error while staging the case workspaces, whose SE the collapse overwrites as on the serial path.
- Judging of a single case, in an isolated workspace: it is a function of the case, which also stands for what a cancellation makes of it.
- The verdict detail of checkers and interactors, compilation, resource limits and float arithmetic of run specifications.
- The rows and cells of the board are values in nested maps: the sharing of row and cell pointers inside one pass is not modelled.
- IOI contests with teams: the team fold takes minimum times, which mean something only for ACM.
- The whitelist itself, the kernel version probe and the loading of the filter, whose program length is a 16-bit field.
- Package.ScanArchive: folds the case of ASCII letters only, and takes the names of the entries as clean paths.
- Package.ImportPackage: takes the size of the archive and the scan of one duration text, which reads a float, as parameters; the format name and the notes of the answer, to which a PDF statement only adds, are not part of it.
- Archive entries and test data that are not UTF-8 text.
- The submission limiter, which has the same shape, the API-key limiter, which counts fixed windows, and the growth factor of a Go slice: only the copy on growth is modelled.
- Membership and registration rules, plugins, authentication and the frontend: easy, or wrappers around libraries.
