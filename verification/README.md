# Verification of the sage-network ledgers, anchors and layouts

A Dafny model of the parts of the repository whose correctness spans many steps:
the durable spending ledger and the chain of budget handoffs around it, the
source-unit tokenizer and its anchor compiler, the ownership and branch-scope
checks, and the layout and geometry algorithms of the interface.

`dafny verify dfyconfig.toml` checks everything.

## How it is built

- **Ledger.** `QueueLedger` is a step system: what is written, what is committed,
  what the loop holds in memory, and what the provider really charged. A crash
  keeps any part of the uncommitted writes. `QueueSafety` proves what holds over
  every history; `QueueRunner` is the loop itself as a class whose methods are
  proved to take steps of that system, for every provider and every schedule;
  `QueueStart` reads the saved records before a run starts. `StopReasons` and `Allowances`
  say over whole histories why a run stops and what it may admit.
- **Handoffs.** `Handoff` holds the two-volume bridge and the one-volume transition
  as classes over files with a written and a durable copy.
- **Chains.** `BudgetChain` states what each transition accepts and what a whole chain
  pays and holds; `HistoryWalk` is the walk back over the records and `CompleteWalk`
  compares it with the chains; `PlayedRuns` plays runs through the ledger at given
  prices; `CapGap` says exactly when the shared cap holds and plays a chain that breaks it.
- **Units and anchors.** `SourceUnits` and `Anchors`. Characters are described by
  predicates: letters are neither spaces, marks nor quote marks, combining
  characters are marks.
- **Checks over frozen files.** `Ownership`, `ExactCover`, `OwnershipIndex`, what they
  accept field by field, `FrozenFiles`, and the inputs that show their gaps, `OwnershipGaps`; `BranchScopes`.
- **Layout.** `Sorting`, `Lanes`, `RunTreeLayout`, `Clipping`, `Simplify`, `LineClusters`,
  `LineBands`, `BidiSegments`.

`Wrappers`, `Collections` and `QueueSums` are shared. Money and coordinates are exact reals. Digests are functions into an abstract type.

## Findings

- The shared incremental cap does not hold for every accepted chain. A matched second
  arm states the prior experiment cost as the prior run's own charges
  (`research/sage-network/coverage/matched_transition.py:100`); if that run was a reviewed
  trial with the first arm's reasoning, whatever was paid before it is dropped, and can be
  spent again. `CapGap.CapExceeded` is such a chain, with every run played, every record archived
  and the history check of the reviewed step passing. Exactly: what a run may spend is what is left
  of the cap plus what second arms have dropped (`BudgetChain.HeadroomAfter`); nothing is dropped if and
  only if every second arm follows a run whose own prior cost is zero (`BudgetChain.ChainAccounted`,
  `BudgetChain.DropsAddUp`); and the cap can be passed by the last run if and only if its reservations
  exceed what is left of it (`CapGap.CapHoldsExactly`). The history check of a later reviewed trial
  refuses exactly the chains in which something was dropped (`CompleteWalk.WalkRefusesResets`).
- An accepted ownership build need not cover its segments. The loop that joins declared pieces
  (`research/sage-network/ownership/tile_ownership.py:109-114`) asks for texts that add up, not for texts
  read from that segment at that place (`OwnershipGaps.CoverCanFail`). Cover holds exactly when the frozen
  sources were (`ExactCover.ExactCoverIffInPlace`), and always under the builder's own naming scheme
  (`ExactCover.WellNamedInPlace`).
- A job that reads one unit under two source identifiers is accepted by the ownership build and
  refused by the index (`OwnershipGaps.RefusedByIndex`); a job that reads a unit twice under one
  identifier owns it twice (`OwnershipGaps.OwnedTwice`). A unit has exactly one owned source if and only if the
  job of its best reader does neither with it (`OwnershipIndex.OneOwner`).
- The branch-scope check is stronger than the implication it stands for when an entity lists every
  branch of a group (`BranchScopes.OpenChoiceRefused`, `BranchScopes.AllowsExactly`).
- The comment on `clusterByLine` says that input order is kept within a line; the code sorts by
  height first, and the model follows the code.

## Model

| member | source | states |
|---|---|---|
| `QueueSafety.EveryRunKeeps` | research/sage-network/coverage/queue_core.py:428-589 | The invariant (files, loop position and running totals agree; the worst ledger a crash could leave is within the bound) holds in every state of every history: any interleaving of admission, commit, dispatch, completion, refresh, progress, crash and resume |
| `QueueSafety.NeverOverspends` | research/sage-network/coverage/queue_core.py:488-489 | In every state of every history, settled cost + held reservations + carried holds + reservations in flight never exceed the larger of budget and carried holds by more than what the provider charged above reservations; not at all if no charge exceeds its reservation |
| `QueueSafety.ExposureCoversSpending` | research/sage-network/coverage/queue_core.py:464-475 | If no charge exceeds its reservation, that sum is never below what the provider really charged over all requests ever sent plus the carried holds, answers lost in crashes included |
| `QueueSafety.RestartNeverForgets` | research/sage-network/coverage/queue_core.py:464-475 | If no charge exceeds its reservation, then whatever subset of uncommitted writes a crash keeps, the ledger a restart rebuilds lies between the true spend and the bound |
| `QueueSafety.ExposureIsLedger` | research/sage-network/coverage/queue_core.py:563-578 | The running totals are exactly the carried holds plus, per attempt, its reported cost or else its reservation |
| `QueueSafety.StepAccounts` | research/sage-network/coverage/queue_core.py:525-578 | Every single step (admit, settle, refresh, crash, resume and the rest) keeps the totals equal to what the files and the requests in flight add up to, the counts exact and the worst ledger bounded |
| `QueueSafety.StepShape` | research/sage-network/coverage/queue_core.py:535-562 | Every single step keeps committed files a part of written files, attempts ahead of dispatches, and saved costs equal to real charges |
| `QueueSafety.NeverDispatchesTwice` | research/sage-network/coverage/queue_core.py:535-562 | Over all crashes and resumes no request is sent twice, and each one sent has a committed attempt of a frozen job |
| `QueueSafety.CountsPartition` | research/sage-network/coverage/queue_core.py:564-576 | The four counts and the requests in flight partition the attempts |
| `QueueSafety.ReportsAreExact` | research/sage-network/coverage/queue_core.py:504-515 | Every progress file written shows exactly what the written files and the requests still out add up to: settled cost, unresolved and carried holds, active reservations, the four counts by status, requests in flight, jobs without an attempt, whether all were read, whether the queue is exhausted with nothing out, and the stop reason |
| `QueueSafety.ReturnsOnlyWhenDone` | research/sage-network/coverage/queue_core.py:519-586 | A run that returns has nothing in flight and was stopped, or every job has a committed attempt; its durable progress file shows exactly what it leaves |
| `QueueSafety.ReachedKeeps` | research/sage-network/coverage/queue_core.py:428-589 | The invariant holds wherever any sequence of steps leads; this is what the class below relies on |
| `StopReasons.FailureStopsRun` | research/sage-network/coverage/queue_core.py:574-582 | Read off the answers of any history: once one cost more than its reservation, or left four provider errors among the latest sixteen, or eight validation errors outside a quality trial, the run has a stop reason as long as it lasts and admits nothing more; saved errors come first in that window |
| `StopReasons.LaterTestsWin` | research/sage-network/coverage/queue_core.py:574-582 | What one answer does to the stop reason: validation burst before provider burst before overrun, and without any of them nothing |
| `StopReasons.ReasonHasCause` | research/sage-network/coverage/queue_core.py:574-582 | A failure reason stands only where an answer of the same run gave cause for it |
| `StopReasons.StartsOnCleanFiles` | research/sage-network/coverage/queue_core.py:471-486 | A run starts only on files without an overrun, with few enough failures among the last saved errors, and without a reported failure stop |
| `StopReasons.FailureIsFinal` | research/sage-network/coverage/queue_core.py:484-486 | Once a run has committed its progress after a failure, or returned after one, no run ever starts on the volume again, whatever crashes follow |
| `Allowances.AdmissionFits` | research/sage-network/coverage/queue_core.py:525-555 | What a run reserves after it read the balance, at its start or later, less what answers gave back, fits in that balance less all unresolved and carried holds and reservations at that time, and in the budget less these and the settled cost |
| `Allowances.AdmittedIffFits` | research/sage-network/coverage/queue_core.py:549-551 | A job is admitted rather than refused for the budget exactly when its reservation fits in both |
| `Allowances.AllowanceIsLeft` | research/sage-network/coverage/queue_core.py:489-578 | The allowance kept by the loop is the smaller of the two less what was reserved since and plus what was given back, and not negative once something was reserved |
| `Allowances.HasSeen` | research/sage-network/coverage/queue_core.py:487-489 | Every run that is up has read the balance |
| `QueueSums.SumChange` | research/sage-network/coverage/queue_core.py:563-578 | Changing one job's amount changes a queue total by exactly that difference |
| `QueueSums.DistinctCount` | research/sage-network/coverage/queue_core.py:506-507 | A frozen queue has as many identifiers as jobs |
| `QueueRunner.QueueRun.constructor` | research/sage-network/coverage/queue_core.py:488-502 | A started run stands where the resume step leads from the saved files; its allowance with all holds is at most the balance, with the settled cost added at most the budget, and one of the two exactly |
| `QueueRunner.QueueRun.AdmitWave` | research/sage-network/coverage/queue_core.py:535-555 | The admission loop stays inside the reachable states, changes nothing in flight, and leaves an empty wave with nothing in flight only when the queue is exhausted or a stop reason is set |
| `QueueRunner.QueueRun.SendWave` | research/sage-network/coverage/queue_core.py:556-560 | The whole wave is committed and then sent, within the reachable states |
| `QueueRunner.QueueRun.Settle` | research/sage-network/coverage/queue_core.py:565-582 | Settling one answer is the finish step: result saved, reservation released, counts and recent errors updated; the stop reason follows the three tests over the recent errors, the last that applies winning |
| `QueueRunner.QueueRun.SettleAll` | research/sage-network/coverage/queue_core.py:563-582 | Exactly the finished requests leave flight, each through a finish step |
| `QueueRunner.QueueRun.LookUp` | research/sage-network/coverage/queue_core.py:520-533 | Stop requests and the balance check are reachable steps that touch only stop reason and allowance: the first reason stays, a failed check sets its own, and a read balance bounds the allowance as at the start |
| `QueueRunner.QueueRun.SaveProgress` | research/sage-network/coverage/queue_core.py:504-515 | After a progress write nothing is uncommitted and the report shows exactly the money, counts and flags of the durable files and the requests still out |
| `QueueRunner.QueueRun.TakeTurn` | research/sage-network/coverage/queue_core.py:519-585 | One pass of the loop keeps the run reachable and finishes only with nothing in flight and the queue exhausted or stopped |
| `QueueRunner.QueueRun.Run` | research/sage-network/coverage/queue_core.py:517-586 | For every provider and every schedule: the exposure bound holds at the end, a returned report is the durable one, and without a stop reason every job was attempted |
| `QueueStart.ReadSaved` | research/sage-network/coverage/queue_core.py:464-475 | Saved records are read exactly when they are in order (each of a frozen job, no result without its attempt, reservations as frozen) and no cost overran; the totals are then the settled cost, the held reservations and the counts by status |
| `QueueStart.TallyIsCounts` | research/sage-network/coverage/queue_core.py:464-468 | Counting job by job gives the number of saved records of each status |
| `QueueStart.RecentAreLatest` | research/sage-network/coverage/queue_core.py:475-483 | The errors a start looks at are those of the sixteen attempts started last: no attempt left out started after one of them, and nothing is left out while there are fewer than sixteen |
| `QueueStart.RecentInOrder` | research/sage-network/coverage/queue_core.py:475-480 | The saved errors come in order of the start times, one per attempt looked at, interrupted where there is no answer, sixteen or as many as there are attempts |
| `QueueStart.Start` | research/sage-network/coverage/queue_core.py:459-502 | A run starts exactly when no saved charge overran, the last sixteen saved attempts show fewer than four provider errors and, outside quality trials, fewer than eight validation errors, and no earlier failure stop stands; it is refused for the first of these. Its allowance with all holds is at most the balance, with the settled cost at most the budget, and one of the two exactly |
| `Handoff.BridgeVolumes.Bridge` | research/sage-network/coverage/quality_bridge.py:88-107 | The bridge refuses exactly in the listed cases without changing anything; otherwise its writes and commits are the given trail, in that order, and the volumes end where the trail ends |
| `Handoff.BridgeIsSafe` | research/sage-network/coverage/quality_bridge.py:88-107 | From a safe start every write and commit leaves volumes on which an active target means a durably retired source and an archived receipt, and the call completes the move |
| `Handoff.BridgeRefusesUnsafe` | research/sage-network/coverage/quality_bridge.py:88-107 | On volumes at rest a bridge call is refused exactly when they are not safe |
| `Handoff.BridgeSaysWhy` | research/sage-network/coverage/quality_bridge.py:88-107 | The reason given names the first thing that is wrong: source, target, receipt, then their order |
| `Handoff.CrashIsSafe` | research/sage-network/coverage/quality_bridge.py:95-106 | Whatever copies a crash keeps, safety survives it |
| `Handoff.OneRunnerOnly` | research/sage-network/coverage/queue_core.py:449-451 | On safe volumes at most one of the two runs gets past the queue's scope gate, whichever copy of either scope a crash leaves; the next one only with source retired and receipt archived in every copy |
| `Handoff.BridgeSurvivesCrashes` | research/sage-network/coverage/quality_bridge.py:88-107 | However often the call is cut off by a crash after any write or commit and invoked again: at every point and for every pairing of written and durable copies at most one of the two runs is admitted, no call refuses, and a completed call ends in the same scopes and receipt |
| `Handoff.QueueVolume.Transition` | research/sage-network/coverage/queue_transition.py:88-103 | The single-volume transition refuses exactly in the listed cases; otherwise it follows its trail: archive, commit, scope, commit |
| `Handoff.TransitionRefusesUnsafe` | research/sage-network/coverage/queue_transition.py:88-103 | On a volume at rest a transition is refused exactly when it is not safe, for the first thing that is wrong |
| `Handoff.TransitionSurvivesCrashes` | research/sage-network/coverage/queue_transition.py:88-103 | At every crash point exactly one of the two runs passes the scope gate on either copy of the scope, the new one only with its receipt archived; re-invoked calls never refuse and reach the same end |
| `BudgetChain.RunStaysWithin` | research/sage-network/coverage/queue_core.py:459-475 | Read off its saved files, a run's carried holds, charges and holds stay within the larger of its budget and its carried holds |
| `BudgetChain.RunFitsHeadroom` | research/sage-network/coverage/matched_transition.py:103-106 | What an accepted run charges and holds fits in its budget beyond what it carried in |
| `BudgetChain.StepAccounted` | research/sage-network/coverage/matched_transition.py:87-102 | Every accepted transition but a second arm keeps the budget fields equal to what the chain really paid and holds; a second arm keeps them so if and only if the run before it had been told of no earlier payment |
| `BudgetChain.ChainAccount` | research/sage-network/coverage/matched_transition.py:96-102 | For every accepted chain the prior cost told to the last run falls short of what the experiment paid by exactly the payments second arms have dropped, and the carried hold is the true one |
| `BudgetChain.DropsAddUp` | research/sage-network/coverage/matched_transition.py:100 | That shortfall is zero or more, and zero exactly when every second arm follows an arm nothing was paid before |
| `BudgetChain.ChainAccounted` | research/sage-network/coverage/matched_transition.py:33-35 | Over whole chains the budget equation, prior cost and carried hold are the true totals if and only if every second arm follows an arm nothing was paid before |
| `BudgetChain.SharedCap` | research/sage-network/coverage/matched_transition.py:31-35 | Over every accepted chain all known charges and unresolved holds since the baseline, the run in progress included, stay within the one incremental cap and what second arms have dropped; within the cap alone if every second arm follows an arm nothing was paid before |
| `BudgetChain.HeadroomAfter` | research/sage-network/coverage/matched_transition.py:96-102 | For every accepted chain: what the last run may spend is exactly what remains of the cap plus exactly the earlier payments second arms have dropped |
| `BudgetChain.SampleCap` | research/sage-network/coverage/reviewed_trial_transition.py:22-28 | The separate sample allowance bounds the sample's own charges and holds and carries every earlier hold on |
| `CapGap.CapExceeded` | research/sage-network/coverage/matched_transition.py:96-102 | The shared cap fails: probe, quality trial, first arm, reviewed trial and second arm, each accepted, each played through the ledger, archived as the transitions leave their records and past the history check of the reviewed step, pay 0.90 under a cap of 0.75 |
| `CapGap.CapHoldsExactly` | research/sage-network/coverage/matched_transition.py:103-106 | For every accepted chain: no way of playing the last run without an overrun passes the cap if and only if its reservations fit in what the runs before it have left of the cap |
| `CapGap.AcceptedReserves` | research/sage-network/coverage/matched_transition.py:103-106 | An accepted transition lets the last run reserve no more than what is left of the cap and what second arms have dropped |
| `CapGap.KeepsToReservations` | research/sage-network/coverage/matched_transition.py:103-106 | However it is played, a run none of whose charges overran pays and holds no more than all its reservations |
| `PlayedRuns.PlaysAt` | research/sage-network/coverage/queue_core.py:517-586 | Any prices up to the reservations can be played: from an empty volume the ledger reaches files in which every job is answered at its price and nothing is left to do |
| `HistoryWalk.ReadState` | research/sage-network/coverage/provider_recovery.py:28-58 | A run's records are accepted exactly when each is of a frozen job, no result lacks its attempt, no charge overran and no attempt is unanswered; the totals returned are its known charges and unknown holds |
| `HistoryWalk.VerifyHistory` | research/sage-network/coverage/reviewed_trial_transition.py:63-95 | The loop accepts exactly when every step back to the baseline checks out |
| `HistoryWalk.WalkEnds` | research/sage-network/coverage/reviewed_trial_transition.py:66-88 | An accepted walk ends at the baseline within sixty-four steps and meets no digest twice |
| `HistoryWalk.WalkVisitsOnce` | research/sage-network/coverage/reviewed_trial_transition.py:65-70 | No run is counted twice |
| `HistoryWalk.WalkIsExact` | research/sage-network/coverage/reviewed_trial_transition.py:77-95 | The prior cost is exactly the sum of known charges between run and baseline, the carried hold exactly the baseline's plus the unknown holds of all of them |
| `HistoryWalk.StepIsEvidenced` | research/sage-network/coverage/reviewed_trial_transition.py:71-84 | A step back is accepted exactly when frozen configuration, records, totals and archived receipt of the parent agree field by field and the parent's own receipt is in order |
| `HistoryWalk.WalkIsEvidenced` | research/sage-network/coverage/reviewed_trial_transition.py:71-95 | Every step of an accepted walk rests on such evidence, and every run before the baseline keeps the experiment |
| `HistoryWalk.WalkedCap` | research/sage-network/coverage/reviewed_trial_transition.py:63-95 | An accepted history and the budget equation together keep all charges and holds since the baseline within the cap |
| `CompleteWalk.WalkRefusesResets` | research/sage-network/coverage/reviewed_trial_transition.py:93-94 | On records kept as the transitions left them, the walk accepts a chain of at most sixty-four steps if and only if no second arm in it dropped an earlier payment |
| `CompleteWalk.StepKeepsExperiment` | research/sage-network/coverage/reviewed_trial_transition.py:89-94 | An accepted step keeps the experiment and adds the prior run's charges to the prior cost, or resets it to them alone when the arm changes |
| `HistoryWalk.StepBack` | research/sage-network/coverage/provider_recovery.py:72-91 | One backward probe step succeeds exactly when its probe number, receipt, parent, records, evidence and totals check out, damaged records included |
| `HistoryWalk.VerifyChain` | research/sage-network/coverage/provider_recovery.py:62-97 | The probe chain is accepted exactly when one to eight steps back all check out and end at the stopped thirty-job run; probes frozen before probes were numbered count as the first |
| `HistoryWalk.ProbesEnd` | research/sage-network/coverage/provider_recovery.py:67-96 | An accepted chain has exactly as many prior runs as the probe number says, no digest twice, the origin last |
| `HistoryWalk.ProbesVisitOnce` | research/sage-network/coverage/provider_recovery.py:67-71 | No run is counted twice |
| `HistoryWalk.ProbesAreExact` | research/sage-network/coverage/provider_recovery.py:85-91 | Prior cost and carried hold of the latest probe grew from the origin's by exactly what the runs between paid and hold; recipe, model and key stayed the same |
| `HistoryWalk.ProbesAreEvidenced` | research/sage-network/coverage/provider_recovery.py:67-91 | Every step of an accepted probe chain rests on such evidence, and the probes count down to the first of the same origin |
| `SourceUnits.WordEnd` | research/sage-network/compact_source_v4/units.py:45-63 | The scan stops exactly where the word ends: only word characters before, none there |
| `SourceUnits.MarkEnd` | research/sage-network/compact_source_v4/units.py:65-69 | The scan stops at the next letter or the end; nothing before it belongs to a word |
| `SourceUnits.Pieces` | research/sage-network/compact_source_v4/units.py:41-70 | A token is cut without gap into nonempty word and mark pieces, each of one kind, neighbours of different kinds |
| `SourceUnits.Units` | research/sage-network/compact_source_v4/units.py:73-89 | The units are a table of the text: nonempty, adjoining, from start to end, each one kind, neighbours different |
| `SourceUnits.TableIsUnique` | research/sage-network/compact_source_v4/units.py:73-89 | There is only one such table, so the splitter has no choice |
| `SourceUnits.Words` | research/sage-network/compact_source_v4/units.py:92-97 | The words are in order, apart, and hold exactly the characters of words |
| `SourceUnits.WordTableIsUnique` | research/sage-network/compact_source_v4/units.py:92-97 | There is only one such list of words |
| `SourceUnits.LetterInOneWord` | research/sage-network/compact_source_v4/units.py:92-97 | Every letter lies in exactly one word |
| `SourceUnits.WordIsBounded` | research/sage-network/compact_source_v4/units.py:45-63 | What stands right before and right behind a word belongs to no word |
| `SourceUnits.NoLetterTouches` | research/sage-network/compact_source_v4/units.py:45-63 | A word starts with a letter and touches no letter outside itself |
| `SourceUnits.MarksBelong` | research/sage-network/compact_source_v4/units.py:51-52 | All marks right behind a letter belong to its word |
| `SourceUnits.QuotesBelong` | research/sage-network/compact_source_v4/units.py:53-61 | All quote marks right behind a character of a word belong to it |
| `SourceUnits.ShownUnits` | research/sage-network/compact_source_v4/units.py:100-111 | The shown units are the lead, if there is text before the first word, and one numbered unit per word up to the next word, with their spans and texts; joined they give back the text |
| `SourceUnits.ShownHoldsItsWord` | research/sage-network/compact_source_v4/units.py:108-110 | Shown unit n holds word n whole and meets no other word |
| `Anchors.Find` | research/sage-network/compact_source_v4/units.py:129-133 | The first match at or after a position, or none at all from there on |
| `Anchors.MatchIsLiteral` | research/sage-network/compact_source_v4/units.py:129-133 | A match at a position means that the text is so many characters, the quote, and the rest |
| `Anchors.Starts` | research/sage-network/compact_source_v2/validate.py:88-94 | All starts of literal matches, overlapping ones included, each at its rank |
| `Anchors.OccurrenceOf` | research/sage-network/compact_source_v4/units.py:127-136 | The rank of a start among all matches |
| `Anchors.OccurrenceIsOne` | research/sage-network/compact_source_v4/units.py:127-136 | An occurrence number names at most one place |
| `Anchors.CompileAnchor` | research/sage-network/compact_source_v4/units.py:139-154 | Compilation succeeds exactly for this source and a range of integers within its words, and gives the exact quote, offsets and true occurrence, with a given table or its own |
| `Anchors.Resolve` | research/sage-network/compact_source_v2/validate.py:84-103 | The resolver accepts exactly the anchors that name a known source, a non-blank quote that occurs that often and, for mentions, stops short of nothing Hebrew; a mention is refused exactly when alef to tav, a Hebrew combining character or a quote mark between alef to tav stands right before or behind its quote, or the quote starts with a combining character; its offsets are the match's, and each refusal says which of these failed first |
| `Anchors.MentionsHoldWholeWords` | research/sage-network/compact_source_v2/validate.py:62-71 | An accepted mention holds every stretch of Hebrew letters, points and quote marks inside abbreviations whole, or touches none of it |
| `Anchors.MeetingWords` | research/sage-network/compact_source_v4/units.py:218 | The words that share a character with a span are one run of word numbers |
| `Anchors.ToUnits` | research/sage-network/compact_source_v4/units.py:200-221 | The answer is the exact word range, else the smallest covering range marked widened, else marks only; absent quotes are reported as absent |
| `Anchors.ResolverUndoesCompiler` | research/sage-network/compact_source_v2/validate.py:84-98 | The resolver maps a compiled quote and occurrence back to exactly the compiled start and end, and to nothing else |
| `Anchors.UnitsUndoCompiler` | research/sage-network/compact_source_v4/units.py:200-221 | Measuring a compiled quote gives back the same range unwidened, and only that |
| `Anchors.CompilerUndoesUnits` | research/sage-network/compact_source_v4/units.py:200-221 | Any unwidened answer compiles back to the measured quote and occurrence, and to nothing else |
| `Anchors.CompilationIsInjective` | research/sage-network/compact_source_v4/units.py:139-154 | Two ranges compile to the same quote and occurrence if and only if they are the same range: duplicates are preserved both ways |
| `Anchors.OnlyCombiningObjects` | research/sage-network/compact_source_v2/validate.py:62-71 | Next to a word only a Hebrew combining character can be part of a Hebrew word |
| `Anchors.WholeWordRule` | research/sage-network/compact_source_v2/validate.py:99-103 | A compiled range passes the whole-word rule if and only if no Hebrew combining character stands right before or right behind it |
| `Anchors.WholeWordsWhenMarksFollow` | research/sage-network/compact_source_v2/validate.py:99-103 | If every mark directly follows a letter or a mark, every compiled range passes the whole-word rule |
| `Anchors.MentionsResolveWhenMarksFollow` | research/sage-network/compact_source_v2/validate.py:84-103 | Then every compiled range also resolves as a mention of a person |
| `Sorting.Order` | packages/ui/src/RunTree.tsx:117-119 | A stable order by a two-part key exists for every list of keys |
| `Sorting.OrderIsUnique` | packages/ui/src/Graph.tsx:32-34 | Two stable orders of the same keys are equal |
| `Lanes.AssignLanes` | packages/ui/src/Graph.tsx:31-46 | Edges of one lane never share a row, and some row is covered by as many edges as there are lanes, for every list of edges and in its order |
| `Lanes.LanesAreProper` | packages/ui/src/Graph.tsx:37-44 | The lane ends kept by the greedy pass rule out any meeting within a lane |
| `Lanes.LanesAreNeeded` | packages/ui/src/Graph.tsx:37-44 | Every lane was opened over a row on which all earlier lanes were taken |
| `Lanes.CrowdFits` | packages/ui/src/Graph.tsx:31-46 | No proper colouring has fewer lanes than edges over any one row |
| `Lanes.CrowdedIsOptimal` | packages/ui/src/Graph.tsx:31-46 | So the lanes assigned are as few as any proper colouring needs |
| `Lanes.MeetIffOverlap` | packages/ui/src/Graph.tsx:33 | Closed row intervals share a row exactly when they overlap |
| `RunTreeLayout.Visible` | packages/ui/src/RunTree.tsx:88-99 | The closure loop ends with exactly the nodes reachable from the root through expanded nodes, once each |
| `RunTreeLayout.Relax` | packages/ui/src/RunTree.tsx:101-104 | After n rounds of in-place relaxation every walk of up to n + 1 nodes is accounted for and every depth is some walk's length |
| `RunTreeLayout.WalksAreShort` | packages/ui/src/RunTree.tsx:102 | In an acyclic graph no walk has more nodes than there are |
| `RunTreeLayout.RelaxedIsLongest` | packages/ui/src/RunTree.tsx:101-104 | So in an acyclic graph the rounds done reach the true longest-path depth of every reachable node |
| `RunTreeLayout.Discover` | packages/ui/src/RunTree.tsx:105-116 | The queue visits nodes once each, root first, breadth first: whoever finds a later node has found the earlier ones by then, and nodes found by the same one come in the order of its arcs |
| `RunTreeLayout.DiscoversAll` | packages/ui/src/RunTree.tsx:105-116 | Every visible node is visited |
| `RunTreeLayout.SortedRows` | packages/ui/src/RunTree.tsx:117-119 | The rows list the visible nodes once each, by depth and then by discovery |
| `RunTreeLayout.AcyclicPointsDown` | packages/ui/src/RunTree.tsx:117-130 | In an acyclic tree every laid-out edge has `fromRow` < `toRow` |
| `RunTreeLayout.PointingDownIsAcyclic` | packages/ui/src/RunTree.tsx:117-130 | Conversely, if all edges point down the shown graph is acyclic |
| `RunTreeLayout.LayoutIsFaithful` | packages/ui/src/RunTree.tsx:101-130 | The shown graph is acyclic if and only if every edge points down; then rows follow the longest distance from the root, ties the breadth-first order |
| `RunTreeLayout.ComputeLayout` | packages/ui/src/RunTree.tsx:85-140 | The whole layout: exactly the reachable nodes once each, exactly the arcs out of expanded visible nodes in order, rows and names that agree, as many lanes as connectors cross some row and never a clash, room for every row and lane, and the equivalence above |
| `Clipping.Narrow` | packages/talmud/scripts/build-geo-shapes.ts:622-635 | The two ends kept are exactly the range of fractions that pass all checks, or nothing does |
| `Clipping.ClipSegment` | packages/talmud/scripts/build-geo-shapes.ts:611-639 | Nothing is returned exactly when the segment misses the closed window; otherwise the points returned span exactly the part inside |
| `Clipping.PartIsSegment` | packages/talmud/scripts/build-geo-shapes.ts:636-638 | The points between two fractions are the segment between their ends, degenerate segments included |
| `Clipping.InsideIsPart` | packages/talmud/scripts/build-geo-shapes.ts:611-639 | A point of the segment is inside the window exactly when it lies on the clipped part |
| `Clipping.AddPart` | packages/talmud/scripts/build-geo-shapes.ts:654-662 | A clipped part joins the growing run exactly when it starts within the tolerance of the run's end; otherwise it starts a new run |
| `Clipping.HitTraces` | packages/talmud/scripts/build-geo-shapes.ts:654-662 | Joining within the tolerance keeps what is inside near a run, and what is on a run near something inside |
| `Clipping.ClipPolyline` | packages/talmud/scripts/build-geo-shapes.ts:643-666 | Every run has at least two points, every point on every run lies in the window, the runs trace exactly the part inside up to the tolerance, and a new run starts exactly where the line misses the window for a segment or re-enters away from where it left |
| `Clipping.WholeLineInside` | packages/talmud/scripts/build-geo-shapes.ts:643-666 | A line wholly inside the window is never split and comes back unchanged |
| `Clipping.RunsStayInside` | packages/talmud/scripts/build-geo-shapes.ts:643-666 | The window is convex: points between points of a run lie inside too |
| `Simplify.Farthest` | packages/talmud/scripts/build-geo-shapes.ts:685-693 | The greatest distance of an inner point from the chord and the first index that reaches it |
| `Simplify.DouglasPeucker` | packages/talmud/scripts/build-geo-shapes.ts:669-698 | For a tolerance of zero or more the recursion ends with an ascending subsequence that keeps both ends, every dropped point within the tolerance of the line through the two kept points around it; the chord alone is returned exactly when it fits |
| `Simplify.JoinedKeeps` | packages/talmud/scripts/build-geo-shapes.ts:695-697 | Joining the two halves at their shared point keeps all that |
| `Simplify.LineIsNoNearer` | packages/talmud/scripts/build-geo-shapes.ts:679-683 | No point of the line through the two kept points is nearer than the distance formula says, coinciding points included |
| `Simplify.LineIsThatNear` | packages/talmud/scripts/build-geo-shapes.ts:679-683 | And one point of the line attains it |
| `Ownership.PieceNameTellsSegment` | research/sage-network/ownership/tile_ownership.py:45 | The name of a piece determines its segment |
| `Ownership.AddSource` | research/sage-network/ownership/tile_ownership.py:83-102 | Reading one source is refused exactly when it is not in order or differs from the first copy of its unit; otherwise texts and candidates grow by it |
| `Ownership.ReadSources` | research/sage-network/ownership/tile_ownership.py:83-102 | Over all sources |
| `Ownership.AgreedIsChecked` | research/sage-network/ownership/tile_ownership.py:97-100 | Agreeing with the first copy of a unit is agreeing with every copy of it |
| `Ownership.CandidatesAreReaders` | research/sage-network/ownership/tile_ownership.py:101 | The candidates for a unit are exactly its readers |
| `Ownership.ReadJobs` | research/sage-network/ownership/tile_ownership.py:76-104 | All jobs are accepted exactly when each is its tile's, the first of its name, and reads the tile's units in order |
| `Ownership.IndexTiles` | research/sage-network/ownership/tile_ownership.py:29-32 | The tile index is refused exactly when it names a job twice |
| `Ownership.CheckSegment` | research/sage-network/ownership/tile_ownership.py:109-114 | A declared segment is accepted exactly when its pieces adjoin from zero to its length and their texts join to its text |
| `Ownership.CheckSegments` | research/sage-network/ownership/tile_ownership.py:106-116 | Over all segments, with exactly the expected units |
| `Ownership.OptionsAreSorted` | research/sage-network/ownership/tile_ownership.py:120-121 | Sorting loses no candidate, and none ranks before the first |
| `Ownership.Build` | research/sage-network/ownership/tile_ownership.py:48-124 | The build is accepted if and only if the frozen files are admissible; its rows are then one per unit, with the unit's one copy, owner and alternatives |
| `FrozenFiles.ChecksExactly` | research/sage-network/ownership/tile_ownership.py:83-96 | The check of one source accepts exactly the sources whose digest, piece number and place, covered segment and role, and declaration agree field by field |
| `FrozenFiles.AcceptedFilesAreSound` | research/sage-network/ownership/tile_ownership.py:76-105 | In an accepted build every job is the one its tile was frozen with, alone under its name, reads exactly the listed units in order, and all its sources are in order |
| `FrozenFiles.EveryTileIsRead` | research/sage-network/ownership/tile_ownership.py:106 | Every tile of an accepted build has its job |
| `FrozenFiles.CopiesAgree` | research/sage-network/ownership/tile_ownership.py:97-100 | Two frozen sources of an accepted build that go by one unit name agree in segment, edition, reference, text digest and place |
| `ExactCover.InPlaceCovers` | research/sage-network/ownership/tile_ownership.py:106-121 | From an accepted build whose frozen sources were read in place, every code point of every segment belongs to exactly one unit |
| `ExactCover.ExactCoverIffInPlace` | research/sage-network/ownership/tile_ownership.py:106-117 | Where segments have text and no frozen source goes by the name of a cut segment, an accepted build is an exact cover if and only if every frozen source was read from the segment and place its unit name is declared for |
| `ExactCover.RowsAreAsRead` | research/sage-network/ownership/tile_ownership.py:96-121 | The rows of an accepted build lie where they are declared exactly when the frozen sources do, so the condition can be checked before the build |
| `ExactCover.WellNamedInPlace` | research/sage-network/ownership/tile_ownership.py:45 | Frozen files whose piece names follow the builder's own scheme are always read in place |
| `OwnershipGaps.CoverCanFail` | research/sage-network/ownership/tile_ownership.py:109-114 | The segment check does not ask whose text a declared piece is: an accepted build with distinct piece identifiers that covers no code point of one of its segments |
| `OwnershipIndex.OwnerIsBest` | research/sage-network/ownership/tile_ownership.py:120-121 | The owner is a reader of the unit, a focal one if there is any, and among equals the one of the earliest tile |
| `OwnershipIndex.SourcesFor` | research/sage-network/ownership/tile_ownership.py:139-150 | A job is resolved exactly when each of its sources is the one its row was built from; a source is marked owned exactly when its unit's owner is this job |
| `FrozenFiles.AcceptsExactly` | research/sage-network/ownership/tile_ownership.py:141-148 | The index accepts a source exactly when its piece fits, a row of its unit name holds its very text and place, and the first entry of that row for the job is this job and source |
| `OwnershipIndex.FrozenJobAccepted` | research/sage-network/ownership/tile_ownership.py:147-148 | A frozen job is accepted by the index exactly when it reads no unit under two source identifiers |
| `OwnershipIndex.OwnerJob` | research/sage-network/ownership/tile_ownership.py:139-150 | The owner of a unit is its best reader, a focal one if there is any and then of the earliest tile, and belongs to exactly one frozen job |
| `OwnershipIndex.OneOwner` | research/sage-network/ownership/tile_ownership.py:139-150 | For every accepted build and every unit: exactly one source over all frozen jobs is marked owned if and only if the job of its best reader reads no unit under two identifiers and this unit once; no other job owns any |
| `OwnershipIndex.OneOwnerEach` | research/sage-network/ownership/tile_ownership.py:139-150 | So where no job reads a unit twice, every unit has exactly one owned source |
| `OwnershipGaps.OwnedTwice` | research/sage-network/ownership/tile_ownership.py:139-150 | A job that lists one source twice is accepted by build and index and owns the unit twice |
| `OwnershipGaps.RefusedByIndex` | research/sage-network/ownership/tile_ownership.py:147-148 | A job that reads a unit under two identifiers is accepted by the build and refused by the index, and nothing owns the unit |
| `BranchScopes.TakeIds` | research/sage-network/pilot/validate.py:59-65 | Identifiers are refused exactly when one repeats or is taken |
| `BranchScopes.IndexGroups` | research/sage-network/pilot/validate.py:70-74 | Reading groups are refused exactly when an identifier of a group or branch is not fresh; otherwise each branch points at its one group |
| `BranchScopes.AllowedExists` | research/sage-network/pilot/validate.py:95-101 | In every world where an allowed claim scope holds, the entity scope holds |
| `BranchScopes.AllowsExactly` | research/sage-network/pilot/validate.py:95-101 | The check is exactly that implication over all worlds, together with mentioning every group whose branches the entity lists in full |
| `BranchScopes.AllowsIsImplication` | research/sage-network/pilot/validate.py:95-101 | When no entity scope lists all branches of a group, the check is exactly the implication |
| `BranchScopes.OpenChoiceRefused` | research/sage-network/pilot/validate.py:99-100 | The two differ: a claim that leaves a choice open is refused an entity that exists on every branch |
| `BranchScopes.CheckScope` | research/sage-network/pilot/validate.py:76-78 | A scope is accepted exactly when its branches are known and distinct; duplicates are reported before unknown branches |
| `BranchScopes.CheckClaim` | research/sage-network/pilot/validate.py:105-111 | A claim is accepted exactly when its scope is in order and every entity it refers to is known and allowed; otherwise the first fault is reported |
| `BranchScopes.CheckClaims` | research/sage-network/pilot/validate.py:103-111 | Over all claims, up to the first one in fault |
| `BranchScopes.ClaimedExists` | research/sage-network/pilot/validate.py:103-111 | In every world where an accepted claim holds, its subject, object, role entities and entity voice all exist |
| `LineClusters.SplitLines` | packages/ui/src/MarginPod.tsx:82-87 | The greedy pass keeps all items in order, each within the tolerance of its line's first, first items of lines too far apart for one line |
| `LineClusters.ClusterByLine` | packages/ui/src/MarginPod.tsx:77-89 | The lines partition the items in stable order of height, each spanning at most the tolerance |
| `LineClusters.FewestLines` | packages/ui/src/MarginPod.tsx:77-89 | No grouping within the tolerance has fewer groups |
| `LineBands.GroupLines` | packages/ui/src/highlightOverlay.ts:45-53 | Every rectangle is put on exactly one line: the first of its own column that starts near it |
| `LineBands.BoxOf` | packages/ui/src/highlightOverlay.ts:54-66 | The smallest box around a line |
| `LineBands.MakeBands` | packages/ui/src/highlightOverlay.ts:68-83 | One band per box, as wide and from the same top, stretched to the next box inside a block and down to its own bottom at the end of one |
| `LineBands.BlocksFollow` | packages/ui/src/highlightOverlay.ts:73-81 | The bands of any rectangles fall into blocks: a band is the last of its block exactly when the next one is the first of its own, or absent; inside a block a band ends exactly where the next begins |
| `LineBands.BandsAreUpright` | packages/ui/src/highlightOverlay.ts:67-83 | Bands of sorted upright boxes have a height of zero or more, whatever columns and gaps |
| `LineBands.UprightBands` | packages/ui/src/highlightOverlay.ts:41-85 | So upright rectangles give upright bands |
| `LineBands.LineBandsOf` | packages/ui/src/highlightOverlay.ts:41-85 | The whole pipeline, over the input rectangles: one band per line, by column and from top to bottom; its left and top the least, its right the greatest of the line; the last band of a block ends at the greatest bottom of its line; neighbours are in one block exactly when their lines share a column and the gap is within the one allowed |
| `LineBands.BandsCoverLines` | packages/ui/src/highlightOverlay.ts:54-83 | All that follows from lines, boxes and stable order, whoever made them |
| `BidiSegments.RestCuts` | packages/ui/src/BidiText.tsx:30-36 | From every position the segments cut the rest of the text as required, alternating |
| `BidiSegments.BidiCuts` | packages/ui/src/BidiText.tsx:22-36 | Every text is cut into alternating longest Hebrew runs and Hebrew-free rests |
| `BidiSegments.CutsAgree` | packages/ui/src/BidiText.tsx:22-36 | There is only one way to cut a text so |
| `BidiSegments.CutsJoin` | packages/ui/src/BidiText.tsx:30-36 | The segments join back to the text |
| `BidiSegments.BidiIsFaithful` | packages/ui/src/BidiText.tsx:22-36 | Nothing is lost; segments are nonempty and strictly alternate; Hebrew ones start and end on a Hebrew character, others hold none |
| `BidiSegments.HebrewIsIsolated` | packages/ui/src/BidiText.tsx:22-24 | Every character of the Hebrew blocks is in a Hebrew segment, which holds nothing else but the eight joiners |
| `BidiSegments.HebrewRunsAreApart` | packages/ui/src/BidiText.tsx:22-24 | Between two Hebrew segments there is always something that is not a joiner |

## Left out

- Curl transport, key and price preflight, signals and the thread pool: kept as nondeterministic balance, completion and stop.
- Clock readings, budget, concurrency and identifiers in the progress file: constants of the run.
- Start times and job identifiers of saved attempts are ordered by a key given for each job.
- SHA-256, JSON canonicalisation, checksums of receipts and results, recipe files, schema validation and request building.
- Bindings inside a saved record (its run, request and adapter hashes): a record stands for its job, reservation, status, cost and error kind.
- Float rounding: all amounts are exact.
- Contents of the reviewed plan and of the sample selection, the adapter text comparison, HTTP status and response shape of probe answers.
- Identity of the three control jobs of the unit trial: any three of the origin's jobs are allowed, so more chains are covered.
- BudgetChain.SharedCap: transitions are acceptance predicates over runs; the loop that adds up the prior run's records is modelled once, as HistoryWalk.ReadState, and the history check a reviewed step makes of its prior run is modelled apart, so the results are stated for more chains than are accepted.
- CapGap.CapExceeded: asks for a digest that tells runs of different names apart, as the witness needs four different digests of an abstract function.
- CompleteWalk.WalkRefusesResets: stated for chains whose digests differ pairwise; hash chains cannot be proved free of cycles with an abstract digest.
- ExactCover.ExactCoverIffInPlace: asks for nonempty segments and for no source going by the name of a cut segment; without that two segments with the same text can stand in for each other.
- Handoff.OneRunnerOnly: one caller at a time, as the callers' volume-wide lock provides.
- Shard files, their checksums and counts, and the sorting of ownership rows by unit name; the checks of jobs and of sources run one after the other instead of interleaved, and an explicit empty piece entry is read as no piece.
- `compile_answer`, unit bindings and unit lists: they apply the anchor compiler field by field.
- Mentions, evidence, predicate tables, unused branches and duplicate claims in the pilot check.
- Simplify.DouglasPeucker: distances are compared squared; with a negative tolerance the source does not end and the model does not start.
- Clipping.ClipPolyline: what the runs trace is exact up to the source's own tolerance of 1e-9, which a join may skip.
- LineBands.LineBandsOf: bands need not cover every rectangle; columns are integers.
- Rendering, edge paths, labels and all other interface code; fetchers, reports and name matching.
