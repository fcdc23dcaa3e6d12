# Verified models of the coding agent's state machines

This project models, in Dafny, the parts of the repository that keep state over many
steps, and proves what those parts promise over whole runs. Nothing here executes the
original TypeScript; the models restate it and the proofs are about the models.

Nine components are covered.

* **Checkpoint timeline** (`Checkpoint*.dfy`). Undo, jump-to-checkpoint and redo over git
  snapshots; a repository is a working tree, a set of commit objects and a map of hidden
  refs. A commit is identified with what it captures (hashing is injective) and the
  garbage collector may take any unpinned commit before every restore.
  `CheckpointMerge` and `CheckpointSessions` add the file that all sessions share, and
  `CheckpointRestarts` what a session leaves behind when it starts over from it.
* **Automation scheduler** (`Automation*.dfy`, `CronEngine.dfy`, `Calendar.dfy`). Claims,
  leases, recovery, history trimming, when a claim throws, and the UTC cron engine from the
  expression down to calendar dates.
* **Adaptive limiter** (`LimiterGate.dfy`, `LimiterRuns.dfy`). The ceiling, the queue with aborts, and holders that
  suspend and resume.
* **ACP framing and slots** (`Framing.dfy`, `Replaying.dfy`, `Decisions.dfy`,
  `Settlements.dfy`). Bounded NDJSON, cursor replay over an evicting buffer, decisions that are
  sent at most once, and which requests are pending.
* **MCP hub** (`Mcp*.dfy`). Connect, drop, re-list, reconnect and close, interleaved at every
  await, and the names under which tools are exposed, down to the hash.
* **Blackboard, loop lexer, compaction** (`Blackboards.dfy`, `LoopLexer.dfy`, `Compaction.dfy`).

Code that changes fields in place is a class here, with one method for each stretch of code
between two awaits. Each such method is proved equal to a step function on values
(`ensures View() == Step(old(View()))`); the laws are lemmas about those step functions and
about runs of them. Clocks, random ids, outcomes of git and of network calls, the order of
events and what the garbage collector takes are inputs of the steps, so a law about every
run holds for every choice of them.

## Findings

Where the code and a stated intention differ, the model follows the code.

* Walking back with redo after a rewind returns every non-ignored path except those the
  user's index tracks, that the pre-rewind tree lacked and that a restored snapshot has.
  `CheckpointRoundTrip.RestoreThenRedoTree` is the exact equivalence, path by path, and
  `CheckpointRoundTrip.DeletedFileStays` a run in which a deleted file is back at the end.
* A restart releases no ref. The refs that a session holds and nothing owns are exactly those
  its restarts dropped: the ones of the redo line of that moment and of the listed entries the
  cap had taken from the file (`CheckpointRestarts.EveryRunLeaks`). No operation leaks a ref.
* The comment at packages/core/src/checkpoints.ts:268-275 says a private index seeded from
  the user's index gives the same tree as an empty one. For a tracked file that is also
  ignored it does not (`CheckpointInvariant.SeededIndexDiffers`); the trees are the same if
  and only if no file is both (`CheckpointInvariant.SeedingMakesNoDifference`). The laws of
  the timeline hold for either tree.
* Ownership of refs does not depend on the clock, but the shared file does: it is sorted by
  time, so after the clock went back a session's entries come out in another order
  (`CheckpointMerge.ClockBackSwaps`). A session's view survives the sort if and only if its
  list is in time order (`CheckpointMerge.SortKeepsViewIff`).
* One enabled automation with the cron expression `0 0 29 2 *` can block all the others.
  `claimDue` throws, and leaves the state unchanged, if and only if a due automation without
  a next slot comes before `limit` (16 by default) claimable ones in the order of the claim
  (`AutomationThrows.ClaimThrows`). Once its slot has come, the leap-day automation has no
  next slot for a thousand days, since the next leap day lies outside the 366-day window
  (`AutomationThrows.LeapDayBlocks`, `CronEngine.LeapExpression`). Saving it in the year
  before a leap day is enough to get there (`AutomationThrows.LeapDayReached`).
* Replay is complete if and only if the newest frame alone fits the byte limit
  (`Replaying.ReplayComplete`).
* A receipt returned for a repeated decision may belong to a send still in flight, which can
  still fail (`Decisions.RepeatedReceipt`); `Decisions.ReceiptThenBounce` is such a run.
* A send that fails after its request was settled or replaced makes the request pending again
  (`Settlements.SettledComesBack`). The pending ids are at every moment those registered, not
  settled since and not taken by a send, if and only if no send fails that late
  (`Settlements.EveryRunRightIff`).
* Taking a flag out of the `/loop` arguments keeps all other tokens, except that a last
  token ending in an escaped white space loses it and keeps its backslash.
  `LoopLexer.WithoutRangesKeeps` is the exact equivalence, `LoopLexer.EscapedSpaceLost` an
  input.
* Compaction may leave two user messages in a row exactly when the kept part starts with a
  user message whose content is neither a string nor an array
  (`Compaction.CompactKeepsTurns`); `Compaction.MalformedStaysBehind` is such a transcript.
* A tool of a connected server can become uncallable, though exposing it under a hashed name
  is meant to prevent that. Every listed tool is called by the name it was given, at every
  moment of a run, if and only if no registration falls back to a hashed name that another
  tool uses, be it of the same server or of another (`McpServed.EveryRunServesIff`). Hashed
  names are equal only if the hashes are (`McpNames.SuffixedEqualIff`), but any two neighbouring
  characters clash with the pair one above and 33 below (`McpNames.NeighboursClash`). So of the
  tools `stem__`, `stem.[` and `stem/:` of one server, and of three servers so named that offer
  the same tool, the second is called by no name (`McpServed.LostWithinServer`,
  `McpServed.LostAcrossServers`).

## Model

| member | source | states |
|---|---|---|
| `CheckpointOps.EveryRun` | packages/core/src/checkpoints.ts:491-728 | from an empty manager, over any operations, clocks, git failures and garbage collections: owned ids of the list and the redo stack are pairwise disjoint and are exactly the hidden refs held, each ref pins its commit, and list plus redo stack stay one timeline in creation order of at most 50 |
| `CheckpointOps.EmptyOk` | packages/core/src/checkpoints.ts:193-203 | the starting point of those runs: an empty manager satisfies the invariant and holds no ref |
| `CheckpointOps.NoDeadCommit` | packages/core/src/checkpoints.ts:442-597 | with every owned ref in place nothing met is ever dead: restoreTo succeeds exactly on listed ids, redo applies its top step whenever there is one, undo finds nothing only when all entries are green |
| `CheckpointOps.ApplyKeeps` | packages/core/src/checkpoints.ts:504-728 | every public operation keeps the invariant and the pinning of whatever was pinned, and neither leaks a ref nor frees a leaked one, so refs that were exact stay exact |
| `CheckpointOps.SnapshotKeeps` | packages/core/src/checkpoints.ts:504-537 | snapshot clears the redo line with its refs, adds one entry and prunes to 50 without breaking the invariant |
| `CheckpointResults.SnapshotTakes` | packages/core/src/checkpoints.ts:504-537 | a snapshot changes no file; the new entry has the staged tree, label, time, green marker and session asked for, comes last and is returned, and above 50 exactly the oldest gives way with its ref; without a capture only the redo line goes |
| `CheckpointOps.UndoKeeps` | packages/core/src/checkpoints.ts:544-597 | undo keeps the invariant, leaks nothing and keeps pinned what was, whether or not the pre-undo tree could be captured and however many dead or green entries it passes |
| `CheckpointOps.RestoreToKeeps` | packages/core/src/checkpoints.ts:604-673 | restoreTo keeps the invariant, also when refused |
| `CheckpointOps.RedoKeeps` | packages/core/src/checkpoints.ts:705-728 | redo keeps the invariant through any number of dead steps |
| `CheckpointOps.UndoLands` | packages/core/src/checkpoints.ts:549-596 | where undo lands: everything above the landing place is gone with its ref, the landed entry and the fresh capture stay pinned on one new redo step, and the working tree is the landed snapshot's checkout |
| `CheckpointResults.UndoFindsNothing` | packages/core/src/checkpoints.ts:549-575 | with only green or dead entries undo drops them with their refs and nothing else: files, redo line and other refs stay, and the capture is released |
| `CheckpointResults.UndoWithoutCapture` | packages/core/src/checkpoints.ts:549-596 | when the pre-undo tree cannot be captured undo still restores the landing place; that entry goes with its ref and the redo line stays as it was |
| `CheckpointResults.UndoHandsBack` | packages/core/src/checkpoints.ts:577-722 | the next redo after a captured undo names the undone checkpoint, with its label, and hands the stashed tail back |
| `CheckpointOps.RestoreRewinds` | packages/core/src/checkpoints.ts:608-672 | where restoreTo ends: the newer entries moved in order onto the redo stack, over a phantom step for the pre-rewind tree if and only if that tree was captured and the newest of them is not alive with the same tree |
| `CheckpointOps.RestoreRefused` | packages/core/src/checkpoints.ts:608-623 | a refused restoreTo leaves files, list, redo line and refs as they were and forgets which step the tail belongs to |
| `CheckpointOps.RedoReapplies` | packages/core/src/checkpoints.ts:708-722 | a live top step gives back its tree, its entries and its payload, and frees only the refs it owned that did not come back to the list |
| `CheckpointOps.RedoMeetsSpec` | packages/core/src/checkpoints.ts:708-727 | redo applies the topmost live step, with its tree, its entries and its payload; the steps above it were dead and went with exactly their refs; without a live step it fails with the tree and the list unchanged |
| `CheckpointOps.PopOnlyGreen` | packages/core/src/checkpoints.ts:557-569 | with all entries pinned, what undo drops above its landing place is green |
| `CheckpointInvariant.CommitTreeOk` | packages/core/src/checkpoints.ts:412-435 | a capture adds one fresh ref to the staged tree and touches neither the working tree nor the user's index |
| `CheckpointInvariant.SeedingMakesNoDifference` | packages/core/src/checkpoints.ts:268-297 | a private index seeded from the user's index stages the same tree as an empty one if and only if no file is both tracked and ignored |
| `CheckpointInvariant.SeededIndexDiffers` | packages/core/src/checkpoints.ts:268-297 | a repository in which the two trees differ |
| `CheckpointInvariant.TryRestoreOk` | packages/core/src/checkpoints.ts:442-487 | a restore succeeds exactly when the commit survived the collector, then the tree is the checkout; a dead commit changes nothing |
| `CheckpointInvariant.PopMeetsSpec` | packages/core/src/checkpoints.ts:557-569 | the pop loop stops at the newest entry that is not green and alive, having released exactly the refs above it |
| `CheckpointRoundTrip.RedoWalk` | packages/core/src/checkpoints.ts:705-728 | n redos from a pinned state apply the top n steps in order and keep the timeline unchanged |
| `CheckpointRoundTrip.RestoreThenRedo` | packages/core/src/checkpoints.ts:604-728 | after restoreTo with a stashed tail, redo walks forward one skipped checkpoint at a time; the last redo ends at the exact pre-rewind list and stack and it alone hands the tail back |
| `CheckpointResults.WalkNames` | packages/core/src/checkpoints.ts:617-722 | each redo of that walk names the checkpoint it reaches with its label, the last one the captured tree if there is no further checkpoint |
| `CheckpointRoundTrip.RestoreThenRedoTree` | packages/core/src/checkpoints.ts:442-728 | for each non-ignored path the walk ends at the pre-rewind content if and only if it is not one the index tracks, the pre-rewind tree lacked and a visited snapshot has |
| `CheckpointRoundTrip.DeletedFileStays` | packages/core/src/checkpoints.ts:464-485 | a tracked file snapshotted, deleted, snapshotted without and rewound is still there when redo has walked all the way forward, whichever private index the captures start from |
| `CheckpointRoundTrip.ReplayAt` | packages/core/src/checkpoints.ts:447-487 | what a series of checkouts leaves at each path: the last tree, plus what git never deletes |
| `CheckpointUndoRedo.UndoThenRedo` | packages/core/src/checkpoints.ts:544-728 | undo n times then redo n times returns the starting stack, the pre-undo trees and the list without the entries undo dropped |
| `CheckpointUndoRedo.UndoThenRedoAt` | packages/core/src/checkpoints.ts:544-728 | stopping m steps short gives back the state after m undos: every tree is revisited in reverse |
| `CheckpointUndoRedo.OnlyGreenOrDeadGone` | packages/core/src/checkpoints.ts:557-569 | the entries missing afterwards are green markers or were dead when tried |
| `CheckpointUndoRedo.OnlyGreenGone` | packages/core/src/checkpoints.ts:557-569 | with every ref in place only green markers are missing |
| `CheckpointMerge.SaveMeaning` | packages/core/src/checkpoints.ts:365-383 | for any file content: unique ids, ascending times, the newest 50 of the merge, every listed entry in the merge, and of the file all but what this session removed or overrides |
| `CheckpointMerge.MergeViews` | packages/core/src/checkpoints.ts:367-382 | before the cap, the saving session's view of the merge is its own list and every other session's view is what it was |
| `CheckpointMerge.PruneViews` | packages/core/src/checkpoints.ts:381-383 | every view survives the cap if and only if the merge has at most 50 entries |
| `CheckpointMerge.SortKeepsViewIff` | packages/core/src/checkpoints.ts:382-382 | sorting by time leaves a session's view as it was if and only if the view was in time order |
| `CheckpointMerge.ClockBackSwaps` | packages/core/src/checkpoints.ts:380-383 | two snapshots between which the clock went back come out of the file in the other order |
| `CheckpointSessions.NextKeeps` | packages/core/src/checkpoints.ts:322-390 | one operation, failed save or restart of any session keeps all sessions separate; everybody still finds their own last saved list in the file if and only if a merge that is written fits under the cap and the list it saves is in time order |
| `CheckpointSessions.EverySystemRun` | packages/core/src/checkpoints.ts:322-390 | over any interleaving of sessions whose saves fit in that sense, under any clock, each session's view of the file is its list at its own last save: nothing is lost and nothing undone returns |
| `CheckpointSessions.EveryForwardRun` | packages/core/src/checkpoints.ts:322-390 | under a clock that does not go back the cap is the only condition |
| `CheckpointSessions.PunctualKeeps` | packages/core/src/checkpoints.ts:519-537 | such a clock keeps every timeline in time order, so every saved list is |
| `CheckpointSessions.BootOk` | packages/core/src/checkpoints.ts:193-203 | sessions starting on an empty file satisfy that invariant |
| `CheckpointRestarts.EveryRunLeaks` | packages/core/src/checkpoints.ts:196-390 | over any interleaving of operations and restarts of all sessions, under any clock and however often the cap cuts the file: all that a session owns has its ref, and its leaked refs are exactly what its restarts dropped; its own saves do not fail, and entries come out of the file in creation order whenever a session starts over |
| `CheckpointRestarts.RestartLeaks` | packages/core/src/checkpoints.ts:196-324 | a restart adds to the leaked refs exactly those of the redo line and of listed entries missing from the file; no entry is listed without its ref |
| `CheckpointRestarts.DoesInStep` | packages/core/src/checkpoints.ts:352-390 | operations of anybody leak nothing and keep what that rests on: nothing of a session is in the file that it does not list |
| `CheckpointRestarts.RestartInStep` | packages/core/src/checkpoints.ts:300-324 | restarts of anybody keep it too |
| `CheckpointRestarts.OnlyCapTakes` | packages/core/src/checkpoints.ts:365-383 | a listed entry goes missing from the file only when a save, its own or another session's, exceeds the cap, and then it is no newer than anything kept |
| `CheckpointRestarts.BootInStep` | packages/core/src/checkpoints.ts:193-203 | a new session is in that state and has leaked nothing |
| `CheckpointClasses.Git.CommitTree` | packages/core/src/checkpoints.ts:412-435 | captures the working tree under a fresh id and ref, or fails and changes only the id counter |
| `CheckpointClasses.Git.DeleteRef` | packages/core/src/checkpoints.ts:404-406 | removes one hidden ref; a missing one is fine |
| `CheckpointClasses.Git.TryRestore` | packages/core/src/checkpoints.ts:442-487 | the guarded restore on the mutable repository, with the collector acting first |
| `CheckpointClasses.Git.WriteSnapshot` | packages/core/src/checkpoints.ts:451-455 | the loop that writes every snapshot path over the working tree |
| `CheckpointClasses.Git.DeleteCreatedSince` | packages/core/src/checkpoints.ts:464-485 | the loop that deletes exactly the untracked, non-ignored paths absent from the snapshot |
| `CheckpointClasses.CheckpointFile.Save` | packages/core/src/checkpoints.ts:352-390 | read, merge by id, sort and cut the shared file |
| `CheckpointClasses.CheckpointFile.ReadOthers` | packages/core/src/checkpoints.ts:368-379 | the loop that keeps the file's entries except those this session removed |
| `CheckpointClasses.CheckpointManager.constructor` | packages/core/src/checkpoints.ts:208-216 | an empty list, an empty redo stack and no pinned step |
| `CheckpointClasses.CheckpointManager.Snapshot` | packages/core/src/checkpoints.ts:504-537 | the method on mutable stacks takes the snapshot step and saves the list it leaves |
| `CheckpointClasses.CheckpointManager.PruneOldest` | packages/core/src/checkpoints.ts:530-534 | the shift loop keeps the newest 50 and releases the refs of the others |
| `CheckpointClasses.CheckpointManager.ClearRedo` | packages/core/src/checkpoints.ts:491-495 | the redo line is emptied and every ref it owned is released |
| `CheckpointClasses.CheckpointManager.Undo` | packages/core/src/checkpoints.ts:544-597 | the method takes the undo step; its new entry is the one the tail is pinned to |
| `CheckpointClasses.CheckpointManager.PopUntilRestored` | packages/core/src/checkpoints.ts:557-569 | the pop loop computes the specified landing place, list and refs |
| `CheckpointClasses.CheckpointManager.RestoreTo` | packages/core/src/checkpoints.ts:604-673 | the method takes the restoreTo step, and saves only when not refused |
| `CheckpointClasses.CheckpointManager.StackNewer` | packages/core/src/checkpoints.ts:625-670 | splices the newer entries onto the redo stack behind an optional phantom |
| `CheckpointClasses.CheckpointManager.StackPhantom` | packages/core/src/checkpoints.ts:639-653 | pushes or releases the pre-rewind capture |
| `CheckpointClasses.CheckpointManager.PushOwnSteps` | packages/core/src/checkpoints.ts:655-670 | the downward loop stacks each entry with its own tree, the closest to the target on top |
| `CheckpointClasses.CheckpointManager.Redo` | packages/core/src/checkpoints.ts:705-728 | the method takes the redo step, and saves only when a step was applied |
| `CheckpointClasses.CheckpointManager.TryTop` | packages/core/src/checkpoints.ts:709-725 | one turn of the redo loop: apply the top step or release it |
| `CheckpointClasses.CheckpointManager.StashPayload` | packages/core/src/checkpoints.ts:690-692 | writes the payload through the shared entry, wherever it is on the stack |
| `CheckpointClasses.CheckpointManager.DropRedoPayloads` | packages/core/src/checkpoints.ts:697-699 | empties every payload and keeps every step |
| `CheckpointResults.DropForgets` | packages/core/src/checkpoints.ts:697-728 | after dropping payloads every redo does what it would have done, files, list and refs, and hands nothing back |
| `Calendar.CivilRoundTrip` | packages/automation/src/index.ts:242-251 | every day is exactly one valid Gregorian date and back, as Date reads it (section 21.4.1 of ECMA-262) |
| `Calendar.DaysFollow` | packages/automation/src/index.ts:242-251 | time 0 is Thursday, 1 January 1970, and day follows day with the month lengths and leap years of that calendar |
| `CronEngine.CronField` | packages/automation/src/index.ts:284-305 | the loops parse a field exactly when every piece is valid, and collect exactly the values its pieces cover, which are never none |
| `CronEngine.SegmentReads` | packages/automation/src/index.ts:284-305 | a piece is a star, a value or a range, each with or without a step; it parses exactly when all numbers are within bounds, to the range it writes, and never with two slashes or two dashes |
| `CronEngine.PiecesRead` | packages/automation/src/index.ts:286-286 | pieces are what stands between commas |
| `CronEngine.ParseCron` | packages/automation/src/index.ts:260-282 | trims and splits the expression, and parses exactly when five fields do; Sunday is 0 and 7; the wildcard flags are those of the literal star |
| `CronEngine.SundayTwice` | packages/automation/src/index.ts:270-271 | in the day-of-week field 7 is another name for 0 |
| `CronEngine.FieldsAre` | packages/automation/src/index.ts:269-269 | words with any white space around and between them are the fields |
| `CronEngine.LeapExpression` | packages/automation/src/index.ts:260-282 | the expression "0 0 29 2 *" parses, to midnight of 29 February and to nothing else |
| `CronEngine.StarCovers` | packages/automation/src/index.ts:293-293 | a star covers its whole range |
| `CronEngine.FindNext` | packages/automation/src/index.ts:239-253 | the minute loop finds the specified minute or nothing |
| `CronEngine.MatchesDay` | packages/automation/src/index.ts:242-251 | a minute matches when minute, hour and month are listed and the day is: by date or weekday if both are restricted, else by the restricted one |
| `CronEngine.NextIsLeast` | packages/automation/src/index.ts:235-254 | the answer is the least matching whole minute strictly after the given time; there is none exactly when no minute of the 366-day window matches |
| `CronEngine.WeeklyAnswers` | packages/automation/src/index.ts:245-251 | with day-of-month and month both stars it never throws and answers within seven days and a minute (either-day rule of the crontab utility, POSIX.1-2017) |
| `CronEngine.LeapDayThrows` | packages/automation/src/index.ts:240-253 | midnight of a leap day matches, and for a thousand days after it the search finds nothing |
| `CronEngine.LeapDayPlanned` | packages/automation/src/index.ts:240-253 | in the 366 days before a leap day the search answers with its midnight |
| `AutomationLaws.StepKeeps` | packages/automation/src/index.ts:87-218 | each stored operation keeps: distinct specs, runs and idempotency keys, one lease per automation, one lease for each remembered running run, none for one that ended; terminal runs stay as they are |
| `AutomationLaws.ClaimDueKeeps` | packages/automation/src/index.ts:135-175 | a claim keeps all that and hands out at most `limit` runs |
| `AutomationLaws.RecoverKeeps` | packages/automation/src/index.ts:307-318 | after recovery only leases with time left remain, and the invariant holds |
| `AutomationLaws.RecoverShape` | packages/automation/src/index.ts:307-318 | recovery interrupts exactly the running runs whose lease expired, and drops exactly those leases |
| `AutomationLaws.SaveKeeps` | packages/automation/src/index.ts:93-107 | saving replaces the one record with its id, keeping when it was created, or adds one, with every field as given; its next run is planned from now; every other record, run and lease stays |
| `AutomationLaws.SetEnabledKeeps` | packages/automation/src/index.ts:119-133 | one record changes; enabling plans its next run from now, disabling leaves the plan; runs and leases stay |
| `AutomationLaws.HeartbeatKeeps` | packages/automation/src/index.ts:177-186 | a heartbeat moves the expiry of one lease, the caller's own for that run, and nothing else |
| `AutomationLaws.FinishKeeps` | packages/automation/src/index.ts:201-217 | finishing ends exactly the named run and drops exactly its lease, for the lease owner or a cancellation; an ended run is returned unchanged |
| `AutomationLaws.NextTriggerPlans` | packages/automation/src/index.ts:235-254 | an interval is planned exactly that much later, a cron expression at its first match; there is no slot exactly when it has no match in the 366 days to come |
| `AutomationLaws.SaveThrows` | packages/automation/src/index.ts:87-107 | saving throws exactly for a rejected input, an interval outside a minute to a year, or a cron expression without a slot |
| `AutomationLaws.SetEnabledThrows` | packages/automation/src/index.ts:119-133 | exactly for an unknown automation, or enabling one without a slot |
| `AutomationLaws.HeartbeatThrows` | packages/automation/src/index.ts:177-186 | a heartbeat throws exactly when the caller holds no lease of the run |
| `AutomationLaws.FinishThrows` | packages/automation/src/index.ts:196-218 | finishing throws exactly for a run not remembered, or a running one completed by somebody else or with a negative cost |
| `AutomationClaims.ClaimGives` | packages/automation/src/index.ts:135-175 | what claimDue hands out and leaves: each claim is a new running run for a due slot that had no run and whose automation had no lease, with the record planned anew and exactly one lease, of the claimer, until now + min(lease time, timeout + a minute); each due automation the claim comes to has its slot claimed, recorded as skipped or already run; other leases stay until they expire and the newest 2000 runs are kept |
| `AutomationClaims.LoopHandsOut` | packages/automation/src/index.ts:143-171 | the same for the loop over any order of distinct specs |
| `AutomationClaims.LeaseHolds` | packages/automation/src/index.ts:146-158 | while a lease lasts a claim by anybody leaves it and its run, hands out nothing for its automation and records a slot of it that it comes to as skipped |
| `AutomationRuns.EveryRun` | packages/automation/src/index.ts:87-218 | over any run and any clock the lease invariant holds, terminal runs are frozen, and every remembered run and lease goes back to a recorded run |
| `AutomationRuns.EndedForever` | packages/automation/src/index.ts:204-204 | a run that ended is the same run whenever it is still remembered |
| `AutomationRuns.EverySlotOnce` | packages/automation/src/index.ts:137-174 | under a clock that does not go back no (automation, slot) is given two runs, also after trimming, and scheduledAt <= startedAt < the automation's nextRunAt for every run ever recorded; intervals are positive |
| `AutomationRuns.EmptyOk` | packages/automation/src/index.ts:328-340 | the empty state satisfies all three invariants |
| `AutomationThrows.DueNowIs` | packages/automation/src/index.ts:141-143 | a claim visits exactly the due automations, each once, earliest slot first and ties by id |
| `AutomationThrows.ClaimThrows` | packages/automation/src/index.ts:135-175 | a claim throws if and only if its limit is out of range or a due automation without a next slot comes before `limit` claimable ones, told from the state before the claim |
| `AutomationThrows.ClaimCounts` | packages/automation/src/index.ts:137-173 | a claim that does not throw makes min(limit, claimable due automations) claims |
| `AutomationThrows.LoopThrows` | packages/automation/src/index.ts:143-171 | the same equivalence for the loop over any order of distinct specs |
| `AutomationThrows.LoopClaims` | packages/automation/src/index.ts:143-171 | a loop that does not throw claims the first claimable ones up to the limit and leaves all automations it did not visit as they were |
| `AutomationThrows.LeapDayBlocks` | packages/automation/src/index.ts:135-175 | a due leap-day automation makes every claim throw, for a thousand days, in which fewer than `limit` claimable automations come before it |
| `AutomationThrows.LeapDayReached` | packages/automation/src/index.ts:87-175 | saved in the year before a leap day the automation is planned for that midnight, and from then on every claim throws for a thousand days |
| `AutomationClasses.AutomationStore.Save` | packages/automation/src/index.ts:87-107 | rejects an invalid or unconfirmed spec unchanged, otherwise takes the save step |
| `AutomationClasses.AutomationStore.SetEnabled` | packages/automation/src/index.ts:119-133 | takes the enable step; a throw leaves the state unchanged |
| `AutomationClasses.AutomationStore.ClaimDue` | packages/automation/src/index.ts:135-175 | the loop over due specs takes the claim step; any throw leaves the stored state unchanged |
| `AutomationClasses.AutomationStore.ClaimSpec` | packages/automation/src/index.ts:143-170 | one turn of that loop: replan first, then duplicate, overlap or claim |
| `AutomationClasses.AutomationStore.Recover` | packages/automation/src/index.ts:307-318 | the loop over expired leases takes the recovery step |
| `AutomationClasses.AutomationStore.Heartbeat` | packages/automation/src/index.ts:177-186 | renews the caller's lease to now plus the smaller of lease time and run timeout plus a minute |
| `AutomationClasses.AutomationStore.Complete` | packages/automation/src/index.ts:188-190 | ends the run as completed or failed for the lease owner |
| `AutomationClasses.AutomationStore.Cancel` | packages/automation/src/index.ts:192-194 | ends the run as cancelled for anybody |
| `AutomationClasses.AutomationStore.Finish` | packages/automation/src/index.ts:196-218 | takes the finish step; an invalid cost throws and leaves the state unchanged |
| `LimiterRuns.EveryRun` | packages/core/src/limiter.ts:86-194 | in any interleaving of arrivals, aborts, ends, suspends and resumes: active counts the unsuspended holders, somebody waits only while active >= limit >= 1, min <= limit <= max, successes < increaseEvery, active <= max plus resumed holders, and grants are FIFO: those granted followed by those queued are the arrivals; at every step a newcomer is granted if and only if active < limit, else it queues last, no grant leaves more than the limit of that moment active, and only a resume may exceed it |
| `LimiterRuns.StepKeeps` | packages/core/src/limiter.ts:98-192 | each event keeps that invariant |
| `LimiterRuns.StepGrants` | packages/core/src/limiter.ts:98-192 | the granting rules of that law for one step |
| `LimiterRuns.StartOk` | packages/core/src/limiter.ts:87-95 | the options, floored, with their defaults 16, 2 and 8, and clamped, start it; the ceiling starts at max |
| `LimiterRuns.QueueDrains` | packages/core/src/limiter.ts:98-134 | the head of the queue gets in after active - limit + 1 running holders end; there always are that many, so a queue never waits on suspended holders alone |
| `LimiterRuns.OverloadsHalve` | packages/core/src/limiter.ts:144-151 | k overloads with no success among them bring the ceiling to max(min, limit / 2^k), whatever else happens |
| `LimiterRuns.OverloadForfeits` | packages/core/src/limiter.ts:135-151 | an overload sets the ceiling to max(min, limit / 2) and forfeits the banked successes: from there n successes raise it by n / increaseEvery, up to max |
| `LimiterRuns.SuccessesRaise` | packages/core/src/limiter.ts:135-143 | n successes with no overload among them raise the ceiling by one per increaseEvery, counting those banked, up to max |
| `LimiterRuns.CeilingRestored` | packages/core/src/limiter.ts:135-151 | (max - limit) * increaseEvery successes after an overload restore max |
| `LimiterGate.Limiter.constructor` | packages/core/src/limiter.ts:86-95 | floors and clamps the options; the ceiling starts at max |
| `LimiterGate.Limiter.PumpWaiters` | packages/core/src/limiter.ts:98-103 | the loop admits the oldest waiters up to the ceiling, in order |
| `LimiterGate.Limiter.AcquireSlot` | packages/core/src/limiter.ts:109-130 | rejected when already aborted, granted below the ceiling, else queued last |
| `LimiterGate.Limiter.OnAbort` | packages/core/src/limiter.ts:122-126 | a queued waiter that aborts leaves the queue and nobody else moves |
| `LimiterGate.Limiter.ReleaseSlot` | packages/core/src/limiter.ts:131-134 | frees one slot and admits from the head |
| `LimiterGate.Limiter.ReacquireSlot` | packages/core/src/limiter.ts:170-179 | takes a slot back without queueing, even above the ceiling |
| `LimiterGate.Limiter.Finish` | packages/core/src/limiter.ts:180-192 | adapts the ceiling to the outcome, then frees the slot |
| `LimiterGate.Limiter.AdaptCeiling` | packages/core/src/limiter.ts:135-151 | success, overload and other failures change ceiling and bank as specified |
| `Framing.ReadChunks` | packages/acp/src/bounded-stream.ts:36-59 | for every way of cutting the bytes, the frames and the outcome are those of splitting the whole stream at newlines, dropping empty lines and stopping at the first oversized or unparsable one |
| `Framing.CutLines` | packages/acp/src/bounded-stream.ts:47-55 | the inner loop hands on every complete line of the buffer and leaves a rest without a newline |
| `Framing.DecodeIs` | packages/acp/src/bounded-stream.ts:47-59 | the frames are the nonempty lines, parsed and in order, before the first line that is too long or does not parse; the end says which it was, or that there was none |
| `Framing.WriteMessages` | packages/acp/src/bounded-stream.ts:21-25 | writes the longest run of messages within the limit, one line each, and fails at the first oversized one |
| `Framing.AcceptedIs` | packages/acp/src/bounded-stream.ts:21-25 | the writer takes exactly the messages before the first oversized one |
| `Framing.WrittenLines` | packages/acp/src/bounded-stream.ts:22-24 | on the wire each message is one line, with nothing between them |
| `Framing.RoundTrip` | packages/acp/src/bounded-stream.ts:20-59 | whatever the writer accepts is read back unchanged under the same limit, however the bytes are cut (newline-freeness from section 7 of RFC 8259) |
| `Framing.FlattenCut` | packages/acp/src/bounded-stream.ts:40-46 | splitting a chunk does not change the stream |
| `Framing.LinesAtNewline` | packages/acp/src/bounded-stream.ts:48-51 | a line ends at its newline and at no other place |
| `Replaying.RuntimeSlot.Consume` | packages/acp/src/runtime-agent.ts:114-131 | a frame with the next shared number joins the log; what is retained stays the buffer of the log and the byte total its exact sum |
| `Replaying.RuntimeSlot.Replay` | packages/acp/src/runtime-agent.ts:176-196 | answers a cursor as told from everything the slot ever saw: the ready frame has the last number; a cursor of this epoch from one below the first retained number up to the last gets exactly the later frames, every other is truncated |
| `Replaying.SequenceCounter.Next` | packages/acp/src/runtime-agent.ts:270-270 | numbers are handed out one by one across all slots |
| `Replaying.LogAscends` | packages/acp/src/runtime-agent.ts:114-118 | a slot's numbers ascend though other slots share the counter |
| `Replaying.LongestSuffix` | packages/acp/src/runtime-agent.ts:123-131 | what is retained is the longest suffix of everything the slot saw of at most 1024 frames and 1 MiB |
| `Replaying.EmptyBuffer` | packages/acp/src/runtime-agent.ts:125-131 | nothing is retained only when nothing was seen or the last frame exceeds the byte limit |
| `Replaying.ReplayComplete` | packages/acp/src/runtime-agent.ts:176-196 | for every cursor, a replay not reported as truncated returns exactly the slot's later events in order, if and only if the newest frame fits the byte limit |
| `Replaying.ReplayAnswers` | packages/acp/src/runtime-agent.ts:176-196 | the same for the specification, and what is answered when nothing is retained |
| `Replaying.RetainedCursor` | packages/acp/src/runtime-agent.ts:176-196 | the number of a retained frame is answered with exactly the later ones; a cursor before an evicted frame is truncated |
| `Replaying.ConsumeExtends` | packages/acp/src/runtime-agent.ts:110-131 | the class holds the buffer of its log, and events of other slots do not touch it |
| `Decisions.DecisionDesk.ObservePending` | packages/acp/src/runtime-agent.ts:148-174 | each event registers and clears exactly its pending ids; a new plan replaces the old one |
| `Decisions.RequestsSettle` | packages/acp/src/runtime-agent.ts:148-174 | a request is pending under its kind until the event that settles it |
| `Decisions.OthersStay` | packages/acp/src/runtime-agent.ts:148-174 | an event about one request leaves all others as they are |
| `Decisions.OnePlan` | packages/acp/src/runtime-agent.ts:163-172 | at most the plan presented last is pending, and none once its state has moved on |
| `Decisions.DecisionDesk.BeginDecide` | packages/acp/src/runtime-agent.ts:198-218 | same key and decision repeat the receipt, another decision conflicts, a stale id is refused, else the id leaves the desk before the send |
| `Decisions.DecisionDesk.SendFailed` | packages/acp/src/runtime-agent.ts:219-224 | a failed send puts the id back and forgets the receipt |
| `Decisions.EveryRun` | packages/acp/src/runtime-agent.ts:148-225 | in every interleaving each registration of a pending id has at most one send that succeeds, and a success is never forgotten |
| `Decisions.StepKeeps` | packages/acp/src/runtime-agent.ts:148-225 | a registration is pending, in flight or delivered: one of them, once; receipts are kept exactly for the last two |
| `Decisions.StartOk` | packages/acp/src/runtime-agent.ts:148-150 | an empty desk satisfies it |
| `Decisions.TakenOnce` | packages/acp/src/runtime-agent.ts:205-219 | two delivered sends never carry the same registration |
| `Decisions.AfterSuccess` | packages/acp/src/runtime-agent.ts:200-204 | after a success the same key and decision get the same receipt without sending, and another decision under the key conflicts, whatever happened since |
| `Decisions.NoSecondSend` | packages/acp/src/runtime-agent.ts:205-215 | no other send for a delivered registration can start |
| `Decisions.FailedDecidable` | packages/acp/src/runtime-agent.ts:219-224 | after a failed send the id can be decided again under the old key or any unused one |
| `Decisions.RepeatedReceipt` | packages/acp/src/runtime-agent.ts:200-204 | a repeated receipt speaks for a send that is delivered or still under way, and only the latter can fail |
| `Decisions.ReceiptThenBounce` | packages/acp/src/runtime-agent.ts:200-224 | a run in which the receipt is repeated and the send then fails |
| `Settlements.EveryRunRightIff` | packages/acp/src/runtime-agent.ts:148-225 | in every interleaving the pending ids are at every moment exactly those the events registered and did not settle or replace since and no send has taken, if and only if no send fails for a registration closed while it was under way |
| `Settlements.StepRightIff` | packages/acp/src/runtime-agent.ts:148-225 | the same for each step from a state where it holds |
| `Settlements.StartRight` | packages/acp/src/runtime-agent.ts:148-150 | it holds of an empty desk |
| `Settlements.SettledComesBack` | packages/acp/src/runtime-agent.ts:216-224 | a run in which a settled request is pending again and can be decided again |
| `McpRuns.EveryRun` | packages/core/src/mcp.ts:252-506 | in every interleaving of connect, drop, re-list, reconnect and close each registered tool belongs to a server with a client, is bound to that client and has a name derived from what it calls that providers accept; once close begins none is registered, ever again |
| `McpLaws.StepKeeps` | packages/core/src/mcp.ts:252-506 | each stretch between awaits keeps that |
| `McpRuns.StartOk` | packages/core/src/mcp.ts:215-239 | a new hub satisfies it |
| `McpRuns.StartKnows` | packages/core/src/mcp.ts:258-303 | after start every configured server is known in order, with its client if its connect succeeded, without client and tools if not |
| `McpRuns.CloseForgets` | packages/core/src/mcp.ts:735-748 | after close no tool, name or entry is left, and a dial or a start that settles later adds nothing |
| `McpRuns.DropDials` | packages/core/src/mcp.ts:461-470 | a drop leaves the server without tools and client and starts its count of dials, unless none is allowed |
| `McpRuns.DialsExactly` | packages/core/src/mcp.ts:468-505 | as long as dials fail a dropped server is dialed maxAttempts times and no more, and giving up changes nothing else |
| `McpLaws.CloseKeeps` | packages/core/src/mcp.ts:735-747 | close leaves no tool registered before its first await |
| `McpLaws.UnregisterKeeps` | packages/core/src/mcp.ts:347-354 | unregistering removes everything bound to the server and nothing else changes owner |
| `McpLaws.RegisterKeeps` | packages/core/src/mcp.ts:324-344 | registering a server without tools binds all its tools to its present client |
| `McpLaws.ExposeBinds` | packages/core/src/mcp.ts:333-343 | every listed tool gets a name; a name calls the last tool listed under it, by its own name, over this client; bindings under other names stay |
| `McpLaws.ExposeNames` | packages/core/src/mcp.ts:334-338 | the readable name is kept unless a live tool has it; then the hashed one is used |
| `McpLaws.OnlyHashedOverwrites` | packages/core/src/mcp.ts:333-341 | a registration takes over another tool's name only where the hashed name is itself taken |
| `McpServed.EveryRunServesIff` | packages/core/src/mcp.ts:252-506 | in every interleaving, at every moment each connected server's names call, in order, the tools of the last list accepted from it over its present client, if and only if no registration in the run takes a name that another tool uses |
| `McpServed.StepServesIff` | packages/core/src/mcp.ts:252-506 | the same for each stretch between awaits from a state where it holds |
| `McpServed.StartServes` | packages/core/src/mcp.ts:215-239 | it holds of a new hub |
| `McpServed.RegisterServesIff` | packages/core/src/mcp.ts:324-344 | after registering a server's list all tools of all servers are called by their names if and only if each tool in turn finds a name no other tool uses |
| `McpServed.CleanIff` | packages/core/src/mcp.ts:333-341 | that condition is equivalent to: every listed tool is called by its name and no earlier binding is changed |
| `McpServed.LostWithinServer` | packages/core/src/mcp.ts:325-341 | of three tools of one server the second is called by no name, for every server and stem of at most 19 characters together |
| `McpServed.LostAcrossServers` | packages/core/src/mcp.ts:325-341 | of three servers offering one tool the second has none that can be called |
| `McpNames.NamesAccepted` | packages/core/src/mcp.ts:798-819 | whatever servers and tools are called, the exposed names have 1 to 64 of the characters providers accept |
| `McpNames.ReadableKept` | packages/core/src/mcp.ts:806-809 | a name that is fine already stays readable if and only if it has at most 64 characters |
| `McpNames.Base36Reads` | packages/core/src/mcp.ts:817-817 | the hash suffix is the numeral of the hash in base 36 |
| `McpNames.KnownHash` | packages/core/src/mcp.ts:834-838 | a known value of the hash |
| `McpNames.SuffixedEqualIff` | packages/core/src/mcp.ts:810-819 | two names with hash suffixes are equal if and only if the hashes and the trimmed bases are |
| `McpNames.NeighboursClash` | packages/core/src/mcp.ts:834-838 | the hash does not tell two neighbouring units from the pair one above and 33 below, anywhere in a string |
| `McpNames.Hashed` | packages/core/src/mcp.ts:834-838 | the loop with its 32-bit shift computes the hash: times 33 plus the unit, modulo 2^32 |
| `McpRuns.BeganMeans` | packages/core/src/mcp.ts:394-402 | a re-list begins only when none is in flight for its key, on the client of that moment |
| `McpRuns.QueuedIffPending` | packages/core/src/mcp.ts:377-391 | a key is queued if and only if a trigger came after the last re-list began |
| `McpRuns.EveryTriggerServed` | packages/core/src/mcp.ts:377-391 | every list-changed trigger is followed by a re-list that begins after it, unless the key is still queued |
| `McpRuns.QueuedIsServed` | packages/core/src/mcp.ts:377-391 | a queued key stays queued until a re-list begins, which happens as soon as the one in flight returns and its loop turns |
| `McpRuns.QuietEnds` | packages/core/src/mcp.ts:377-391 | with nothing queued the re-list that returns frees its key, and the next trigger begins another at once |
| `McpClasses.McpHub.RegisterServerTools` | packages/core/src/mcp.ts:324-344 | the loop exposes and registers the tools one by one as specified, each definition with its own tool name |
| `McpClasses.McpHub.UnregisterServerTools` | packages/core/src/mcp.ts:347-354 | the loop frees every name of the server in both sets |
| `McpClasses.McpHub.StartSettled` | packages/core/src/mcp.ts:258-293 | registers the settled connects in configuration order, or nothing once closed |
| `McpClasses.McpHub.ScheduleReconnect` | packages/core/src/mcp.ts:461-470 | drops the tools and the client before the first await, once per server |
| `McpClasses.McpHub.RedialSettled` | packages/core/src/mcp.ts:470-505 | adopts the new client and its tools, tries again, gives up, or bails after close |
| `McpClasses.McpHub.StartRefresh` | packages/core/src/mcp.ts:394-402 | captures the client before the await, or returns at once |
| `McpClasses.McpHub.Coalesce` | packages/core/src/mcp.ts:377-386 | a trigger starts a re-list or is remembered once |
| `McpClasses.McpHub.RefreshSettled` | packages/core/src/mcp.ts:403-411 | swaps the tools only under the captured client |
| `McpClasses.McpHub.RefreshReturned` | packages/core/src/mcp.ts:387-391 | runs again for a remembered trigger, else forgets the key |
| `McpClasses.McpHub.CloseHub` | packages/core/src/mcp.ts:735-746 | marks the hub closed, then unregisters every server |
| `McpClasses.McpHub.CloseSettled` | packages/core/src/mcp.ts:747-748 | forgets the entries once the clients are closed |
| `Blackboards.BoardAfterPosts` | packages/core/src/blackboard.ts:57-70 | after any posts the board holds, in posting order, the last min(200, L) of the L decisions and conflicts and the last min(T, 200 - min(200, L)) of the T claims and infos |
| `Blackboards.OnlineIsClosedForm` | packages/core/src/blackboard.ts:57-70 | evicting one note per post, whatever the interleaving of kinds, leaves exactly the closed form |
| `Blackboards.DecisionsSurvive` | packages/core/src/blackboard.ts:47-62 | while at most 200 decisions and conflicts were posted, reading either kind returns every one ever posted |
| `Blackboards.PostKeeps` | packages/core/src/blackboard.ts:57-70 | one post and at most one eviction lead from one closed form to the next |
| `Blackboards.Blackboard.Post` | packages/core/src/blackboard.ts:64-70 | keeps the board the closed form of all posts; the note is the trimmed text, cut at 2000 characters |
| `Blackboards.Blackboard.Read` | packages/core/src/blackboard.ts:71-74 | the newest notes of a kind, limited after filtering |
| `Blackboards.ScopedPicks` | packages/core/src/blackboard.ts:71-74 | a read scoped to a kind has exactly its notes, in order |
| `Blackboards.LastIs` | packages/core/src/blackboard.ts:71-74 | a limited read has the newest of them, as many as asked for or all |
| `Blackboards.Blackboard.Clear` | packages/core/src/blackboard.ts:78-80 | starts over with no posts |
| `Text.TrimmedIs` | packages/core/src/blackboard.ts:65-65 | trimming takes the white space at both ends and nothing else |
| `LoopLexer.LexLoopArgs` | packages/core/src/loop.ts:67-121 | the nested loops compute the tokens of the whole input, or null exactly when a quote stays open |
| `LoopLexer.ReadWord` | packages/core/src/loop.ts:78-116 | the inner loop reads one word up to unquoted white space or the end |
| `LoopLexer.LexUndoesQuoting` | packages/core/src/loop.ts:63-121 | for any values, wrapping each in either quote with quote and backslash escaped, joining by spaces and lexing gives them back, all fully quoted |
| `LoopLexer.QuotesKeepVerbatim` | packages/core/src/loop.ts:64-99 | any text in quotes that none of its own quotes closes is one token: a backslash goes only where it stands before the active quote or another backslash, every other one is kept |
| `LoopLexer.EscapedStays` | packages/core/src/loop.ts:64-99 | that unescaping undoes escaping, whose result no quote closes |
| `LoopLexer.OpenQuoteFails` | packages/core/src/loop.ts:117-126 | a quote that no later one closes makes the whole input unreadable; taking ranges out then only trims it |
| `LoopLexer.SameWord` | packages/core/src/loop.ts:78-119 | a word reads the same wherever it stands before white space |
| `LoopLexer.LexReads` | packages/core/src/loop.ts:67-121 | each token's slice of the input is by itself one word with that value |
| `LoopLexer.WithoutRangesKeeps` | packages/core/src/loop.ts:123-131 | taking ranges out of a lexable input gives a lexable one; all other tokens come back in order with their quoting, and all their values do if and only if the last kept source does not end in escaped white space |
| `LoopLexer.OutsideIs` | packages/core/src/loop.ts:127-127 | exactly the tokens that lie within no range are kept, each where it stood |
| `LoopLexer.EscapedSpaceLost` | packages/core/src/loop.ts:123-161 | an input where it does, with the flag `--unlimited` taken out, and what is lost |
| `Compaction.CompactKeepsPairs` | packages/core/src/compaction.ts:167-217 | if every tool message follows its assistant call in one contiguous block, so it does in the result, which starts with a user message |
| `Compaction.CompactKeepsTurns` | packages/core/src/compaction.ts:198-217 | from an input without two adjacent user messages the result has none if and only if the kept part does not start with a malformed user message |
| `Compaction.MalformedStaysBehind` | packages/core/src/compaction.ts:211-217 | a transcript whose compaction has two user messages in a row |
| `Compaction.CompactKeepsSuffix` | packages/core/src/compaction.ts:149-221 | the result tells, in a user message in front, the summary under its header, the tool calls if there are any, and then a leading user turn's own text; behind it stands verbatim the suffix from the greatest non-tool index at or below n - keep (1 in the emergency); overrun marks exactly the emergency case and freed is the drop of the estimate, or 0 |
| `Compaction.UntouchedIff` | packages/core/src/compaction.ts:130-187 | exactly when nothing is done: below the trigger, too short, only tool results back to the start, or a blank summary |
| `Compaction.CompactMessages` | packages/core/src/compaction.ts:130-222 | the method with its walk-back loop computes that result |
| `Compaction.ReplaceOlder` | packages/core/src/compaction.ts:179-221 | summarize, fold, and report the drop in the estimate |
| `Compaction.EstimateTokens` | packages/core/src/compaction.ts:55-85 | the loops charge each message and part and round up a token per CJK character and per four others |
| `Compaction.EstimateOfOne` | packages/core/src/compaction.ts:55-85 | text costs a token per CJK character and one per four others, rounded up, and a binary part the same whatever it holds |
| `Compaction.EstimateGrows` | packages/core/src/compaction.ts:55-85 | one message more never lowers the estimate, and adds at most its own |
| `Compaction.CountCJK` | packages/core/src/compaction.ts:20-41 | stepping over code units the loop counts exactly the CJK code points, surrogate pairs once |

## Left out

- Real git, processes, files, timeouts and both file locks: a save or a locked body is one atomic step, and how a stale lock is taken over is not modelled.
- Checkpoint metadata beyond id, label, commit, time, green marker and session: conversation lengths and gate summaries travel with an entry unchanged. Diffs, the non-git directory and a failing `update-ref` after a good commit are not modelled; paths are plain strings and a working tree is flat.
- CheckpointSessions.EverySystemRun: assumes tagged entries and saves that fit, because beyond the cap the newest 50 of all sessions win and a list out of time order is sorted (`CheckpointMerge.PruneViews` and `CheckpointMerge.SortKeepsViewIff` say exactly when views survive); untagged legacy entries appear only in `CheckpointMerge.SaveMeaning`.
- CheckpointRestarts.EveryRunLeaks: a session whose own save failed is not covered, since the file may then list entries whose refs are gone; after the clock went back a restart may order a timeline otherwise than it was created (`CheckpointMerge.ClockBackSwaps`).
- Automation fields that no decision reads (names, prompts, reasons and their length bound), the JSON schema, `list` and `history`; ids are numbers and `localeCompare` is their order; `Number(text)` is a parameter of the cron parser and dates outside the range of Date are not modelled. A stored trigger is kept parsed.
- AutomationRuns.EverySlotOnce: assumes positive intervals, as the schema of triggers demands.
- Limiter options that are not numbers, the `onChange` callback, and which errors count as overload: the outcome of a run is an input.
- LimiterRuns.EveryRun: suspends and resumes are paired, as the session calls them.
- Framing.RoundTrip: JSON text is a pair of given functions that round-trip and never contain a raw newline; cancelling a stream and the validation of `maxFrameBytes` are not modelled, nor that a failed ReadableStream may drop frames not yet pulled.
- ACP prompt waiters, session store, forking, and the translation of events to updates.
- Decisions: a digest stands for its decision, and receipts are never purged, as in the source.
- MCP transports, content rendering, per-call deadlines, environment expansion, status texts, resources and prompts and their aggregate tools, and a host without `unregisterTool` is not modelled. Closing transports that arrive late has no state here. A lone surrogate in a name is not modelled.
- McpRuns.EveryTriggerServed: a trigger still queued at the end of a run is excluded because a run may end there; `McpRuns.QueuedIsServed` says what serves it.
- `formatNotes`, and note texts are sequences of characters where the source counts UTF-16 units.
- `parseLoopArgs` beyond the lexer (flag grammar, warnings, durations) and `LoopController`, whose counters add only easy members.
- The text of the tool-call index in compaction, and JSON encoding: given functions. Messages carry only roles, text, tool calls, tool results and binary parts.
- OAuth, permissions, orchestration, desktop, editor extension, command line and cloud agent: not part of this model.
