# Model of a durable scheduler and its companions

A Dafny model of the parts of this repository whose correctness spans many calls,
with the properties proved for all inputs, runs and interleavings. `dafny verify
dfyconfig.toml` checks the whole of it.

## What is modelled

**The worker loop** (`Worker`, with `WorkerWorld`, `WorkerState`, `WorkerReload`,
`WorkerLaunch`, `WorkerRounds`, `WorkerFirstRound`, `WorkerRuns`, `WorkerSteps`,
`WorkerRepeats`, `WorkerAgain`).
`Worker.Worker` is the loop with its slots, owed endings, retries and poll.
`WorkerWorld.World` is everything else: before each of the worker's store calls other
processes make any calls they like, the call itself may be answered, lost or fail,
clocks read what they will (the monotonic one never back), jobs finish with any report
and the operator may stop or signal at any time. The world plays a script, so a
statement about all scripts is one about all behaviours; it also keeps the logs of
launches and of the writes asked for, and notes the generations whose stored next run
another process has moved back. `WorkerState.Safe` is the invariant: distinct slots that
owe no ending, a launch log in which no occurrence whose `set_next` took effect repeats,
a stored next run past every such launch, and every run in exactly one of a slot,
completed and cancelled. Every method keeps it. `WorkerRounds` says what a round, a sleep
and a drained event come to, by what can be seen of the worker before and after and by
the turns of the script: `Pass` ensures that of one round, `Loop` and `Drain` of as many
as they are watched for, and `Lifetimes` of a whole history of workers; `WorkerFirstRound`
derives which rows are then launched. `WorkerRuns` has the same changes as steps
on values, with a restart between any two; calls of others that fall between the parts
of a step come before it. Every method that deals with finished runs, owed endings,
reloads, due slots or the drain ensures that some run of these steps leads from its old
state to its new one (`LeadsTo`). `WorkerRepeats` proves what is never launched again
and `WorkerAgain` exactly what can be, by a restarted worker and by the same one.

**The schedule store** (`ScheduleTable`, `StoreHistory`, `StoreReads`): a table of
rows and one function per call, with fencing, the row cap, multi-row writes and paging.

**Occurrences and jitter** (`Expr`, `Crontab`, `Types`, `Jitter`): the merged
iterator, the shifted search, day-of-week fields, stamps, and rejection sampling.

**Cooperative shutdown** (`Operation`, `OperationRuns`, `Join`, `Context`, `Scope`,
`Closing`): the controller's locked sections as methods and as atomic steps of any
interleaving, the join protocol with the guard's drop in two steps, derived contexts and
the commit hook, and the evidence a scope attaches to a failure, against a database that
may veto, lose, fail or leave open a commit. `Closing` puts them together: a commit is
admitted under the controller's lock and finished by the database later, and whatever
sections come in between, what a stop means for the stored content is exactly stated.

**Configuration overrides** (`ConfigValue`, `ConfigOverrides`, `ConfigNames`): the deep merge, the
in-place path write with its stack of frames, and the application of an environment.

**The cfg scanner** (`CfgPredicate`, `CfgMeaning`, `CfgPrinting`): the parser, the
three-valued evaluation, and what a scanned attribute means.

## Where the code is not what its documentation says

- `jitter.rs` says that a jittered run never drifts into the following occurrence. The
  bound samples only the next gap: `Jitter.NeverDriftsInRange` gives the exact
  condition and `Jitter.IrregularExpressionDrifts` an expression that breaks it.
- `next_run` is documented as the first jittered run strictly after an instant. It
  gives up when it cannot look back by the jitter: `Expr.NextRunExact`.
- `worker.rs:542-544` says that an exhausted schedule whose ending write failed can never
  run again. A write whose failure is in doubt counts as settled (`worker.rs:1076`), and
  if it did not reach the row a later reload of the same worker builds the slot anew, at
  the occurrence that has run: `WorkerAgain.EndedUnlessUnreached`. The sentence holds for
  an owed ending while no retry of it comes back in doubt without having reached the row:
  `WorkerAgain.OwedNeverRunsAgain`.
- `worker.rs:542` says that what is ended as exhausted is a schedule whose last occurrence
  has run. An idle slot without a next run is also ended when that occurrence was not
  launched: `WorkerLaunch.PassEndsUnlaunched` says exactly when.

## Limits of what it promises

- A `set_next` failure that is known not to need reconciliation permits the launch, and
  so does having no next run to store. After either, unless the write reached the row, a
  restart may launch the occurrence again, and so may the same worker, once it has
  dropped the slot while the row stays current and stores no later next run:
  `WorkerAgain.RepeatableUnlessStored`, `WorkerAgain.DropDecides`. A slot is dropped for
  a reload that finds its row disabled, gone or rewritten, for a stop check, or at its
  last occurrence: `WorkerRepeats.WhySlotsGo`. For as long as it stays its launches go
  strictly forward: `WorkerRepeats.SlotLaunchesIncrease`.
- A stop or a cancel ends admission, not what was admitted: the controller's lock is not
  held across the native commit, so that a commit admitted before may become durable
  after it, as documented: `Closing.CommitOutlivesACancel`. Nothing else does:
  `Closing.ClosedOnlyFinishes`, `Closing.WritesExactlyWhatWaits`. Such a commit is
  reported as committed and late: `Closing.LateCommitIsReported`.
- The commit hook reads its parents before it takes its own controller's lock, as
  documented: `Context.HookMissesOnlyLateParents` and `Context.ParentMayCancelBetween`.
- Overrides are applied in the byte order of names, as documented, which is not the
  order of key paths: `ConfigOverrides.LongerPathMayComeFirst`, and for any names
  `ConfigOverrides.OverrideReadsBackExactly`.
- `merge` is not associative, which nothing claims: `ConfigValue.MergeAssociatesExactly`.

## How to read the model

Instants are nanoseconds since the Unix epoch, on either clock, and durations are
nanoseconds. A `cron` schedule is the strictly increasing list of its instants. Text
and lists that the original takes as bytes are sequences of characters. Errors are
values. Parameters called `now`, `later`, `live` or `admitted` are readings of clocks
and answers of other components at the point where the original asks for them.

## Model

| member | source | states |
|---|---|---|
| Worker.Lifetimes | crates/sc-cron/src/worker.rs:432-488 | Any number of workers, one after the other and each dropped after any number of rounds and drain events, on a store other processes write as they like: no launch repeats or goes back before an occurrence whose `set_next` took effect, answered or not, each such write met an active, enabled row of that generation, and the stored next run stays past it, for every generation whose next run nobody else has moved back; each life is of rounds and drained events as `Loop` and `Drain` state them, from what the one before left; the whole history is a run of the steps of `WorkerRuns`, with a restart between two workers |
| WorkerState.AtMostOnce | crates/sc-cron/src/worker.rs:776-800 | In every reachable state an occurrence whose `set_next` took effect is launched by no later launch of the log, unless another process has moved its next run back |
| WorkerAgain.RepeatableUnlessStored | crates/sc-cron/src/worker.rs:764-800 | For a launch of a current row that stores its occurrence, in runs in which nobody moves the next run back: the occurrence can be launched again, within the life of the same worker too, if and only if the `set_next` did not take effect, for want of a next run or because it failed without reaching the row; and not at all while the slot stays |
| WorkerAgain.RepeatableExactly | crates/sc-cron/src/worker.rs:1023-1037 | At any point between reloads with its slot past an occurrence or gone: without anyone moving its next run back it can be launched again if and only if its row is still current and stores no later next run; in the life of this worker, exactly then unless a stop was requested; without a drop of the slot, exactly if moreover there is none |
| WorkerRepeats.PastIsNeverAgain | crates/sc-cron/src/worker.rs:747-800 | Once the stored next run, the slots and the rows being merged lie past an occurrence, no run of any length that does not move its next run back launches it again |
| WorkerRepeats.SlotLaunchesIncrease | crates/sc-cron/src/worker.rs:764-800 | For as long as its slot is not dropped a schedule is launched for strictly later occurrences only, stored or not, whatever others write |
| WorkerRepeats.AgainOnlyAfterADrop | crates/sc-cron/src/worker.rs:764-800 | A slot whose occurrence is launched again in the life of its worker was dropped before that while its row was current and stored no later next run |
| WorkerRepeats.LifeDoesNotRepeat | crates/sc-cron/src/worker.rs:747-800 | The life of a worker launches nothing that it begins past, unless another process has moved its next run back |
| WorkerRepeats.LifeRepeatsAfterADrop | crates/sc-cron/src/worker.rs:764-800 | Where the life of a worker launches again what a slot was past, and nobody has moved its next run back, the steps it took drop the slot while its row is current and stores no later next run |
| WorkerRepeats.WhySlotsGo | crates/sc-cron/src/worker.rs:605-673 | In the life of a worker a slot goes only because a reload found its row disabled, gone or rewritten, because of its own stop check, or because it is idle with no next run; no slot of the generation and no listed row to build one from is left |
| WorkerAgain.DropDecides | crates/sc-cron/src/worker.rs:605-673 | Whatever drops a slot, a reload, a stop check or the end of its occurrences: the same worker can launch the occurrence again, without a further drop, if and only if the row is then current and stores no later next run |
| WorkerAgain.EndedUnlessUnreached | crates/sc-cron/src/worker.rs:1041-1082 | When an exhausted schedule is ended whose row stores no run past its last occurrence: that can be launched again, by the same worker too, if and only if the ending write did not reach the row, whether it is owed or counts as settled |
| WorkerAgain.OwedNeverRunsAgain | crates/sc-cron/src/worker.rs:542-565 | An exhausted schedule whose ending is owed is not launched again in the life of the worker, in any run whose retries each reach the row or are known to fail |
| WorkerAgain.RowRepeats | crates/sc-cron/src/worker.rs:517-524 | The reload of a current, enabled row without a slot or an owed ending makes one that launches the occurrence its stored next run still names |
| WorkerRuns.EveryRunIsSound | crates/sc-cron/src/worker.rs:432-488 | Store calls by anyone, reloads row by row, finished runs, stop checks, endings, retries and served slots, in any order and with a restart between any two of them, keep the invariant |
| WorkerState.LaunchStep | crates/sc-cron/src/worker.rs:839-892 | Launching a due occurrence keeps the invariant once the slot and, where the write took effect, the stored next run are past it |
| WorkerState.TableStep | crates/sc-cron/src/sqlite.rs:519-600 | Every store call keeps the worker's invariant, if a `set_next` among them names a time past the stored launches or does not move a stored next run back |
| WorkerState.OthersStep | crates/sc-cron/src/sqlite.rs:519-600 | Every store call of another process keeps the invariant, the generation whose next run it moves back noted |
| WorkerState.InterferenceKeepsSafe | crates/sc-cron/src/worker.rs:571-597 | Any sequence of other processes' calls between two of the worker's keeps the invariant, the generations it moves back noted |
| WorkerState.ListIsListed | crates/sc-cron/src/sqlite.rs:468-517 | Every row a list gives lies past every stored launch of its generation, so a slot may be built from it |
| WorkerState.ExecNext | crates/sc-cron/src/sqlite.rs:535-548 | The stored next run of a generation changes only by a `set_next` that names it |
| WorkerState.DistinctNames | crates/sc-cron/src/worker.rs:605-673 | Slots of distinct ids have pairwise distinct schedule names |
| WorkerState.MissedMeansBacklog | crates/sc-cron/src/worker.rs:767-773 | Occurrences count as missed exactly when, with the due one, at least two have come due |
| WorkerState.BackoffDoublesToCap | crates/sc-cron/src/worker.rs:178-201 | The retry delay starts at one second, doubles with each failure and never passes sixty |
| WorkerState.BackoffWithinAMinute | crates/sc-cron/src/worker.rs:189-192 | A retry comes exactly one delay after the failure it follows, between one second and one minute, and counts one failure more, up to the 32-bit maximum |
| WorkerReload.SleepEndsByTheDeadline | crates/sc-cron/src/worker.rs:494-498 | A sleep that ends no later than the wall instant of a run's deadline does not take the monotonic clock past that deadline, and one that ends then, before the end of time, takes it exactly there |
| WorkerState.StartOver | crates/sc-cron/src/worker.rs:605-606 | Dropping every slot aborts the runs and keeps the invariant: a restart loses no launch from the accounts |
| WorkerState.TakeRun | crates/sc-cron/src/worker.rs:897-912 | Taking a run out of its slot moves it to exactly one of completed and cancelled |
| WorkerState.CancelSlot | crates/sc-cron/src/worker/worker_runs.rs:512-516 | Dropping a slot counts the run it held as cancelled and no other |
| WorkerState.NotPendingHasNoSlot | crates/sc-cron/src/worker.rs:536-565 | A generation whose ending is owed has no slot |
| WorkerLaunch.PolicyDecides | crates/sc-cron/src/worker.rs:802-837 | An idle due slot is wanted whatever the backlog when coalescing, and when skipping exactly if no later occurrence has come due or none can be looked for |
| WorkerLaunch.PassKeepsPolicy | crates/sc-cron/src/worker.rs:802-837 | In a whole pass each slot is launched once or not at all: once exactly if it is not held, due, idle, permitted by the store, admitted, and coalescing or the only occurrence due |
| WorkerLaunch.PassedStep | crates/sc-cron/src/worker.rs:747-800 | Launching, moving on or removing the slot the pass has come to extends the decisions by one and leaves the slots not yet visited as they were |
| WorkerLaunch.PassEndsUnlaunched | crates/sc-cron/src/worker.rs:783-837 | A pass ends a schedule if and only if its slot was due, not held and idle, with no next run, and its last occurrence was not launched: as the operation admitted no launch, or as skipping dropped it with something missed |
| WorkerLaunch.PassLeavesNothingDue | crates/sc-cron/src/worker.rs:747-800 | The slots a whole pass leaves are not due, except those it found held by name |
| Worker.Worker.constructor | crates/sc-cron/src/worker.rs:356-390 | A new worker wants a reload, holds no slot, owes nothing and finds the runs an earlier one left aborted; all else is as that one left it; the poll interval is at least one second; it stands where the step `Restart` leads |
| Worker.Worker.Write | crates/sc-cron/src/worker/store_calls.rs:5-42 | One store write with the calls of others before it: the invariant is kept, the write took effect on the table it met or left that table, and an answer says which |
| WorkerWorld.World.Call | crates/sc-cron/src/worker/store_calls.rs:5-42 | A guarded call meets the table as others left it; it is answered or fails as the turn says, took effect or not, and is noted with that; calls fail only if the script has some fail, and with nobody else writing the writes noted account for the table |
| WorkerWorld.World.List | crates/sc-cron/src/worker/store_calls.rs:5-42 | A list gives the readable active rows as others left them, or fails |
| Worker.Worker.StopRequested | crates/sc-cron/src/worker.rs:411-430 | A stop once requested stays requested, and one is noted only when the turn asks for it |
| Worker.Worker.PersistNext | crates/sc-cron/src/worker.rs:1011-1037 | Launch may proceed exactly after an answer or a failure known not to need reconciliation; a fenced write asks for a reload; what stands behind the launch is the row the write changed, or that it changed none |
| Worker.Worker.Record | crates/sc-cron/src/worker.rs:971-1008 | Asks exactly for the record of this outcome of this generation at this reading of the clock, to the microsecond; a reload is asked for exactly if the record was fenced |
| Worker.Worker.DisableRow | crates/sc-cron/src/worker.rs:1084-1130 | Asks exactly for the disable of this generation with this reason and time; a known failure gets a retry date by the backoff, a fenced write asks for a reload, and an answer clears the failures when nothing is owed |
| Worker.Worker.RebuildLater | crates/sc-cron/src/worker.rs:525-527 | The write retry is one failure further, by the backoff |
| Worker.Worker.End | crates/sc-cron/src/worker.rs:1041-1082 | Asks exactly for the end of this generation with this reason and time, which counts as settled unless its write is known to have failed; a reload is asked for exactly if it was fenced |
| Worker.Worker.EndExhausted | crates/sc-cron/src/worker.rs:545-553 | A known failure leaves the ending owed and gets a retry date by the backoff; otherwise it is settled; no ending owed before is forgotten |
| Worker.Worker.RetryEnds | crates/sc-cron/src/worker.rs:556-565 | Each owed ending is asked for once, in order, until a stop is requested, and is settled or stays owed with a retry date; the worker then stands where some run of steps leads |
| Worker.Worker.RetryEnd | crates/sc-cron/src/worker.rs:557-563 | One owed ending is settled, or still owed |
| Worker.Worker.BuildFor | crates/sc-cron/src/worker.rs:653-658 | An enabled row without a slot gets one unless a stop was requested, its ending is owed, or it had no next run and its ending is settled; no ending owed before is forgotten |
| Worker.Worker.MergeMatched | crates/sc-cron/src/worker.rs:608-637 | An enabled row's slot is put back as it is; a disabled row's slot goes and its run is cancelled |
| Worker.Worker.ListRows | crates/sc-cron/src/worker.rs:579 | The rows read lie past every stored launch and name no id twice |
| Worker.Worker.NewSlot | crates/sc-cron/src/worker.rs:676-707 | No slot is made for a generation whose ending is owed; a row without any next run is ended; a new slot is idle and runs next when its row says, past its stored launches; a row with a next run asks nothing of the store |
| Worker.Worker.ComputeNext | crates/sc-cron/src/worker.rs:681-693 | A row without a stored next run gets the first run after now, which is stored when there is one |
| Worker.Worker.Merge | crates/sc-cron/src/worker.rs:605-673 | A reload keeps, run included, exactly the slots whose generation is active and enabled, aborts every other run, gives slots distinct ids and every enabled row a slot, unless a stop was requested, its ending is owed, or no next run was left for it and its ending is settled; the worker then stands where some run of steps leads |
| Worker.Worker.MergeRow | crates/sc-cron/src/worker.rs:607-658 | One row keeps its slot as it is, drops it with its run cancelled, or gets one built |
| Worker.Worker.CancelRest | crates/sc-cron/src/worker.rs:659-672 | The slots no row matched are dropped and their runs are aborted |
| Worker.Worker.Reload | crates/sc-cron/src/worker.rs:571-597 | The rows are read or the call fails as the script has it: a read makes the slots over by the readable active rows others left, asks nothing else of the store and arms the poll from before the query; a failure leaves everything, with a date by the backoff; the wish for a reload is cleared; the worker then stands where some run of steps leads |
| Worker.Worker.ArmPoll | crates/sc-cron/src/worker.rs:580-583 | The poll is due one interval after the read began, when a date-time can hold that |
| Worker.Worker.ArmRetry | crates/sc-cron/src/worker.rs:586-595 | A failed read is retried by the backoff, one failure further |
| Worker.Worker.Complete | crates/sc-cron/src/worker.rs:897-969 | A slot is removed exactly when its stop check asked for it or its schedule is exhausted; the write that ends or disables it was then answered, fenced with a reload asked for, or uncertain, or is known to have failed with a retry date; the writes asked for are exactly those its report calls for, in order; the worker then stands where some run of steps leads |
| Worker.Worker.RecordReport | crates/sc-cron/src/worker.rs:925-957 | A result is recorded as it is, a panic as a failure, an aborted run not at all |
| Worker.Worker.ObeyStopCheck | crates/sc-cron/src/worker.rs:914-924 | A stop check's delete ends the schedule and its disable disables it, with the reason it gave |
| Worker.Worker.DeleteRow | crates/sc-cron/src/worker.rs:914-919 | A delete known to have failed gets a retry date by the backoff; any other is settled |
| Worker.Worker.ExpireRun | crates/sc-cron/src/worker.rs:728-744 | An expired run leaves its slot as completed; it is recorded as timed out exactly if joining it gave a cancellation, and else as what the join gave; the slot goes exactly if that asks for it or nothing is left to run |
| Worker.Worker.Expire | crates/sc-cron/src/worker.rs:710-745 | Each slot is looked at once, unless stopped: a run is taken out exactly if its deadline had passed on a clock reading of this pass, and recorded as timed out or as what its join gave; the slots left, the completed runs and the writes are those of the looks, in order; the worker then stands where some run of steps leads |
| WorkerRounds.SweepsLeaveNoneOverdue | crates/sc-cron/src/worker.rs:710-745 | Once every slot was looked at no run is overdue by the first reading of the clock, and idle slots and runs still in time are all there |
| Worker.Worker.LaunchSlot | crates/sc-cron/src/worker.rs:764-800 | A due slot moves to the first run after now, and launches exactly when the store permits, the run is admitted, none is in flight and the policy wants it; it is removed exactly when idle with no next run, and then ended; the writes asked for are exactly those; all but that end is the step `Serve` of `WorkerRuns`, and all of it a run of steps unless the worker was asked to stop |
| Worker.Worker.MoveAndStore | crates/sc-cron/src/worker.rs:771-782 | The slot moves to the first run after now before that is stored; what permits the launch is an answer, a known failure or no next run |
| Worker.Worker.StoreNext | crates/sc-cron/src/worker.rs:776-782 | The next run is stored if there is one; the launch is permitted by an answer, a known failure or no next run, and backed by the row the write changed |
| Worker.Worker.LaunchOrEnd | crates/sc-cron/src/worker.rs:783-795 | Launches or not as selected; removed exactly when idle with nothing left to run, and then ended |
| Worker.Worker.LaunchSelected | crates/sc-cron/src/worker.rs:802-837 | Launched exactly if admitted, idle and not dropped by the policy; otherwise nothing changes |
| Worker.Worker.Launch | crates/sc-cron/src/worker.rs:839-892 | A launch is admitted as the operation says; only then is it logged |
| Worker.Worker.StartRun | crates/sc-cron/src/worker.rs:846-892 | The run, its deadline one timeout after the reading of the monotonic clock, is put in its slot and appended to the log |
| Worker.Worker.LaunchDue | crates/sc-cron/src/worker.rs:747-800 | A pass makes one decision per slot it comes to, all of them unless a stop cuts it short: the slots left, the launches and the writes are those of the decisions, in order; each slot is launched once or not at all, once exactly if not held, due, idle, permitted, admitted, and coalescing or nothing missed; nothing stays due but what is held; a name is held, a launch refused or a write failed only where the world does so; the worker then stands where some run of steps leads |
| Worker.Worker.Wake | crates/sc-cron/src/worker.rs:491-511 | The wake is the least of every next run not held by name, run deadline, retry and poll date, or the end of time without any, by readings of both clocks taken for it |
| Worker.Worker.ReloadIfDue | crates/sc-cron/src/worker.rs:448-450 | The rows are read again exactly when that is wanted, a write retry was due, or the retry or the poll is due; otherwise nothing is changed |
| Worker.Worker.RetryWrites | crates/sc-cron/src/worker.rs:443-447 | Owed endings are asked for again exactly when their date has come, each once, and afterwards have a date again; otherwise nothing is changed |
| Worker.Worker.Serve | crates/sc-cron/src/worker.rs:451-453 | Every slot is looked at for an overdue run, and then, by a reading of the clock taken after that, the pass deals with every slot as its decisions say, unless stopped |
| Worker.Worker.Rest | crates/sc-cron/src/worker.rs:454-457 | After a round the worker wakes at once for a reload, else at the first obligation, and is stopped exactly if it was or this turn asks for it |
| Worker.Worker.Pass | crates/sc-cron/src/worker.rs:438-457 | A round, from each of its steps to the next: stopped, it does nothing; else it asks for owed endings whose date has come, reads the rows again if it must, times out what is overdue, launches what is due and finds out when to wake, each by the readings the script has at that point; the worker then stands where some run of steps leads |
| WorkerFirstRound.StopsOnlyWhenAsked | crates/sc-cron/src/worker.rs:411-430 | A round ends with the worker stopped only if it was stopped before or a turn of that round asks for it |
| Worker.Worker.Sleep | crates/sc-cron/src/worker.rs:458-479 | The next event of the script wakes the worker, which does what that calls for and nothing else: a shutdown message stops it, a reload signal on an open channel is not lost, a finished run leaves its slot as completed with exactly the writes its report calls for |
| Worker.Worker.OnFinished | crates/sc-cron/src/worker/worker_runs.rs:172-196 | A finished run leaves its slot as completed, not as cancelled; exactly the writes its report calls for are asked for; its slot goes exactly if the report asks for that or nothing is left to run; nothing else changes |
| Worker.Worker.Loop | crates/sc-cron/src/worker.rs:437-480 | The loop goes round as often as it is watched, unless it is stopped before: each round is one of `Pass` from where the one before came to, followed by one sleep; the worker then stands where some run of steps leads |
| Worker.Worker.AbortDue | crates/sc-cron/src/worker/worker_runs.rs:106-138 | On one clock reading each slot is looked at once: every overdue run is taken out and recorded as timed out or as what its join gave, and the others are kept |
| Worker.Worker.Discard | crates/sc-cron/src/worker/worker_runs.rs:83-92 | Every run, and no other, is cancelled, without a new outcome, and no slot is lost |
| Worker.Worker.DrainEvent | crates/sc-cron/src/worker/worker_runs.rs:56-79 | While draining, a finished run completes, a timer times out every run overdue by one reading of the clock, a passed handle deadline cancels every run, and nothing else happens |
| Worker.Worker.Drain | crates/sc-cron/src/worker/worker_runs.rs:24-80 | As many events of the script are dealt with as it is watched for, unless no slot runs before; once none runs, every launch of the log has completed or was cancelled; the worker then stands where some run of steps leads |
| Worker.Worker.Run | crates/sc-cron/src/worker.rs:432-488 | A whole life of a worker is its rounds and then its drained events, as `Loop` and `Drain` state them; it keeps the invariant, is a run of steps without a restart, and repeats nothing it begins past unless others move its next run back; drained idle, it leaves no run unaccounted for |
| WorkerFirstRound.LifeLaunchesTheDue | crates/sc-cron/src/worker.rs:437-457 | With no other writer, no failed call, no held name, no refused launch and no stop in its first round, a worker watched for a round at least has by the end of its life launched every readable active enabled row that had come due when it first served, under `Skip` those without a backlog |
| WorkerFirstRound.FirstRoundLaunchesTheDue | crates/sc-cron/src/worker.rs:437-457 | Under the same conditions that first round alone launches them |
| ScheduleTable.ExecKeepsValid | crates/sc-cron/src/sqlite.rs:414-749 | Every call keeps names unique and active rows exactly those with a next run |
| ScheduleTable.CountsActive | crates/sc-cron/src/sqlite.rs:694-712 | The counting loop counts the active rows |
| ScheduleTable.SqliteStore.WriteFlags | crates/sc-cron/src/sqlite.rs:731-749 | The loop over a list of flags refines the list written one by one, and stops at the first missing name |
| ScheduleTable.SqliteStore.SetEnabledMany | crates/sc-cron/src/sqlite.rs:602-617 | The transaction's table is that of the specification, and a missing name rolls it back |
| ScheduleTable.SqliteStore.GuardedWrite | crates/sc-cron/src/sqlite.rs:249-270 | The update in place is the specified call, refused for an id out of range, another generation, an ended row or a disabled one |
| ScheduleTable.SqliteStore.SetEnabled | crates/sc-cron/src/sqlite.rs:569-581 | The update in place is the specified call |
| ScheduleTable.SqliteStore.Create | crates/sc-cron/src/sqlite.rs:414-459 | The transaction's table and answer are those of the specification, error cases included |
| ScheduleTable.SqliteStore.ReplaceAndSetEnabled | crates/sc-cron/src/sqlite.rs:619-683 | The transaction's table and answer are those of the specification, error cases included |
| StoreHistory.SetFlagsAllOrNothing | crates/sc-cron/src/sqlite.rs:731-749 | A list of flags is written if and only if every name is active; the last flag of a repeated name wins |
| StoreHistory.SetEnabledManyAllOrNothing | crates/sc-cron/src/sqlite.rs:602-617 | Answers whether every name was active, and writes all flags or leaves the table identical |
| StoreHistory.ReplaceAllOrNothing | crates/sc-cron/src/sqlite.rs:619-683 | Writes its row and every listed flag, or leaves the table identical; the row starts anew at generation one, or one more than before |
| StoreHistory.ReplaceRefusesExactly | crates/sc-cron/src/sqlite.rs:619-683 | Which replace is refused and why, each case exactly: flags that name its own schedule, a full table unless the name is active, no id or generation left, a listed name that is not active; all else is written |
| StoreHistory.CreateAllOrNothing | crates/sc-cron/src/sqlite.rs:414-459 | Refuses an invalid specification, then an active name, then a full table, then a name without ids or generations left, each exactly; otherwise the new or ended name starts anew and no other row changes |
| StoreHistory.ReplaceKeepsOneEnabled | crates/sc-cron/src/sqlite.rs:619-683 | At most one of a caller's names stays enabled after a replace that disables the others |
| StoreHistory.ExecSteps | crates/sc-cron/src/sqlite.rs:249-270 | No call removes or renames a row or lowers a generation; a generation rises by one exactly on a rewrite |
| StoreHistory.GenerationCountsRewrites | crates/sc-cron/src/sqlite.rs:822-866 | Over any history a generation is its first value plus the number of restarts and replaces |
| StoreHistory.FencedForever | crates/sc-cron/src/sqlite.rs:249-270 | Once a generation is superseded or ended, every later write that names it, in any history, answers false and changes nothing |
| StoreHistory.StopAndRewriteSupersede | crates/sc-cron/src/sqlite.rs:550-567 | An answered stop and every rewrite supersede the generation they met |
| StoreHistory.GuardedWritesOwnColumns | crates/sc-cron/src/sqlite.rs:519-600 | A guarded write is answered exactly for the active generation (an enabled one for `set_next`), and changes its own columns of that row only |
| StoreHistory.DisabledIsNotRun | crates/sc-cron/src/store.rs:132-141 | Once disabled, every `set_next` of a generation is refused in any history until its name is enabled or written anew |
| StoreHistory.DisableTurnsOff | crates/sc-cron/src/sqlite.rs:569-600 | An answered disable, by the worker or by name, turns the generation off |
| StoreHistory.ExecWithinCap | crates/sc-cron/src/sqlite.rs:694-712 | One call never takes the active rows past the larger of their count and the cap |
| StoreHistory.CapHoldsForever | crates/sc-cron/src/sqlite.rs:694-729 | Over any history the active rows never grow past the larger of the initial count and the cap |
| StoreReads.ScanIsFilteredTable | crates/sc-cron/src/sqlite.rs:355-385 | A scan gives the selected rows after the cursor, each once, in ascending id order |
| StoreReads.ExecuteQuery | crates/sc-cron/src/sqlite.rs:355-408 | The paging loop refines its specification, cursor and limit included |
| StoreReads.PageIsExact | crates/sc-cron/src/sqlite.rs:355-408 | From the table alone: a page is the first of the selected rows after the given one, in order, as many as there are and at most `limit`; a cursor is given exactly if there are more, and is the last row's id; `InvalidLimit` exactly outside 1 to 1000, `InvalidCursor` exactly for a good limit and an id out of range |
| StoreReads.PageAdvances | crates/sc-cron/src/sqlite.rs:355-408 | Every page that names a next cursor moves past it, so following cursors ends |
| StoreReads.PagesAreTheFilteredTable | crates/sc-cron/src/sqlite.rs:355-408 | The pages followed from the start concatenate to the whole filtered table |
| StoreReads.ListIsActiveRows | crates/sc-cron/src/sqlite.rs:468-517 | A list is the readable active rows, oldest first |
| StoreReads.ListIdsDistinct | crates/sc-cron/src/sqlite.rs:468-517 | A list names no id twice |
| Expr.Occurrences.Next | crates/sc-cron/src/expr.rs:56-72 | Gives the least instant any source holds, and removes it from each of them |
| Expr.Occurrences.Peek | crates/sc-cron/src/expr.rs:59-66 | Finds the least of the instants at the fronts |
| Expr.Drain | crates/sc-cron/src/expr.rs:56-72 | The iterator gives the union of its sources strictly increasing, each instant once |
| Expr.FindNextRun | crates/sc-cron/src/expr.rs:136-142 | The search on a fresh iterator is the specified one, with its range checks |
| Expr.NextRunIsLeast | crates/sc-cron/src/expr.rs:131-142 | The search gives the least jittered occurrence strictly after the instant, or nothing exactly when there is none |
| Expr.NextRunExact | crates/sc-cron/src/expr.rs:131-142 | The search meets its documentation exactly when it can look back by the jitter or nothing lies ahead |
| Expr.NextRunMissesAtTheEdge | crates/sc-cron/src/expr.rs:136-142 | At the lower end of time the search finds nothing although a run lies ahead |
| Expr.IterationEnumeratesRuns | crates/sc-cron/src/types.rs:520-525 | Repeating the search enumerates every later run in order, none skipped or repeated |
| Types.RunStampsExactly | crates/sc-cron/src/timestamp.rs:37-40 | A run the search finds loses nothing to the microsecond stamp, so the stored next run is the slot's |
| Types.StoredOutcomeRoundTrips | crates/sc-cron/src/types.rs:573-598 | A run outcome reads back from its stored text, whatever its message |
| Types.DecodedTextIsCanonical | crates/sc-cron/src/types.rs:584-598 | Stored text that decodes is the text of the outcome it decodes to |
| Crontab.Weekdays | crates/sc-cron/src/expr.rs:191-246 | The marked days are exactly those some part names; the first wrong part refuses the field |
| Crontab.NamesExactly | crates/sc-cron/src/expr.rs:216-236 | What a part names, exactly: a day itself, of a range every step-th day from its first, of `*` every step-th day from Sunday, with 7 as Sunday |
| Crontab.RefusedExactly | crates/sc-cron/src/expr.rs:204-231 | Each way a part can be wrong, exactly: a step that is no positive number, a step above one on a single day, a day that is none of 0 to 7, or a range that runs backwards |
| Crontab.MarkPart | crates/sc-cron/src/expr.rs:232-236 | Marks the days one part steps on and keeps the others |
| Crontab.MeetsExactly | crates/sc-cron/src/expr.rs:232-236 | Stepping meets exactly the days a multiple of the step after the first |
| Crontab.SevenIsSunday | crates/sc-cron/src/expr.rs:183-184 | 0 and 7 name the same day, and a range up to 7 ends on Sunday |
| Crontab.RestrictedFieldsAreTheUnion | crates/sc-cron/src/expr.rs:173-181 | With both day fields restricted the iterator gives the instants on a day that either selects, each once and in order; when one is open, also by a leading star, those on a day that both select |
| Jitter.Sample | crates/sc-cron/src/jitter.rs:95-118 | Reads draws until one is accepted and gives its offset below the upper bound, or reports missing randomness |
| Jitter.SamplingIsUniform | crates/sc-cron/src/jitter.rs:95-118 | Every residue has exactly 2^64 / upper accepted values |
| Jitter.FewerThanHalfRejected | crates/sc-cron/src/jitter.rs:95-118 | The rejected values are fewer than half of all, and fewer than upper |
| Jitter.Bound | crates/sc-cron/src/jitter.rs:205-216 | The bound is half the gap between the next two occurrences, capped |
| Jitter.BoundOf | crates/sc-cron/src/jitter.rs:205-216 | Half the gap, rounded down, unless the cap is less; zero with fewer than two occurrences |
| Jitter.Drawn | crates/sc-cron/src/jitter.rs:218-222 | The largest whole number of milliseconds within both the answer and the bound |
| Jitter.FirstRunStaysClear | crates/sc-cron/src/jitter.rs:1-8 | The first jittered run stays before the second occurrence, whatever was drawn |
| Jitter.NeverDriftsInRange | crates/sc-cron/src/jitter.rs:1-8 | No answer a source may give, below the bound, lets a run reach the following occurrence if and only if every gap is longer than the largest draw from such an answer |
| Jitter.NeverDriftsExactly | crates/sc-cron/src/jitter.rs:21-27 | With answers out of that range too, which are clamped: no draw lets a run reach the following occurrence if and only if every gap is longer than the bound in whole milliseconds |
| Jitter.IrregularExpressionDrifts | crates/sc-cron/src/jitter.rs:205-216 | A long gap before a short one: with ten minutes, an answer in range, a jittered run passes the following occurrence |
| Operation.Controller.Configure | crates/sc-cron/src/operation.rs:72-81 | The capacity is set exactly when it is in range and nothing has started |
| Operation.Controller.StopLocked | crates/sc-cron/src/operation.rs:124-135 | A first stop leaves exactly the budget asked for; a further one cancels and leaves each cutoff at the least of both, the grace cutoff no later than now |
| Operation.Controller.Announce | crates/sc-cron/src/operation.rs:103-121 | The status never falls |
| Operation.Controller.Stop | crates/sc-cron/src/operation.rs:122-140 | An inverted budget changes nothing; otherwise the stop, then the interrupts |
| Operation.Controller.Cancel | crates/sc-cron/src/operation.rs:219-227 | Leaves both cutoffs in the past and the flag set |
| Operation.Controller.InterruptIfExpired | crates/sc-cron/src/operation.rs:178-218 | Interrupts the connections whose time has come and raises the status |
| Operation.Controller.Register | crates/sc-cron/src/operation.rs:228-270 | A guard is counted exactly if the outer deadline lies ahead, there was no stop or it is cleanup before its cutoff, and a command finds capacity; else it is refused for the first of these reasons and nothing changes |
| Operation.Controller.AdmitCommit | crates/sc-cron/src/operation.rs:272-289 | A commit is admitted exactly if an ordinary one is not cancelled, there is no budget or the first reading is before its grace, or for cleanup work its cleanup cutoff, and there is no outer deadline or the second reading is before it |
| Operation.Controller.DropGuard | crates/sc-cron/src/operation.rs:401-420 | Uncounts the guard and notes when it completed |
| Operation.Controller.RecordCleanup | crates/sc-cron/src/operation.rs:293-310 | Merges evidence into what is known |
| OperationRuns.StepKeepsSound | crates/sc-cron/src/operation.rs:122-420 | Every locked section keeps the accounts (active guards, command guards within the capacity), grace before cleanup, and every admission in time |
| OperationRuns.StepFollows | crates/sc-cron/src/operation.rs:72-420 | No section lifts a budget, a cancellation or evidence, lowers the status, or changes the capacity once work has started |
| OperationRuns.Run | crates/sc-cron/src/operation.rs:228-289 | In every interleaving, from any sound state, the accounts, the order of cutoffs and the timeliness of every admission are kept, and nothing is undone |
| OperationRuns.EveryRunIsSound | crates/sc-cron/src/operation.rs:38-59 | Every interleaving from a fresh controller keeps the accounts and admits commits in time only |
| OperationRuns.AdmitsExactly | crates/sc-cron/src/operation.rs:272-289 | From any sound state an admission is added exactly if an ordinary commit is not cancelled and neither its cutoff nor an outer deadline has been reached by the readings, in their order |
| OperationRuns.OneStopAdmitsUntilItsCutoffs | crates/sc-cron/src/operation.rs:124-135 | After one stop, whatever happens but a further stop or a cancel, a commit without an outer deadline is admitted exactly before the cutoff that was asked for |
| OperationRuns.RegistersExactly | crates/sc-cron/src/operation.rs:228-270 | From any sound state a guard is added exactly if no deadline has passed, no stop forbids it and a command finds capacity |
| OperationRuns.EvidenceStays | crates/sc-cron/src/operation.rs:293-310 | Cleanup evidence in doubt stays in doubt, late stays late, and nothing attempted replaces nothing |
| OperationRuns.ClosedForever | crates/sc-cron/src/operation.rs:272-289 | Once cancelled or past grace no ordinary commit is ever admitted, and past the cleanup cutoff no cleanup commit, in every continuation |
| OperationRuns.SecondStopCloses | crates/sc-cron/src/operation.rs:126-131 | After a second stop no ordinary commit is ever admitted |
| OperationRuns.CancelCloses | crates/sc-cron/src/operation.rs:219-227 | From the first section of a cancel on nothing is ever admitted, ordinary or cleanup |
| OperationRuns.CancelIsNotAtomic | crates/sc-cron/src/operation.rs:219-227 | Between the sections of a cancel the flag is not set yet, and it is the cutoff that refuses |
| OperationRuns.OrdinaryWorkOnlyDrains | crates/sc-cron/src/operation.rs:242-244 | After a stop the ordinary guards never increase |
| OperationRuns.AllWorkOnlyDrains | crates/sc-cron/src/operation.rs:245-256 | Past the cleanup cutoff the active guards never increase |
| OperationRuns.LateCompletionIsReported | crates/sc-cron/src/operation.rs:181-193 | Once the worker has finished and the last guard is gone, a missed cutoff is reported exactly when a completion of either kind was late |
| OperationRuns.InterruptsExactlyTheExpired | crates/sc-cron/src/operation.rs:178-213 | Exactly the connections whose cutoff has passed are interrupted, until nothing is left to interrupt |
| Join.NoLostWakeup | crates/sc-cron/src/operation.rs:373-392 | In every interleaving a joiner that sleeps unnotified is still owed a notification |
| Join.IdleJoinerReturns | crates/sc-cron/src/operation.rs:373-392 | Once every guard is gone and has notified, the joiner returns by its own next steps |
| Join.ReturnsOnlyWhenIdle | crates/sc-cron/src/operation.rs:385-387 | The joiner returns only by reading that no guard is alive |
| Join.ReadingFirstLosesTheWakeup | crates/sc-cron/src/operation.rs:375-377 | With the two reads in the other order the last drop can be missed and the joiner sleeps for good |
| Context.WithDeadlineIsEarlier | crates/sc-cron/src/consumer_contract.rs:67-77 | A child's deadline is the earlier of the parent's and its own |
| Context.BindMeetsBoth | crates/sc-cron/src/consumer_contract.rs:95-103 | Binding ordinary work to another controller keeps the deadline of both |
| Context.DerivedNeverExtends | crates/sc-cron/src/consumer_contract.rs:25-103 | However a context is derived, its deadline is never later and no revocation of the original is missed |
| Context.DerivedSeesTheStop | crates/sc-cron/src/consumer_contract.rs:37-39 | A stop of the original is seen by every context derived from it |
| Context.TerminalAnswersToCleanup | crates/sc-cron/src/consumer_contract.rs:105-112 | Terminal cleanup answers to its controller's cleanup cutoff and to nothing else |
| Context.LiveExactly | crates/sc-cron/src/consumer_contract.rs:45-62 | A context is live exactly while its own controller admits its kind of work, no parent is cancelled or past its grace, and no deadline of its own or of a parent has been reached; it is reported as cancelled exactly if a cancellation is why |
| Context.HookMissesOnlyLateParents | crates/sc-cron/src/sqlite_scope.rs:279-299 | The hook agrees with a check at the lock exactly when no parent was cancelled or cut off in between |
| Context.ParentMayCancelBetween | crates/sc-cron/src/sqlite_scope.rs:285-288 | A parent cancelled between the check and the lock does not stop the commit |
| Scope.Connection.WithScope | crates/sc-cron/src/sqlite_scope.rs:80-159 | One scoped operation: the evidence attached to its failure is the honest one, a quarantined connection runs nothing, a nested scope is refused, and a cleanup scope records its evidence |
| Scope.Connection.WithOperationContext | crates/sc-cron/src/sqlite.rs:326-353 | Every answer in doubt, and every failure whose evidence is in doubt, leaves the connection quarantined; nothing else quarantines it but an open transaction, doubt at the drop, or its holder during the wait |
| Scope.Connection.Lock | crates/sc-cron/src/sqlite_scope.rs:202-255 | A connection quarantined on entry, by its holder during the wait or just before it is free is refused; a revoked wait gives the revocation; the connection is granted only when free |
| Scope.Answered | crates/sc-cron/src/sqlite_scope.rs:117-158 | Success exactly without failure or revocation; attached evidence in doubt is classified as such, a late commit as past its deadline, and any other failure keeps the kind of the revocation or else of the provider's error |
| Scope.Connection.DropGuard | crates/sc-cron/src/sqlite_scope.rs:178-200 | Quarantined exactly if it was, or a transaction is open, or the evidence is in doubt |
| Scope.Connection.Step | crates/sc-cron/src/sqlite_scope.rs:38-53 | Each event overwrites the evidence as the hooks and calls do |
| Scope.RunKeepsHonest | crates/sc-cron/src/sqlite_scope.rs:279-309 | After any events the evidence means what it says about the last transaction |
| Scope.EventExactly | crates/sc-cron/src/sqlite_scope.rs:279-309 | What each event makes of the content and the evidence: a try puts it in doubt, a reported commit is known to be made, a vetoed or failed one and a rollback are known to be undone, and a lost answer leaves the doubt |
| Scope.AttachedEvidenceIsHonest | crates/sc-cron/src/sqlite_scope.rs:101-116 | Committed means durable, rolled back means no trace, no attempt means nothing changed, and an admitted commit is never reported as not attempted |
| Scope.DurableNeedsAdmission | crates/sc-cron/src/sqlite_scope.rs:279-299 | Nothing becomes durable without an admitted commit |
| Scope.KnownFailureLeftNoTrace | crates/sc-cron/src/worker/store_calls.rs:42-45 | On a cooperative store a failure of a one-transaction operation that the worker need not reconcile has changed nothing; an attached failure needs reconciling exactly if it is in doubt or its evidence says committed |
| Closing.ClosedOnlyFinishes | crates/sc-cron/src/operation.rs:270-289 | Once a controller admits no more commits of a kind, its scopes of that kind change the content of a connection only by finishing the commit that had been admitted there before, with what it then had written; a commit that is asked for is vetoed and rolled back, and none begins to wait; in any interleaving with other controllers and their scopes |
| Closing.ScopeSeesOneEvent | crates/sc-cron/src/sqlite_scope.rs:279-299 | For the scope itself the admission of its commit and the answer of the database are one event: in any interleaving what stands on its connection is what a run of its own events comes to |
| Closing.ContentAfterClose | crates/sc-cron/src/operation.rs:270-289 | What a connection holds in the end, all its commits being by scopes of a closed controller: what it held when that was closed or, exactly if a commit was waiting then and the database made it durable, what that commit wrote |
| Closing.WritesExactlyWhatWaits | crates/sc-cron/src/operation.rs:270-289 | The scopes of a closed controller can still change what a connection holds if and only if a commit of theirs that changes it had been admitted and not answered when it was closed |
| Closing.CancelOnlyFinishes | crates/sc-cron/src/operation.rs:219-227 | From the first section of a cancel on, no scope of the controller, ordinary or cleanup, changes anything but by finishing a commit admitted before it |
| Closing.SecondStopOnlyFinishes | crates/sc-cron/src/operation.rs:126-131 | After a second stop no ordinary scope of the controller changes anything but by finishing a commit admitted before it |
| Closing.LateCommitIsReported | crates/sc-cron/README.md:243-246 | A commit that was waiting when its controller was closed and took effect: the content is durable and the scope fails whenever it ends, with an admitted commit as its evidence, committed or, if the answer was lost, in doubt; as past its deadline if it is late, which it is if a cutoff closed the controller, and as cancelled otherwise |
| Closing.CommitOutlivesACancel | crates/sc-cron/README.md:236-238 | Whatever scope has a commit admitted, ordinary or cleanup, the sections of a cancel may come before the database makes it durable: the commit stands, and the scope fails with it as committed and late |
| Closing.LateCommitHappens | crates/sc-cron/src/sqlite_cooperative_transaction_tests.rs:5-66 | It happens to ordinary and to cleanup scopes: a scope that has written is admitted, its controller cancelled, and what it wrote made durable after that, reported as committed and past the deadline |
| Scope.QuarantineIsForever | crates/sc-cron/src/sqlite.rs:326-353 | Over any sequence of scopes: after the first answer in doubt, and on a connection quarantined before, every scope fails and the content stays what it was |
| ConfigValue.MergeInto | crates/sc-config/src/load.rs:151-165 | The loop over the overlay's keys is the deep merge |
| ConfigValue.OverlayWins | crates/sc-config/src/load.rs:151-165 | What the overlay says that is no object is what the merge says |
| ConfigValue.BaseShowsThrough | crates/sc-config/src/load.rs:151-165 | Where the overlay says nothing and hides nothing the base shows through |
| ConfigValue.MergeAssociatesExactly | crates/sc-config/src/load.rs:151-165 | Merging associates if and only if nowhere a middle value that is no object stands between an object with a key, at some depth, that the third's object has not, and that object |
| ConfigValue.AddsNothingExactly | crates/sc-config/src/load.rs:151-165 | A base adds nothing to an overlay if and only if, all the way down, it has no key the overlay has not |
| ConfigValue.MergeDoesNotAssociate | crates/sc-config/src/load.rs:163 | An intermediate scalar hides the base |
| ConfigValue.Document.SetPath | crates/sc-config/src/load.rs:246-288 | The zipper refines the recursive write, and on failure restores exactly the document |
| ConfigValue.Document.Reassemble | crates/sc-config/src/load.rs:290-299 | Puts the frames back innermost first |
| ConfigValue.WriteFailsExactly | crates/sc-config/src/load.rs:246-279 | A write fails exactly when the path is empty or leads through something that is no object |
| ConfigValue.WriteReadsBack | crates/sc-config/src/load.rs:246-288 | The written path reads as the value |
| ConfigValue.WriteKeepsOthers | crates/sc-config/src/load.rs:246-288 | Every path not prefix-related to the written one reads as before |
| ConfigValue.WriteChangesReadings | crates/sc-config/src/load.rs:246-288 | What any path reads as after a write: the rest of the path in the value, the write in what was there, or what it was |
| ConfigValue.WriteBackExactly | crates/sc-config/src/load.rs:246-288 | A write changes nothing if and only if its path reads as the value already |
| ConfigValue.KeepsReadingExactly | crates/sc-config/src/load.rs:246-288 | A later write keeps a reading if and only if its value reads the same at the remaining path, or was already there behind it |
| ConfigValue.WriteIsMergeExactly | crates/sc-config/src/load.rs:151-165 | A write equals merging the nested value exactly when the old value has no key, at any depth, that the new one has not |
| ConfigValue.WriteOfScalarIsMerge | crates/sc-config/src/load.rs:151-165 | Writing a value that is no object is merging it |
| ConfigOverrides.ApplyOverrides | crates/sc-config/src/load.rs:167-206 | The loop in place is the specified application, first failure included |
| ConfigOverrides.OutcomeIgnoresTheOrder | crates/sc-config/src/load.rs:172-178 | Document, applied names and failure do not depend on the order of the environment |
| ConfigOverrides.ExtensionIsAppliedLater | crates/sc-config/src/load.rs:178 | A name that extends another is applied after it |
| ConfigOverrides.OverrideReadsBack | crates/sc-config/src/load.rs:180-204 | On success an override that every later one spares reads back at its path, as the JSON it parses as or else as its text |
| ConfigOverrides.OverrideReadsBackExactly | crates/sc-config/src/load.rs:180-204 | On success what an override's path reads as is its value passed through the later overrides, whatever the document was |
| ConfigOverrides.FinalReading | crates/sc-config/src/load.rs:180-204 | On success every path reads as the document and the overrides at related paths make it |
| ConfigOverrides.OneLaterOverride | crates/sc-config/src/load.rs:178-204 | With one later override at a related path, the earlier one reads back if and only if the later value reads the same at the remaining path, or was already there behind it |
| ConfigOverrides.SuccessAppliesAll | crates/sc-config/src/load.rs:180-205 | On success every matching name is applied, in byte order |
| ConfigOverrides.SplitOfJoinExactly | crates/sc-config/src/load.rs:208-222 | Segments read back from their joined name exactly when no separator arises inside or across them |
| ConfigOverrides.JoinOfSplit | crates/sc-config/src/load.rs:212-215 | Splitting loses nothing of the name |
| ConfigNames.KeyPathOfJoined | crates/sc-config/src/load.rs:208-222 | The name of a prefix and any separable segments has a key path exactly if none of them is empty, and then it is those segments with A to Z, and no other character, lowered |
| ConfigNames.EveryNameIsJoined | crates/sc-config/src/load.rs:208-222 | Every name with the prefix is made of exactly one separable list of segments |
| ConfigNames.NothingAfterThePrefix | crates/sc-config/src/load.rs:211-221 | A name with nothing after its prefix has no key path |
| ConfigNames.NamedOverrideReadsBack | crates/sc-config/src/load.rs:167-222 | On success the only override of a prefix, named by any separable segments, reads back at the path of those segments lowered, as the JSON it parses as or else as its text |
| ConfigNames.FirstDifferenceDecides | crates/sc-config/src/load.rs:179 | Of two names the first character that differs decides which is applied first |
| ConfigNames.StopsAtTheFirstFailure | crates/sc-config/src/load.rs:181-206 | Overrides are applied one after the other up to the first that cannot be, whose reason is the failure reported |
| ConfigNames.EnvironmentIsApplied | crates/sc-config/src/load.rs:172-206 | What an environment does to a document is what its variables of the prefix do, each once, in order, up to the first that cannot be applied |
| ConfigOverrides.LongerPathMayComeFirst | crates/sc-config/src/load.rs:178 | With names that differ in case a longer path can be written first, and is then lost if and only if the shorter one's value reads otherwise there |
| CfgPredicate.ParsePredicate | scripts/adr_run_0011_grep.py:68-118 | The loop with recursion is the specified parser, and ends on every input |
| CfgPredicate.WordCharacters | scripts/adr_run_0011_grep.py:27 | Names start with an ASCII letter or underscore and go on with those and digits, by code point |
| CfgPredicate.SpaceCharacters | scripts/adr_run_0011_grep.py:31-36 | Space is the ten ASCII characters the original skips, by code point |
| CfgPrinting.ParsesBack | scripts/adr_run_0011_grep.py:68-118 | A printed predicate, with any layout and trailing commas, before a comma or parenthesis, parses back to its tree and exact end |
| CfgPrinting.ParsedIsWritten | scripts/adr_run_0011_grep.py:68-118 | Whatever parses is a printed predicate: the parser accepts nothing else |
| CfgMeaning.VerdictIsSound | scripts/adr_run_0011_grep.py:121-150 | A definite verdict is the predicate's value under every assignment with `test` off |
| CfgMeaning.VerdictIsExact | scripts/adr_run_0011_grep.py:121-150 | With every other option mentioned once, the verdict is false, true or maybe exactly as the assignments are |
| CfgMeaning.RepeatedOptionIsInexact | scripts/adr_run_0011_grep.py:121-150 | With an option mentioned twice a predicate that never holds can be maybe |
| CfgPrinting.AttributeTestIsTheVerdict | scripts/adr_run_0011_grep.py:153-168 | On a whole attribute, however laid out, the test is the verdict on its predicate |
| CfgPrinting.ExemptionMeansTest | scripts/adr_run_0011_grep.py:153-168 | An exempted attribute requires `test`, and with options mentioned once exactly those are exempted |
| CfgPrinting.ExemptedTextRequiresTest | scripts/adr_run_0011_grep.py:153-168 | On any text, what is exempted is a whole attribute whose predicate requires `test` |

## Left out

- Worker.Worker.Write: what lies between the worker and the store (thread pool, guard registration) is one call that is answered or fails, because `Operation`, `Context` and `Scope` model that path on its own.
- Worker.Worker.Run: the loop and the drain are watched for any number of rounds and events instead of until they end, because a worker need not end.
- Worker.Worker.Pass: the wall clock may jump by any amount, so nothing is stated about how long a sleep takes.
- Worker.Worker.Sleep: which of several simultaneous events is seen first is open in the model and fixed by the original's biased select.
- Expr.FindNextRun: an expression has finitely many occurrences here, where the `cron` crate ends at its last year.
- Worker.Lifetimes: a worker is dropped after whole rounds and drain events; that a drop between any two steps keeps the invariant is `WorkerRuns.EveryRunIsSound`.
- WorkerAgain.RepeatableUnlessStored: a row without a stored next run gets one when its slot is built; no valid table has such an active row, so the steps leave it out.
- Crontab.Weekdays: splitting the text of a field and reading its numbers and names, because only the days they stand for matter.
- Scope.Connection.WithScope: evidence describes the scope's last transaction; a store method has one.
- Scope.Connection.Lock: the wait is one that ends, by the connection being free or quarantined or the context being revoked; what its holder writes meanwhile counts as an earlier scope.
- Closing.ContentAfterClose: each connection has a content of its own; that connections to one file share it, under SQLite's write lock, is not part of this model.
- ConfigOverrides.ApplyOverrides: the JSON parser is a parameter.
- CfgPredicate.ParsePredicate: letters, digits and spaces beyond ASCII.
- Monty runs, feeds and hosts: every run is an abortable task, as without that feature.
- `run_due`, name holding: that another part of the process holds a schedule's name is an answer of the world.
- SQL text, schema checks, row decoding and corrupt-row warnings: a row is readable or not.
- Payload size is counted in characters of the stored text instead of bytes, because texts are not encoded here.
- Environment and module validation of a specification: thin checks without state.
- Backoff dates past the end of time: the original's date addition would panic there, the model's integers do not.
- Log events, error prose, recovery strings and correlation ids, and the field that keeps a skipped occurrence from being logged twice.
- Tokio, interrupts and mutex internals: locked sections are atomic and an interrupt is the list of connections to interrupt.
- The Python file scanner's line counting and module walk, and configuration file reading: input plumbing.
