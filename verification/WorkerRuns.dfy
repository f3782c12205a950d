/**
 Workers, their restarts and every other caller of the store, as steps on values
 (crates/sc-cron/src/worker.rs). A run is any sequence of steps.
 */
module WorkerRuns {
  import opened Options
  import opened Expr
  import opened Types
  import opened ScheduleTable
  import opened StoreHistory
  import opened StoreReads
  import opened WorkerState
  import opened WorkerWorld
  import opened WorkerReload
  import opened WorkerLaunch

  /** A worker, the rows its reload is working through if it is merging, and whether it was asked to stop. */
  datatype Config = Config(state: State, listing: seq<Schedule>, merging: bool, stopping: bool)

  datatype Step =
    /** A store call by anyone. */
    | Call(c: Command)
    /** The worker is dropped and another one started. */
    | Restart
    /** The worker is asked to stop. */
    | AskStop
    /** A reload reads the active rows, makes a slot of one, drops a slot it does not keep, or is done. */
    | List(unreadable: set<nat>)
    | Build(row: Schedule)
    | Drop(slot: Slot)
    | Merged
    /** A run is taken out of its slot. */
    | Finish(slot: Slot, completes: bool)
    /** A stop check's delete or disable: the slot goes and the call is made. */
    | Obey(slot: Slot, call: Command, answer: Answer)
    /** An idle slot with nothing left to run goes and its schedule is ended, or its ending owed. */
    | Exhaust(slot: Slot, at: int, answer: Answer)
    /** An owed ending is tried again, or put back unasked by a worker that was asked to stop. */
    | RetryEnd(index: nat, at: int, answer: Answer)
    /** A due slot is served. */
    | Serve(slot: Slot, now: int, policy: MissedTickPolicy, answer: Answer, admitted: bool, deadline: int)

  /** How a write came back, and whether it took effect, as the answer of the store to it. */
  function AnswerOf(result: CallResult, took: bool): Answer {
    match result
    case Replied(_) => Answer.Served
    case CallFailed(reconcile) => Broken(took, reconcile)
  }

  /** A write that is not asked for comes to the same as one known to have failed. */
  const UNASKED := Broken(false, false)

  predicate HasKey(schedule: Schedule, id: nat, generation: nat) {
    schedule.id == id && schedule.generation == generation
  }

  /** A listed row keeps the slot of this schedule, or gives it one. */
  ghost predicate ListsEnabled(listing: seq<Schedule>, id: nat, generation: nat) {
    exists row :: row in listing && row.IsActive() && row.enabled && HasKey(row, id, generation)
  }

  ghost predicate HasSlotOf(slots: multiset<Slot>, id: nat, generation: nat) {
    exists slot :: slot in slots && HasKey(slot.schedule, id, generation)
  }

  /** A listed row that has no slot yet and is to get one. */
  ghost predicate Missing(s: State, row: Schedule) {
    && row.IsActive() && row.enabled && row.nextRunAt.Some?
    && !HasSlotOf(s.slots, row.id, row.generation)
    && !IsPending(s.pendingEnds, row)
  }

  /** A merge keeps only the slots a listed row keeps, and leaves no row without its slot unless it must stop. */
  ghost predicate MergeDone(c: Config) {
    && (forall slot :: slot in c.state.slots ==> ListsEnabled(c.listing, slot.schedule.id, slot.schedule.generation))
    && (c.stopping || forall k :: 0 <= k < |c.listing| ==> !Missing(c.state, c.listing[k]))
  }

  predicate IsEnding(call: Command, schedule: Schedule) {
    (call.Stop? || call.Disable?) && HasKey(schedule, call.id, call.generation)
  }

  ghost predicate Possible(c: Config, step: Step) {
    var s := c.state;
    match step
    case Call(command) => ValidCommand(command)
    case Restart => true
    case AskStop => true
    case List(_) => !c.merging
    case Build(row) => c.merging && !c.stopping && row in c.listing && Missing(s, row)
    case Drop(slot) =>
      c.merging && slot in s.slots && !ListsEnabled(c.listing, slot.schedule.id, slot.schedule.generation)
    case Merged => c.merging && MergeDone(c)
    case Finish(slot, _) => !c.merging && slot in s.slots && slot.run.Some?
    case Obey(slot, call, _) => !c.merging && slot in s.slots && slot.run.None? && IsEnding(call, slot.schedule)
    case Exhaust(slot, _, _) => !c.merging && slot in s.slots && slot.run.None? && slot.next.None?
    case RetryEnd(index, _, answer) =>
      !c.merging && index < |s.pendingEnds| && (c.stopping ==> answer == UNASKED)
    case Serve(slot, now, _, _, _, _) => !c.merging && !c.stopping && slot in s.slots && DueAt(slot, now)
  }

  // ------------------------------------------------------------------
  // The writes of a step
  // ------------------------------------------------------------------

  predicate Reaches(answer: Answer) {
    answer.Served? || answer.applied
  }

  /** The write is known to have failed: no answer, and none that has to be reconciled. */
  predicate KnownToFail(answer: Answer) {
    answer.Broken? && !answer.reconcile
  }

  /** The table after a guarded call that reached it or did not. */
  function WrittenTo(t: Table, cap: Option<nat>, call: Command, answer: Answer): Table {
    if Reaches(answer) then Exec(t, cap, call).0 else t
  }

  function EndCall(schedule: Schedule, at: int): Command {
    Stop(schedule.id, schedule.generation, at, EXHAUSTED)
  }

  /** An ending is owed, once, exactly when its write is known to have failed. */
  function OwedAfter(owed: seq<Schedule>, schedule: Schedule, answer: Answer): seq<Schedule> {
    if KnownToFail(answer) then owed + [schedule] else owed
  }

  // ------------------------------------------------------------------
  // Serving a slot
  // ------------------------------------------------------------------

  /** The `set_next` of a slot that has a next run. */
  function NextCall(slot: Slot, now: int): Command
    requires NextOf(slot, now).Some?
  {
    SetNext(slot.schedule.id, slot.schedule.generation, Stamp(NextOf(slot, now).value))
  }

  /** Whether the `set_next` of a served slot changed the row it met. */
  predicate Took(t: Table, cap: Option<nat>, slot: Slot, now: int, answer: Answer) {
    && NextOf(slot, now).Some?
    && (answer.Served? || answer.applied)
    && Exec(t, cap, NextCall(slot, now)).1 == Changed(true)
  }

  function TableAfter(t: Table, cap: Option<nat>, slot: Slot, now: int, answer: Answer): Table {
    if Took(t, cap, slot, now, answer) then Exec(t, cap, NextCall(slot, now)).0 else t
  }

  function BackingOf(t: Table, cap: Option<nat>, slot: Slot, now: int, answer: Answer): Backing {
    if NextOf(slot, now).None? then NoSuccessor
    else if Took(t, cap, slot, now, answer) && slot.schedule.id in t.rows
    then Stored(t.rows[slot.schedule.id], answer.Served?)
    else NotStored
  }

  /** How the `set_next` comes back, if there is one. */
  function ResultOf(t: Table, cap: Option<nat>, slot: Slot, now: int, answer: Answer): Option<CallResult> {
    if NextOf(slot, now).None? then None
    else match answer
      case Served => Some(Replied(Exec(t, cap, NextCall(slot, now)).1 == Changed(true)))
      case Broken(_, reconcile) => Some(CallFailed(reconcile))
  }

  ghost predicate LaunchesNow(c: Config, cap: Option<nat>, step: Step)
    requires step.Serve? && step.slot.next.Some?
  {
    && Permits(ResultOf(c.state.table, cap, step.slot, step.now, step.answer))
    && step.admitted && Wanted(step.slot, step.now, step.policy)
  }

  ghost function AfterMove(c: Config, cap: Option<nat>, step: Step): State
    requires step.Serve?
  {
    c.state.(slots := Exchanged(c.state.slots, step.slot, Moved(step.slot, step.now)),
             table := TableAfter(c.state.table, cap, step.slot, step.now, step.answer))
  }

  ghost function AfterServe(c: Config, cap: Option<nat>, step: Step): State
    requires step.Serve? && step.slot.next.Some?
  {
    var s := AfterMove(c, cap, step);
    if LaunchesNow(c, cap, step)
    then WithLaunch(s, Moved(step.slot, step.now), step.slot.next.value,
                    BackingOf(c.state.table, cap, step.slot, step.now, step.answer), step.deadline)
    else s
  }

  /** What others have made of `before` by the time a slot is served. */
  ghost function Met(before: State, cap: Option<nat>, foreign: seq<Command>): Config {
    Config(Interfered(before, cap, foreign), [], false, false)
  }

  /** The next run of a slot was stored as this step does it; `proceed` allows the launch. */
  ghost predicate StoresAs(before: State, cap: Option<nat>, foreign: seq<Command>, step: Step, after: State,
                           backing: Backing, proceed: bool)
    requires step.Serve?
  {
    var met := Interfered(before, cap, foreign);
    && after == met.(table := TableAfter(met.table, cap, step.slot, step.now, step.answer))
    && backing == BackingOf(met.table, cap, step.slot, step.now, step.answer)
    && proceed == Permits(ResultOf(met.table, cap, step.slot, step.now, step.answer))
  }

  /** A slot was moved and then its next run stored as this step does both. */
  ghost predicate MovesAs(before: State, cap: Option<nat>, foreign: seq<Command>, step: Step, after: State,
                          backing: Backing, proceed: bool)
    requires step.Serve?
  {
    StoresAs(before.(slots := Exchanged(before.slots, step.slot, Moved(step.slot, step.now))),
             cap, foreign, step, after, backing, proceed)
  }

  lemma StoresNothing(before: State, cap: Option<nat>, step: Step)
    requires step.Serve? && NextOf(step.slot, step.now).None?
    ensures StoresAs(before, cap, [], step, before, NoSuccessor, true)
  {
    assert Rewinding(before.log, {}) == before.log;
  }

  lemma StoresNext(before: State, cap: Option<nat>, foreign: seq<Command>, step: Step, took: bool, result: CallResult,
                   after: State)
    requires step.Serve? && NextOf(step.slot, step.now).Some? && step.answer == AnswerOf(result, took)
    requires var call := NextCall(step.slot, step.now);
             var met := Interfered(before, cap, foreign);
             && after == met.(table := if took then Exec(met.table, cap, call).0 else met.table)
             && (took ==> step.slot.schedule.id in met.table.rows && Exec(met.table, cap, call).1 == Changed(true))
             && (result.Replied? ==> result.changed == took == (Exec(met.table, cap, call).1 == Changed(true)))
    ensures var t := Interfered(before, cap, foreign).table;
            var backing := if took then Stored(t.rows[step.slot.schedule.id], result.Replied?) else NotStored;
            StoresAs(before, cap, foreign, step, after, backing, result == Replied(true) || result == CallFailed(false))
  {
    hide NextRun, Exec, ExecAll, RewoundByAll;
  }

  /** A launch after such a move, or none, is the whole step. */
  lemma LaunchesAs(before: State, cap: Option<nat>, foreign: seq<Command>, asked: Step, step: Step, moved: State,
                   backing: Backing, proceed: bool, after: State)
    requires step.Serve? && step.slot.next.Some? && asked == step.(admitted := false, deadline := 0)
    requires MovesAs(before, cap, foreign, asked, moved, backing, proceed)
    requires after == if proceed && step.admitted && Wanted(step.slot, step.now, step.policy)
                      then WithLaunch(moved, Moved(step.slot, step.now), step.slot.next.value, backing, step.deadline)
                      else moved
    ensures after == AfterServe(Met(before, cap, foreign), cap, step)
  {
    hide NextRun, Exec, ExecAll, RewoundByAll, Exchanged;
  }

  ghost function Stepped(c: Config, cap: Option<nat>, step: Step): Config
    requires Possible(c, step)
  {
    var s := c.state;
    match step
    case Call(command) =>
      c.(state := s.(table := Exec(s.table, cap, command).0, log := Rewinding(s.log, RewoundBy(s.table, command))))
    case Restart =>
      Config(s.(slots := multiset{}, pendingEnds := [], cancelled := s.cancelled + Unfinished(s)), [], false, false)
    case AskStop => c.(stopping := true)
    case List(unreadable) => c.(listing := ListActive(s.table, unreadable), merging := true)
    case Build(row) => c.(state := s.(slots := s.slots + multiset{Slot(row, row.nextRunAt, None)}))
    case Drop(slot) =>
      c.(state := s.(slots := s.slots - multiset{slot},
                     cancelled := s.cancelled + (if slot.run.Some? then {slot.run.value.key} else {})))
    case Merged => c.(listing := [], merging := false)
    case Finish(slot, completes) => c.(state := WithRunTaken(s, slot, completes))
    case Obey(slot, call, answer) =>
      c.(state := s.(slots := s.slots - multiset{slot}, table := WrittenTo(s.table, cap, call, answer)))
    case Exhaust(slot, at, answer) =>
      c.(state := s.(slots := s.slots - multiset{slot},
                     table := WrittenTo(s.table, cap, EndCall(slot.schedule, at), answer),
                     pendingEnds := OwedAfter(s.pendingEnds, slot.schedule, answer)))
    case RetryEnd(index, at, answer) =>
      c.(state := s.(table := WrittenTo(s.table, cap, EndCall(s.pendingEnds[index], at), answer),
                     pendingEnds := OwedAfter(Without(s.pendingEnds, index), s.pendingEnds[index], answer)))
    case Serve(_, _, _, _, _, _) => c.(state := AfterServe(c, cap, step))
  }

  // ------------------------------------------------------------------
  // Every step keeps the invariant
  // ------------------------------------------------------------------

  ghost predicate Sound(c: Config) {
    Safe(c.state) && AllListed(c.listing, c.state.table, c.state.log) && (!c.merging ==> c.listing == [])
  }

  lemma CallKeepsSound(c: Config, cap: Option<nat>, command: Command)
    requires Sound(c) && ValidCommand(command)
    ensures Sound(Stepped(c, cap, Call(command)))
  {
    hide Safe, Listed;
    var rewound := RewoundBy(c.state.table, command);
    OthersStep(c.state, cap, command);
    SafeIsValid(c.state);
    forall row | row in c.listing
      ensures Listed(row, Exec(c.state.table, cap, command).0, Rewinding(c.state.log, rewound))
    {
      ListedStep(row, c.state.table, cap, command, c.state.log, rewound);
    }
  }

  lemma BuildKeepsSound(c: Config, cap: Option<nat>, row: Schedule)
    requires Sound(c) && Possible(c, Build(row))
    ensures Sound(Stepped(c, cap, Build(row)))
  {
    hide Safe;
    assert Listed(row, c.state.table, c.state.log);
    AddIdle(c.state, Slot(row, row.nextRunAt, None));
  }

  lemma WrittenKeepsSafe(s: State, cap: Option<nat>, call: Command, answer: Answer)
    requires Safe(s) && (call.Stop? || call.Disable?)
    ensures Safe(s.(table := WrittenTo(s.table, cap, call, answer)))
  {
    hide Safe;
    TableStep(s, cap, call);
    assert s.(table := s.table) == s;
  }

  lemma ObeyKeepsSafe(s: State, cap: Option<nat>, slot: Slot, call: Command, answer: Answer)
    requires Safe(s) && slot in s.slots && slot.run.None? && (call.Stop? || call.Disable?)
    ensures Safe(s.(slots := s.slots - multiset{slot}, table := WrittenTo(s.table, cap, call, answer)))
  {
    hide Safe, WrittenTo;
    DropIdle(s, slot);
    WrittenKeepsSafe(s.(slots := s.slots - multiset{slot}), cap, call, answer);
  }

  lemma OwedKeepsSafe(s: State, schedule: Schedule, answer: Answer)
    requires Safe(s) && forall slot :: slot in s.slots ==> !SameKey(slot.schedule, schedule)
    ensures Safe(s.(pendingEnds := OwedAfter(s.pendingEnds, schedule, answer)))
  {
    hide Safe;
    OweEnding(s, schedule);
    assert s.(pendingEnds := s.pendingEnds) == s;
  }

  lemma ExhaustKeepsSafe(s: State, cap: Option<nat>, slot: Slot, at: int, answer: Answer)
    requires Safe(s) && slot in s.slots && slot.run.None?
    ensures Safe(s.(slots := s.slots - multiset{slot},
                    table := WrittenTo(s.table, cap, EndCall(slot.schedule, at), answer),
                    pendingEnds := OwedAfter(s.pendingEnds, slot.schedule, answer)))
  {
    hide Safe, WrittenTo, OwedAfter;
    DropIdle(s, slot);
    var dropped := s.(slots := s.slots - multiset{slot});
    WrittenKeepsSafe(dropped, cap, EndCall(slot.schedule, at), answer);
    OwedKeepsSafe(dropped.(table := WrittenTo(s.table, cap, EndCall(slot.schedule, at), answer)), slot.schedule,
                  answer);
  }

  lemma RetryKeepsSafe(s: State, cap: Option<nat>, index: nat, at: int, answer: Answer)
    requires Safe(s) && index < |s.pendingEnds|
    ensures Safe(s.(table := WrittenTo(s.table, cap, EndCall(s.pendingEnds[index], at), answer),
                    pendingEnds := OwedAfter(Without(s.pendingEnds, index), s.pendingEnds[index], answer)))
  {
    hide Safe, WrittenTo, OwedAfter;
    var schedule := s.pendingEnds[index];
    NotPendingHasNoSlot(s, s.pendingEnds, index);
    OweFewer(s, Without(s.pendingEnds, index));
    var fewer := s.(pendingEnds := Without(s.pendingEnds, index));
    WrittenKeepsSafe(fewer, cap, EndCall(schedule, at), answer);
    OwedKeepsSafe(fewer.(table := WrittenTo(s.table, cap, EndCall(schedule, at), answer)), schedule, answer);
  }

  /** What stands behind a served slot's launch, as the invariant wants it. */
  lemma ServedIsBacked(s: State, cap: Option<nat>, slot: Slot, now: int, answer: Answer)
    requires Safe(s) && slot in s.slots && DueAt(slot, now)
    ensures NextOf(slot, now).Some? ==>
              slot.next.value <= now < NextOf(slot, now).value == Stamp(NextOf(slot, now).value)
    ensures Before(s.log, slot.schedule.id, slot.schedule.generation, slot.next.value)
    ensures var launch := LaunchOf(Moved(slot, now), slot.next.value, BackingOf(s.table, cap, slot, now, answer));
            Authorized(launch) && StoredAhead(launch, TableAfter(s.table, cap, slot, now, answer), s.log.rewound)
  {
    hide NextRun;
    assert SlotOk(slot, s.table, s.log);
    NextRunAdvances(slot.schedule.spec.expr, slot.schedule.jitter, now);
    if NextOf(slot, now).Some? {
      RunStampsExactly(slot.schedule.spec.expr, slot.schedule.jitter, now);
    }
  }

  lemma BeforeLater(log: Log, id: nat, generation: nat, next: int, later: int)
    requires Before(log, id, generation, next) && next <= later
    ensures Before(log, id, generation, later)
  {
  }

  lemma MoveKeepsSafe(c: Config, cap: Option<nat>, step: Step)
    requires Sound(c) && step.Serve? && Possible(c, step)
    ensures Safe(AfterMove(c, cap, step)) && Moved(step.slot, step.now) in AfterMove(c, cap, step).slots
  {
    hide Safe, Before, Exec;
    var s, slot := c.state, step.slot;
    ServedIsBacked(s, cap, slot, step.now, step.answer);
    MoveNext(s, slot, NextOf(slot, step.now));
    var moved := s.(slots := Exchanged(s.slots, slot, Moved(slot, step.now)));
    if Took(s.table, cap, slot, step.now, step.answer) {
      BeforeLater(s.log, slot.schedule.id, slot.schedule.generation, slot.next.value,
                  Stamp(NextOf(slot, step.now).value));
      TableStep(moved, cap, NextCall(slot, step.now));
    }
    assert AfterMove(c, cap, step) == moved.(table := AfterMove(c, cap, step).table);
  }

  lemma ServeKeepsSafe(c: Config, cap: Option<nat>, step: Step)
    requires Sound(c) && step.Serve? && Possible(c, step)
    ensures Safe(AfterServe(c, cap, step))
  {
    hide Safe, Before, Exec, Authorized, StoredAhead, BackingOf, TableAfter, Exchanged;
    MoveKeepsSafe(c, cap, step);
    ServedIsBacked(c.state, cap, step.slot, step.now, step.answer);
    if LaunchesNow(c, cap, step) {
      LaunchStep(AfterMove(c, cap, step), Moved(step.slot, step.now), step.slot.next.value,
                 BackingOf(c.state.table, cap, step.slot, step.now, step.answer), step.deadline);
    }
  }

  /** Every step anyone takes keeps the invariant. */
  lemma StepKeepsSound(c: Config, cap: Option<nat>, step: Step)
    requires Sound(c) && Possible(c, step)
    ensures Sound(Stepped(c, cap, step))
  {
    hide Safe, AfterServe, WrittenTo, OwedAfter, MergeDone, Missing, ListsEnabled, AllListed;
    match step {
      case Call(command) => CallKeepsSound(c, cap, command);
      case Restart =>
        StartOver(c.state);
        NothingListed(Stepped(c, cap, step).state.table, Stepped(c, cap, step).state.log);
      case AskStop =>
      case List(unreadable) => ListIsListed(c.state, unreadable);
      case Build(row) => BuildKeepsSound(c, cap, row);
      case Drop(slot) => CancelSlot(c.state, slot);
      case Merged => NothingListed(c.state.table, c.state.log);
      case _ =>
        SlotStepKeepsSafe(c, cap, step);
        NothingListed(Stepped(c, cap, step).state.table, Stepped(c, cap, step).state.log);
    }
  }

  lemma SlotStepKeepsSafe(c: Config, cap: Option<nat>, step: Step)
    requires Sound(c) && Possible(c, step)
    requires step.Finish? || step.Obey? || step.Exhaust? || step.RetryEnd? || step.Serve?
    ensures Safe(Stepped(c, cap, step).state)
  {
    hide Safe, AfterServe, WrittenTo, OwedAfter, AllListed;
    match step {
      case Finish(slot, completes) => TakeRun(c.state, slot, completes);
      case Obey(slot, call, answer) => ObeyKeepsSafe(c.state, cap, slot, call, answer);
      case Exhaust(slot, at, answer) => ExhaustKeepsSafe(c.state, cap, slot, at, answer);
      case RetryEnd(index, at, answer) => RetryKeepsSafe(c.state, cap, index, at, answer);
      case Serve(_, _, _, _, _, _) => ServeKeepsSafe(c, cap, step);
    }
  }

  // ------------------------------------------------------------------
  // Runs
  // ------------------------------------------------------------------

  ghost predicate CanRun(c: Config, cap: Option<nat>, steps: seq<Step>)
    decreases |steps|
  {
    steps == [] || (Possible(c, steps[0]) && CanRun(Stepped(c, cap, steps[0]), cap, steps[1..]))
  }

  ghost function RanAll(c: Config, cap: Option<nat>, steps: seq<Step>): Config
    requires CanRun(c, cap, steps)
    decreases |steps|
  {
    if steps == [] then c else RanAll(Stepped(c, cap, steps[0]), cap, steps[1..])
  }

  predicate NoRestart(steps: seq<Step>) {
    forall i :: 0 <= i < |steps| ==> !steps[i].Restart?
  }

  /** Some steps in the life of one worker lead from one to the other. */
  ghost predicate LeadsTo(a: Config, cap: Option<nat>, b: Config) {
    exists steps :: NoRestart(steps) && CanRun(a, cap, steps) && RanAll(a, cap, steps) == b
  }

  /** Some steps, restarts among them or not, lead from one to the other. */
  ghost predicate Becomes(a: Config, cap: Option<nat>, b: Config) {
    exists steps :: CanRun(a, cap, steps) && RanAll(a, cap, steps) == b
  }

  /** No step takes a launch out of the log or forgets what was moved back. */
  ghost predicate LogGrew(before: Log, after: Log) {
    before.launches <= after.launches && before.rewound <= after.rewound
  }

  lemma StepGrowsLog(c: Config, cap: Option<nat>, step: Step)
    requires Possible(c, step)
    ensures LogGrew(c.state.log, Stepped(c, cap, step).state.log)
  {
  }

  lemma {:induction false} RunGrowsLog(c: Config, cap: Option<nat>, steps: seq<Step>)
    requires CanRun(c, cap, steps)
    ensures LogGrew(c.state.log, RanAll(c, cap, steps).state.log)
    decreases |steps|
  {
    hide Possible, Stepped;
    if steps != [] {
      StepGrowsLog(c, cap, steps[0]);
      RunGrowsLog(Stepped(c, cap, steps[0]), cap, steps[1..]);
    }
  }

  /** Whatever anyone does, in any order, keeps the invariant. */
  lemma {:induction false} EveryRunIsSound(c: Config, cap: Option<nat>, steps: seq<Step>)
    requires Sound(c) && CanRun(c, cap, steps)
    ensures Sound(RanAll(c, cap, steps))
    decreases |steps|
  {
    hide Possible, Stepped, Sound;
    if steps != [] {
      StepKeepsSound(c, cap, steps[0]);
      EveryRunIsSound(Stepped(c, cap, steps[0]), cap, steps[1..]);
    }
  }
}
