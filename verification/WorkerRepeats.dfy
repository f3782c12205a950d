/**
 When can an occurrence that was launched be launched again
 (crates/sc-cron/src/worker.rs)? By any run of steps, by one within the life of the
 worker, and by one that does not drop the schedule's slot.
 */
module WorkerRepeats {
  import opened Options
  import opened Expr
  import opened Types
  import opened ScheduleTable
  import opened StoreHistory
  import opened StoreReads
  import opened WorkerState
  import opened WorkerWorld
  import opened WorkerLaunch
  import opened WorkerRuns
  import WorkerReload

  /** How free a run is: anything, no restart, or no restart and no drop of the schedule's slot. */
  datatype Way = Anyhow | OneLife | NoDrop

  /** The step takes away the slot of this generation. */
  ghost predicate Removes(c: Config, cap: Option<nat>, step: Step, id: nat, generation: nat)
    requires Possible(c, step)
  {
    HasSlotOf(c.state.slots, id, generation) && !HasSlotOf(Stepped(c, cap, step).state.slots, id, generation)
  }

  /** The step is of the given kind, and moves no stored next run of this generation back. */
  ghost predicate Quiet(c: Config, cap: Option<nat>, way: Way, step: Step, id: nat, generation: nat)
    requires Possible(c, step)
  {
    && (step.Call? ==> (id, generation) !in RewoundBy(c.state.table, step.c))
    && (way.Anyhow? || !step.Restart?)
    && (way.NoDrop? ==> !Removes(c, cap, step, id, generation))
  }

  ghost predicate AllQuiet(c: Config, cap: Option<nat>, way: Way, steps: seq<Step>, id: nat, generation: nat)
    requires CanRun(c, cap, steps)
    decreases |steps|
  {
    steps == []
    || (Quiet(c, cap, way, steps[0], id, generation)
        && AllQuiet(Stepped(c, cap, steps[0]), cap, way, steps[1..], id, generation))
  }

  /** The occurrence of `launch` is in the log past its first `since` launches. */
  ghost predicate Again(launches: seq<Launch>, since: nat, launch: Launch) {
    exists j :: since <= j < |launches| && SameOccurrence(launches[j], launch)
  }

  ghost predicate RepeatsIn(c: Config, cap: Option<nat>, way: Way, launch: Launch, steps: seq<Step>) {
    && CanRun(c, cap, steps)
    && AllQuiet(c, cap, way, steps, launch.id, launch.generation)
    && Again(RanAll(c, cap, steps).state.log.launches, |c.state.log.launches|, launch)
  }

  /** Some run of this kind launches the occurrence again, although no one moves its next run back. */
  ghost predicate Repeatable(c: Config, cap: Option<nat>, way: Way, launch: Launch) {
    exists steps :: RepeatsIn(c, cap, way, launch, steps)
  }

  // ------------------------------------------------------------------
  // Past an occurrence
  // ------------------------------------------------------------------

  /** The stored next run, the slots and the rows that are to get one all lie past the occurrence. */
  ghost predicate Past(c: Config, id: nat, generation: nat, due: int) {
    && id in c.state.table.rows && generation <= c.state.table.rows[id].generation
    && StoredPast(c.state.table, id, generation, due)
    && SlotsPast(c.state.slots, id, generation, due)
    && RowsPast(c.listing, id, generation, due)
  }

  /** The row is no longer current, or stores a later next run. */
  ghost predicate StoredPast(t: Table, id: nat, generation: nat, due: int) {
    Current(t, id, generation) ==> t.rows[id].nextRunAt.Some? && due < t.rows[id].nextRunAt.value
  }

  ghost predicate SlotsPast(slots: multiset<Slot>, id: nat, generation: nat, due: int) {
    forall slot :: slot in slots && HasKey(slot.schedule, id, generation) && slot.next.Some? ==> due < slot.next.value
  }

  ghost predicate RowsPast(rows: seq<Schedule>, id: nat, generation: nat, due: int) {
    forall row :: row in rows && HasKey(row, id, generation) && row.IsActive() && row.enabled && row.nextRunAt.Some? ==>
      due < row.nextRunAt.value
  }

  /** A call that does not move the next run back keeps the stored one past an occurrence. */
  lemma CallKeepsStoredPast(t: Table, cap: Option<nat>, call: Command, id: nat, generation: nat, due: int)
    requires Valid(t) && ValidCommand(call) && id in t.rows && generation <= t.rows[id].generation
    requires (id, generation) !in RewoundBy(t, call) && StoredPast(t, id, generation, due)
    ensures var after := Exec(t, cap, call).0;
            id in after.rows && generation <= after.rows[id].generation && StoredPast(after, id, generation, due)
  {
    ExecSteps(t, cap, call, id);
    ExecNext(t, cap, call, id);
  }

  lemma WrittenKeepsStoredPast(t: Table, cap: Option<nat>, call: Command, answer: Answer, id: nat, generation: nat,
                               due: int)
    requires Valid(t) && (call.Stop? || call.Disable?) && id in t.rows && generation <= t.rows[id].generation
    requires StoredPast(t, id, generation, due)
    ensures var after := WrittenTo(t, cap, call, answer);
            id in after.rows && generation <= after.rows[id].generation && StoredPast(after, id, generation, due)
  {
    hide Exec;
    CallKeepsStoredPast(t, cap, call, id, generation, due);
  }

  lemma ListKeepsPast(c: Config, cap: Option<nat>, unreadable: set<nat>, id: nat, generation: nat, due: int)
    requires Sound(c) && Possible(c, List(unreadable)) && Past(c, id, generation, due)
    ensures Past(Stepped(c, cap, List(unreadable)), id, generation, due)
  {
    ListIsActiveRows(c.state.table, unreadable, 1);
    forall row | row in ListActive(c.state.table, unreadable) && HasKey(row, id, generation) && row.nextRunAt.Some?
      ensures due < row.nextRunAt.value
    {
      assert row == c.state.table.rows[row.id] && row.IsActive();
    }
  }

  lemma FewerPast(slots: multiset<Slot>, slot: Slot, id: nat, generation: nat, due: int)
    requires SlotsPast(slots, id, generation, due)
    ensures SlotsPast(slots - multiset{slot}, id, generation, due)
  {
    forall x | x in slots - multiset{slot} ensures x in slots {
    }
  }

  /** An exchange for a slot whose next run is no earlier. */
  lemma ExchangeKeepsPast(slots: multiset<Slot>, slot: Slot, other: Slot, id: nat, generation: nat, due: int)
    requires SlotsPast(slots, id, generation, due) && slot in slots && other.schedule == slot.schedule
    requires other.next.Some? ==> slot.next.Some? && slot.next.value <= other.next.value
    ensures SlotsPast(Exchanged(slots, slot, other), id, generation, due)
  {
    forall x | x in Exchanged(slots, slot, other) && HasKey(x.schedule, id, generation) && x.next.Some?
      ensures due < x.next.value
    {
      if x != other { assert x in slots; }
    }
  }

  lemma ServedTablePast(s: State, cap: Option<nat>, slot: Slot, now: int, answer: Answer, id: nat, generation: nat,
                        due: int)
    requires Safe(s) && slot in s.slots && DueAt(slot, now)
    requires id in s.table.rows && generation <= s.table.rows[id].generation && StoredPast(s.table, id, generation, due)
    requires SlotsPast(s.slots, id, generation, due)
    ensures var after := TableAfter(s.table, cap, slot, now, answer);
            id in after.rows && generation <= after.rows[id].generation && StoredPast(after, id, generation, due)
  {
    hide NextRun, Exec;
    ServedIsBacked(s, cap, slot, now, answer);
    if Took(s.table, cap, slot, now, answer) {
      ExecSteps(s.table, cap, NextCall(slot, now), id);
      ExecNext(s.table, cap, NextCall(slot, now), id);
    }
  }

  /** Serving slots keeps them past what they were past. */
  lemma ServeKeepsSlotsPast(c: Config, cap: Option<nat>, step: Step, id: nat, generation: nat, due: int)
    requires Sound(c) && step.Serve? && Possible(c, step) && SlotsPast(c.state.slots, id, generation, due)
    ensures SlotsPast(AfterServe(c, cap, step).slots, id, generation, due)
  {
    hide Safe, NextRun, Exec, TableAfter, BackingOf, Exchanged, SlotsPast;
    var s, slot := c.state, step.slot;
    var moved := Moved(slot, step.now);
    ServedIsBacked(s, cap, slot, step.now, step.answer);
    ExchangeKeepsPast(s.slots, slot, moved, id, generation, due);
    MoveKeepsSafe(c, cap, step);
    if LaunchesNow(c, cap, step) {
      ExchangeKeepsPast(AfterMove(c, cap, step).slots, moved,
                        moved.(run := Some(InFlight(|s.log.launches|, step.deadline))), id, generation, due);
    }
  }

  lemma ServeIsNotAgain(c: Config, cap: Option<nat>, step: Step, launch: Launch)
    requires step.Serve? && Possible(c, step) && SlotsPast(c.state.slots, launch.id, launch.generation, launch.due)
    ensures !Again(AfterServe(c, cap, step).log.launches, |c.state.log.launches|, launch)
  {
    hide NextRun, Exec, TableAfter, BackingOf, Exchanged, LaunchesNow;
    assert step.slot in c.state.slots;
  }

  lemma ServeKeepsPast(c: Config, cap: Option<nat>, step: Step, launch: Launch)
    requires Sound(c) && step.Serve? && Possible(c, step) && Past(c, launch.id, launch.generation, launch.due)
    ensures Past(Stepped(c, cap, step), launch.id, launch.generation, launch.due)
    ensures !Again(Stepped(c, cap, step).state.log.launches, |c.state.log.launches|, launch)
  {
    hide Safe, NextRun, Exec, TableAfter, BackingOf, Exchanged, SlotsPast, StoredPast;
    ServedTablePast(c.state, cap, step.slot, step.now, step.answer, launch.id, launch.generation, launch.due);
    ServeKeepsSlotsPast(c, cap, step, launch.id, launch.generation, launch.due);
    ServeIsNotAgain(c, cap, step, launch);
  }

  /** A step that does not move the next run back leaves all past the occurrence, and does not launch it. */
  lemma StepKeepsPast(c: Config, cap: Option<nat>, step: Step, launch: Launch)
    requires Sound(c) && Possible(c, step) && Past(c, launch.id, launch.generation, launch.due)
    requires Quiet(c, cap, Anyhow, step, launch.id, launch.generation)
    ensures Past(Stepped(c, cap, step), launch.id, launch.generation, launch.due)
    ensures !Again(Stepped(c, cap, step).state.log.launches, |c.state.log.launches|, launch)
  {
    hide Stepped, Possible, Sound, Past, Again, Quiet;
    match step {
      case List(unreadable) =>
        ListKeepsPast(c, cap, unreadable, launch.id, launch.generation, launch.due);
        QuietStep(c, cap, step, launch);
      case Serve(_, _, _, _, _, _) => ServeKeepsPast(c, cap, step, launch);
      case Call(_) => WriteKeepsPast(c, cap, step, launch);
      case Obey(_, _, _) => WriteKeepsPast(c, cap, step, launch);
      case Exhaust(_, _, _) => WriteKeepsPast(c, cap, step, launch);
      case RetryEnd(_, _, _) => WriteKeepsPast(c, cap, step, launch);
      case _ => SlotsKeepPast(c, cap, step, launch);
    }
  }

  /** Only a served slot is launched. */
  lemma QuietStep(c: Config, cap: Option<nat>, step: Step, launch: Launch)
    requires Possible(c, step) && !step.Serve?
    ensures !Again(Stepped(c, cap, step).state.log.launches, |c.state.log.launches|, launch)
  {
  }

  /** The steps that write but do not launch. */
  lemma WriteKeepsPast(c: Config, cap: Option<nat>, step: Step, launch: Launch)
    requires Sound(c) && Possible(c, step) && Past(c, launch.id, launch.generation, launch.due)
    requires Quiet(c, cap, Anyhow, step, launch.id, launch.generation)
    requires step.Call? || step.Obey? || step.Exhaust? || step.RetryEnd?
    ensures Past(Stepped(c, cap, step), launch.id, launch.generation, launch.due)
    ensures !Again(Stepped(c, cap, step).state.log.launches, |c.state.log.launches|, launch)
  {
    hide Safe, AllListed, StoredPast, SlotsPast, RowsPast, WrittenTo, OwedAfter, Exec;
    var s, id, generation, due := c.state, launch.id, launch.generation, launch.due;
    SafeIsValid(s);
    match step {
      case Call(command) => CallKeepsStoredPast(s.table, cap, command, id, generation, due);
      case Obey(slot, call, answer) =>
        FewerPast(s.slots, slot, id, generation, due);
        WrittenKeepsStoredPast(s.table, cap, call, answer, id, generation, due);
      case Exhaust(slot, at, answer) =>
        FewerPast(s.slots, slot, id, generation, due);
        WrittenKeepsStoredPast(s.table, cap, EndCall(slot.schedule, at), answer, id, generation, due);
      case RetryEnd(index, at, answer) =>
        WrittenKeepsStoredPast(s.table, cap, EndCall(s.pendingEnds[index], at), answer, id, generation, due);
    }
  }

  /** The steps that leave the table. */
  lemma SlotsKeepPast(c: Config, cap: Option<nat>, step: Step, launch: Launch)
    requires Sound(c) && Possible(c, step) && Past(c, launch.id, launch.generation, launch.due)
    requires !step.Call? && !step.Obey? && !step.Exhaust? && !step.RetryEnd? && !step.Serve? && !step.List?
    ensures Past(Stepped(c, cap, step), launch.id, launch.generation, launch.due)
    ensures !Again(Stepped(c, cap, step).state.log.launches, |c.state.log.launches|, launch)
  {
    hide Safe, AllListed, StoredPast, MergeDone, ListsEnabled;
    var s, id, generation, due := c.state, launch.id, launch.generation, launch.due;
    match step {
      case Finish(slot, _) => ExchangeKeepsPast(s.slots, slot, slot.(run := None), id, generation, due);
      case Drop(slot) => FewerPast(s.slots, slot, id, generation, due);
      case _ =>
    }
  }

  /** What is in the log neither after one step nor from then on is not in it at all. */
  lemma NeverAgainSplits(before: seq<Launch>, next: seq<Launch>, end: seq<Launch>, launch: Launch)
    requires before <= next <= end && !Again(next, |before|, launch) && !Again(end, |next|, launch)
    ensures !Again(end, |before|, launch)
  {
    forall j | |before| <= j < |end| ensures !SameOccurrence(end[j], launch) {
      if j < |next| {
        assert next[j] == end[j];
      }
    }
  }

  lemma WayWeakens(c: Config, cap: Option<nat>, way: Way, step: Step, id: nat, generation: nat)
    requires Possible(c, step) && Quiet(c, cap, way, step, id, generation)
    ensures Quiet(c, cap, Anyhow, step, id, generation)
    ensures way.NoDrop? ==> Quiet(c, cap, OneLife, step, id, generation)
  {
  }

  /** Once all lies past an occurrence, no run that does not move its next run back launches it again. */
  lemma {:induction false} PastIsNeverAgain(c: Config, cap: Option<nat>, way: Way, steps: seq<Step>, launch: Launch)
    requires Sound(c) && CanRun(c, cap, steps) && Past(c, launch.id, launch.generation, launch.due)
    requires AllQuiet(c, cap, way, steps, launch.id, launch.generation)
    ensures !Again(RanAll(c, cap, steps).state.log.launches, |c.state.log.launches|, launch)
    decreases |steps|
  {
    hide Possible, Stepped, Sound, Past, Quiet;
    if steps != [] {
      var next := Stepped(c, cap, steps[0]);
      StepGrowsLog(c, cap, steps[0]);
      RunGrowsLog(next, cap, steps[1..]);
      WayWeakens(c, cap, way, steps[0], launch.id, launch.generation);
      StepKeepsSound(c, cap, steps[0]);
      StepKeepsPast(c, cap, steps[0], launch);
      PastIsNeverAgain(next, cap, way, steps[1..], launch);
      NeverAgainSplits(c.state.log.launches, next.state.log.launches, RanAll(c, cap, steps).state.log.launches, launch);
    }
  }

  // ------------------------------------------------------------------
  // A slot that stays
  // ------------------------------------------------------------------

  predicate OfKey(launch: Launch, id: nat, generation: nat) {
    launch.id == id && launch.generation == generation
  }

  /** No step of the run takes away the slot of this generation. */
  ghost predicate Keeps(c: Config, cap: Option<nat>, steps: seq<Step>, id: nat, generation: nat)
    requires CanRun(c, cap, steps)
    decreases |steps|
  {
    steps == []
    || (!Removes(c, cap, steps[0], id, generation) && Keeps(Stepped(c, cap, steps[0]), cap, steps[1..], id, generation))
  }

  /** Past its first `since` launches the log has those of this generation after `due` and in strictly rising order. */
  ghost predicate Rising(launches: seq<Launch>, since: nat, id: nat, generation: nat, due: int) {
    && (forall j :: since <= j < |launches| && OfKey(launches[j], id, generation) ==> due < launches[j].due)
    && forall i, j ::
         since <= i < j < |launches| && OfKey(launches[i], id, generation) && OfKey(launches[j], id, generation) ==>
           launches[i].due < launches[j].due
  }

  /** The log, the slots and the table right after a launch. */
  lemma AfterLaunch(c: Config, cap: Option<nat>, step: Step)
    requires Sound(c) && step.Serve? && Possible(c, step) && LaunchesNow(c, cap, step)
    ensures var slot, after := step.slot, AfterServe(c, cap, step);
            && after.table == TableAfter(c.state.table, cap, slot, step.now, step.answer)
            && after.log == Appended(c.state.log, LaunchOf(slot, slot.next.value,
                              BackingOf(c.state.table, cap, slot, step.now, step.answer)))
            && SlotsPast(after.slots, slot.schedule.id, slot.schedule.generation, slot.next.value)
  {
    hide NextRun, Exec, Exchanged, TableAfter, BackingOf, SlotsPast, Safe, AllListed;
    var slot, moved := step.slot, Moved(step.slot, step.now);
    ServedIsBacked(c.state, cap, slot, step.now, step.answer);
    SlotIsOnly(c.state, slot);
    OnlyExchangePast(c.state.slots, slot, moved);
    MoveKeepsSafe(c, cap, step);
    var running := moved.(run := Some(InFlight(|c.state.log.launches|, step.deadline)));
    ExchangeKeepsPast(AfterMove(c, cap, step).slots, moved, running, slot.schedule.id, slot.schedule.generation,
                      slot.next.value);
  }

  /** No two slots are of one schedule. */
  lemma SlotIsOnly(s: State, slot: Slot)
    requires Safe(s) && slot in s.slots
    ensures s.slots[slot] == 1
    ensures forall x :: x in s.slots && x != slot ==> !HasKey(x.schedule, slot.schedule.id, slot.schedule.generation)
  {
  }

  /** Once the only slot of its schedule has moved on, all slots of that are past where it was. */
  lemma OnlyExchangePast(slots: multiset<Slot>, slot: Slot, moved: Slot)
    requires slot in slots && slots[slot] == 1 && slot.next.Some?
    requires forall x :: x in slots && x != slot ==> !HasKey(x.schedule, slot.schedule.id, slot.schedule.generation)
    requires moved.next.Some? ==> slot.next.value < moved.next.value
    ensures SlotsPast(Exchanged(slots, slot, moved), slot.schedule.id, slot.schedule.generation, slot.next.value)
  {
    forall x | x in Exchanged(slots, slot, moved) && x != moved ensures x in slots && x != slot {
    }
  }

  /** One step that keeps the slot: it stays past what it was past, and past what it launches. */
  ghost predicate StaysAhead(before: State, after: State, id: nat, generation: nat, due: int) {
    && SlotsPast(after.slots, id, generation, due)
    && (|| after.log.launches == before.log.launches
        || (&& |after.log.launches| == |before.log.launches| + 1 && before.log.launches <= after.log.launches
            && var launch := after.log.launches[|before.log.launches|];
               OfKey(launch, id, generation) ==>
                 due < launch.due && SlotsPast(after.slots, id, generation, launch.due)))
  }

  lemma ServeStaysAhead(c: Config, cap: Option<nat>, step: Step, id: nat, generation: nat, due: int)
    requires Sound(c) && step.Serve? && Possible(c, step) && SlotsPast(c.state.slots, id, generation, due)
    ensures StaysAhead(c.state, AfterServe(c, cap, step), id, generation, due)
  {
    hide Safe, NextRun, Exec, TableAfter, BackingOf, Exchanged;
    ServeKeepsSlotsPast(c, cap, step, id, generation, due);
    if LaunchesNow(c, cap, step) {
      AfterLaunch(c, cap, step);
      assert step.slot in c.state.slots;
    }
  }

  lemma StepStaysAhead(c: Config, cap: Option<nat>, step: Step, id: nat, generation: nat, due: int)
    requires Sound(c) && Possible(c, step) && HasSlotOf(c.state.slots, id, generation)
    requires SlotsPast(c.state.slots, id, generation, due) && !Removes(c, cap, step, id, generation)
    ensures HasSlotOf(Stepped(c, cap, step).state.slots, id, generation)
    ensures StaysAhead(c.state, Stepped(c, cap, step).state, id, generation, due)
  {
    hide Safe, AllListed, AfterServe, WrittenTo, OwedAfter, MergeDone, ListsEnabled, HasSlotOf, SlotsPast;
    var s := c.state;
    match step {
      case Serve(_, _, _, _, _, _) => ServeStaysAhead(c, cap, step, id, generation, due);
      case Finish(slot, _) => ExchangeKeepsPast(s.slots, slot, slot.(run := None), id, generation, due);
      case Drop(slot) => FewerPast(s.slots, slot, id, generation, due);
      case Obey(slot, _, _) => FewerPast(s.slots, slot, id, generation, due);
      case Exhaust(slot, _, _) => FewerPast(s.slots, slot, id, generation, due);
      case _ => RestStaysAhead(c, cap, step, id, generation, due);
    }
  }

  /** The steps that take no slot away while this one stays. */
  lemma RestStaysAhead(c: Config, cap: Option<nat>, step: Step, id: nat, generation: nat, due: int)
    requires Possible(c, step) && HasSlotOf(c.state.slots, id, generation)
    requires SlotsPast(c.state.slots, id, generation, due) && !Removes(c, cap, step, id, generation)
    requires !step.Serve? && !step.Finish? && !step.Drop? && !step.Obey? && !step.Exhaust?
    ensures StaysAhead(c.state, Stepped(c, cap, step).state, id, generation, due)
  {
    hide Safe, AllListed, WrittenTo, OwedAfter, MergeDone, ListsEnabled;
  }

  lemma RisingSplits(before: State, next: State, end: seq<Launch>, id: nat, generation: nat, due: int)
    requires StaysAhead(before, next, id, generation, due) && next.log.launches <= end
    requires forall least :: SlotsPast(next.slots, id, generation, least) ==>
               Rising(end, |next.log.launches|, id, generation, least)
    ensures Rising(end, |before.log.launches|, id, generation, due)
  {
    var n := |before.log.launches|;
    assert Rising(end, |next.log.launches|, id, generation, due);
    if |next.log.launches| > n {
      var launch := next.log.launches[n];
      assert end[n] == launch;
      if OfKey(launch, id, generation) {
        assert Rising(end, |next.log.launches|, id, generation, launch.due);
      }
    }
  }

  /**
   For as long as its slot is not dropped, a schedule is launched for strictly later
   occurrences only, whatever became of its `set_next` and whatever others write.
   */
  lemma {:induction false} SlotLaunchesIncrease(c: Config, cap: Option<nat>, steps: seq<Step>, id: nat,
                                                generation: nat, due: int)
    requires Sound(c) && CanRun(c, cap, steps) && Keeps(c, cap, steps, id, generation)
    requires HasSlotOf(c.state.slots, id, generation) && SlotsPast(c.state.slots, id, generation, due)
    ensures Rising(RanAll(c, cap, steps).state.log.launches, |c.state.log.launches|, id, generation, due)
    decreases |steps|
  {
    hide Possible, Stepped, Sound, Removes, SlotsPast, HasSlotOf, StaysAhead;
    if steps == [] {
    } else {
      var next := Stepped(c, cap, steps[0]);
      StepKeepsSound(c, cap, steps[0]);
      StepStaysAhead(c, cap, steps[0], id, generation, due);
      RunGrowsLog(next, cap, steps[1..]);
      forall least | SlotsPast(next.state.slots, id, generation, least)
        ensures Rising(RanAll(c, cap, steps).state.log.launches, |next.state.log.launches|, id, generation, least)
      {
        SlotLaunchesIncrease(next, cap, steps[1..], id, generation, least);
      }
      RisingSplits(c.state, next.state, RanAll(c, cap, steps).state.log.launches, id, generation, due);
    }
  }

  lemma {:induction false} NoDropKeeps(c: Config, cap: Option<nat>, steps: seq<Step>, id: nat, generation: nat)
    requires CanRun(c, cap, steps) && AllQuiet(c, cap, NoDrop, steps, id, generation)
    ensures Keeps(c, cap, steps, id, generation)
    decreases |steps|
  {
    hide Possible, Stepped, Removes;
    if steps != [] {
      NoDropKeeps(Stepped(c, cap, steps[0]), cap, steps[1..], id, generation);
    }
  }

  // ------------------------------------------------------------------
  // A slot that goes
  // ------------------------------------------------------------------

  /** At some step of the run the slot goes while its row is current and stores no later next run. */
  ghost predicate DroppedTooEarly(c: Config, cap: Option<nat>, steps: seq<Step>, launch: Launch)
    requires CanRun(c, cap, steps)
    decreases |steps|
  {
    && steps != []
    && (|| (&& Removes(c, cap, steps[0], launch.id, launch.generation)
            && !StoredPast(Stepped(c, cap, steps[0]).state.table, launch.id, launch.generation, launch.due))
        || DroppedTooEarly(Stepped(c, cap, steps[0]), cap, steps[1..], launch))
  }

  /** Why a slot goes in the life of a worker: a reload, a stop check, or the end of its occurrences. */
  lemma WhySlotsGo(c: Config, cap: Option<nat>, step: Step, id: nat, generation: nat)
    requires Sound(c) && Possible(c, step) && !step.Restart? && Removes(c, cap, step, id, generation)
    ensures || (step.Drop? && !ListsEnabled(c.listing, id, generation))
            || (step.Obey? && HasKey(step.slot.schedule, id, generation))
            || (step.Exhaust? && HasKey(step.slot.schedule, id, generation))
    ensures forall due :: RowsPast(Stepped(c, cap, step).listing, id, generation, due)
    ensures forall due :: SlotsPast(Stepped(c, cap, step).state.slots, id, generation, due)
  {
    hide Safe, AllListed, AfterServe, WrittenTo, OwedAfter, MergeDone;
    var slots := c.state.slots;
    match step {
      case Serve(_, _, _, _, _, _) => ServeKeepsSlot(c, cap, step, id, generation);
      case Finish(slot, _) => ExchangeKeepsSlot(slots, slot, slot.(run := None), id, generation);
      case Build(row) => MoreKeepsSlot(slots, Slot(row, row.nextRunAt, None), id, generation);
      case Drop(slot) => OnlySlotGone(slots, slot, id, generation);
      case Obey(slot, _, _) => OnlySlotGone(slots, slot, id, generation);
      case Exhaust(slot, _, _) => OnlySlotGone(slots, slot, id, generation);
      case _ =>
    }
  }

  lemma OnlySlotGone(slots: multiset<Slot>, slot: Slot, id: nat, generation: nat)
    requires HasSlotOf(slots, id, generation) && !HasSlotOf(slots - multiset{slot}, id, generation)
    ensures HasKey(slot.schedule, id, generation)
  {
    var x :| x in slots && HasKey(x.schedule, id, generation);
    assert x != slot ==> x in slots - multiset{slot};
  }

  lemma MoreKeepsSlot(slots: multiset<Slot>, slot: Slot, id: nat, generation: nat)
    requires HasSlotOf(slots, id, generation)
    ensures HasSlotOf(slots + multiset{slot}, id, generation)
  {
    var x :| x in slots && HasKey(x.schedule, id, generation);
    assert x in slots + multiset{slot};
  }

  lemma ServeKeepsSlot(c: Config, cap: Option<nat>, step: Step, id: nat, generation: nat)
    requires step.Serve? && Possible(c, step) && HasSlotOf(c.state.slots, id, generation)
    ensures HasSlotOf(AfterServe(c, cap, step).slots, id, generation)
  {
    hide NextRun, Exec, TableAfter, BackingOf, LaunchesNow;
    ExchangeKeepsSlot(c.state.slots, step.slot, Moved(step.slot, step.now), id, generation);
    if LaunchesNow(c, cap, step) {
      ExchangeKeepsSlot(AfterMove(c, cap, step).slots, Moved(step.slot, step.now),
                        Moved(step.slot, step.now).(run := Some(InFlight(|c.state.log.launches|, step.deadline))),
                        id, generation);
    }
  }

  lemma ExchangeKeepsSlot(slots: multiset<Slot>, slot: Slot, other: Slot, id: nat, generation: nat)
    requires HasSlotOf(slots, id, generation) && other.schedule == slot.schedule
    ensures HasSlotOf(Exchanged(slots, slot, other), id, generation)
  {
    var x :| x in slots && HasKey(x.schedule, id, generation);
    assert if x == slot then other in Exchanged(slots, slot, other) else x in Exchanged(slots, slot, other);
  }

  /** A slot that is launched again in the life of its worker had gone too early. */
  lemma {:induction false} AgainOnlyAfterADrop(c: Config, cap: Option<nat>, steps: seq<Step>, launch: Launch)
    requires Sound(c) && CanRun(c, cap, steps) && AllQuiet(c, cap, OneLife, steps, launch.id, launch.generation)
    requires HasSlotOf(c.state.slots, launch.id, launch.generation)
    requires SlotsPast(c.state.slots, launch.id, launch.generation, launch.due)
    requires Again(RanAll(c, cap, steps).state.log.launches, |c.state.log.launches|, launch)
    ensures DroppedTooEarly(c, cap, steps, launch)
    decreases |steps|
  {
    hide Possible, Stepped, Sound, Past, SlotsPast, StoredPast, StaysAhead;
    var next, id, generation := Stepped(c, cap, steps[0]), launch.id, launch.generation;
    StepKeepsSound(c, cap, steps[0]);
    StepGrowsLog(c, cap, steps[0]);
    RunGrowsLog(next, cap, steps[1..]);
    if !Removes(c, cap, steps[0], id, generation) {
      StepStaysAhead(c, cap, steps[0], id, generation, launch.due);
      AheadIsNotAgain(c.state, next.state, launch);
      if !Again(RanAll(next, cap, steps[1..]).state.log.launches, |next.state.log.launches|, launch) {
        NeverAgainSplits(c.state.log.launches, next.state.log.launches, RanAll(c, cap, steps).state.log.launches,
                         launch);
      } else {
        AgainOnlyAfterADrop(next, cap, steps[1..], launch);
      }
    } else if StoredPast(next.state.table, id, generation, launch.due) {
      RemovedIsPast(c, cap, steps[0], launch);
      PastIsNeverAgain(next, cap, OneLife, steps[1..], launch);
      NeverAgainSplits(c.state.log.launches, next.state.log.launches, RanAll(c, cap, steps).state.log.launches, launch);
    }
  }

  lemma AheadIsNotAgain(before: State, after: State, launch: Launch)
    requires StaysAhead(before, after, launch.id, launch.generation, launch.due)
    ensures SlotsPast(after.slots, launch.id, launch.generation, launch.due)
    ensures !Again(after.log.launches, |before.log.launches|, launch)
  {
  }

  /** Where the slot goes with its row past the occurrence, all is past it, and nothing is launched. */
  lemma RemovedIsPast(c: Config, cap: Option<nat>, step: Step, launch: Launch)
    requires Sound(c) && Possible(c, step) && !step.Restart? && Removes(c, cap, step, launch.id, launch.generation)
    requires StoredPast(Stepped(c, cap, step).state.table, launch.id, launch.generation, launch.due)
    ensures Past(Stepped(c, cap, step), launch.id, launch.generation, launch.due)
    ensures !Again(Stepped(c, cap, step).state.log.launches, |c.state.log.launches|, launch)
  {
    hide Safe, AllListed, AfterServe, OwedAfter, MergeDone, StoredPast, SlotsPast, RowsPast, WrittenTo, ListsEnabled,
      Valid;
    WhySlotsGo(c, cap, step, launch.id, launch.generation);
    var slot :| slot in c.state.slots && HasKey(slot.schedule, launch.id, launch.generation);
    SlotHasRow(c.state, slot);
    SafeIsValid(c.state);
    match step {
      case Obey(_, call, answer) => WrittenKeepsRow(c.state.table, cap, call, answer, launch.id);
      case Exhaust(other, at, answer) =>
        WrittenKeepsRow(c.state.table, cap, EndCall(other.schedule, at), answer, launch.id);
      case _ =>
    }
  }

  lemma WrittenKeepsRow(t: Table, cap: Option<nat>, call: Command, answer: Answer, id: nat)
    requires Valid(t) && (call.Stop? || call.Disable?) && id in t.rows
    ensures var after := WrittenTo(t, cap, call, answer);
            id in after.rows && t.rows[id].generation <= after.rows[id].generation
  {
    ExecSteps(t, cap, call, id);
  }

  lemma SlotHasRow(s: State, slot: Slot)
    requires Safe(s) && slot in s.slots
    ensures slot.schedule.id in s.table.rows && slot.schedule.generation <= s.table.rows[slot.schedule.id].generation
  {
    assert SlotOk(slot, s.table, s.log);
  }

  // ------------------------------------------------------------------
  // The life of a worker
  // ------------------------------------------------------------------

  /** A run without a restart that notes no such thing does not move the next run of this generation back. */
  lemma {:induction false} UnnotedIsQuiet(c: Config, cap: Option<nat>, steps: seq<Step>, id: nat, generation: nat)
    requires CanRun(c, cap, steps) && NoRestart(steps)
    requires (id, generation) !in RanAll(c, cap, steps).state.log.rewound
    ensures AllQuiet(c, cap, OneLife, steps, id, generation)
    decreases |steps|
  {
    hide Possible, Removes, Exec;
    if steps != [] {
      RunGrowsLog(Stepped(c, cap, steps[0]), cap, steps[1..]);
      UnnotedIsQuiet(Stepped(c, cap, steps[0]), cap, steps[1..], id, generation);
    }
  }

  /** What a life begins past it does not launch, whoever else writes, unless they move the next run back. */
  lemma LifeDoesNotRepeat(a: Config, cap: Option<nat>, b: Config, launch: Launch)
    requires Sound(a) && LeadsTo(a, cap, b) && Past(a, launch.id, launch.generation, launch.due)
    requires (launch.id, launch.generation) !in b.state.log.rewound
    ensures !Again(b.state.log.launches, |a.state.log.launches|, launch)
  {
    hide Sound, Past, CanRun, RanAll, AllQuiet;
    var steps :| NoRestart(steps) && CanRun(a, cap, steps) && RanAll(a, cap, steps) == b;
    UnnotedIsQuiet(a, cap, steps, launch.id, launch.generation);
    PastIsNeverAgain(a, cap, OneLife, steps, launch);
  }

  /** No occurrence that `a` is past, and whose next run nobody moves back, is launched on the way to `b`. */
  ghost predicate RepeatsNothing(a: Config, b: Config) {
    forall launch: Launch ::
      Past(a, launch.id, launch.generation, launch.due) && (launch.id, launch.generation) !in b.state.log.rewound ==>
        !Again(b.state.log.launches, |a.state.log.launches|, launch)
  }

  lemma LifeRepeatsNothing(a: Config, cap: Option<nat>, b: Config)
    requires Sound(a) && LeadsTo(a, cap, b)
    ensures RepeatsNothing(a, b)
  {
    hide Sound, LeadsTo, Past, Again;
    forall launch: Launch | Past(a, launch.id, launch.generation, launch.due)
                            && (launch.id, launch.generation) !in b.state.log.rewound
      ensures !Again(b.state.log.launches, |a.state.log.launches|, launch)
    {
      LifeDoesNotRepeat(a, cap, b, launch);
    }
  }

  /** Where a life launches again what a slot was past, the slot had gone too early. */
  lemma LifeRepeatsAfterADrop(a: Config, cap: Option<nat>, b: Config, launch: Launch) returns (steps: seq<Step>)
    requires Sound(a) && LeadsTo(a, cap, b) && HasSlotOf(a.state.slots, launch.id, launch.generation)
    requires SlotsPast(a.state.slots, launch.id, launch.generation, launch.due)
    requires (launch.id, launch.generation) !in b.state.log.rewound
    requires Again(b.state.log.launches, |a.state.log.launches|, launch)
    ensures CanRun(a, cap, steps) && RanAll(a, cap, steps) == b && DroppedTooEarly(a, cap, steps, launch)
  {
    hide Sound, SlotsPast, HasSlotOf, CanRun, RanAll, AllQuiet, DroppedTooEarly;
    steps :| NoRestart(steps) && CanRun(a, cap, steps) && RanAll(a, cap, steps) == b;
    UnnotedIsQuiet(a, cap, steps, launch.id, launch.generation);
    AgainOnlyAfterADrop(a, cap, steps, launch);
  }
}
