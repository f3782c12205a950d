/**
 An occurrence can be launched again exactly when its row is still current and stores
 no later next run; this module constructs the runs that do it.
 */
module WorkerAgain {
  import opened Options
  import opened Expr
  import opened Types
  import opened ScheduleTable
  import opened StoreHistory
  import opened StoreReads
  import opened WorkerState
  import opened WorkerWorld
  import opened WorkerLaunch
  import opened WorkerRuns
  import opened WorkerRepeats
  import WorkerReload

  /** What can be repeated after a step can be repeated before it. */
  lemma RepeatableBefore(c: Config, cap: Option<nat>, way: Way, step: Step, launch: Launch)
    requires Possible(c, step) && Quiet(c, cap, way, step, launch.id, launch.generation)
    requires Repeatable(Stepped(c, cap, step), cap, way, launch)
    ensures Repeatable(c, cap, way, launch)
  {
    hide Possible, Stepped, Quiet;
    var rest :| RepeatsIn(Stepped(c, cap, step), cap, way, launch, rest);
    var steps := [step] + rest;
    assert steps[0] == step && steps[1..] == rest;
    StepGrowsLog(c, cap, step);
    assert RepeatsIn(c, cap, way, launch, steps);
  }

  /** The row that stands for the occurrence: current, enabled, and storing it. */
  ghost predicate RowDue(t: Table, launch: Launch) {
    && Current(t, launch.id, launch.generation)
    && t.rows[launch.id].enabled && t.rows[launch.id].nextRunAt == Some(launch.due)
  }

  /** The slot that stands for the occurrence. */
  ghost predicate SlotDue(s: State, slot: Slot, launch: Launch) {
    && slot in s.slots && HasKey(slot.schedule, launch.id, launch.generation)
    && slot.run.None? && slot.next == Some(launch.due)
  }

  /** The slot of a current, enabled row launches the occurrence it is due for. */
  lemma SlotRepeats(c: Config, cap: Option<nat>, way: Way, slot: Slot, launch: Launch)
    requires Sound(c) && !c.merging && !c.stopping && SlotDue(c.state, slot, launch) && RowDue(c.state.table, launch)
    ensures Repeatable(c, cap, way, launch)
  {
    hide Safe, NextRun, Exchanged;
    var step := Serve(slot, launch.due, Coalesce, Answer.Served, true, 0);
    var after := Stepped(c, cap, step);
    assert LaunchesNow(c, cap, step);
    assert SameOccurrence(after.state.log.launches[|c.state.log.launches|], launch);
    ServeKeepsSlot(c, cap, step, launch.id, launch.generation);
    var steps := [step];
    assert steps[0] == step && steps[1..] == [];
    assert CanRun(after, cap, steps[1..]) && RanAll(c, cap, steps) == RanAll(after, cap, steps[1..]) == after;
    assert AllQuiet(after, cap, way, steps[1..], launch.id, launch.generation);
    assert RepeatsIn(c, cap, way, launch, steps);
  }

  // ------------------------------------------------------------------
  // Carrying a merge to its end
  // ------------------------------------------------------------------

  /** Halfway through a merge: the occurrence's slot is there and listed, or is neither there nor to be made. */
  ghost predicate Halfway(c: Config, launch: Launch, has: bool) {
    && c.merging && !c.stopping && Current(c.state.table, launch.id, launch.generation)
    && (if has
        then RowDue(c.state.table, launch) && ListsEnabled(c.listing, launch.id, launch.generation)
             && exists slot :: SlotDue(c.state, slot, launch)
        else && c.state.table.rows[launch.id].nextRunAt.Some?
             && c.state.table.rows[launch.id].nextRunAt.value <= launch.due
             && !ListsEnabled(c.listing, launch.id, launch.generation)
             && !HasSlotOf(c.state.slots, launch.id, launch.generation))
  }

  ghost predicate AllKept(c: Config) {
    forall slot :: slot in c.state.slots ==> ListsEnabled(c.listing, slot.schedule.id, slot.schedule.generation)
  }

  ghost function MissingRows(c: Config): set<nat> {
    set k: nat | k < |c.listing| && Missing(c.state, c.listing[k])
  }

  lemma DropOther(c: Config, cap: Option<nat>, way: Way, slot: Slot, launch: Launch, has: bool)
    requires Sound(c) && Halfway(c, launch, has) && Possible(c, Drop(slot))
    ensures Quiet(c, cap, way, Drop(slot), launch.id, launch.generation)
    ensures Sound(Stepped(c, cap, Drop(slot))) && Halfway(Stepped(c, cap, Drop(slot)), launch, has)
  {
    hide Safe, ListsEnabled, AllListed;
    var after := Stepped(c, cap, Drop(slot));
    StepKeepsSound(c, cap, Drop(slot));
    if has {
      var due :| SlotDue(c.state, due, launch);
      assert SlotDue(after.state, due, launch);
    } else {
      StillNone(c.state.slots, slot, launch.id, launch.generation);
    }
  }

  lemma StillNone(slots: multiset<Slot>, slot: Slot, id: nat, generation: nat)
    requires !HasSlotOf(slots, id, generation)
    ensures !HasSlotOf(slots - multiset{slot}, id, generation)
  {
    forall x | x in slots - multiset{slot} ensures x in slots {
    }
  }

  lemma BuildOther(c: Config, cap: Option<nat>, way: Way, k: nat, launch: Launch, has: bool)
    requires Sound(c) && Halfway(c, launch, has) && AllKept(c) && k in MissingRows(c)
    ensures k < |c.listing|
    ensures Possible(c, Build(c.listing[k])) && Quiet(c, cap, way, Build(c.listing[k]), launch.id, launch.generation)
    ensures var after := Stepped(c, cap, Build(c.listing[k]));
            Sound(after) && Halfway(after, launch, has) && AllKept(after) && MissingRows(after) < MissingRows(c)
  {
    hide Safe, AllListed;
    var row := c.listing[k];
    var slot := Slot(row, row.nextRunAt, None);
    var after := Stepped(c, cap, Build(row));
    StepKeepsSound(c, cap, Build(row));
    assert slot in after.state.slots && HasSlotOf(after.state.slots, row.id, row.generation);
    assert forall x :: x in after.state.slots <==> x == slot || x in c.state.slots;
    if has {
      var due :| SlotDue(c.state, due, launch);
      assert SlotDue(after.state, due, launch);
    }
    forall j | j in MissingRows(after) ensures j in MissingRows(c) {
      var other := c.listing[j];
      if HasSlotOf(c.state.slots, other.id, other.generation) {
        MoreKeepsSlot(c.state.slots, slot, other.id, other.generation);
      }
    }
    assert k !in MissingRows(after);
  }

  lemma EndMerge(c: Config, cap: Option<nat>, way: Way, launch: Launch, has: bool)
    requires Sound(c) && Halfway(c, launch, has) && AllKept(c) && MissingRows(c) == {}
    ensures Possible(c, Merged) && Quiet(c, cap, way, Merged, launch.id, launch.generation)
    ensures Sound(Stepped(c, cap, Merged))
  {
    hide Safe, AllListed, Missing;
    forall k | 0 <= k < |c.listing| ensures !Missing(c.state, c.listing[k]) {
      assert k !in MissingRows(c);
    }
    StepKeepsSound(c, cap, Merged);
  }

  /** The rows that have no slot get one, and the merge is done. */
  lemma {:induction false} BuildPhase(c: Config, cap: Option<nat>, way: Way, launch: Launch, has: bool)
    requires Sound(c) && Halfway(c, launch, has) && AllKept(c)
    ensures Repeatable(c, cap, way, launch)
    decreases if has then 0 else 2, 0, |MissingRows(c)|
  {
    hide Possible, Quiet, Stepped, Sound, Repeatable, MissingRows, AllKept;
    if k :| k in MissingRows(c) {
      BuildOther(c, cap, way, k, launch, has);
      FewerRows(MissingRows(Stepped(c, cap, Build(c.listing[k]))), MissingRows(c));
      BuildPhase(Stepped(c, cap, Build(c.listing[k])), cap, way, launch, has);
      RepeatableBefore(c, cap, way, Build(c.listing[k]), launch);
    } else {
      assert MissingRows(c) == {};
      EndMerge(c, cap, way, launch, has);
      var merged := Stepped(c, cap, Merged);
      MergedKeeps(c, cap);
      if has {
        var slot :| SlotDue(c.state, slot, launch);
        SlotRepeats(merged, cap, way, slot, launch);
      } else {
        NoSlotRepeats(merged, cap, way, launch);
      }
      RepeatableBefore(c, cap, way, Merged, launch);
    }
  }

  lemma MergedKeeps(c: Config, cap: Option<nat>)
    requires Possible(c, Merged)
    ensures Stepped(c, cap, Merged) == c.(listing := [], merging := false)
  {
  }

  lemma FewerRows(a: set<nat>, b: set<nat>)
    requires a < b
    ensures |a| < |b|
  {
    SubsetSize(a, b);
    var x :| x in b && x !in a;
    SubsetSize(a + {x}, b);
  }

  /** The slots no listed row keeps are dropped. */
  lemma {:induction false} DropPhase(c: Config, cap: Option<nat>, way: Way, launch: Launch, has: bool)
    requires Sound(c) && Halfway(c, launch, has)
    ensures Repeatable(c, cap, way, launch)
    decreases if has then 0 else 2, 1, |c.state.slots|
  {
    hide Quiet, Sound, Repeatable, Halfway, ListsEnabled;
    if AllKept(c) {
      BuildPhase(c, cap, way, launch, has);
    } else {
      HalfwayMerges(c, launch, has);
      var slot :| slot in c.state.slots && !ListsEnabled(c.listing, slot.schedule.id, slot.schedule.generation);
      DropOther(c, cap, way, slot, launch, has);
      DropPhase(Stepped(c, cap, Drop(slot)), cap, way, launch, has);
      RepeatableBefore(c, cap, way, Drop(slot), launch);
    }
  }

  lemma HalfwayMerges(c: Config, launch: Launch, has: bool)
    requires Halfway(c, launch, has)
    ensures c.merging && !c.stopping
  {
  }

  // ------------------------------------------------------------------
  // A row without a slot
  // ------------------------------------------------------------------

  /** A reload gives the row a slot. */
  lemma RowRepeats(c: Config, cap: Option<nat>, way: Way, launch: Launch)
    requires Sound(c) && !c.merging && !c.stopping && RowDue(c.state.table, launch)
    requires !HasSlotOf(c.state.slots, launch.id, launch.generation)
    requires !IsPending(c.state.pendingEnds, c.state.table.rows[launch.id])
    ensures Repeatable(c, cap, way, launch)
    decreases 1, 0
  {
    hide Safe, NextRun, AllListed, Repeatable, IsPending;
    SafeIsValid(c.state);
    var row := c.state.table.rows[launch.id];
    ListIsActiveRows(c.state.table, {}, 1);
    var listed := Stepped(c, cap, List({}));
    assert row in listed.listing;
    StepKeepsSound(c, cap, List({}));
    var built := Stepped(listed, cap, Build(row));
    StepKeepsSound(listed, cap, Build(row));
    assert SlotDue(built.state, Slot(row, row.nextRunAt, None), launch);
    assert ListsEnabled(built.listing, launch.id, launch.generation);
    DropPhase(built, cap, way, launch, true);
    RepeatableBefore(listed, cap, way, Build(row), launch);
    RepeatableBefore(c, cap, way, List({}), launch);
  }

  /** A current row that stores no later next run can be enabled and moved on to the occurrence. */
  lemma StoredRepeats(c: Config, cap: Option<nat>, way: Way, launch: Launch)
    requires Sound(c) && !c.merging && !c.stopping && Current(c.state.table, launch.id, launch.generation)
    requires !StoredPast(c.state.table, launch.id, launch.generation, launch.due)
    requires !HasSlotOf(c.state.slots, launch.id, launch.generation)
    requires !IsPending(c.state.pendingEnds, c.state.table.rows[launch.id])
    ensures Repeatable(c, cap, way, launch)
    decreases 1, 1
  {
    hide Safe, AllListed, Repeatable, HasSlotOf;
    SafeIsValid(c.state);
    var row := c.state.table.rows[launch.id];
    var enable := Call(SetEnabled(row.spec.name, true));
    SetFlagEffect(c.state.table, row.spec.name, true);
    var enabled := Stepped(c, cap, enable);
    StepKeepsSound(c, cap, enable);
    var move := Call(SetNext(launch.id, launch.generation, launch.due));
    var moved := Stepped(enabled, cap, move);
    StepKeepsSound(enabled, cap, move);
    SameKeyPending(c.state.pendingEnds, row, moved.state.table.rows[launch.id]);
    RowRepeats(moved, cap, way, launch);
    RepeatableBefore(enabled, cap, way, move, launch);
    RepeatableBefore(c, cap, way, enable, launch);
  }

  /** An ending that is owed can come back in doubt without having taken effect, and is then owed no more. */
  lemma {:induction false} NoSlotRepeats(c: Config, cap: Option<nat>, way: Way, launch: Launch)
    requires Sound(c) && !c.merging && !c.stopping && Current(c.state.table, launch.id, launch.generation)
    requires !StoredPast(c.state.table, launch.id, launch.generation, launch.due)
    requires !HasSlotOf(c.state.slots, launch.id, launch.generation)
    ensures Repeatable(c, cap, way, launch)
    decreases 1, 2, |c.state.pendingEnds|
  {
    hide Safe, AllListed, Repeatable, HasSlotOf, StoredPast;
    if i :| 0 <= i < |c.state.pendingEnds| && SameKey(c.state.pendingEnds[i], c.state.table.rows[launch.id]) {
      var retry := RetryEnd(i, 0, Broken(false, true));
      StepKeepsSound(c, cap, retry);
      NoSlotRepeats(Stepped(c, cap, retry), cap, way, launch);
      RepeatableBefore(c, cap, way, retry, launch);
    } else {
      StoredRepeats(c, cap, way, launch);
    }
  }

  // ------------------------------------------------------------------
  // A row with a slot
  // ------------------------------------------------------------------

  /** A row that is disabled for the length of a reload loses its slot. */
  lemma DisabledRowRepeats(c: Config, cap: Option<nat>, launch: Launch)
    requires Sound(c) && !c.merging && !c.stopping && Current(c.state.table, launch.id, launch.generation)
    requires !StoredPast(c.state.table, launch.id, launch.generation, launch.due)
    requires HasSlotOf(c.state.slots, launch.id, launch.generation)
    ensures Repeatable(c, cap, OneLife, launch)
  {
    hide Safe, AllListed, Repeatable;
    var row := c.state.table.rows[launch.id];
    var disable := Call(SetEnabled(row.spec.name, false));
    SafeIsValid(c.state);
    SetFlagEffect(c.state.table, row.spec.name, false);
    var disabled := Stepped(c, cap, disable);
    StepKeepsSound(c, cap, disable);
    var slot :| slot in c.state.slots && HasKey(slot.schedule, launch.id, launch.generation);
    DisabledSlotGoes(disabled, cap, slot, launch);
    RepeatableBefore(c, cap, OneLife, disable, launch);
  }

  lemma DisabledSlotGoes(c: Config, cap: Option<nat>, slot: Slot, launch: Launch)
    requires Sound(c) && !c.merging && !c.stopping && Current(c.state.table, launch.id, launch.generation)
    requires !StoredPast(c.state.table, launch.id, launch.generation, launch.due)
    requires !c.state.table.rows[launch.id].enabled
    requires slot in c.state.slots && HasKey(slot.schedule, launch.id, launch.generation)
    ensures Repeatable(c, cap, OneLife, launch)
  {
    hide Safe, AllListed, Repeatable;
    SafeIsValid(c.state);
    ListIsActiveRows(c.state.table, {}, 1);
    var listed := Stepped(c, cap, List({}));
    StepKeepsSound(c, cap, List({}));
    assert !ListsEnabled(listed.listing, launch.id, launch.generation);
    var dropped := Stepped(listed, cap, Drop(slot));
    StepKeepsSound(listed, cap, Drop(slot));
    SlotIsAlone(c.state, slot);
    DropPhase(dropped, cap, OneLife, launch, false);
    RepeatableBefore(listed, cap, OneLife, Drop(slot), launch);
    RepeatableBefore(c, cap, OneLife, List({}), launch);
  }

  lemma SlotIsAlone(s: State, slot: Slot)
    requires Safe(s) && slot in s.slots
    ensures !HasSlotOf(s.slots - multiset{slot}, slot.schedule.id, slot.schedule.generation)
  {
    WithoutMembers(s.slots, slot);
  }

  // ------------------------------------------------------------------
  // Exactly
  // ------------------------------------------------------------------

  /** A worker that was asked to stop launches nothing more. */
  lemma {:induction false} StoppedLaunchesNothing(c: Config, cap: Option<nat>, way: Way, steps: seq<Step>, id: nat,
                                                  generation: nat)
    requires CanRun(c, cap, steps) && AllQuiet(c, cap, way, steps, id, generation) && c.stopping && !way.Anyhow?
    ensures RanAll(c, cap, steps).state.log.launches == c.state.log.launches
    decreases |steps|
  {
    if steps != [] {
      StoppedStep(c, cap, steps[0]);
      StoppedLaunchesNothing(Stepped(c, cap, steps[0]), cap, way, steps[1..], id, generation);
    }
  }

  lemma StoppedStep(c: Config, cap: Option<nat>, step: Step)
    requires Possible(c, step) && c.stopping && !step.Restart?
    ensures Stepped(c, cap, step).stopping && Stepped(c, cap, step).state.log.launches == c.state.log.launches
  {
  }

  /** What is possible in a run of a narrower kind is possible in one of a wider kind. */
  lemma {:induction false} WayWidens(c: Config, cap: Option<nat>, steps: seq<Step>, narrow: Way, wide: Way, id: nat,
                                     generation: nat)
    requires CanRun(c, cap, steps) && AllQuiet(c, cap, narrow, steps, id, generation)
    requires wide.Anyhow? || (wide.OneLife? && !narrow.Anyhow?)
    ensures AllQuiet(c, cap, wide, steps, id, generation)
    decreases |steps|
  {
    hide Possible, Stepped, Removes;
    if steps != [] {
      WayWidens(Stepped(c, cap, steps[0]), cap, steps[1..], narrow, wide, id, generation);
    }
  }

  lemma RepeatableWider(c: Config, cap: Option<nat>, narrow: Way, wide: Way, launch: Launch)
    requires Repeatable(c, cap, narrow, launch) && (wide.Anyhow? || (wide.OneLife? && !narrow.Anyhow?))
    ensures Repeatable(c, cap, wide, launch)
  {
    var steps :| RepeatsIn(c, cap, narrow, launch, steps);
    WayWidens(c, cap, steps, narrow, wide, launch.id, launch.generation);
    assert RepeatsIn(c, cap, wide, launch, steps);
  }

  /** Not repeatable while all lies past the occurrence. */
  lemma PastIsNotRepeatable(c: Config, cap: Option<nat>, way: Way, launch: Launch)
    requires Sound(c) && Past(c, launch.id, launch.generation, launch.due)
    ensures !Repeatable(c, cap, way, launch)
  {
    forall steps ensures !RepeatsIn(c, cap, way, launch, steps) {
      if CanRun(c, cap, steps) && AllQuiet(c, cap, way, steps, launch.id, launch.generation) {
        PastIsNeverAgain(c, cap, way, steps, launch);
      }
    }
  }

  /** Not repeatable while the slot stays. */
  lemma HeldIsNotRepeatable(c: Config, cap: Option<nat>, launch: Launch)
    requires Sound(c) && HasSlotOf(c.state.slots, launch.id, launch.generation)
    requires SlotsPast(c.state.slots, launch.id, launch.generation, launch.due)
    ensures !Repeatable(c, cap, NoDrop, launch)
  {
    forall steps ensures !RepeatsIn(c, cap, NoDrop, launch, steps) {
      if CanRun(c, cap, steps) && AllQuiet(c, cap, NoDrop, steps, launch.id, launch.generation) {
        NoDropKeeps(c, cap, steps, launch.id, launch.generation);
        SlotLaunchesIncrease(c, cap, steps, launch.id, launch.generation, launch.due);
      }
    }
  }

  lemma StoppedIsNotRepeatable(c: Config, cap: Option<nat>, way: Way, launch: Launch)
    requires c.stopping && !way.Anyhow?
    ensures !Repeatable(c, cap, way, launch)
  {
    forall steps ensures !RepeatsIn(c, cap, way, launch, steps) {
      if CanRun(c, cap, steps) && AllQuiet(c, cap, way, steps, launch.id, launch.generation) {
        StoppedLaunchesNothing(c, cap, way, steps, launch.id, launch.generation);
      }
    }
  }

  /** A restart forgets every slot, every owed ending and the wish to stop. */
  lemma RestartRepeats(c: Config, cap: Option<nat>, launch: Launch)
    requires Sound(c) && Current(c.state.table, launch.id, launch.generation)
    requires !StoredPast(c.state.table, launch.id, launch.generation, launch.due)
    ensures Repeatable(c, cap, Anyhow, launch)
  {
    hide Safe, AllListed, Repeatable, StoredPast;
    StepKeepsSound(c, cap, Restart);
    NoSlotRepeats(Stepped(c, cap, Restart), cap, Anyhow, launch);
    RepeatableBefore(c, cap, Anyhow, Restart, launch);
  }

  /**
   Between reloads, with the slot of its schedule past it or gone, an occurrence can be
   launched again without anyone moving its next run back: by some run if and only if
   its row is current and stores no later next run; in the life of this worker if it
   has not been asked to stop either; and without a drop of the slot if that is gone.
   */
  lemma RepeatableExactly(c: Config, cap: Option<nat>, launch: Launch)
    requires Sound(c) && !c.merging
    requires launch.id in c.state.table.rows && launch.generation <= c.state.table.rows[launch.id].generation
    requires SlotsPast(c.state.slots, launch.id, launch.generation, launch.due)
    ensures var stale := !StoredPast(c.state.table, launch.id, launch.generation, launch.due);
            && (Repeatable(c, cap, Anyhow, launch) <==> stale)
            && (Repeatable(c, cap, OneLife, launch) <==> stale && !c.stopping)
            && (Repeatable(c, cap, NoDrop, launch) <==>
                stale && !c.stopping && !HasSlotOf(c.state.slots, launch.id, launch.generation))
  {
    hide Repeatable, SlotsPast, HasSlotOf, Safe;
    if StoredPast(c.state.table, launch.id, launch.generation, launch.due) {
      forall way ensures !Repeatable(c, cap, way, launch) {
        PastIsNotRepeatable(c, cap, way, launch);
      }
    } else {
      RestartRepeats(c, cap, launch);
      if c.stopping {
        StoppedIsNotRepeatable(c, cap, OneLife, launch);
        StoppedIsNotRepeatable(c, cap, NoDrop, launch);
      } else if HasSlotOf(c.state.slots, launch.id, launch.generation) {
        DisabledRowRepeats(c, cap, launch);
        HeldIsNotRepeatable(c, cap, launch);
      } else {
        NoSlotRepeats(c, cap, NoDrop, launch);
        RepeatableWider(c, cap, NoDrop, OneLife, launch);
      }
    }
  }

  /** Serving a slot of a current row that stores what the slot is due for. */
  ghost predicate InStep(c: Config, slot: Slot) {
    && slot.next.Some?
    && Current(c.state.table, slot.schedule.id, slot.schedule.generation)
    && c.state.table.rows[slot.schedule.id].nextRunAt == slot.next
  }

  /**
   The occurrence of a launch, made for a current row that stores it, can be launched
   again, in the life of the same worker too, exactly when the write of the next run
   did not take effect: because there is no next run, or because the write failed, is
   known to have, and had not reached the row.
   */
  lemma RepeatableUnlessStored(c: Config, cap: Option<nat>, step: Step)
    requires Sound(c) && step.Serve? && Possible(c, step) && LaunchesNow(c, cap, step) && InStep(c, step.slot)
    ensures var after := Stepped(c, cap, step);
            var launch := after.state.log.launches[|c.state.log.launches|];
            && (Repeatable(after, cap, Anyhow, launch) <==> !launch.backing.Stored?)
            && (Repeatable(after, cap, OneLife, launch) <==> !launch.backing.Stored?)
            && !Repeatable(after, cap, NoDrop, launch)
  {
    hide NextRun, Exchanged, Safe, AllListed, SlotsPast, Repeatable, AfterServe, HasSlotOf;
    var after := Stepped(c, cap, step);
    AfterLaunch(c, cap, step);
    StepKeepsSound(c, cap, step);
    ServedIsBacked(c.state, cap, step.slot, step.now, step.answer);
    SlotIsThere(c.state.slots, step.slot);
    ServeKeepsSlot(c, cap, step, step.slot.schedule.id, step.slot.schedule.generation);
    RepeatableExactly(after, cap, after.state.log.launches[|c.state.log.launches|]);
  }

  lemma SlotIsThere(slots: multiset<Slot>, slot: Slot)
    requires slot in slots
    ensures HasSlotOf(slots, slot.schedule.id, slot.schedule.generation)
  {
  }

  // ------------------------------------------------------------------
  // Drops
  // ------------------------------------------------------------------

  /**
   At each drop of a slot, whether by a reload, a stop check or an exhausted schedule:
   the occurrence can be launched again by the same worker, without a further drop, if
   and only if the row is still current and stores no later next run.
   */
  lemma DropDecides(c: Config, cap: Option<nat>, step: Step, launch: Launch)
    requires Sound(c) && Possible(c, step) && !c.stopping && (step.Drop? || step.Obey? || step.Exhaust?)
    requires Removes(c, cap, step, launch.id, launch.generation)
    ensures var after := Stepped(c, cap, step);
            Repeatable(after, cap, NoDrop, launch) <==>
              !StoredPast(after.state.table, launch.id, launch.generation, launch.due)
  {
    hide Safe, AllListed, Repeatable, StoredPast, WrittenTo, OwedAfter, HasSlotOf;
    var after := Stepped(c, cap, step);
    StepKeepsSound(c, cap, step);
    if StoredPast(after.state.table, launch.id, launch.generation, launch.due) {
      RemovedIsPast(c, cap, step, launch);
      PastIsNotRepeatable(after, cap, NoDrop, launch);
    } else {
      StaleIsCurrent(after.state, launch);
      if step.Drop? {
        WhySlotsGo(c, cap, step, launch.id, launch.generation);
        DropPhase(after, cap, NoDrop, launch, false);
      } else {
        NoSlotRepeats(after, cap, NoDrop, launch);
      }
    }
  }

  lemma StaleIsCurrent(s: State, launch: Launch)
    requires Safe(s) && !StoredPast(s.table, launch.id, launch.generation, launch.due)
    ensures Current(s.table, launch.id, launch.generation)
    ensures s.table.rows[launch.id].nextRunAt.Some? && s.table.rows[launch.id].nextRunAt.value <= launch.due
  {
  }

  // ------------------------------------------------------------------
  // Endings
  // ------------------------------------------------------------------

  /**
   After the ending of an exhausted schedule, whose row still stores the occurrence that
   ran last, that occurrence can be launched again by the same worker, and without a
   further drop, exactly when the ending write did not reach the row.
   */
  lemma EndedUnlessUnreached(c: Config, cap: Option<nat>, step: Step, launch: Launch)
    requires Sound(c) && !c.stopping && step.Exhaust? && Possible(c, step)
    requires HasKey(step.slot.schedule, launch.id, launch.generation)
             && Current(c.state.table, launch.id, launch.generation)
    requires !StoredPast(c.state.table, launch.id, launch.generation, launch.due)
    ensures Repeatable(Stepped(c, cap, step), cap, NoDrop, launch) <==> !Reaches(step.answer)
    ensures Repeatable(Stepped(c, cap, step), cap, Anyhow, launch) <==> !Reaches(step.answer)
  {
    hide Safe, AllListed, Repeatable, OwedAfter;
    var after := Stepped(c, cap, step);
    StepKeepsSound(c, cap, step);
    SafeIsValid(c.state);
    SlotIsAlone(c.state, step.slot);
    RepeatableExactly(after, cap, launch);
  }

  /** A retry of this ending reaches the row or is known to have failed. */
  ghost predicate RetryKnown(c: Config, step: Step, id: nat, generation: nat)
    requires Possible(c, step)
  {
    step.RetryEnd? && HasKey(c.state.pendingEnds[step.index], id, generation) ==>
      Reaches(step.answer) || KnownToFail(step.answer)
  }

  ghost predicate RetriesKnown(c: Config, cap: Option<nat>, steps: seq<Step>, id: nat, generation: nat)
    requires CanRun(c, cap, steps)
    decreases |steps|
  {
    steps == []
    || (RetryKnown(c, steps[0], id, generation)
        && RetriesKnown(Stepped(c, cap, steps[0]), cap, steps[1..], id, generation))
  }

  predicate OwesOf(owed: seq<Schedule>, id: nat, generation: nat) {
    exists i :: 0 <= i < |owed| && HasKey(owed[i], id, generation)
  }

  /** The ending is owed, and the schedule, which has a row, has no slot. */
  ghost predicate Owed(s: State, id: nat, generation: nat) {
    && !HasSlotOf(s.slots, id, generation) && OwesOf(s.pendingEnds, id, generation)
    && id in s.table.rows && generation <= s.table.rows[id].generation
  }

  lemma OwedRemains(owed: seq<Schedule>, index: nat, schedule: Schedule, answer: Answer, id: nat, generation: nat)
    requires OwesOf(owed, id, generation)
    ensures OwesOf(OwedAfter(owed, schedule, answer), id, generation)
    ensures index < |owed| && (!HasKey(owed[index], id, generation) || KnownToFail(answer)) ==>
              OwesOf(OwedAfter(WorkerReload.Without(owed, index), owed[index], answer), id, generation)
  {
    var i :| 0 <= i < |owed| && HasKey(owed[i], id, generation);
    assert OwedAfter(owed, schedule, answer)[i] == owed[i];
    if index < |owed| {
      var rest := WorkerReload.Without(owed, index);
      var after := OwedAfter(rest, owed[index], answer);
      if index == i {
        if KnownToFail(answer) {
          assert after[|rest|] == owed[index];
        }
      } else {
        var k := if i < index then i else i - 1;
        assert rest[k] == owed[i] && after[k] == owed[i];
      }
    }
  }

  /** A row that its ending has reached is current no more. */
  lemma ReachedIsEnded(t: Table, cap: Option<nat>, schedule: Schedule, at: int, answer: Answer)
    requires Valid(t) && Reaches(answer)
    ensures !Current(WrittenTo(t, cap, EndCall(schedule, at), answer), schedule.id, schedule.generation)
  {
  }

  /** While the ending is owed nothing gives the schedule a slot, and its end puts all past it. */
  lemma OwedStep(c: Config, cap: Option<nat>, step: Step, launch: Launch)
    requires Sound(c) && Possible(c, step) && Owed(c.state, launch.id, launch.generation) && !step.Restart?
    requires RetryKnown(c, step, launch.id, launch.generation)
    ensures var next := Stepped(c, cap, step);
            && (Owed(next.state, launch.id, launch.generation) || Past(next, launch.id, launch.generation, launch.due))
            && !Again(next.state.log.launches, |c.state.log.launches|, launch)
  {
    hide Stepped, Possible, Sound, RetryKnown, Again, Past, Owed;
    match step {
      case Call(_) => OwedCall(c, cap, step, launch);
      case Obey(_, _, _) => OwedObey(c, cap, step, launch);
      case Exhaust(_, _, _) => OwedExhaust(c, cap, step, launch);
      case RetryEnd(_, _, _) => OwedRetry(c, cap, step, launch);
      case Serve(_, _, _, _, _, _) => OwedServe(c, cap, step, launch);
      case _ => OwedElse(c, cap, step, launch);
    }
  }

  /** The ending is owed still, and nothing is launched. */
  ghost predicate StaysOwed(before: State, after: State, launch: Launch) {
    && Owed(after, launch.id, launch.generation)
    && !Again(after.log.launches, |before.log.launches|, launch)
  }

  lemma OwedCall(c: Config, cap: Option<nat>, step: Step, launch: Launch)
    requires Sound(c) && step.Call? && Possible(c, step) && Owed(c.state, launch.id, launch.generation)
    ensures StaysOwed(c.state, Stepped(c, cap, step).state, launch)
  {
    hide Safe, AllListed, OwesOf, HasSlotOf, Exec;
    SafeIsValid(c.state);
    ExecSteps(c.state.table, cap, step.c, launch.id);
  }

  lemma OwedObey(c: Config, cap: Option<nat>, step: Step, launch: Launch)
    requires Sound(c) && step.Obey? && Possible(c, step) && Owed(c.state, launch.id, launch.generation)
    ensures StaysOwed(c.state, Stepped(c, cap, step).state, launch)
  {
    hide Safe, AllListed, OwesOf, HasSlotOf, WrittenTo;
    SafeIsValid(c.state);
    StillNone(c.state.slots, step.slot, launch.id, launch.generation);
    WrittenKeepsRow(c.state.table, cap, step.call, step.answer, launch.id);
  }

  lemma OwedExhaust(c: Config, cap: Option<nat>, step: Step, launch: Launch)
    requires Sound(c) && step.Exhaust? && Possible(c, step) && Owed(c.state, launch.id, launch.generation)
    ensures StaysOwed(c.state, Stepped(c, cap, step).state, launch)
  {
    hide Safe, AllListed, OwesOf, HasSlotOf, WrittenTo, OwedAfter;
    SafeIsValid(c.state);
    StillNone(c.state.slots, step.slot, launch.id, launch.generation);
    WrittenKeepsRow(c.state.table, cap, EndCall(step.slot.schedule, step.at), step.answer, launch.id);
    OwedRemains(c.state.pendingEnds, 0, step.slot.schedule, step.answer, launch.id, launch.generation);
  }

  /** The steps that write nothing and launch nothing. */
  lemma OwedElse(c: Config, cap: Option<nat>, step: Step, launch: Launch)
    requires Sound(c) && Possible(c, step) && Owed(c.state, launch.id, launch.generation) && !step.Restart?
    requires !step.Call? && !step.Obey? && !step.Exhaust? && !step.RetryEnd? && !step.Serve?
    ensures StaysOwed(c.state, Stepped(c, cap, step).state, launch)
  {
    hide Safe, AllListed, MergeDone, ListsEnabled, OwesOf, HasSlotOf, Exchanged, Missing;
    var s, id, generation := c.state, launch.id, launch.generation;
    match step {
      case Drop(slot) => StillNone(s.slots, slot, id, generation);
      case Finish(slot, completes) => ExchangeGivesNone(s.slots, slot, slot.(run := None), id, generation);
      case Build(row) => OwedBuild(c, row, id, generation);
      case _ =>
    }
  }

  lemma OwedBuild(c: Config, row: Schedule, id: nat, generation: nat)
    requires Possible(c, Build(row)) && Owed(c.state, id, generation)
    ensures !HasSlotOf(c.state.slots + multiset{Slot(row, row.nextRunAt, None)}, id, generation)
  {
    hide OwesOf;
    if HasKey(row, id, generation) {
      OwedIsPending(c.state.pendingEnds, row, id, generation);
    } else {
      forall x | x in c.state.slots + multiset{Slot(row, row.nextRunAt, None)}
        ensures !HasKey(x.schedule, id, generation)
      {
      }
    }
  }

  lemma OwedIsPending(owed: seq<Schedule>, row: Schedule, id: nat, generation: nat)
    requires OwesOf(owed, id, generation) && HasKey(row, id, generation)
    ensures IsPending(owed, row)
  {
    var i :| 0 <= i < |owed| && HasKey(owed[i], id, generation);
    assert SameKey(owed[i], row);
  }

  lemma ExchangeGivesNone(slots: multiset<Slot>, slot: Slot, other: Slot, id: nat, generation: nat)
    requires !HasSlotOf(slots, id, generation) && slot in slots && other.schedule == slot.schedule
    ensures !HasSlotOf(Exchanged(slots, slot, other), id, generation) && other in Exchanged(slots, slot, other)
  {
    forall x | x in Exchanged(slots, slot, other) ensures !HasKey(x.schedule, id, generation) {
      assert x in slots || x == other;
    }
  }

  lemma ServedKeepsRow(t: Table, cap: Option<nat>, slot: Slot, now: int, answer: Answer, id: nat)
    requires Valid(t) && id in t.rows
    ensures var after := TableAfter(t, cap, slot, now, answer);
            id in after.rows && t.rows[id].generation <= after.rows[id].generation
  {
    hide NextRun;
    if Took(t, cap, slot, now, answer) {
      ExecSteps(t, cap, NextCall(slot, now), id);
    }
  }

  lemma OwedServe(c: Config, cap: Option<nat>, step: Step, launch: Launch)
    requires Sound(c) && Possible(c, step) && step.Serve? && Owed(c.state, launch.id, launch.generation)
    ensures StaysOwed(c.state, Stepped(c, cap, step).state, launch)
  {
    hide NextRun, BackingOf, LaunchesNow, TableAfter, Took, Exec, OwesOf, Safe, AllListed, HasSlotOf, Exchanged;
    var s, moved, id, generation := c.state, Moved(step.slot, step.now), launch.id, launch.generation;
    SafeIsValid(s);
    ServedKeepsRow(s.table, cap, step.slot, step.now, step.answer, id);
    ExchangeGivesNone(s.slots, step.slot, moved, id, generation);
    if LaunchesNow(c, cap, step) {
      ExchangeGivesNone(AfterMove(c, cap, step).slots, moved,
                        moved.(run := Some(InFlight(|s.log.launches|, step.deadline))), id, generation);
    }
    NoneIsPast(s.slots, id, generation, launch.due);
    ServeIsNotAgain(c, cap, step, launch);
  }

  lemma NoneIsPast(slots: multiset<Slot>, id: nat, generation: nat, due: int)
    requires !HasSlotOf(slots, id, generation)
    ensures SlotsPast(slots, id, generation, due)
  {
  }

  lemma OwedRetry(c: Config, cap: Option<nat>, step: Step, launch: Launch)
    requires Sound(c) && Possible(c, step) && step.RetryEnd? && Owed(c.state, launch.id, launch.generation)
    requires RetryKnown(c, step, launch.id, launch.generation)
    ensures var next := Stepped(c, cap, step);
            && (Owed(next.state, launch.id, launch.generation) || Past(next, launch.id, launch.generation, launch.due))
            && !Again(next.state.log.launches, |c.state.log.launches|, launch)
  {
    hide Safe, AllListed, WrittenTo, OwedAfter, KnownToFail, OwesOf, Exec;
    var s := c.state;
    var schedule := s.pendingEnds[step.index];
    SafeIsValid(s);
    WrittenKeepsRow(s.table, cap, EndCall(schedule, step.at), step.answer, launch.id);
    OwedRemains(s.pendingEnds, step.index, schedule, step.answer, launch.id, launch.generation);
    if HasKey(schedule, launch.id, launch.generation) && Reaches(step.answer) {
      ReachedIsEnded(s.table, cap, schedule, step.at, step.answer);
    }
  }

  /**
   What is documented of an owed ending: while its retries reach the row or are known
   to fail, the schedule is not launched again in the life of the worker.
   */
  lemma {:induction false} OwedNeverRunsAgain(c: Config, cap: Option<nat>, steps: seq<Step>, launch: Launch)
    requires Sound(c) && CanRun(c, cap, steps) && AllQuiet(c, cap, OneLife, steps, launch.id, launch.generation)
    requires RetriesKnown(c, cap, steps, launch.id, launch.generation)
    requires Owed(c.state, launch.id, launch.generation) || Past(c, launch.id, launch.generation, launch.due)
    ensures !Again(RanAll(c, cap, steps).state.log.launches, |c.state.log.launches|, launch)
    decreases |steps|
  {
    hide Possible, Stepped, Sound, Past, Owed, RetryKnown, Removes;
    if steps != [] {
      var next := Stepped(c, cap, steps[0]);
      StepGrowsLog(c, cap, steps[0]);
      RunGrowsLog(next, cap, steps[1..]);
      StepKeepsSound(c, cap, steps[0]);
      if Past(c, launch.id, launch.generation, launch.due) {
        StepKeepsPast(c, cap, steps[0], launch);
      } else {
        OwedStep(c, cap, steps[0], launch);
      }
      OwedNeverRunsAgain(next, cap, steps[1..], launch);
      NeverAgainSplits(c.state.log.launches, next.state.log.launches, RanAll(c, cap, steps).state.log.launches, launch);
    }
  }
}
