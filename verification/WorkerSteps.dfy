/**
 What the worker does (crates/sc-cron/src/worker.rs), as runs of steps: between two of
 its steps others may call the store.
 */
module WorkerSteps {
  import opened Options
  import opened Types
  import opened ScheduleTable
  import opened StoreHistory
  import opened StoreReads
  import opened WorkerState
  import opened WorkerWorld
  import opened WorkerReload
  import opened WorkerLaunch
  import opened WorkerRuns

  // ------------------------------------------------------------------
  // Runs one after the other
  // ------------------------------------------------------------------

  lemma {:induction false} RunsOn(a: Config, cap: Option<nat>, steps: seq<Step>, more: seq<Step>)
    requires CanRun(a, cap, steps) && CanRun(RanAll(a, cap, steps), cap, more)
    ensures CanRun(a, cap, steps + more)
    ensures RanAll(a, cap, steps + more) == RanAll(RanAll(a, cap, steps), cap, more)
    decreases |steps|
  {
    hide Possible, Stepped;
    if steps == [] {
      assert steps + more == more;
    } else {
      RunsOn(Stepped(a, cap, steps[0]), cap, steps[1..], more);
      assert (steps + more)[1..] == steps[1..] + more;
    }
  }

  lemma LeadsOn(a: Config, cap: Option<nat>, b: Config, c: Config)
    requires LeadsTo(a, cap, b) && LeadsTo(b, cap, c)
    ensures LeadsTo(a, cap, c)
  {
    hide CanRun, RanAll;
    var steps :| NoRestart(steps) && CanRun(a, cap, steps) && RanAll(a, cap, steps) == b;
    var more :| NoRestart(more) && CanRun(b, cap, more) && RanAll(b, cap, more) == c;
    RunsOn(a, cap, steps, more);
    assert NoRestart(steps + more);
  }

  lemma BecomesOn(a: Config, cap: Option<nat>, b: Config, c: Config)
    requires Becomes(a, cap, b) && Becomes(b, cap, c)
    ensures Becomes(a, cap, c)
  {
    hide CanRun, RanAll;
    var steps :| CanRun(a, cap, steps) && RanAll(a, cap, steps) == b;
    var more :| CanRun(b, cap, more) && RanAll(b, cap, more) == c;
    RunsOn(a, cap, steps, more);
  }

  lemma LeadsToItself(c: Config, cap: Option<nat>)
    ensures LeadsTo(c, cap, c)
  {
    assert NoRestart([]) && CanRun(c, cap, []) && RanAll(c, cap, []) == c;
  }

  lemma OneStep(c: Config, cap: Option<nat>, step: Step)
    requires Possible(c, step)
    ensures CanRun(c, cap, [step]) && RanAll(c, cap, [step]) == Stepped(c, cap, step)
  {
    hide Possible, Stepped;
    var after := Stepped(c, cap, step);
    assert CanRun(after, cap, []) && RanAll(after, cap, []) == after;
    assert [step][1..] == [];
  }

  lemma StepLeads(c: Config, cap: Option<nat>, step: Step)
    requires Possible(c, step) && !step.Restart?
    ensures LeadsTo(c, cap, Stepped(c, cap, step))
  {
    hide Possible, Stepped;
    OneStep(c, cap, step);
    assert NoRestart([step]);
  }

  /** One worker is dropped and another one started, which then goes on to `b`. */
  lemma NextLife(a: Config, cap: Option<nat>, left: Config, b: Config)
    requires Becomes(a, cap, left) && LeadsTo(Stepped(left, cap, Restart), cap, b)
    ensures Becomes(a, cap, b)
  {
    hide CanRun, RanAll, Stepped;
    OneStep(left, cap, Restart);
    var restarted := Stepped(left, cap, Restart);
    assert Becomes(left, cap, restarted) && Becomes(restarted, cap, b);
    BecomesOn(left, cap, restarted, b);
    BecomesOn(a, cap, left, b);
  }

  /** The calls of others. */
  lemma {:induction false} CallsLead(c: Config, cap: Option<nat>, foreign: seq<Command>)
    requires ValidCommands(foreign)
    ensures LeadsTo(c, cap, c.(state := Interfered(c.state, cap, foreign)))
    decreases |foreign|
  {
    hide Exec, RewoundBy, LeadsTo;
    if foreign == [] {
      assert Rewinding(c.state.log, {}) == c.state.log;
      LeadsToItself(c, cap);
    } else {
      StepLeads(c, cap, Call(foreign[0]));
      var next := Stepped(c, cap, Call(foreign[0]));
      CallsLead(next, cap, foreign[1..]);
      assert Interfered(c.state, cap, foreign) == Interfered(next.state, cap, foreign[1..]) by {
        var first, rest := RewoundBy(c.state.table, foreign[0]), RewoundByAll(next.state.table, cap, foreign[1..]);
        assert c.state.log.rewound + (first + rest) == c.state.log.rewound + first + rest;
      }
      LeadsOn(c, cap, next, c.(state := Interfered(c.state, cap, foreign)));
    }
  }

  /** A request to stop leads on, and so does none. */
  lemma AsksToStop(c: Config, cap: Option<nat>, stop: bool)
    requires c.stopping ==> stop
    ensures LeadsTo(c, cap, c.(stopping := stop))
  {
    hide LeadsTo;
    if stop {
      StepLeads(c, cap, AskStop);
    } else {
      LeadsToItself(c, cap);
    }
  }

  // ------------------------------------------------------------------
  // Writes
  // ------------------------------------------------------------------

  /** A write the worker made: what others called before it, the call, and how it came back. */
  datatype Sent = Sent(foreign: seq<Command>, call: Command, answer: Answer)

  const UNSENT := Sent([], SetEnabled("", false), UNASKED)

  ghost function WrittenState(s: State, cap: Option<nat>, w: Sent): State {
    var met := Interfered(s, cap, w.foreign);
    met.(table := WrittenTo(met.table, cap, w.call, w.answer))
  }

  ghost predicate Wrote(before: State, cap: Option<nat>, w: Sent, after: State) {
    ValidCommands(w.foreign) && after == WrittenState(before, cap, w)
  }

  /** The write asks for the end of this schedule. */
  predicate StopsAs(w: Sent, schedule: Schedule, reason: string) {
    w.call.Stop? && w.call == Stop(schedule.id, schedule.generation, w.call.at, reason)
  }

  /** The state once a schedule is ended as exhausted, or its ending owed. */
  ghost function EndedState(s: State, cap: Option<nat>, schedule: Schedule, w: Sent): State {
    WrittenState(s, cap, w).(pendingEnds := OwedAfter(s.pendingEnds, schedule, w.answer))
  }

  /** A guarded write that was answered, or took effect or not, left the table its answer says. */
  lemma WriteAnswers(met: Table, cap: Option<nat>, call: Command, result: CallResult, took: bool, after: Table)
    requires Guarded(call)
    requires result.Replied? ==> took == (Exec(met, cap, call).1 == Changed(true))
    requires if took then (after, Changed(true)) == Exec(met, cap, call) else after == met
    ensures after == WrittenTo(met, cap, call, AnswerOf(result, took))
  {
    GuardedChanges(met, cap, call);
  }

  /** A record of a run. */
  lemma RecordLeads(c: Config, cap: Option<nat>, w: Sent)
    requires ValidCommands(w.foreign) && w.call.RecordRun?
    ensures LeadsTo(c, cap, c.(state := WrittenState(c.state, cap, w)))
  {
    hide Exec, ExecAll, RewoundByAll, LeadsTo;
    var met := c.(state := Interfered(c.state, cap, w.foreign));
    CallsLead(c, cap, w.foreign);
    if Reaches(w.answer) {
      StepLeads(met, cap, Call(w.call));
      assert Rewinding(met.state.log, {}) == met.state.log;
      LeadsOn(c, cap, met, Stepped(met, cap, Call(w.call)));
      assert Stepped(met, cap, Call(w.call)) == c.(state := WrittenState(c.state, cap, w));
    } else {
      assert met == c.(state := WrittenState(c.state, cap, w));
    }
  }

  /** A slot that is removed before its stop check is obeyed, with the calls of others in between. */
  lemma ObeyLeads(c: Config, cap: Option<nat>, slot: Slot, w: Sent, after: State)
    requires !c.merging && slot in c.state.slots && slot.run.None? && IsEnding(w.call, slot.schedule)
    requires Wrote(c.state.(slots := c.state.slots - multiset{slot}), cap, w, after)
    ensures LeadsTo(c, cap, c.(state := after))
  {
    hide Exec, ExecAll, RewoundByAll, LeadsTo, WrittenTo;
    var met := c.(state := Interfered(c.state, cap, w.foreign));
    CallsLead(c, cap, w.foreign);
    StepLeads(met, cap, Obey(slot, w.call, w.answer));
    LeadsOn(c, cap, met, Stepped(met, cap, Obey(slot, w.call, w.answer)));
  }

  /** An exhausted slot that is removed before its schedule is ended. */
  lemma ExhaustLeads(c: Config, cap: Option<nat>, slot: Slot, w: Sent)
    requires !c.merging && slot in c.state.slots && slot.run.None? && slot.next.None?
    requires ValidCommands(w.foreign) && StopsAs(w, slot.schedule, EXHAUSTED)
    ensures var dropped := c.state.(slots := c.state.slots - multiset{slot});
            LeadsTo(c, cap, c.(state := EndedState(dropped, cap, slot.schedule, w)))
  {
    hide Exec, ExecAll, RewoundByAll, LeadsTo, WrittenTo, OwedAfter;
    var met := c.(state := Interfered(c.state, cap, w.foreign));
    CallsLead(c, cap, w.foreign);
    StepLeads(met, cap, Exhaust(slot, w.call.at, w.answer));
    LeadsOn(c, cap, met, Stepped(met, cap, Exhaust(slot, w.call.at, w.answer)));
  }

  /** The first owed ending is tried again. */
  lemma RetryLeads(c: Config, cap: Option<nat>, w: Sent)
    requires !c.merging && !c.stopping && c.state.pendingEnds != []
    requires ValidCommands(w.foreign) && StopsAs(w, c.state.pendingEnds[0], EXHAUSTED)
    ensures var owed := c.state.pendingEnds;
            LeadsTo(c, cap, c.(state := EndedState(c.state.(pendingEnds := owed[1..]), cap, owed[0], w)))
  {
    hide Exec, ExecAll, RewoundByAll, LeadsTo, WrittenTo, OwedAfter;
    var met := c.(state := Interfered(c.state, cap, w.foreign));
    CallsLead(c, cap, w.foreign);
    assert Without(met.state.pendingEnds, 0) == c.state.pendingEnds[1..];
    StepLeads(met, cap, RetryEnd(0, w.call.at, w.answer));
    LeadsOn(c, cap, met, Stepped(met, cap, RetryEnd(0, w.call.at, w.answer)));
  }

  /** The first owed ending is put back unasked. */
  lemma PutBackLeads(c: Config, cap: Option<nat>)
    requires !c.merging && c.state.pendingEnds != []
    ensures LeadsTo(c, cap, c.(state := c.state.(pendingEnds := c.state.pendingEnds[1..] + [c.state.pendingEnds[0]])))
  {
    hide LeadsTo;
    assert Without(c.state.pendingEnds, 0) == c.state.pendingEnds[1..];
    StepLeads(c, cap, RetryEnd(0, 0, UNASKED));
  }

  /** One owed ending as `RetryEnd` leaves it. */
  ghost predicate RetriedAs(before: State, cap: Option<nat>, schedule: Schedule, stop: bool, w: Sent, after: State) {
    if stop then after == before.(pendingEnds := before.pendingEnds + [schedule])
    else ValidCommands(w.foreign) && StopsAs(w, schedule, EXHAUSTED) && after == EndedState(before, cap, schedule, w)
  }

  /** The endings still to be tried, taken out of the owed ones, come before those put back. */
  lemma RetriesLead(before: State, cap: Option<nat>, schedule: Schedule, rest: seq<Schedule>, listing: seq<Schedule>,
                    was: bool, stop: bool, w: Sent, after: State)
    requires RetriedAs(before, cap, schedule, stop, w, after) && (was ==> stop)
    ensures LeadsTo(Config(before.(pendingEnds := [schedule] + rest + before.pendingEnds), listing, false, was), cap,
                    Config(after.(pendingEnds := rest + after.pendingEnds), listing, false, stop))
  {
    hide Exec, ExecAll, RewoundByAll, LeadsTo, WrittenTo;
    var c := Config(before.(pendingEnds := [schedule] + rest + before.pendingEnds), listing, false, was);
    var asked := c.(stopping := stop);
    AsksToStop(c, cap, stop);
    assert c.state.pendingEnds[1..] == rest + before.pendingEnds;
    if stop {
      PutBackLeads(asked, cap);
      assert rest + before.pendingEnds + [schedule] == rest + after.pendingEnds;
    } else {
      RetryLeads(asked, cap, w);
      assert OwedAfter(rest + before.pendingEnds, schedule, w.answer) == rest + after.pendingEnds;
    }
    LeadsOn(c, cap, asked, Config(after.(pendingEnds := rest + after.pendingEnds), listing, false, stop));
  }

  /** A run is taken out of its slot. */
  lemma FinishLeads(c: Config, cap: Option<nat>, slots: seq<Slot>, taken: seq<Slot>, i: nat, completes: bool)
    requires !c.merging && i < |slots| && slots[i].run.Some? && c.state.slots == multiset(slots) + multiset(taken)
    ensures var idle := multiset(slots[i := slots[i].(run := None)]) + multiset(taken);
            LeadsTo(c, cap, c.(state := WithRunTaken(c.state, slots[i], completes).(slots := idle)))
  {
    hide LeadsTo;
    assert slots[i] in multiset(slots);
    UpdatedMultiset(slots, taken, i, slots[i].(run := None));
    StepLeads(c, cap, Finish(slots[i], completes));
  }

  /** A due slot is served, after the calls of others. */
  lemma ServeLeads(c: Config, cap: Option<nat>, foreign: seq<Command>, step: Step)
    requires !c.merging && !c.stopping && ValidCommands(foreign) && step.Serve?
    requires step.slot in c.state.slots && DueAt(step.slot, step.now)
    ensures LeadsTo(c, cap, c.(state := AfterServe(Met(c.state, cap, foreign), cap, step)))
  {
    hide Exec, ExecAll, RewoundByAll, LeadsTo, TableAfter, BackingOf, ResultOf, Exchanged;
    var met := c.(state := Interfered(c.state, cap, foreign));
    CallsLead(c, cap, foreign);
    StepLeads(met, cap, step);
    LeadsOn(c, cap, met, Stepped(met, cap, step));
  }

  /** A slot moved on and its next run stored, and then its launch, if there is one, are its being served. */
  lemma LaunchLeads(c: Config, cap: Option<nat>, foreign: seq<Command>, asked: Step, step: Step, moved: State,
                    backing: Backing, proceed: bool, after: State)
    requires step.Serve? && DueAt(step.slot, step.now) && asked == step.(admitted := false, deadline := 0)
    requires !c.merging && ValidCommands(foreign) && step.slot in c.state.slots
    requires MovesAs(c.state, cap, foreign, asked, moved, backing, proceed)
    requires after == if proceed && step.admitted && Wanted(step.slot, step.now, step.policy)
                      then WithLaunch(moved, Moved(step.slot, step.now), step.slot.next.value, backing, step.deadline)
                      else moved
    ensures after == AfterServe(Met(c.state, cap, foreign), cap, step)
    ensures !c.stopping ==> LeadsTo(c, cap, c.(state := after))
  {
    hide MovesAs, AfterServe, WithLaunch, LeadsTo, Wanted;
    LaunchesAs(c.state, cap, foreign, asked, step, moved, backing, proceed, after);
    if !c.stopping {
      ServeLeads(c, cap, foreign, step);
    }
  }

  // ------------------------------------------------------------------
  // A reload
  // ------------------------------------------------------------------

  /** Every active row has a next run. */
  ghost predicate AllStored(rows: seq<Schedule>) {
    forall k :: 0 <= k < |rows| && rows[k].IsActive() ==> rows[k].nextRunAt.Some?
  }

  lemma ListLeads(c: Config, cap: Option<nat>, foreign: seq<Command>, unreadable: set<nat>)
    requires !c.merging && ValidCommands(foreign)
    ensures var met := Interfered(c.state, cap, foreign);
            LeadsTo(c, cap, Config(met, ListActive(met.table, unreadable), true, c.stopping))
  {
    hide Exec, ExecAll, RewoundByAll, LeadsTo, ListActive;
    var met := c.(state := Interfered(c.state, cap, foreign));
    CallsLead(c, cap, foreign);
    StepLeads(met, cap, List(unreadable));
    LeadsOn(c, cap, met, Stepped(met, cap, List(unreadable)));
  }

  /** A valid table stores a next run in every active row. */
  lemma ListedAreStored(t: Table, unreadable: set<nat>)
    requires Valid(t)
    ensures AllStored(ListActive(t, unreadable))
  {
    var rows := ListActive(t, unreadable);
    ListIsActiveRows(t, unreadable, 1);
    forall k | 0 <= k < |rows| && rows[k].IsActive() ensures rows[k].nextRunAt.Some? {
      assert rows[k] in rows;
      assert t.rows[rows[k].id] == rows[k];
    }
  }

  /** A row the store has a next run for and whose generation has no slot gets one. */
  lemma BuildLeads(c: Config, cap: Option<nat>, row: Schedule)
    requires c.merging && !c.stopping && row in c.listing && row.IsActive() && row.enabled && row.nextRunAt.Some?
    requires NoSlotFor(c.state.slots, row) && !IsPending(c.state.pendingEnds, row)
    ensures var slot := Slot(row, row.nextRunAt, None);
            LeadsTo(c, cap, c.(state := c.state.(slots := c.state.slots + multiset{slot})))
  {
    hide LeadsTo;
    StepLeads(c, cap, Build(row));
  }

  /** A slot that no listed row keeps goes, its run with it. */
  lemma DropLeads(c: Config, cap: Option<nat>, slot: Slot)
    requires c.merging && slot in c.state.slots
    requires !ListsEnabled(c.listing, slot.schedule.id, slot.schedule.generation)
    ensures var cancelled := c.state.cancelled + (if slot.run.Some? then {slot.run.value.key} else {});
            LeadsTo(c, cap, c.(state := c.state.(slots := c.state.slots - multiset{slot}, cancelled := cancelled)))
  {
    hide LeadsTo, ListsEnabled;
    StepLeads(c, cap, Drop(slot));
  }

  lemma DropTakenLeads(c: Config, cap: Option<nat>, slots: seq<Slot>, taken: seq<Slot>, slot: Slot, rest: seq<Slot>)
    requires c.merging && c.state.slots == multiset(slots) + multiset(taken)
    requires slot in taken && multiset(rest) == multiset(taken) - multiset{slot}
    requires !ListsEnabled(c.listing, slot.schedule.id, slot.schedule.generation)
    ensures LeadsTo(c, cap, c.(state := c.state.(slots := multiset(slots) + multiset(rest),
                                                 cancelled := if slot.run.Some?
                                                              then c.state.cancelled + {slot.run.value.key}
                                                              else c.state.cancelled)))
  {
    hide LeadsTo, ListsEnabled;
    assert slot in multiset(taken);
    assert c.state.slots - multiset{slot} == multiset(slots) + multiset(rest);
    assert c.state.cancelled + {} == c.state.cancelled;
    DropLeads(c, cap, slot);
  }

  /** The merge that has made a reload of the slots is done. */
  lemma MergedLeads(c: Config, cap: Option<nat>, before: seq<Slot>, slots: seq<Slot>, marks: Marks)
    requires c.merging && c.state.slots == multiset(slots) && AllStored(c.listing)
    requires Reloaded(before, c.listing, slots, marks)
    requires marks.stopping == c.stopping && marks.pendingEnds == c.state.pendingEnds
    ensures LeadsTo(c, cap, c.(listing := [], merging := false))
  {
    hide LeadsTo, Reloaded, ListsEnabled, Missing, AllStored;
    AllAreListed(before, c.listing, slots, marks);
    assert forall slot :: slot in c.state.slots ==> slot in slots;
    if !c.stopping {
      forall k | 0 <= k < |c.listing| ensures !Missing(c.state, c.listing[k]) {
        NoneMissing(c.state, before, c.listing, slots, marks, k);
      }
    }
    StepLeads(c, cap, Merged);
  }

  lemma AllAreListed(before: seq<Slot>, rows: seq<Schedule>, slots: seq<Slot>, marks: Marks)
    requires Reloaded(before, rows, slots, marks)
    ensures forall slot :: slot in slots ==> ListsEnabled(rows, slot.schedule.id, slot.schedule.generation)
  {
    hide Kept, Built, ListsEnabled;
    forall slot | slot in slots ensures ListsEnabled(rows, slot.schedule.id, slot.schedule.generation) {
      var j :| 0 <= j < |slots| && slots[j] == slot;
      SourceIsListed(before, rows, slot);
    }
  }

  lemma NoneMissing(s: State, before: seq<Slot>, rows: seq<Schedule>, slots: seq<Slot>, marks: Marks, k: nat)
    requires k < |rows| && Reloaded(before, rows, slots, marks) && AllStored(rows)
    requires s.slots == multiset(slots) && !marks.stopping && marks.pendingEnds == s.pendingEnds
    ensures !Missing(s, rows[k])
  {
    hide IsPending, Sourced;
    if j :| 0 <= j < |slots| && SameKey(slots[j].schedule, rows[k]) {
      assert slots[j] in s.slots;
    }
  }

  lemma SourceIsListed(before: seq<Slot>, rows: seq<Schedule>, slot: Slot)
    requires Kept(rows, |rows|, slot) || Built(before, rows, |rows|, slot)
    ensures ListsEnabled(rows, slot.schedule.id, slot.schedule.generation)
  {
  }

  /** The only row of its id. */
  lemma OnlyRow(rows: seq<Schedule>, n: nat)
    requires n < |rows| && RowIdsDistinct(rows)
    ensures rows[n].enabled || !ListsEnabled(rows, rows[n].id, rows[n].generation)
  {
  }

  /** No listed row keeps any of these slots. */
  ghost predicate NoneListed(slots: seq<Slot>, rows: seq<Schedule>) {
    forall k :: 0 <= k < |slots| ==> !ListsEnabled(rows, slots[k].schedule.id, slots[k].schedule.generation)
  }

  lemma UnlistedAt(slots: seq<Slot>, rows: seq<Schedule>, j: nat)
    requires j < |slots| && NoneListed(slots, rows)
    ensures !ListsEnabled(rows, slots[j].schedule.id, slots[j].schedule.generation)
  {
  }

  /** The slots no row has matched are kept by none. */
  lemma UnmatchedUnlisted(before: seq<Slot>, rows: seq<Schedule>, previous: seq<Slot>)
    requires Unmatched(before, rows, |rows|, previous)
    ensures NoneListed(previous, rows)
  {
    forall k | 0 <= k < |previous|
      ensures !ListsEnabled(rows, previous[k].schedule.id, previous[k].schedule.generation)
    {
      assert !Matched(rows, |rows|, previous[k]);
    }
  }

  lemma MergeUnlisted(before: seq<Slot>, rows: seq<Schedule>, previous: seq<Slot>, slots: seq<Slot>, marks: Marks)
    requires MergeOk(before, rows, |rows|, previous, slots, marks)
    ensures NoneListed(previous, rows)
  {
    hide Unmatched, NoneListed;
    UnmatchedUnlisted(before, rows, previous);
  }
}
