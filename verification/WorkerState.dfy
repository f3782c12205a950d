/**
 What a worker holds, and the invariant every step of it keeps
 (crates/sc-cron/src/worker.rs).

 The invariant speaks about the stored table, the worker's slots, the endings
 it still owes, and the log of every run ever launched. Each lemma here is one
 kind of change the worker or another process can make.
 */
module WorkerState {
  import opened Options
  import opened Expr
  import opened Types
  import opened ScheduleTable
  import opened StoreHistory
  import StoreReads

  // ------------------------------------------------------------------
  // Values
  // ------------------------------------------------------------------

  /** A run in flight: its number in the launch log and its deadline on the monotonic clock. */
  datatype InFlight = InFlight(key: nat, deadline: int)

  datatype Slot = Slot(schedule: Schedule, next: Option<int>, run: Option<InFlight>)

  /**
   What stood behind a launch: a `set_next` that took effect on the row it met, answered
   or not; one that did not take effect; or no successor to store.
   */
  datatype Backing = Stored(row: Schedule, answered: bool) | NotStored | NoSuccessor

  datatype Launch = Launch(id: nat, generation: nat, due: int, backing: Backing)

  /** Every launch, and the generations whose stored next run another process has moved back. */
  datatype Log = Log(launches: seq<Launch>, rewound: set<(nat, nat)>)

  datatype State = State(
    table: Table,
    slots: multiset<Slot>,
    pendingEnds: seq<Schedule>,
    log: Log,
    completed: set<nat>,
    cancelled: set<nat>)

  predicate SameKey(a: Schedule, b: Schedule) {
    a.id == b.id && a.generation == b.generation
  }

  predicate Runs(slot: Slot, key: nat) {
    slot.run.Some? && slot.run.value.key == key
  }

  predicate IsPending(pendingEnds: seq<Schedule>, schedule: Schedule) {
    exists i :: 0 <= i < |pendingEnds| && SameKey(pendingEnds[i], schedule)
  }

  // ------------------------------------------------------------------
  // The invariant
  // ------------------------------------------------------------------

  /** The launch is of the given generation of a schedule and its `set_next` took effect. */
  predicate StoredFor(launch: Launch, id: nat, generation: nat) {
    launch.id == id && launch.generation == generation && launch.backing.Stored?
  }

  /** Every stored launch of `(id, generation)` lies before `next`, unless others have moved its next run back. */
  ghost predicate Before(log: Log, id: nat, generation: nat, next: int) {
    (id, generation) !in log.rewound ==>
      forall i :: 0 <= i < |log.launches| && StoredFor(log.launches[i], id, generation) ==> log.launches[i].due < next
  }

  /** No stored launch of `(id, generation)` is in the log, unless others have moved its next run back. */
  ghost predicate NoneStored(log: Log, id: nat, generation: nat) {
    (id, generation) !in log.rewound ==>
      forall i :: 0 <= i < |log.launches| ==> !StoredFor(log.launches[i], id, generation)
  }

  /** A stored launch lies before the stored next run for as long as its generation is active. */
  ghost predicate StoredAhead(launch: Launch, t: Table, rewound: set<(nat, nat)>) {
    launch.backing.Stored? && (launch.id, launch.generation) !in rewound ==>
      && launch.id in t.rows
      && launch.generation <= t.rows[launch.id].generation
      && (Current(t, launch.id, launch.generation) ==>
            t.rows[launch.id].nextRunAt.Some? && launch.due < t.rows[launch.id].nextRunAt.value)
  }

  /** A `set_next` that took effect found its row active, enabled and of the launched generation. */
  predicate Authorized(launch: Launch) {
    launch.backing.Stored? ==>
      && launch.backing.row.id == launch.id && launch.backing.row.generation == launch.generation
      && launch.backing.row.IsActive() && launch.backing.row.enabled
  }

  /** No launch repeats, or goes back before, a stored launch of a generation that was not moved back. */
  ghost predicate NeverRepeats(log: Log) {
    forall i, j :: 0 <= i < j < |log.launches| ==> InOrder(log, log.launches[i], log.launches[j])
  }

  predicate InOrder(log: Log, earlier: Launch, later: Launch) {
    StoredFor(earlier, later.id, later.generation) && (later.id, later.generation) !in log.rewound ==>
      earlier.due < later.due
  }

  /** A schedule as some list of active rows gave it. */
  ghost predicate Listed(schedule: Schedule, t: Table, log: Log) {
    && schedule.id in t.rows && schedule.generation <= t.rows[schedule.id].generation
    && t.rows[schedule.id].spec.name == schedule.spec.name
    && WholeSeconds(schedule.spec.expr) && schedule.jitter % MILLISECOND == 0
    && (match schedule.nextRunAt
        case Some(next) => Before(log, schedule.id, schedule.generation, next)
        case None => NoneStored(log, schedule.id, schedule.generation))
  }

  ghost predicate AllListed(rows: seq<Schedule>, t: Table, log: Log) {
    forall row :: row in rows ==> Listed(row, t, log)
  }

  ghost predicate SlotOk(slot: Slot, t: Table, log: Log) {
    && slot.schedule.id in t.rows && slot.schedule.generation <= t.rows[slot.schedule.id].generation
    && t.rows[slot.schedule.id].spec.name == slot.schedule.spec.name
    && WholeSeconds(slot.schedule.spec.expr) && slot.schedule.jitter % MILLISECOND == 0
    && (slot.next.Some? ==> Before(log, slot.schedule.id, slot.schedule.generation, slot.next.value))
    && (slot.run.Some? ==>
          && slot.run.value.key < |log.launches|
          && log.launches[slot.run.value.key].id == slot.schedule.id
          && log.launches[slot.run.value.key].generation == slot.schedule.generation)
  }

  ghost predicate DistinctKeys(slots: multiset<Slot>) {
    && (forall a :: a in slots ==> slots[a] == 1)
    && forall a, b :: a in slots && b in slots && SameKey(a.schedule, b.schedule) ==> a == b
  }

  ghost predicate Running(slots: multiset<Slot>, key: nat) {
    exists slot :: slot in slots && Runs(slot, key)
  }

  /** Every run ever launched is in a slot, completed or cancelled: in exactly one of the three. */
  ghost predicate Accounted(s: State) {
    && (forall k :: k in s.completed || k in s.cancelled ==> 0 <= k < |s.log.launches|)
    && s.completed !! s.cancelled
    && forall k: nat :: k < |s.log.launches| ==> (Running(s.slots, k) <==> k !in s.completed && k !in s.cancelled)
  }

  /** The slots are of distinct generations, none of which owes an ending. */
  ghost predicate SlotsOk(s: State) {
    && DistinctKeys(s.slots)
    && forall slot :: slot in s.slots ==> SlotOk(slot, s.table, s.log) && !IsPending(s.pendingEnds, slot.schedule)
  }

  ghost predicate LogOk(log: Log, t: Table) {
    && NeverRepeats(log)
    && forall i :: 0 <= i < |log.launches| ==>
      StoredAhead(log.launches[i], t, log.rewound) && Authorized(log.launches[i])
  }

  ghost predicate Safe(s: State) {
    && Valid(s.table)
    && SlotsOk(s)
    && LogOk(s.log, s.table)
    && Accounted(s)
  }

  // ------------------------------------------------------------------
  // The table changes
  // ------------------------------------------------------------------

  /** The call does not move a stored next run back. */
  predicate Onward(t: Table, c: Command) {
    (c.SetNext? && Current(t, c.id, c.generation) && t.rows[c.id].nextRunAt.Some?)
    ==> t.rows[c.id].nextRunAt.value <= c.nextRunAt
  }

  /** The generation whose stored next run a call may move back. */
  function RewoundBy(t: Table, c: Command): set<(nat, nat)> {
    if c.SetNext? && !Onward(t, c) then {(c.id, c.generation)} else {}
  }

  /** The next run stored for an id changes only by a `set_next` that names it. */
  lemma ExecNext(t: Table, cap: Option<nat>, c: Command, id: nat)
    requires Valid(t) && ValidCommand(c) && id in t.rows
    ensures var (after, reply) := Exec(t, cap, c);
            && id in after.rows
            && (after.rows[id].generation == t.rows[id].generation && after.rows[id].IsActive() ==>
                  && t.rows[id].IsActive()
                  && (after.rows[id].nextRunAt == t.rows[id].nextRunAt
                      || (c.SetNext? && c.id == id && c.generation == t.rows[id].generation
                          && after.rows[id].nextRunAt == Some(c.nextRunAt))))
  {
    ExecSteps(t, cap, c, id);
    match c {
      case Create(schedule, createdAt) => FoundIsUnique(t, schedule.spec.name);
      case ReplaceAndSetEnabled(schedule, enabled, createdAt, flags) =>
        ReplaceAllOrNothing(t, cap, schedule, enabled, createdAt, flags);
      case SetEnabledMany(flags) => SetFlagsAllOrNothing(t, flags);
      case SetEnabled(name, enabled) =>
      case RecordRun(_, _, _, _) =>
      case SetNext(_, _, _) =>
      case Stop(_, _, _, _) =>
      case Disable(_, _, _, _) =>
    }
  }

  lemma StoredAheadKept(log: Log, i: nat, t: Table, cap: Option<nat>, c: Command)
    requires i < |log.launches| && StoredAhead(log.launches[i], t, log.rewound)
    requires Valid(t) && ValidCommand(c)
    requires c.SetNext? ==> Before(log, c.id, c.generation, c.nextRunAt) || Onward(t, c)
    ensures StoredAhead(log.launches[i], Exec(t, cap, c).0, log.rewound)
  {
    var launch := log.launches[i];
    if launch.backing.Stored? && (launch.id, launch.generation) !in log.rewound {
      ExecSteps(t, cap, c, launch.id);
      ExecNext(t, cap, c, launch.id);
    }
  }

  /** A store call keeps the invariant when a `set_next` among them names a time past the stored launches. */
  lemma TableStep(s: State, cap: Option<nat>, c: Command)
    requires Safe(s) && ValidCommand(c)
    requires c.SetNext? ==> Before(s.log, c.id, c.generation, c.nextRunAt) || Onward(s.table, c)
    ensures Safe(s.(table := Exec(s.table, cap, c).0))
  {
    var after := s.(table := Exec(s.table, cap, c).0);
    ExecKeepsValid(s.table, cap, c);
    forall slot | slot in s.slots ensures SlotOk(slot, after.table, s.log) {
      ExecSteps(s.table, cap, c, slot.schedule.id);
    }
    forall i | 0 <= i < |s.log.launches| ensures StoredAhead(s.log.launches[i], after.table, s.log.rewound) {
      StoredAheadKept(s.log, i, s.table, cap, c);
    }
    assert forall k: nat :: Running(after.slots, k) == Running(s.slots, k);
  }

  function Rewinding(log: Log, rewound: set<(nat, nat)>): Log {
    log.(rewound := log.rewound + rewound)
  }

  /** Noting that a generation was moved back promises less. */
  lemma RewindingKeepsSafe(s: State, rewound: set<(nat, nat)>)
    requires Safe(s)
    ensures Safe(s.(log := Rewinding(s.log, rewound)))
  {
    var after := s.(log := Rewinding(s.log, rewound));
    forall i, j | 0 <= i < j < |s.log.launches| ensures InOrder(after.log, s.log.launches[i], s.log.launches[j]) {
      assert InOrder(s.log, s.log.launches[i], s.log.launches[j]);
    }
    forall slot | slot in s.slots ensures SlotOk(slot, s.table, after.log) {
      assert SlotOk(slot, s.table, s.log);
    }
    assert forall k: nat :: Running(after.slots, k) == Running(s.slots, k);
  }

  /** Any call of another process keeps the invariant, the generation it may have moved back noted. */
  lemma OthersStep(s: State, cap: Option<nat>, c: Command)
    requires Safe(s) && ValidCommand(c)
    ensures Safe(s.(table := Exec(s.table, cap, c).0, log := Rewinding(s.log, RewoundBy(s.table, c))))
  {
    hide Safe;
    var noted := s.(log := Rewinding(s.log, RewoundBy(s.table, c)));
    RewindingKeepsSafe(s, RewoundBy(s.table, c));
    TableStep(noted, cap, c);
  }

  /** The generations that a sequence of calls may move back. */
  function RewoundByAll(t: Table, cap: Option<nat>, foreign: seq<Command>): set<(nat, nat)>
    decreases |foreign|
  {
    if foreign == [] then {} else RewoundBy(t, foreign[0]) + RewoundByAll(Exec(t, cap, foreign[0]).0, cap, foreign[1..])
  }

  /** The state after calls of other processes, with the generations they may have moved back noted. */
  ghost function Interfered(s: State, cap: Option<nat>, foreign: seq<Command>): State {
    s.(table := ExecAll(s.table, cap, foreign), log := Rewinding(s.log, RewoundByAll(s.table, cap, foreign)))
  }

  /** Whatever calls other processes make between two of the worker's. */
  lemma {:induction false} InterferenceKeepsSafe(s: State, cap: Option<nat>, foreign: seq<Command>)
    requires Safe(s) && ValidCommands(foreign)
    ensures Safe(Interfered(s, cap, foreign))
    decreases |foreign|
  {
    hide Safe;
    if foreign == [] {
      assert s.(table := s.table, log := Rewinding(s.log, {})) == s;
    } else {
      OthersStep(s, cap, foreign[0]);
      var next := s.(table := Exec(s.table, cap, foreign[0]).0,
                     log := Rewinding(s.log, RewoundBy(s.table, foreign[0])));
      InterferenceKeepsSafe(next, cap, foreign[1..]);
      assert Rewinding(next.log, RewoundByAll(next.table, cap, foreign[1..])) ==
          Rewinding(s.log, RewoundByAll(s.table, cap, foreign));
    }
  }

  lemma NothingListed(t: Table, log: Log)
    ensures AllListed([], t, log)
  {
  }

  /** A schedule stays listed while only the table changes and more is noted as moved back. */
  lemma ListedStep(schedule: Schedule, t: Table, cap: Option<nat>, c: Command, log: Log, rewound: set<(nat, nat)>)
    requires Valid(t) && ValidCommand(c) && Listed(schedule, t, log)
    ensures Listed(schedule, Exec(t, cap, c).0, Rewinding(log, rewound))
  {
    ExecSteps(t, cap, c, schedule.id);
  }

  lemma {:induction false} ListedInterfered(schedule: Schedule, t: Table, cap: Option<nat>, foreign: seq<Command>,
                                            log: Log, rewound: set<(nat, nat)>)
    requires Valid(t) && ValidCommands(foreign) && Listed(schedule, t, log)
    ensures Listed(schedule, ExecAll(t, cap, foreign), Rewinding(log, rewound))
    decreases |foreign|
  {
    if foreign != [] {
      ListedStep(schedule, t, cap, foreign[0], log, rewound);
      ExecKeepsValid(t, cap, foreign[0]);
      ListedInterfered(schedule, Exec(t, cap, foreign[0]).0, cap, foreign[1..], Rewinding(log, rewound), rewound);
      assert Rewinding(Rewinding(log, rewound), rewound) == Rewinding(log, rewound);
    }
  }

  lemma AllListedInterfered(rows: seq<Schedule>, s: State, cap: Option<nat>, foreign: seq<Command>)
    requires Valid(s.table) && ValidCommands(foreign) && AllListed(rows, s.table, s.log)
    ensures AllListed(rows, Interfered(s, cap, foreign).table, Interfered(s, cap, foreign).log)
  {
    hide Listed;
    forall row | row in rows ensures Listed(row, Interfered(s, cap, foreign).table, Interfered(s, cap, foreign).log) {
      ListedInterfered(row, s.table, cap, foreign, s.log, RewoundByAll(s.table, cap, foreign));
    }
  }

  lemma AllListedStep(rows: seq<Schedule>, s: State, cap: Option<nat>, c: Command)
    requires Valid(s.table) && ValidCommand(c) && AllListed(rows, s.table, s.log)
    ensures AllListed(rows, Exec(s.table, cap, c).0, s.log)
  {
    hide Listed;
    assert Rewinding(s.log, {}) == s.log;
    forall row | row in rows ensures Listed(row, Exec(s.table, cap, c).0, s.log) {
      ListedStep(row, s.table, cap, c, s.log, {});
    }
  }

  /** A write of the worker's, the calls of others before it included, and whether or not it takes effect. */
  lemma WriteKeepsSafe(s: State, cap: Option<nat>, foreign: seq<Command>, c: Command, rows: seq<Schedule>)
    requires Safe(s) && AllListed(rows, s.table, s.log) && ValidCommands(foreign) && ValidCommand(c)
    requires c.SetNext? ==> Before(s.log, c.id, c.generation, c.nextRunAt)
    ensures var met := Interfered(s, cap, foreign);
            var after := met.(table := Exec(met.table, cap, c).0);
            && Valid(met.table) && Safe(met) && Safe(after)
            && AllListed(rows, met.table, met.log) && AllListed(rows, after.table, met.log)
  {
    hide Safe, AllListed, Before, Valid;
    var met := Interfered(s, cap, foreign);
    SafeIsValid(s);
    InterferenceKeepsSafe(s, cap, foreign);
    SafeIsValid(met);
    if c.SetNext? {
      BeforeStays(s.log, met.log, c.id, c.generation, c.nextRunAt);
    }
    TableStep(met, cap, c);
    AllListedInterfered(rows, s, cap, foreign);
    AllListedStep(rows, met, cap, c);
  }

  lemma SafeIsValid(s: State)
    requires Safe(s)
    ensures Valid(s.table)
  {
  }

  /** What lies before a time still does once more is noted as moved back. */
  lemma BeforeStays(log: Log, later: Log, id: nat, generation: nat, next: int)
    requires Before(log, id, generation, next) && later.launches == log.launches && log.rewound <= later.rewound
    ensures Before(later, id, generation, next)
  {
  }

  /** The rows of a list are listed: every stored launch lies before their stored next run. */
  lemma ListIsListed(s: State, unreadable: set<nat>)
    requires Safe(s)
    ensures AllListed(StoreReads.ListActive(s.table, unreadable), s.table, s.log)
  {
    StoreReads.ListIsActiveRows(s.table, unreadable, 1);
    forall row | row in StoreReads.ListActive(s.table, unreadable) ensures Listed(row, s.table, s.log) {
      assert row == s.table.rows[row.id];
      forall i | 0 <= i < |s.log.launches| && StoredFor(s.log.launches[i], row.id, row.generation)
        && (row.id, row.generation) !in s.log.rewound
        ensures row.nextRunAt.Some? && s.log.launches[i].due < row.nextRunAt.value
      {
        assert StoredAhead(s.log.launches[i], s.table, s.log.rewound);
      }
    }
  }

  // ------------------------------------------------------------------
  // The slots change
  // ------------------------------------------------------------------

  /** `slots` with one slot exchanged for another of the same generation. */
  ghost function Exchanged(slots: multiset<Slot>, slot: Slot, other: Slot): multiset<Slot> {
    slots - multiset{slot} + multiset{other}
  }

  lemma WithoutMembers(slots: multiset<Slot>, slot: Slot)
    requires slot in slots && DistinctKeys(slots)
    ensures DistinctKeys(slots - multiset{slot})
    ensures forall x :: x in slots - multiset{slot} <==> x in slots && x != slot
    ensures forall x :: x in slots - multiset{slot} ==> !SameKey(x.schedule, slot.schedule)
  {
  }

  lemma ExchangedMembers(slots: multiset<Slot>, slot: Slot, other: Slot)
    requires slot in slots && DistinctKeys(slots) && SameKey(slot.schedule, other.schedule)
    ensures DistinctKeys(Exchanged(slots, slot, other))
    ensures forall x :: x in Exchanged(slots, slot, other) <==> x == other || (x in slots && x != slot)
  {
    WithoutMembers(slots, slot);
    var rest := slots - multiset{slot};
    assert other !in rest;
    forall x | x in Exchanged(slots, slot, other) ensures Exchanged(slots, slot, other)[x] == 1 {
      if x != other { assert rest[x] == 1; }
    }
  }

  /** The slots that run `key` after an exchange: the new one if it does, and the others as before. */
  lemma ExchangedRunning(slots: multiset<Slot>, slot: Slot, other: Slot, key: nat)
    requires slot in slots && DistinctKeys(slots) && SameKey(slot.schedule, other.schedule)
    ensures Running(Exchanged(slots, slot, other), key) <==>
              Runs(other, key) || exists x :: x in slots && x != slot && Runs(x, key)
  {
    ExchangedMembers(slots, slot, other);
    if Runs(other, key) {
      assert other in Exchanged(slots, slot, other);
    }
    if x :| x in slots && x != slot && Runs(x, key) {
      assert x in Exchanged(slots, slot, other);
    }
  }

  /** Only one slot holds a given run. */
  lemma RunIsUnique(s: State, slot: Slot, other: Slot, key: nat)
    requires Safe(s) && slot in s.slots && other in s.slots
    requires Runs(slot, key) && Runs(other, key)
    ensures slot == other
  {
    assert SlotOk(other, s.table, s.log) && SlotOk(slot, s.table, s.log);
  }

  /** Dropping a slot without a run. */
  lemma DropIdle(s: State, slot: Slot)
    requires Safe(s) && slot in s.slots && slot.run.None?
    ensures Safe(s.(slots := s.slots - multiset{slot}))
    ensures forall x :: x in s.slots - multiset{slot} ==> !SameKey(x.schedule, slot.schedule)
  {
    WithoutMembers(s.slots, slot);
    var rest := s.slots - multiset{slot};
    forall k: nat ensures Running(rest, k) == Running(s.slots, k) {
      if x :| x in s.slots && Runs(x, k) { assert x in rest; }
      if x :| x in rest && Runs(x, k) { assert x in s.slots; }
    }
  }

  /** Adding a slot without a run for a generation that has no slot and owes no ending. */
  lemma AddIdle(s: State, slot: Slot)
    requires Safe(s) && slot.run.None? && SlotOk(slot, s.table, s.log)
    requires forall other :: other in s.slots ==> !SameKey(other.schedule, slot.schedule)
    requires !IsPending(s.pendingEnds, slot.schedule)
    ensures Safe(s.(slots := s.slots + multiset{slot}))
  {
    hide LogOk, SlotOk, IsPending;
    var more := s.slots + multiset{slot};
    assert slot !in s.slots;
    forall k: nat ensures Running(more, k) == Running(s.slots, k) {
      if x :| x in s.slots && Runs(x, k) { assert x in more; }
      if x :| x in more && Runs(x, k) { assert x in s.slots; }
    }
  }

  /** An exchange for a good slot of the same generation keeps the slots good. */
  lemma ExchangeKeepsSlotsOk(s: State, slot: Slot, other: Slot)
    requires SlotsOk(s) && slot in s.slots && SameKey(slot.schedule, other.schedule)
    requires SlotOk(other, s.table, s.log)
    ensures SlotsOk(s.(slots := Exchanged(s.slots, slot, other)))
  {
    ExchangedMembers(s.slots, slot, other);
    SameKeyPending(s.pendingEnds, slot.schedule, other.schedule);
  }

  lemma SameKeyPending(pendingEnds: seq<Schedule>, a: Schedule, b: Schedule)
    requires SameKey(a, b)
    ensures IsPending(pendingEnds, a) <==> IsPending(pendingEnds, b)
  {
    if i :| 0 <= i < |pendingEnds| && SameKey(pendingEnds[i], a) {
      assert SameKey(pendingEnds[i], b);
    }
    if i :| 0 <= i < |pendingEnds| && SameKey(pendingEnds[i], b) {
      assert SameKey(pendingEnds[i], a);
    }
  }

  ghost function WithRunTaken(s: State, slot: Slot, completes: bool): State
    requires slot.run.Some?
  {
    var key := slot.run.value.key;
    s.(slots := Exchanged(s.slots, slot, slot.(run := None)),
       completed := if completes then s.completed + {key} else s.completed,
       cancelled := if completes then s.cancelled else s.cancelled + {key})
  }

  /** Only the run that is taken is no longer running. */
  lemma TakenRunning(s: State, slot: Slot, k: nat)
    requires Safe(s) && slot in s.slots && slot.run.Some?
    ensures Running(Exchanged(s.slots, slot, slot.(run := None)), k) <==> Running(s.slots, k) && k != slot.run.value.key
  {
    hide Exchanged;
    ExchangedRunning(s.slots, slot, slot.(run := None), k);
    if x :| x in s.slots && x != slot && Runs(x, k) {
      if k == slot.run.value.key { RunIsUnique(s, slot, x, k); }
    }
  }

  lemma TakeRunAccounted(s: State, slot: Slot, completes: bool)
    requires Safe(s) && slot in s.slots && slot.run.Some?
    ensures slot.run.value.key !in s.completed && slot.run.value.key !in s.cancelled
    ensures Accounted(WithRunTaken(s, slot, completes))
  {
    hide LogOk, DistinctKeys, Exchanged;
    var key := slot.run.value.key;
    assert SlotOk(slot, s.table, s.log);
    assert Runs(slot, key) && Running(s.slots, key);
    forall k: nat ensures Running(Exchanged(s.slots, slot, slot.(run := None)), k) <==>
      Running(s.slots, k) && k != key {
      TakenRunning(s, slot, k);
    }
  }

  /** Taking the run out of a slot and counting it as completed or as cancelled. */
  lemma TakeRun(s: State, slot: Slot, completes: bool)
    requires Safe(s) && slot in s.slots && slot.run.Some?
    ensures slot.run.value.key !in s.completed && slot.run.value.key !in s.cancelled
    ensures Safe(WithRunTaken(s, slot, completes))
  {
    TakeRunAccounted(s, slot, completes);
    ExchangeKeepsSlotsOk(s, slot, slot.(run := None));
  }

  /** Dropping a slot and aborting the run it may hold. */
  lemma CancelSlot(s: State, slot: Slot)
    requires Safe(s) && slot in s.slots
    ensures Safe(s.(slots := s.slots - multiset{slot},
                    cancelled := s.cancelled + (if slot.run.Some? then {slot.run.value.key} else {})))
  {
    if slot.run.Some? {
      var idle := slot.(run := None);
      TakeRun(s, slot, false);
      ExchangedMembers(s.slots, slot, idle);
      DropIdle(WithRunTaken(s, slot, false), idle);
      assert Exchanged(s.slots, slot, idle) - multiset{idle} == s.slots - multiset{slot};
    } else {
      DropIdle(s, slot);
      assert s.cancelled + {} == s.cancelled;
    }
  }

  /** Moving a slot's next run forward, or to none. */
  lemma MoveNext(s: State, slot: Slot, next: Option<int>)
    requires Safe(s) && slot in s.slots
    requires next.Some? ==> slot.next.Some? && slot.next.value <= next.value
    ensures Safe(s.(slots := Exchanged(s.slots, slot, slot.(next := next))))
  {
    hide LogOk, DistinctKeys, Exchanged, IsPending;
    var moved := slot.(next := next);
    assert SlotOk(slot, s.table, s.log);
    ExchangeKeepsSlotsOk(s, slot, moved);
    forall k: nat ensures Running(Exchanged(s.slots, slot, moved), k) == Running(s.slots, k) {
      MovedRunning(s, slot, moved, k);
    }
  }

  lemma MovedRunning(s: State, slot: Slot, moved: Slot, k: nat)
    requires SlotsOk(s) && slot in s.slots && SameKey(slot.schedule, moved.schedule) && moved.run == slot.run
    ensures Running(Exchanged(s.slots, slot, moved), k) == Running(s.slots, k)
  {
    hide Exchanged;
    ExchangedRunning(s.slots, slot, moved, k);
  }

  // ------------------------------------------------------------------
  // Endings owed
  // ------------------------------------------------------------------

  /** Owing the ending of a generation without a slot. */
  lemma OweEnding(s: State, schedule: Schedule)
    requires Safe(s)
    requires forall slot :: slot in s.slots ==> !SameKey(slot.schedule, schedule)
    ensures Safe(s.(pendingEnds := s.pendingEnds + [schedule]))
  {
    var after := s.(pendingEnds := s.pendingEnds + [schedule]);
    assert forall k: nat :: Running(after.slots, k) == Running(s.slots, k);
  }

  lemma PendingIsByKey(pendingEnds: seq<Schedule>, fewer: seq<Schedule>, schedule: Schedule)
    requires forall i :: 0 <= i < |fewer| ==> IsPending(pendingEnds, fewer[i])
    ensures IsPending(fewer, schedule) ==> IsPending(pendingEnds, schedule)
  {
    if i :| 0 <= i < |fewer| && SameKey(fewer[i], schedule) {
      var j :| 0 <= j < |pendingEnds| && SameKey(pendingEnds[j], fewer[i]);
      assert SameKey(pendingEnds[j], schedule);
    }
  }

  /** Owing fewer endings. */
  lemma OweFewer(s: State, fewer: seq<Schedule>)
    requires Safe(s)
    requires forall schedule :: schedule in fewer ==> schedule in s.pendingEnds
    ensures Safe(s.(pendingEnds := fewer))
  {
    var after := s.(pendingEnds := fewer);
    assert forall k: nat :: Running(after.slots, k) == Running(s.slots, k);
    forall i | 0 <= i < |fewer| ensures IsPending(s.pendingEnds, fewer[i]) {
      assert fewer[i] in fewer;
      var j :| 0 <= j < |s.pendingEnds| && s.pendingEnds[j] == fewer[i];
    }
    forall slot | slot in s.slots ensures !IsPending(fewer, slot.schedule) {
      PendingIsByKey(s.pendingEnds, fewer, slot.schedule);
    }
  }

  /** A generation whose ending is owed has no slot. */
  lemma NotPendingHasNoSlot(s: State, owed: seq<Schedule>, k: nat)
    requires Safe(s) && s.pendingEnds == owed && k < |owed|
    ensures forall slot :: slot in s.slots ==> !SameKey(slot.schedule, owed[k])
  {
    forall slot | slot in s.slots ensures !SameKey(slot.schedule, owed[k]) {
      assert SameKey(owed[k], slot.schedule) ==> IsPending(owed, slot.schedule);
    }
  }

  /** The runs neither in a slot nor finished once every slot is dropped. */
  ghost function Unfinished(s: State): set<nat> {
    set k: nat | k < |s.log.launches| && k !in s.completed && k !in s.cancelled
  }

  /** Before the first worker. */
  lemma NothingIsSafe(t: Table)
    requires Valid(t)
    ensures Safe(State(t, multiset{}, [], Log([], {}), {}, {}))
  {
  }

  /** Starting over: dropping the slots aborts their runs, and the owed endings are forgotten. */
  lemma StartOver(s: State)
    requires Safe(s)
    ensures Safe(s.(slots := multiset{}, pendingEnds := [], cancelled := s.cancelled + Unfinished(s)))
  {
    assert forall k: nat :: !Running(multiset{}, k);
  }

  // ------------------------------------------------------------------
  // A launch
  // ------------------------------------------------------------------

  function Appended(log: Log, launch: Launch): Log {
    log.(launches := log.launches + [launch])
  }

  /**
   Launching the occurrence a slot was due for. The slot's next run has already
   been moved past it; where the `set_next` took effect the stored one has been too.
   */
  lemma LaunchStep(s: State, slot: Slot, due: int, backing: Backing, deadline: int)
    requires Safe(s) && slot in s.slots && slot.run.None?
    requires Before(s.log, slot.schedule.id, slot.schedule.generation, due)
    requires slot.next.Some? ==> due < slot.next.value
    requires Authorized(LaunchOf(slot, due, backing))
             && StoredAhead(LaunchOf(slot, due, backing), s.table, s.log.rewound)
    ensures Safe(WithLaunch(s, slot, due, backing, deadline))
  {
    LogGrows(s.log, LaunchOf(slot, due, backing));
    LaunchSlotsOk(s, slot, due, backing, deadline);
    LaunchAccounted(s, slot, due, backing, deadline);
  }

  function LaunchOf(slot: Slot, due: int, backing: Backing): Launch {
    Launch(slot.schedule.id, slot.schedule.generation, due, backing)
  }

  ghost function WithLaunch(s: State, slot: Slot, due: int, backing: Backing, deadline: int): State {
    s.(slots := Exchanged(s.slots, slot, slot.(run := Some(InFlight(|s.log.launches|, deadline)))),
       log := Appended(s.log, LaunchOf(slot, due, backing)))
  }

  lemma LaunchSlotsOk(s: State, slot: Slot, due: int, backing: Backing, deadline: int)
    requires SlotsOk(s) && slot in s.slots && slot.run.None?
    requires slot.next.Some? ==> due < slot.next.value
    ensures SlotsOk(WithLaunch(s, slot, due, backing, deadline))
  {
    hide SlotOk, IsPending, DistinctKeys, Exchanged;
    var launch := LaunchOf(slot, due, backing);
    var running := slot.(run := Some(InFlight(|s.log.launches|, deadline)));
    ExchangedMembers(s.slots, slot, running);
    WithoutMembers(s.slots, slot);
    SameKeyPending(s.pendingEnds, slot.schedule, running.schedule);
    StartedSlotOk(slot, s.table, s.log, launch, deadline);
    forall x | x in s.slots && x != slot ensures SlotOk(x, s.table, Appended(s.log, launch)) {
      assert x in s.slots - multiset{slot};
      SlotOkGrows(x, s.table, s.log, launch);
    }
  }

  lemma StartedSlotOk(slot: Slot, t: Table, log: Log, launch: Launch, deadline: int)
    requires SlotOk(slot, t, log)
    requires launch.id == slot.schedule.id && launch.generation == slot.schedule.generation
    requires slot.next.Some? ==> launch.due < slot.next.value
    ensures SlotOk(slot.(run := Some(InFlight(|log.launches|, deadline))), t, Appended(log, launch))
  {
  }

  lemma LaunchAccounted(s: State, slot: Slot, due: int, backing: Backing, deadline: int)
    requires Safe(s) && slot in s.slots && slot.run.None?
    ensures Accounted(WithLaunch(s, slot, due, backing, deadline))
  {
    var key := |s.log.launches|;
    var running := slot.(run := Some(InFlight(key, deadline)));
    forall k: nat | k <= key
      ensures Running(Exchanged(s.slots, slot, running), k) <==> k == key || Running(s.slots, k)
    {
      ExchangedRunning(s.slots, slot, running, k);
    }
    assert key !in s.completed && key !in s.cancelled;
  }

  /** A launch of another generation leaves a slot as good as it was. */
  lemma SlotOkGrows(slot: Slot, t: Table, log: Log, launch: Launch)
    requires SlotOk(slot, t, log)
    requires !(slot.schedule.id == launch.id && slot.schedule.generation == launch.generation)
    ensures SlotOk(slot, t, Appended(log, launch))
  {
  }

  lemma LogGrows(log: Log, launch: Launch)
    requires NeverRepeats(log)
    requires Before(log, launch.id, launch.generation, launch.due)
    ensures NeverRepeats(Appended(log, launch))
  {
    var more := Appended(log, launch);
    forall i, j | 0 <= i < j < |more.launches| ensures InOrder(more, more.launches[i], more.launches[j]) {
      assert more.launches[i] == log.launches[i];
      if j < |log.launches| {
        assert InOrder(log, log.launches[i], log.launches[j]);
      }
    }
  }

  // ------------------------------------------------------------------
  // What the invariant means
  // ------------------------------------------------------------------

  /** The same occurrence of the same generation. */
  predicate SameOccurrence(a: Launch, b: Launch) {
    a.id == b.id && a.generation == b.generation && a.due == b.due
  }

  /** An occurrence whose `set_next` took effect is never launched again, unless others moved its next run back. */
  lemma AtMostOnce(s: State, i: nat, j: nat)
    requires Safe(s) && i < j < |s.log.launches|
    requires s.log.launches[i].backing.Stored?
    requires (s.log.launches[i].id, s.log.launches[i].generation) !in s.log.rewound
    ensures !SameOccurrence(s.log.launches[i], s.log.launches[j])
  {
    assert InOrder(s.log, s.log.launches[i], s.log.launches[j]);
  }

  /** Slots of distinct ids have pairwise distinct names. */
  lemma DistinctNames(s: State, a: Slot, b: Slot)
    requires Safe(s) && a in s.slots && b in s.slots
    requires a.schedule.id != b.schedule.id
    ensures a.schedule.spec.name != b.schedule.spec.name
  {
    assert SlotOk(a, s.table, s.log) && SlotOk(b, s.table, s.log);
  }

  // ------------------------------------------------------------------
  // Missed ticks
  // ------------------------------------------------------------------

  datatype MissedTickPolicy = Coalesce | Skip

  /** The occurrence after the due one is due as well. */
  predicate Missed(expr: CronExpr, jitter: nat, due: int, now: int) {
    NextRun(expr, jitter, due).Some? && NextRun(expr, jitter, due).value <= now
  }

  /** The due occurrence and the jittered ones that have come due since. */
  ghost function Backlog(expr: CronExpr, jitter: nat, due: int, now: int): set<int> {
    {due} + set x | x in Jittered(expr, jitter) && due < x <= now
  }

  /** Occurrences count as missed exactly when more than one has come due. */
  lemma MissedMeansBacklog(expr: CronExpr, jitter: nat, due: int, now: int)
    requires Searchable(jitter, due) && due <= now <= MAX_UTC
    ensures Missed(expr, jitter, due, now) <==> |Backlog(expr, jitter, due, now)| >= 2
  {
    hide NextRun, Jittered, Searchable;
    NextRunIsLeast(expr, jitter, due);
    var backlog := Backlog(expr, jitter, due, now);
    if Missed(expr, jitter, due, now) {
      var second := NextRun(expr, jitter, due).value;
      SubsetSize({due, second}, backlog);
    } else {
      assert forall x :: x in backlog && x != due ==> x in RunsAfter(expr, jitter, due);
      assert backlog == {due};
    }
  }

  // ------------------------------------------------------------------
  // Backoff
  // ------------------------------------------------------------------

  datatype ReloadRetry = ReloadRetry(failures: nat, due: Option<int>)

  const NO_RETRY := ReloadRetry(0, None)
  const RETRY_MAX_SECONDS: int := 60
  const RETRY_MAX_SHIFT: int := 6

  function Shift(n: nat): nat {
    if n == 0 then 1 else 2 * Shift(n - 1)
  }

  function Min(a: int, b: int): int { if a <= b then a else b }

  /** `ReloadRetry::delay`, in seconds. */
  function Delay(failures: nat): int {
    Min(Shift(Min(failures, RETRY_MAX_SHIFT)), RETRY_MAX_SECONDS)
  }

  function Backoff(retry: ReloadRetry, now: int): ReloadRetry {
    ReloadRetry(Min(retry.failures + 1, U32_MAX), Some(now + Delay(retry.failures) * SECOND))
  }

  /** One failure further, with a date by the backoff from some reading of the clock. */
  ghost predicate Retried(before: ReloadRetry, after: ReloadRetry) {
    exists now :: after == Backoff(before, now)
  }

  predicate IsDue(due: Option<int>, now: int): (isDue: bool)
    ensures isDue <==> !(due.None? || now < due.value)
  {
    due.Some? && due.value <= now
  }

  /** A retry comes between one second and a minute after the failure it follows. */
  lemma BackoffWithinAMinute(retry: ReloadRetry, now: int)
    ensures Backoff(retry, now).due.Some?
    ensures now + SECOND <= Backoff(retry, now).due.value <= now + 60 * SECOND
    ensures Backoff(retry, now).due.value == now + 1_000_000_000 * Delay(retry.failures)
    ensures Backoff(retry, now).failures ==
              if retry.failures < 0xFFFF_FFFF then retry.failures + 1 else 0xFFFF_FFFF
  {
    BackoffDoublesToCap(retry.failures);
  }

  /** The delay starts at one second, doubles with each failure and never passes sixty. */
  lemma BackoffDoublesToCap(failures: nat)
    ensures Delay(0) == 1
    ensures 1 <= Delay(failures) <= 60
    ensures Delay(failures + 1) == Min(2 * Delay(failures), 60)
  {
    assert Shift(6) == 64 by {
      assert Shift(1) == 2 && Shift(2) == 4 && Shift(3) == 8 && Shift(4) == 16 && Shift(5) == 32;
    }
    if failures < RETRY_MAX_SHIFT {
      assert failures in {0, 1, 2, 3, 4, 5};
    }
  }
}
