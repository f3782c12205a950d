/**
 The durable schedule table and every write the store makes to it
 (crates/sc-cron/src/sqlite.rs; contract in crates/sc-cron/src/store.rs).

 Each write is a function from the table before to the table after and the
 reply; the class at the end runs the same writes as transactions over a
 working copy that a commit publishes.
 */
module ScheduleTable {
  import opened Options
  import opened Types

  /** The rows by id, and the last id handed out (ids are never reused). */
  datatype Table = Table(rows: map<nat, Schedule>, lastId: nat)

  type Flags = seq<(string, bool)>

  datatype Error = AlreadyActive | InvalidSpec | RowLimit | GenerationExhausted | IdsExhausted

  datatype Reply = Changed(changed: bool) | Written(row: Schedule) | NothingWritten | Rejected(error: Error)

  datatype Command =
    | Create(schedule: NewSchedule, createdAt: int)
    | ReplaceAndSetEnabled(schedule: NewSchedule, enabled: bool, createdAt: int, flags: Flags)
    | SetEnabledMany(flags: Flags)
    | SetEnabled(name: string, enabled: bool)
    | RecordRun(id: nat, generation: nat, at: int, outcome: RunOutcome)
    | SetNext(id: nat, generation: nat, nextRunAt: int)
    | Stop(id: nat, generation: nat, at: int, reason: string)
    | Disable(id: nat, generation: nat, at: int, reason: string)

  // ------------------------------------------------------------------
  // What the schema keeps
  // ------------------------------------------------------------------

  ghost predicate ValidRow(id: nat, row: Schedule) {
    && row.id == id
    && 1 <= row.generation <= U32_MAX
    && (row.IsActive() <==> row.nextRunAt.Some?)
    && (row.IsActive() <==> row.stopReason.None?)
    && WholeSeconds(row.spec.expr)
    && row.jitter % MILLISECOND == 0
  }

  ghost predicate Valid(t: Table) {
    && t.lastId <= I64_MAX
    && (forall id :: id in t.rows ==> 1 <= id <= t.lastId && ValidRow(id, t.rows[id]))
    && UniqueNames(t)
  }

  ghost predicate UniqueNames(t: Table) {
    forall a, b :: a in t.rows && b in t.rows && t.rows[a].spec.name == t.rows[b].spec.name ==> a == b
  }

  ghost predicate ValidNew(schedule: NewSchedule) {
    WholeSeconds(schedule.spec.expr)
  }

  ghost predicate ValidCommand(c: Command) {
    (c.Create? || c.ReplaceAndSetEnabled?) ==> ValidNew(c.schedule)
  }

  // ------------------------------------------------------------------
  // Lookups
  // ------------------------------------------------------------------

  /** `(id, generation)` names the active schedule: the guard of every run-state write. */
  predicate Current(t: Table, id: nat, generation: nat) {
    id <= I64_MAX && id in t.rows && t.rows[id].generation == generation && t.rows[id].IsActive()
  }

  function FindUpTo(rows: map<nat, Schedule>, name: string, last: nat): (found: Option<nat>)
    ensures found.Some? ==> 1 <= found.value <= last && found.value in rows && rows[found.value].spec.name == name
    ensures found.None? ==> forall id :: 1 <= id <= last && id in rows ==> rows[id].spec.name != name
  {
    if last == 0 then None
    else if last in rows && rows[last].spec.name == name then Some(last)
    else FindUpTo(rows, name, last - 1)
  }

  function Find(t: Table, name: string): Option<nat> {
    FindUpTo(t.rows, name, t.lastId)
  }

  ghost function ActiveIds(t: Table): set<nat> {
    set id | id in t.rows && t.rows[id].IsActive()
  }

  function CountUpTo(rows: map<nat, Schedule>, last: nat): nat {
    if last == 0 then 0
    else (if last in rows && rows[last].IsActive() then 1 else 0) + CountUpTo(rows, last - 1)
  }

  lemma {:induction false} CountsActive(rows: map<nat, Schedule>, last: nat)
    ensures CountUpTo(rows, last) == |set id | id in rows && 1 <= id <= last && rows[id].IsActive()|
  {
    var upTo := set id | id in rows && 1 <= id <= last && rows[id].IsActive();
    if last == 0 {
      assert upTo == {};
    } else {
      CountsActive(rows, last - 1);
      var fewer := set id | id in rows && 1 <= id <= last - 1 && rows[id].IsActive();
      if last in rows && rows[last].IsActive() {
        assert upTo == fewer + {last};
      } else {
        assert upTo == fewer;
      }
    }
  }

  /** The number of rows that have not ended. */
  function ActiveCount(t: Table): nat {
    CountUpTo(t.rows, t.lastId)
  }

  lemma ActiveCountIsSize(t: Table)
    requires Valid(t)
    ensures ActiveCount(t) == |ActiveIds(t)|
  {
    CountsActive(t.rows, t.lastId);
    assert ActiveIds(t) == set id | id in t.rows && 1 <= id <= t.lastId && t.rows[id].IsActive();
  }

  /** `row_count_reached`: a count outside the unsigned range is past every cap. */
  predicate RowCountReached(count: int, limit: nat) {
    if count < 0 then true else count >= limit
  }

  predicate HasRoom(t: Table, cap: Option<nat>) {
    cap.None? || !RowCountReached(ActiveCount(t), cap.value)
  }

  // ------------------------------------------------------------------
  // Column values
  // ------------------------------------------------------------------

  /** `Columns::new` accepts the schedule: payload size and the integer range of the durations. */
  predicate Encodable(schedule: NewSchedule) {
    && schedule.spec.timeout / MILLISECOND <= I64_MAX
    && schedule.jitter / MILLISECOND <= I64_MAX
    && |schedule.spec.payload| <= MAX_PAYLOAD_BYTES
  }

  /** The row written for `schedule`: run and end state cleared, the jitter in whole milliseconds. */
  function Fresh(id: nat, generation: nat, schedule: NewSchedule, createdAt: int, enabled: bool): Schedule {
    Schedule(id, generation, schedule.spec, schedule.jitter - schedule.jitter % MILLISECOND,
             createdAt, Some(schedule.nextRunAt), None, None, None, None, enabled)
  }

  // ------------------------------------------------------------------
  // The writes
  // ------------------------------------------------------------------

  /** `Columns::insert`: a new id at the first generation. */
  function Insert(t: Table, schedule: NewSchedule, createdAt: int, enabled: bool): (Table, Reply) {
    if t.lastId >= I64_MAX then (t, Rejected(IdsExhausted))
    else
      var row := Fresh(t.lastId + 1, 1, schedule, createdAt, enabled);
      (Table(t.rows[row.id := row], row.id), Written(row))
  }

  /** `Columns::rewrite`: the same id, generation plus one. */
  function Rewrite(t: Table, id: nat, schedule: NewSchedule, createdAt: int, enabled: bool): (Table, Reply)
    requires id in t.rows
  {
    match NextGeneration(t.rows[id].generation)
    case None => (t, Rejected(GenerationExhausted))
    case Some(generation) =>
      var row := Fresh(id, generation, schedule, createdAt, enabled);
      (Table(t.rows[id := row], t.lastId), Written(row))
  }

  function ExecCreate(t: Table, cap: Option<nat>, schedule: NewSchedule, createdAt: int): (Table, Reply) {
    if !Encodable(schedule) then (t, Rejected(InvalidSpec))
    else
      match Find(t, schedule.spec.name)
      case None =>
        if !HasRoom(t, cap) then (t, Rejected(RowLimit)) else Insert(t, schedule, createdAt, true)
      case Some(id) =>
        if t.rows[id].IsActive() then (t, Rejected(AlreadyActive))
        else if !HasRoom(t, cap) then (t, Rejected(RowLimit))
        else Rewrite(t, id, schedule, createdAt, true)
  }

  /** The one-row part of a replace: an active name is rewritten without claiming a slot. */
  function WriteReplacement(t: Table, cap: Option<nat>, schedule: NewSchedule, enabled: bool,
                            createdAt: int): (Table, Reply)
  {
    match Find(t, schedule.spec.name)
    case None =>
      if !HasRoom(t, cap) then (t, Rejected(RowLimit)) else Insert(t, schedule, createdAt, enabled)
    case Some(id) =>
      if !t.rows[id].IsActive() && !HasRoom(t, cap) then (t, Rejected(RowLimit))
      else Rewrite(t, id, schedule, createdAt, enabled)
  }

  /** One flag of a list; `None` when no active schedule has the name. */
  function SetFlag(t: Table, name: string, enabled: bool): Option<Table> {
    match Find(t, name)
    case None => None
    case Some(id) =>
      if t.rows[id].IsActive() then Some(Table(t.rows[id := t.rows[id].(enabled := enabled)], t.lastId)) else None
  }

  /** The flags of a list, one after the other, stopping at the first missing name. */
  function SetFlags(t: Table, flags: Flags): Option<Table>
    decreases |flags|
  {
    if flags == [] then Some(t)
    else
      match SetFlag(t, flags[0].0, flags[0].1)
      case None => None
      case Some(next) => SetFlags(next, flags[1..])
  }

  function ExecSetEnabledMany(t: Table, flags: Flags): (Table, Reply) {
    match SetFlags(t, flags)
    case None => (t, Changed(false))
    case Some(after) => (after, Changed(true))
  }

  function ExecReplace(t: Table, cap: Option<nat>, schedule: NewSchedule, enabled: bool, createdAt: int,
                       flags: Flags): (Table, Reply)
  {
    if exists i :: 0 <= i < |flags| && flags[i].0 == schedule.spec.name then (t, Rejected(InvalidSpec))
    else if !Encodable(schedule) then (t, Rejected(InvalidSpec))
    else
      var (written, reply) := WriteReplacement(t, cap, schedule, enabled, createdAt);
      if !reply.Written? then (t, reply)
      else
        match SetFlags(written, flags)
        case None => (t, NothingWritten)
        case Some(after) => (after, reply)
  }

  function ExecSetEnabled(t: Table, name: string, enabled: bool): (Table, Reply) {
    match SetFlag(t, name, enabled)
    case None => (t, Changed(false))
    case Some(after) => (after, Changed(true))
  }

  /** Replaces the row `(id, generation)` names, when it is the active schedule and `allowed`. */
  function GuardedUpdate(t: Table, id: nat, generation: nat, allowed: bool, f: Schedule -> Schedule): (Table, Reply) {
    if Current(t, id, generation) && allowed
    then (Table(t.rows[id := f(t.rows[id])], t.lastId), Changed(true))
    else (t, Changed(false))
  }

  /** One store call. */
  function Exec(t: Table, cap: Option<nat>, c: Command): (Table, Reply) {
    match c
    case Create(schedule, createdAt) => ExecCreate(t, cap, schedule, createdAt)
    case ReplaceAndSetEnabled(schedule, enabled, createdAt, flags) =>
      ExecReplace(t, cap, schedule, enabled, createdAt, flags)
    case SetEnabledMany(flags) => ExecSetEnabledMany(t, flags)
    case SetEnabled(name, enabled) => ExecSetEnabled(t, name, enabled)
    case RecordRun(id, generation, at, outcome) =>
      GuardedUpdate(t, id, generation, true,
        (row: Schedule) => row.(lastRunAt := Some(at), lastOutcome := Some(outcome)))
    case SetNext(id, generation, nextRunAt) =>
      GuardedUpdate(t, id, generation, id in t.rows && t.rows[id].enabled,
        (row: Schedule) => row.(nextRunAt := Some(nextRunAt)))
    case Stop(id, generation, at, reason) =>
      GuardedUpdate(t, id, generation, true,
        (row: Schedule) => row.(endedAt := Some(at), stopReason := Some(reason), nextRunAt := None))
    case Disable(id, generation, at, reason) =>
      GuardedUpdate(t, id, generation, true,
        (row: Schedule) => row.(enabled := false, lastRunAt := Some(at), lastOutcome := Some(Refused(reason))))
  }

  /** A sequence of store calls by any number of callers. */
  function ExecAll(t: Table, cap: Option<nat>, commands: seq<Command>): Table
    decreases |commands|
  {
    if commands == [] then t else ExecAll(Exec(t, cap, commands[0]).0, cap, commands[1..])
  }

  // ------------------------------------------------------------------
  // One call keeps the schema
  // ------------------------------------------------------------------

  /** `after` changed no row but `id`'s, and neither its name nor its validity. */
  lemma PutKeepsValid(t: Table, id: nat, row: Schedule)
    requires Valid(t) && id in t.rows
    requires ValidRow(id, row) && row.spec.name == t.rows[id].spec.name
    ensures Valid(Table(t.rows[id := row], t.lastId))
  {
  }

  lemma FoundIsUnique(t: Table, name: string)
    requires Valid(t)
    ensures Find(t, name).None? <==> forall id :: id in t.rows ==> t.rows[id].spec.name != name
    ensures Find(t, name).Some? ==>
              forall id :: id in t.rows && t.rows[id].spec.name == name ==> id == Find(t, name).value
  {
  }

  lemma FreshIsValid(id: nat, generation: nat, schedule: NewSchedule, createdAt: int, enabled: bool)
    requires 1 <= generation <= U32_MAX && ValidNew(schedule)
    ensures ValidRow(id, Fresh(id, generation, schedule, createdAt, enabled))
  {
    var j := schedule.jitter;
    assert (j - j % MILLISECOND) % MILLISECOND == 0;
  }

  lemma InsertKeepsValid(t: Table, row: Schedule)
    requires Valid(t) && row.id == t.lastId + 1 <= I64_MAX && ValidRow(row.id, row)
    requires forall id :: id in t.rows ==> t.rows[id].spec.name != row.spec.name
    ensures Valid(Table(t.rows[row.id := row], row.id))
  {
    hide ValidRow;
  }

  lemma WriteReplacementKeepsValid(t: Table, cap: Option<nat>, schedule: NewSchedule, enabled: bool, createdAt: int)
    requires Valid(t) && ValidNew(schedule)
    ensures Valid(WriteReplacement(t, cap, schedule, enabled, createdAt).0)
  {
    hide HasRoom, ValidRow, ValidNew;
    FoundIsUnique(t, schedule.spec.name);
    match Find(t, schedule.spec.name) {
      case None =>
        FreshIsValid(t.lastId + 1, 1, schedule, createdAt, enabled);
        if t.lastId < I64_MAX {
          InsertKeepsValid(t, Fresh(t.lastId + 1, 1, schedule, createdAt, enabled));
        }
      case Some(id) =>
        if NextGeneration(t.rows[id].generation).Some? {
          var generation := NextGeneration(t.rows[id].generation).value;
          FreshIsValid(id, generation, schedule, createdAt, enabled);
          PutKeepsValid(t, id, Fresh(id, generation, schedule, createdAt, enabled));
        }
    }
  }

  lemma SetFlagKeepsValid(t: Table, name: string, enabled: bool)
    requires Valid(t)
    ensures SetFlag(t, name, enabled).Some? ==> Valid(SetFlag(t, name, enabled).value)
  {
    if SetFlag(t, name, enabled).Some? {
      var id := Find(t, name).value;
      PutKeepsValid(t, id, t.rows[id].(enabled := enabled));
    }
  }

  lemma {:induction false} SetFlagsKeepsValid(t: Table, flags: Flags)
    requires Valid(t)
    ensures SetFlags(t, flags).Some? ==> Valid(SetFlags(t, flags).value)
    decreases |flags|
  {
    if flags != [] && SetFlag(t, flags[0].0, flags[0].1).Some? {
      SetFlagKeepsValid(t, flags[0].0, flags[0].1);
      SetFlagsKeepsValid(SetFlag(t, flags[0].0, flags[0].1).value, flags[1..]);
    }
  }

  /** Every call keeps the schema: unique names, and active rows are exactly those with a next run. */
  lemma ExecKeepsValid(t: Table, cap: Option<nat>, c: Command)
    requires Valid(t) && ValidCommand(c)
    ensures Valid(Exec(t, cap, c).0)
  {
    match c {
      case Create(schedule, createdAt) =>
        CreateIsReplaceOfEnded(t, cap, schedule, createdAt);
        WriteReplacementKeepsValid(t, cap, schedule, true, createdAt);
      case ReplaceAndSetEnabled(schedule, enabled, createdAt, flags) =>
        WriteReplacementKeepsValid(t, cap, schedule, enabled, createdAt);
        SetFlagsKeepsValid(WriteReplacement(t, cap, schedule, enabled, createdAt).0, flags);
      case SetEnabledMany(flags) =>
        SetFlagsKeepsValid(t, flags);
      case SetEnabled(name, enabled) =>
        SetFlagKeepsValid(t, name, enabled);
      case RecordRun(id, generation, at, outcome) =>
        if Current(t, id, generation) {
          PutKeepsValid(t, id, t.rows[id].(lastRunAt := Some(at), lastOutcome := Some(outcome)));
        }
      case SetNext(id, generation, nextRunAt) =>
        if Current(t, id, generation) {
          PutKeepsValid(t, id, t.rows[id].(nextRunAt := Some(nextRunAt)));
        }
      case Stop(id, generation, at, reason) =>
        if Current(t, id, generation) {
          PutKeepsValid(t, id, t.rows[id].(endedAt := Some(at), stopReason := Some(reason), nextRunAt := None));
        }
      case Disable(id, generation, at, reason) =>
        if Current(t, id, generation) {
          PutKeepsValid(t, id,
                        t.rows[id].(enabled := false, lastRunAt := Some(at), lastOutcome := Some(Refused(reason))));
        }
    }
  }

  /** A create that writes is the replace of a name with no active row. */
  lemma CreateIsReplaceOfEnded(t: Table, cap: Option<nat>, schedule: NewSchedule, createdAt: int)
    ensures var (after, reply) := ExecCreate(t, cap, schedule, createdAt);
            if reply.Written? then (after, reply) == WriteReplacement(t, cap, schedule, true, createdAt) else after == t
  {
  }

  // ------------------------------------------------------------------
  // The store
  // ------------------------------------------------------------------

  /** The store: the committed table and the cap it was opened with. */
  class SqliteStore {
    var table: Table
    const cap: Option<nat>

    constructor (cap: Option<nat>)
      ensures Valid(table) && table == Table(map[], 0) && this.cap == cap
    {
      this.cap := cap;
      table := Table(map[], 0);
    }

    /** Sets each listed flag on a working copy; `None` as soon as a name has no active schedule. */
    method WriteFlags(start: Table, flags: Flags) returns (working: Option<Table>)
      ensures working == SetFlags(start, flags)
    {
      var t := start;
      var i := 0;
      while i < |flags|
        invariant 0 <= i <= |flags|
        invariant SetFlags(start, flags) == SetFlags(t, flags[i..])
      {
        var next := SetFlag(t, flags[i].0, flags[i].1);
        assert flags[i..][1..] == flags[i + 1..];
        if next.None? {
          return None;
        }
        t := next.value;
        i := i + 1;
      }
      return Some(t);
    }

    method SetEnabledMany(flags: Flags) returns (done: bool)
      requires Valid(table)
      modifies this
      ensures Valid(table)
      ensures (table, Changed(done)) == Exec(old(table), cap, Command.SetEnabledMany(flags))
    {
      ExecKeepsValid(table, cap, Command.SetEnabledMany(flags));
      var working := WriteFlags(table, flags);
      if working.None? {
        return false;
      }
      table := working.value;
      return true;
    }

    /** `guarded_update`: one row, and only while it is the active one of the generation named. */
    method GuardedWrite(c: Command) returns (done: bool)
      requires Valid(table) && (c.RecordRun? || c.SetNext? || c.Stop? || c.Disable?)
      modifies this
      ensures Valid(table)
      ensures (table, Changed(done)) == Exec(old(table), cap, c)
    {
      ExecKeepsValid(table, cap, c);
      if c.id > I64_MAX || c.id !in table.rows {
        return false;
      }
      var row := table.rows[c.id];
      if row.generation != c.generation || !row.IsActive() || (c.SetNext? && !row.enabled) {
        return false;
      }
      match c {
        case RecordRun(_, _, at, outcome) => row := row.(lastRunAt := Some(at), lastOutcome := Some(outcome));
        case SetNext(_, _, next) => row := row.(nextRunAt := Some(next));
        case Stop(_, _, at, reason) => row := row.(endedAt := Some(at), stopReason := Some(reason), nextRunAt := None);
        case Disable(_, _, at, reason) =>
          row := row.(enabled := false, lastRunAt := Some(at), lastOutcome := Some(Refused(reason)));
      }
      table := Table(table.rows[c.id := row], table.lastId);
      done := true;
    }

    method SetEnabled(name: string, enabled: bool) returns (done: bool)
      requires Valid(table)
      modifies this
      ensures Valid(table)
      ensures (table, Changed(done)) == Exec(old(table), cap, Command.SetEnabled(name, enabled))
    {
      ExecKeepsValid(table, cap, Command.SetEnabled(name, enabled));
      var existing := Find(table, name);
      if existing.None? || !table.rows[existing.value].IsActive() {
        return false;
      }
      var row := table.rows[existing.value];
      table := Table(table.rows[row.id := row.(enabled := enabled)], table.lastId);
      done := true;
    }

    method Create(schedule: NewSchedule, createdAt: int) returns (reply: Reply)
      requires Valid(table) && ValidNew(schedule)
      modifies this
      ensures Valid(table)
      ensures (table, reply) == Exec(old(table), cap, Command.Create(schedule, createdAt))
    {
      ExecKeepsValid(table, cap, Command.Create(schedule, createdAt));
      if !Encodable(schedule) {
        return Rejected(InvalidSpec);
      }
      var existing := Find(table, schedule.spec.name);
      if existing.Some? && table.rows[existing.value].IsActive() {
        return Rejected(AlreadyActive);
      }
      if !HasRoom(table, cap) {
        return Rejected(RowLimit);
      }
      var working;
      match existing {
        case Some(id) =>
          var (next, row) := Rewrite(table, id, schedule, createdAt, true);
          working, reply := next, row;
        case None =>
          var (next, row) := Insert(table, schedule, createdAt, true);
          working, reply := next, row;
      }
      table := working;
    }

    method ReplaceAndSetEnabled(schedule: NewSchedule, enabled: bool, createdAt: int, flags: Flags)
      returns (reply: Reply)
      requires Valid(table) && ValidNew(schedule)
      modifies this
      ensures Valid(table)
      ensures (table, reply) == Exec(old(table), cap, Command.ReplaceAndSetEnabled(schedule, enabled, createdAt, flags))
    {
      ExecKeepsValid(table, cap, Command.ReplaceAndSetEnabled(schedule, enabled, createdAt, flags));
      if exists i :: 0 <= i < |flags| && flags[i].0 == schedule.spec.name {
        return Rejected(InvalidSpec);
      }
      if !Encodable(schedule) {
        return Rejected(InvalidSpec);
      }
      var existing := Find(table, schedule.spec.name);
      if (existing.None? || !table.rows[existing.value].IsActive()) && !HasRoom(table, cap) {
        return Rejected(RowLimit);
      }
      var written;
      match existing {
        case Some(id) => written := Rewrite(table, id, schedule, createdAt, enabled);
        case None => written := Insert(table, schedule, createdAt, enabled);
      }
      if !written.1.Written? {
        return written.1;
      }
      var working := WriteFlags(written.0, flags);
      if working.None? {
        return NothingWritten;
      }
      table := working.value;
      return written.1;
    }
  }
}
