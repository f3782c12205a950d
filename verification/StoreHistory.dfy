/**
 What the schedule table keeps over any sequence of store calls: generation
 fencing, all-or-nothing flag writes, "at most one enabled", and the row cap
 (crates/sc-cron/src/sqlite.rs, crates/sc-cron/src/store.rs).
 */
module StoreHistory {
  import opened Options
  import opened Types
  import opened ScheduleTable

  // ------------------------------------------------------------------
  // All or nothing
  // ------------------------------------------------------------------

  ghost predicate HasActive(t: Table, name: string) {
    exists id :: id in t.rows && t.rows[id].spec.name == name && t.rows[id].IsActive()
  }

  ghost predicate AllActive(t: Table, flags: Flags) {
    forall i :: 0 <= i < |flags| ==> HasActive(t, flags[i].0)
  }

  /** The flag a list leaves on `name`: the last one listed, or what it was. */
  function LastFlag(flags: Flags, name: string, was: bool): bool
    decreases |flags|
  {
    if flags == [] then was
    else LastFlag(flags[1..], name, if flags[0].0 == name then flags[0].1 else was)
  }

  function WithFlag(row: Schedule, flags: Flags): Schedule {
    if row.IsActive() then row.(enabled := LastFlag(flags, row.spec.name, row.enabled)) else row
  }

  /** `after` is `t` with every active row's flag as the list leaves it, and nothing else changed. */
  ghost predicate FlagsApplied(t: Table, flags: Flags, after: Table) {
    && after.lastId == t.lastId
    && after.rows.Keys == t.rows.Keys
    && forall id :: id in t.rows ==> after.rows[id] == WithFlag(t.rows[id], flags)
  }

  lemma SetFlagEffect(t: Table, name: string, enabled: bool)
    requires Valid(t)
    ensures SetFlag(t, name, enabled).Some? <==> HasActive(t, name)
    ensures SetFlag(t, name, enabled).Some? ==> FlagsApplied(t, [(name, enabled)], SetFlag(t, name, enabled).value)
  {
    FoundIsUnique(t, name);
    forall n, was ensures LastFlag([(name, enabled)], n, was) == if n == name then enabled else was {
      OneFlag((name, enabled), n, was);
    }
  }

  /** One flag and then the rest is the whole list. */
  lemma FlagsCompose(t: Table, next: Table, after: Table, flags: Flags)
    requires flags != []
    requires FlagsApplied(t, [flags[0]], next) && FlagsApplied(next, flags[1..], after)
    ensures FlagsApplied(t, flags, after)
  {
    forall id | id in t.rows ensures after.rows[id] == WithFlag(t.rows[id], flags) {
      assert next.rows[id] == WithFlag(t.rows[id], [flags[0]]);
      OneFlag(flags[0], t.rows[id].spec.name, t.rows[id].enabled);
    }
  }

  lemma OneFlag(flag: (string, bool), name: string, was: bool)
    ensures LastFlag([flag], name, was) == if flag.0 == name then flag.1 else was
  {
    assert [flag][1..] == [];
  }

  lemma AllActiveSplits(t: Table, next: Table, flags: Flags)
    requires flags != [] && HasActive(t, flags[0].0)
    requires FlagsApplied(t, [flags[0]], next)
    ensures AllActive(t, flags) <==> AllActive(next, flags[1..])
  {
    forall i | 0 <= i < |flags| ensures HasActive(next, flags[i].0) <==> HasActive(t, flags[i].0) {
      SameActiveNames(t, next, [flags[0]], flags[i].0);
    }
    if AllActive(t, flags) {
      forall i | 0 <= i < |flags| - 1 ensures HasActive(next, flags[1..][i].0) {
        assert flags[1..][i] == flags[i + 1];
      }
    }
    if AllActive(next, flags[1..]) {
      forall i | 0 <= i < |flags| ensures HasActive(t, flags[i].0) {
        if i > 0 { assert flags[1..][i - 1] == flags[i]; }
      }
    }
  }

  /** A list of flags is written whole, the last flag of a repeated name winning, or not at all. */
  lemma {:induction false} SetFlagsAllOrNothing(t: Table, flags: Flags)
    requires Valid(t)
    ensures SetFlags(t, flags).Some? <==> AllActive(t, flags)
    ensures SetFlags(t, flags).Some? ==> FlagsApplied(t, flags, SetFlags(t, flags).value)
    decreases |flags|
  {
    if flags != [] {
      SetFlagEffect(t, flags[0].0, flags[0].1);
      if SetFlag(t, flags[0].0, flags[0].1).Some? {
        var next := SetFlag(t, flags[0].0, flags[0].1).value;
        SetFlagKeepsValid(t, flags[0].0, flags[0].1);
        SetFlagsAllOrNothing(next, flags[1..]);
        AllActiveSplits(t, next, flags);
        if SetFlags(t, flags).Some? {
          FlagsCompose(t, next, SetFlags(t, flags).value, flags);
        }
      }
    }
  }

  lemma SameActiveNames(t: Table, next: Table, flags: Flags, name: string)
    requires FlagsApplied(t, flags, next)
    ensures HasActive(next, name) <==> HasActive(t, name)
  {
    forall id | id in t.rows
      ensures next.rows[id].spec.name == t.rows[id].spec.name && next.rows[id].IsActive() == t.rows[id].IsActive()
    {
      assert next.rows[id] == WithFlag(t.rows[id], flags);
    }
  }

  /** `set_enabled_many` answers whether every name was active, and writes all flags or nothing. */
  lemma SetEnabledManyAllOrNothing(t: Table, cap: Option<nat>, flags: Flags)
    requires Valid(t)
    ensures var (after, reply) := Exec(t, cap, SetEnabledMany(flags));
            && reply == Changed(AllActive(t, flags))
            && (if AllActive(t, flags) then FlagsApplied(t, flags, after) else after == t)
  {
    SetFlagsAllOrNothing(t, flags);
  }

  /** The row's run and end state is cleared; its times are the given ones, its jitter in whole milliseconds. */
  predicate StartsAnew(row: Schedule, schedule: NewSchedule, createdAt: int) {
    && row.createdAt == createdAt && row.nextRunAt == Some(schedule.nextRunAt)
    && row.lastRunAt.None? && row.lastOutcome.None? && row.endedAt.None? && row.stopReason.None?
    && row.jitter % MILLISECOND == 0 && row.jitter <= schedule.jitter < row.jitter + MILLISECOND
  }

  /**
   `replace_and_set_enabled` writes its row and every listed flag, or leaves the
   table as it was; on success the row has the given flag and a generation of one
   or one more than before.
   */
  lemma ReplaceAllOrNothing(t: Table, cap: Option<nat>, schedule: NewSchedule, enabled: bool, createdAt: int,
                            flags: Flags)
    requires Valid(t) && ValidNew(schedule)
    ensures var (after, reply) := Exec(t, cap, ReplaceAndSetEnabled(schedule, enabled, createdAt, flags));
            if reply.Written?
            then
              && reply.row.id in after.rows && after.rows[reply.row.id] == reply.row
              && reply.row.spec == schedule.spec && reply.row.enabled == enabled && reply.row.IsActive()
              && StartsAnew(reply.row, schedule, createdAt)
              && reply.row.generation == (if reply.row.id in t.rows then t.rows[reply.row.id].generation + 1 else 1)
              && TakesId(t, after, reply.row)
              && after.rows.Keys == t.rows.Keys + {reply.row.id}
              && (forall id :: id in t.rows && id != reply.row.id ==> after.rows[id] == WithFlag(t.rows[id], flags))
              && forall i :: 0 <= i < |flags| ==> HasActive(t, flags[i].0)
            else after == t
  {
    hide Valid, ValidNew, WriteReplacement, SetFlags, HasRoom, Encodable, LastFlag;
    var (after, reply) := Exec(t, cap, ReplaceAndSetEnabled(schedule, enabled, createdAt, flags));
    if reply.Written? {
      var written := WriteReplacement(t, cap, schedule, enabled, createdAt).0;
      WriteReplacementEffect(t, cap, schedule, enabled, createdAt);
      WriteReplacementKeepsValid(t, cap, schedule, enabled, createdAt);
      SetFlagsAllOrNothing(written, flags);
      UnlistedFlag(flags, schedule.spec.name, enabled);
      assert after.rows[reply.row.id] == WithFlag(reply.row, flags);
      forall i | 0 <= i < |flags| ensures HasActive(t, flags[i].0) {
        assert HasActive(written, flags[i].0);
        var id :| id in written.rows && written.rows[id].spec.name == flags[i].0 && written.rows[id].IsActive();
        assert id != reply.row.id;
      }
    }
  }

  /** The written row: a new id at the first generation, or the name's row one generation on. */
  lemma WriteReplacementEffect(t: Table, cap: Option<nat>, schedule: NewSchedule, enabled: bool, createdAt: int)
    requires Valid(t) && ValidNew(schedule)
    ensures var (written, reply) := WriteReplacement(t, cap, schedule, enabled, createdAt);
            reply.Written? ==>
              && var row := reply.row;
              && written.rows == t.rows[row.id := row]
              && row.spec == schedule.spec && row.enabled == enabled && row.IsActive()
              && StartsAnew(row, schedule, createdAt)
              && row.generation == (if row.id in t.rows then t.rows[row.id].generation + 1 else 1)
              && TakesId(t, written, row)
  {
    FoundIsUnique(t, schedule.spec.name);
  }

  /** The name has no row and no id is left, or its row has used up its generations. */
  ghost predicate Exhausted(t: Table, name: string) {
    IdsSpent(t, name) || GenerationsSpent(t, name)
  }

  ghost predicate IdsSpent(t: Table, name: string) {
    t.lastId >= I64_MAX && forall id :: id in t.rows ==> t.rows[id].spec.name != name
  }

  ghost predicate GenerationsSpent(t: Table, name: string) {
    exists id :: id in t.rows && t.rows[id].spec.name == name && t.rows[id].generation >= U32_MAX
  }

  /** Within the column ranges: durations of at most 2^63 - 1 whole milliseconds, and a payload of at most 64 KiB. */
  ghost predicate Fits(schedule: NewSchedule) {
    && schedule.spec.timeout < 0x8000_0000_0000_0000 * 1_000_000
    && schedule.jitter < 0x8000_0000_0000_0000 * 1_000_000
    && |schedule.spec.payload| <= 65536
  }

  lemma FitsIsEncodable(schedule: NewSchedule)
    ensures Encodable(schedule) <==> Fits(schedule)
  {
  }

  /** Fewer rows than the cap have not ended. */
  ghost predicate BelowCap(t: Table, cap: Option<nat>) {
    cap.Some? ==> |set id | id in t.rows && t.rows[id].endedAt.None?| < cap.value
  }

  lemma BelowCapHasRoom(t: Table, cap: Option<nat>)
    requires Valid(t)
    ensures HasRoom(t, cap) <==> BelowCap(t, cap)
  {
    ActiveCountIsSize(t);
    assert ActiveIds(t) == set id | id in t.rows && t.rows[id].endedAt.None?;
  }

  /** The row of a name keeps its id; a new name gets the next one. */
  ghost predicate TakesId(t: Table, after: Table, row: Schedule) {
    if row.id in t.rows then t.rows[row.id].spec.name == row.spec.name && after.lastId == t.lastId
    else row.id == t.lastId + 1 == after.lastId
  }

  /**
   `replace_and_set_enabled` refuses flags that name its own schedule, then a full
   table unless the name is active, then a name that has run out of ids or
   generations; it writes nothing exactly when another listed name is not active.
   */
  lemma ReplaceRefusesExactly(t: Table, cap: Option<nat>, schedule: NewSchedule, enabled: bool, createdAt: int,
                              flags: Flags)
    requires Valid(t) && ValidNew(schedule)
    ensures var name := schedule.spec.name;
            var reply := Exec(t, cap, ReplaceAndSetEnabled(schedule, enabled, createdAt, flags)).1;
            var accepted := Fits(schedule) && forall i :: 0 <= i < |flags| ==> flags[i].0 != name;
            var placed := accepted && (HasActive(t, name) || BelowCap(t, cap));
            && (reply == Rejected(InvalidSpec) <==> !accepted)
            && (reply == Rejected(RowLimit) <==> accepted && !placed)
            && (reply == Rejected(IdsExhausted) <==> placed && IdsSpent(t, name))
            && (reply == Rejected(GenerationExhausted) <==> placed && GenerationsSpent(t, name))
            && (reply == NothingWritten <==> placed && !Exhausted(t, name) && !AllActive(t, flags))
            && (reply.Written? <==> placed && !Exhausted(t, name) && AllActive(t, flags))
  {
    hide Encodable, ValidNew, HasRoom, SetFlags, LastFlag, WriteReplacement, Fits, BelowCap;
    FitsIsEncodable(schedule);
    BelowCapHasRoom(t, cap);
    var name := schedule.spec.name;
    if Encodable(schedule) && forall i :: 0 <= i < |flags| ==> flags[i].0 != name {
      ReplacementRefusesExactly(t, cap, schedule, enabled, createdAt);
      var (written, first) := WriteReplacement(t, cap, schedule, enabled, createdAt);
      if first.Written? {
        WriteReplacementEffect(t, cap, schedule, enabled, createdAt);
        WriteReplacementKeepsValid(t, cap, schedule, enabled, createdAt);
        SetFlagsAllOrNothing(written, flags);
        OthersStayActive(t, written, flags, name, first.row);
      }
    }
  }

  /** The one-row part of a replace is written unless there is no room, no id or no generation left. */
  lemma ReplacementRefusesExactly(t: Table, cap: Option<nat>, schedule: NewSchedule, enabled: bool, createdAt: int)
    requires Valid(t) && ValidNew(schedule)
    ensures var name := schedule.spec.name;
            var reply := WriteReplacement(t, cap, schedule, enabled, createdAt).1;
            var placed := HasActive(t, name) || HasRoom(t, cap);
            && (reply == Rejected(RowLimit) <==> !placed)
            && (reply == Rejected(IdsExhausted) <==> placed && IdsSpent(t, name))
            && (reply == Rejected(GenerationExhausted) <==> placed && GenerationsSpent(t, name))
            && (reply.Written? <==> placed && !Exhausted(t, name))
            && (reply.Written? || reply.Rejected?)
  {
    hide ValidNew, HasRoom;
    FoundIsUnique(t, schedule.spec.name);
  }

  /** Flags of other names find the same names active before and after one row is written. */
  lemma OthersStayActive(t: Table, written: Table, flags: Flags, name: string, row: Schedule)
    requires written.rows == t.rows[row.id := row] && (row.id in t.rows ==> t.rows[row.id].spec.name == name)
    requires row.spec.name == name && forall i :: 0 <= i < |flags| ==> flags[i].0 != name
    ensures AllActive(t, flags) <==> AllActive(written, flags)
  {
    forall i | 0 <= i < |flags| ensures HasActive(t, flags[i].0) <==> HasActive(written, flags[i].0) {
      if id :| id in t.rows && t.rows[id].spec.name == flags[i].0 && t.rows[id].IsActive() {
        assert id in written.rows && written.rows[id] == t.rows[id];
      }
      if id :| id in written.rows && written.rows[id].spec.name == flags[i].0 && written.rows[id].IsActive() {
        assert id in t.rows && written.rows[id] == t.rows[id];
      }
    }
  }

  /**
   `create` refuses an active name, then a full table, then a name that has run out of
   ids or generations; a new or ended name starts anew and no other row changes.
   */
  lemma CreateAllOrNothing(t: Table, cap: Option<nat>, schedule: NewSchedule, createdAt: int)
    requires Valid(t) && ValidNew(schedule)
    ensures var (after, reply) := Exec(t, cap, Create(schedule, createdAt));
            && (reply == Rejected(InvalidSpec) <==> !Fits(schedule))
            && (reply == Rejected(AlreadyActive) <==> Fits(schedule) && HasActive(t, schedule.spec.name))
            && (reply == Rejected(RowLimit) <==>
                Fits(schedule) && !HasActive(t, schedule.spec.name) && !BelowCap(t, cap))
            && var placed := Fits(schedule) && !HasActive(t, schedule.spec.name) && BelowCap(t, cap);
            && (reply == Rejected(IdsExhausted) <==> placed && IdsSpent(t, schedule.spec.name))
            && (reply == Rejected(GenerationExhausted) <==> placed && GenerationsSpent(t, schedule.spec.name))
            && (reply.Written? <==> placed && !Exhausted(t, schedule.spec.name))
            && (if reply.Written?
                then && after.rows == t.rows[reply.row.id := reply.row]
                     && reply.row.spec == schedule.spec && reply.row.enabled
                     && StartsAnew(reply.row, schedule, createdAt)
                     && reply.row.generation ==
                        (if reply.row.id in t.rows then t.rows[reply.row.id].generation + 1 else 1)
                     && TakesId(t, after, reply.row)
                else after == t)
  {
    hide Encodable, ValidNew, HasRoom, Fits, BelowCap;
    FitsIsEncodable(schedule);
    BelowCapHasRoom(t, cap);
    FoundIsUnique(t, schedule.spec.name);
    CreateIsReplaceOfEnded(t, cap, schedule, createdAt);
    WriteReplacementEffect(t, cap, schedule, true, createdAt);
  }

  lemma {:induction false} UnlistedFlag(flags: Flags, name: string, was: bool)
    requires forall i :: 0 <= i < |flags| ==> flags[i].0 != name
    ensures LastFlag(flags, name, was) == was
    decreases |flags|
  {
    if flags != [] {
      UnlistedFlag(flags[1..], name, was);
    }
  }

  /** At most one active schedule among `names` is enabled. */
  ghost predicate AtMostOneEnabled(t: Table, names: set<string>) {
    forall a, b :: (a in t.rows && b in t.rows && EnabledAmong(t.rows[a], names) && EnabledAmong(t.rows[b], names))
                   ==> a == b
  }

  predicate EnabledAmong(row: Schedule, names: set<string>) {
    row.IsActive() && row.enabled && row.spec.name in names
  }

  /**
   A replace that disables the caller's other active schedules leaves at most one
   of them enabled, whatever was enabled before; a refused one changes nothing.
   */
  lemma ReplaceKeepsOneEnabled(t: Table, cap: Option<nat>, schedule: NewSchedule, enabled: bool, createdAt: int,
                              flags: Flags, names: set<string>)
    requires Valid(t) && ValidNew(schedule)
    requires forall id :: id in t.rows && t.rows[id].IsActive() && t.rows[id].spec.name in names
                          && t.rows[id].spec.name != schedule.spec.name
                          ==> !LastFlag(flags, t.rows[id].spec.name, true)
    ensures var (after, reply) := Exec(t, cap, ReplaceAndSetEnabled(schedule, enabled, createdAt, flags));
            if reply.Written? then AtMostOneEnabled(after, names) else after == t
  {
    ReplaceAllOrNothing(t, cap, schedule, enabled, createdAt, flags);
    var (after, reply) := Exec(t, cap, ReplaceAndSetEnabled(schedule, enabled, createdAt, flags));
    if reply.Written? {
      FoundIsUnique(t, schedule.spec.name);
      forall id | id in after.rows && EnabledAmong(after.rows[id], names) ensures id == reply.row.id {
        if id != reply.row.id {
          FlagMonotone(flags, t.rows[id].spec.name, t.rows[id].enabled);
          assert false;
        }
      }
    }
  }

  lemma {:induction false} FlagMonotone(flags: Flags, name: string, was: bool)
    ensures LastFlag(flags, name, was) ==> LastFlag(flags, name, true)
    decreases |flags|
  {
    if flags != [] {
      if flags[0].0 != name {
        FlagMonotone(flags[1..], name, was);
      }
    }
  }

  // ------------------------------------------------------------------
  // Fencing
  // ------------------------------------------------------------------

  /** The generation of `id` has moved past `generation`, or that generation has ended. */
  ghost predicate Superseded(t: Table, id: nat, generation: nat) {
    id in t.rows && (t.rows[id].generation > generation
                     || (t.rows[id].generation == generation && !t.rows[id].IsActive()))
  }

  /** A run-state write that names a generation. */
  predicate Names(c: Command, id: nat, generation: nat) {
    match c
    case RecordRun(i, g, _, _) => i == id && g == generation
    case SetNext(i, g, _) => i == id && g == generation
    case Stop(i, g, _, _) => i == id && g == generation
    case Disable(i, g, _, _) => i == id && g == generation
    case _ => false
  }

  /** How one call may change the row of `id`: not at all, in place, or by one rewrite. */
  ghost predicate RowStep(before: Schedule, after: Schedule, rewritten: bool) {
    && after.spec.name == before.spec.name
    && after.generation == before.generation + (if rewritten then 1 else 0)
    && (!rewritten ==> (before.IsActive() || after == before) && after.spec == before.spec)
  }

  predicate Rewrites(reply: Reply, id: nat) {
    reply.Written? && reply.row.id == id
  }

  /** No call removes a row, renames one or lowers a generation; only a restart or replace raises it, by one. */
  lemma ExecSteps(t: Table, cap: Option<nat>, c: Command, id: nat)
    requires Valid(t) && ValidCommand(c) && id in t.rows
    ensures var (after, reply) := Exec(t, cap, c);
            id in after.rows && RowStep(t.rows[id], after.rows[id], Rewrites(reply, id))
  {
    match c {
      case Create(schedule, createdAt) => CreateSteps(t, cap, schedule, createdAt, id);
      case ReplaceAndSetEnabled(schedule, enabled, createdAt, flags) =>
        ReplaceSteps(t, cap, schedule, enabled, createdAt, flags, id);
      case SetEnabledMany(flags) =>
        SetFlagsAllOrNothing(t, flags);
        FlagSteps(t.rows[id], flags);
      case SetEnabled(name, enabled) =>
        SetFlagEffect(t, name, enabled);
        FlagSteps(t.rows[id], [(name, enabled)]);
      case _ => GuardedSteps(t, cap, c, id);
    }
  }

  lemma FlagSteps(row: Schedule, flags: Flags)
    ensures RowStep(row, WithFlag(row, flags), false)
  {
  }

  lemma CreateSteps(t: Table, cap: Option<nat>, schedule: NewSchedule, createdAt: int, id: nat)
    requires Valid(t) && ValidNew(schedule) && id in t.rows
    ensures var (after, reply) := ExecCreate(t, cap, schedule, createdAt);
            id in after.rows && RowStep(t.rows[id], after.rows[id], Rewrites(reply, id))
  {
    hide ValidNew, WriteReplacement, HasRoom;
    CreateIsReplaceOfEnded(t, cap, schedule, createdAt);
    WriteReplacementEffect(t, cap, schedule, true, createdAt);
  }

  lemma ReplaceSteps(t: Table, cap: Option<nat>, schedule: NewSchedule, enabled: bool, createdAt: int, flags: Flags,
                     id: nat)
    requires Valid(t) && ValidNew(schedule) && id in t.rows
    ensures var (after, reply) := ExecReplace(t, cap, schedule, enabled, createdAt, flags);
            id in after.rows && RowStep(t.rows[id], after.rows[id], Rewrites(reply, id))
  {
    hide Valid, ValidNew, ExecReplace;
    ReplaceAllOrNothing(t, cap, schedule, enabled, createdAt, flags);
    FlagSteps(t.rows[id], flags);
  }

  lemma GuardedSteps(t: Table, cap: Option<nat>, c: Command, id: nat)
    requires id in t.rows && (c.RecordRun? || c.SetNext? || c.Stop? || c.Disable?)
    ensures var (after, reply) := Exec(t, cap, c);
            id in after.rows && RowStep(t.rows[id], after.rows[id], Rewrites(reply, id))
  {
  }

  ghost predicate ValidCommands(commands: seq<Command>) {
    forall i :: 0 <= i < |commands| ==> ValidCommand(commands[i])
  }

  /** How many of the calls rewrote the row of `id`. */
  ghost function Rewritten(t: Table, cap: Option<nat>, commands: seq<Command>, id: nat): nat
    decreases |commands|
  {
    if commands == [] then 0
    else
      var (next, reply) := Exec(t, cap, commands[0]);
      (if Rewrites(reply, id) then 1 else 0) + Rewritten(next, cap, commands[1..], id)
  }

  /** Over any history, an id keeps its name and its generation rises by one per restart or replace. */
  lemma {:induction false} GenerationCountsRewrites(t: Table, cap: Option<nat>, commands: seq<Command>, id: nat)
    requires Valid(t) && ValidCommands(commands) && id in t.rows
    ensures var after := ExecAll(t, cap, commands);
            && Valid(after) && id in after.rows
            && after.rows[id].spec.name == t.rows[id].spec.name
            && after.rows[id].generation == t.rows[id].generation + Rewritten(t, cap, commands, id)
    decreases |commands|
  {
    if commands != [] {
      ExecSteps(t, cap, commands[0], id);
      ExecKeepsValid(t, cap, commands[0]);
      GenerationCountsRewrites(Exec(t, cap, commands[0]).0, cap, commands[1..], id);
    }
  }

  lemma SupersededStays(t: Table, cap: Option<nat>, c: Command, id: nat, generation: nat)
    requires Valid(t) && ValidCommand(c) && Superseded(t, id, generation)
    ensures Superseded(Exec(t, cap, c).0, id, generation)
  {
    ExecSteps(t, cap, c, id);
  }

  /** Once superseded or ended, a generation is fenced after every further sequence of calls. */
  lemma {:induction false} FencedForever(t: Table, cap: Option<nat>, commands: seq<Command>, write: Command, id: nat,
                                         generation: nat)
    requires Valid(t) && ValidCommands(commands)
    requires Superseded(t, id, generation) && Names(write, id, generation)
    ensures var later := ExecAll(t, cap, commands);
            Exec(later, cap, write) == (later, Changed(false))
    decreases |commands|
  {
    if commands != [] {
      SupersededStays(t, cap, commands[0], id, generation);
      ExecKeepsValid(t, cap, commands[0]);
      FencedForever(Exec(t, cap, commands[0]).0, cap, commands[1..], write, id, generation);
    }
  }

  /** A stop, and a restart or replace, supersede the generation they act on. */
  lemma StopAndRewriteSupersede(t: Table, cap: Option<nat>, c: Command, id: nat)
    requires Valid(t) && ValidCommand(c) && id in t.rows
    ensures var (after, reply) := Exec(t, cap, c);
            (Rewrites(reply, id) || (c.Stop? && c.id == id && reply == Changed(true)))
            ==> Superseded(after, id, t.rows[id].generation)
  {
    ExecSteps(t, cap, c, id);
  }

  // ------------------------------------------------------------------
  // Disabled schedules
  // ------------------------------------------------------------------

  /** The call can set the flag of this name, or write its row anew. */
  ghost predicate MayEnable(c: Command, name: string) {
    match c
    case SetEnabled(listed, enabled) => listed == name && enabled
    case SetEnabledMany(flags) => (name, true) in flags
    case Create(schedule, _) => schedule.spec.name == name
    case ReplaceAndSetEnabled(schedule, _, _, flags) => schedule.spec.name == name || (name, true) in flags
    case _ => false
  }

  /** The generation is superseded, ended or disabled. */
  ghost predicate Off(t: Table, id: nat, generation: nat) {
    Superseded(t, id, generation) || (id in t.rows && t.rows[id].generation == generation && !t.rows[id].enabled)
  }

  lemma {:induction false} NoTrueFlag(flags: Flags, name: string)
    requires (name, true) !in flags
    ensures !LastFlag(flags, name, false)
    decreases |flags|
  {
    if flags != [] {
      assert flags[0] in flags;
      NoTrueFlag(flags[1..], name);
    }
  }

  lemma DisabledRowStays(t: Table, cap: Option<nat>, c: Command, id: nat)
    requires Valid(t) && ValidCommand(c) && id in t.rows && !t.rows[id].enabled
    requires !MayEnable(c, t.rows[id].spec.name)
    ensures id in Exec(t, cap, c).0.rows && !Exec(t, cap, c).0.rows[id].enabled
  {
    match c {
      case Create(schedule, createdAt) =>
        CreateIsReplaceOfEnded(t, cap, schedule, createdAt);
        WriteReplacementEffect(t, cap, schedule, true, createdAt);
      case ReplaceAndSetEnabled(schedule, enabled, createdAt, flags) =>
        ReplaceAllOrNothing(t, cap, schedule, enabled, createdAt, flags);
        NoTrueFlag(flags, t.rows[id].spec.name);
      case SetEnabledMany(flags) =>
        SetFlagsAllOrNothing(t, flags);
        NoTrueFlag(flags, t.rows[id].spec.name);
      case SetEnabled(name, enabled) =>
        SetFlagEffect(t, name, enabled);
        OneFlag((name, enabled), t.rows[id].spec.name, false);
      case _ =>
    }
  }

  lemma OffStays(t: Table, cap: Option<nat>, c: Command, id: nat, generation: nat)
    requires Valid(t) && ValidCommand(c) && Off(t, id, generation) && !MayEnable(c, t.rows[id].spec.name)
    ensures Off(Exec(t, cap, c).0, id, generation)
  {
    if Superseded(t, id, generation) {
      SupersededStays(t, cap, c, id, generation);
    } else {
      DisabledRowStays(t, cap, c, id);
      ExecSteps(t, cap, c, id);
    }
  }

  /**
   Once a generation is disabled every `set_next` for it is refused, and so every
   launch, in any history until some call enables its name or writes its row anew.
   */
  lemma {:induction false} DisabledIsNotRun(t: Table, cap: Option<nat>, commands: seq<Command>, id: nat,
                                            generation: nat, next: int)
    requires Valid(t) && ValidCommands(commands) && Off(t, id, generation)
    requires forall i :: 0 <= i < |commands| ==> !MayEnable(commands[i], t.rows[id].spec.name)
    ensures var later := ExecAll(t, cap, commands);
            Exec(later, cap, SetNext(id, generation, next)) == (later, Changed(false))
    decreases |commands|
  {
    if commands != [] {
      var after := Exec(t, cap, commands[0]).0;
      OffStays(t, cap, commands[0], id, generation);
      ExecKeepsValid(t, cap, commands[0]);
      ExecSteps(t, cap, commands[0], id);
      DisabledIsNotRun(after, cap, commands[1..], id, generation, next);
    }
  }

  /** An answered disable, by the worker or by name, turns the generation off. */
  lemma DisableTurnsOff(t: Table, cap: Option<nat>, id: nat, generation: nat, at: int, reason: string)
    requires Valid(t) && Current(t, id, generation)
    ensures var (after, reply) := Exec(t, cap, Disable(id, generation, at, reason));
            reply == Changed(true) && Off(after, id, generation)
    ensures var (after, reply) := Exec(t, cap, SetEnabled(t.rows[id].spec.name, false));
            reply == Changed(true) && Off(after, id, generation)
  {
    var name := t.rows[id].spec.name;
    FoundIsUnique(t, name);
    assert HasActive(t, name);
    SetFlagEffect(t, name, false);
    OneFlag((name, false), name, t.rows[id].enabled);
  }

  /** Each guarded write changes its own columns of the one row it names, and only when it is the active generation. */
  lemma GuardedWritesOwnColumns(t: Table, cap: Option<nat>, c: Command)
    requires Valid(t) && (c.RecordRun? || c.SetNext? || c.Stop? || c.Disable?)
    ensures var (after, reply) := Exec(t, cap, c);
            && (reply == Changed(true) <==> Current(t, c.id, c.generation) && (c.SetNext? ==> t.rows[c.id].enabled))
            && (reply != Changed(true) ==> after == t && reply == Changed(false))
            && (reply == Changed(true) ==>
                after.rows.Keys == t.rows.Keys && OwnColumns(t.rows[c.id], after.rows[c.id], c)
                                           && forall id :: id in t.rows && id != c.id ==> after.rows[id] == t.rows[id])
  {
  }

  /** A row before and after one guarded write: identity and specification stay, each other column has its writers. */
  predicate OwnColumns(row: Schedule, after: Schedule, c: Command) {
    && after.id == row.id && after.generation == row.generation && after.spec == row.spec
    && after.jitter == row.jitter && after.createdAt == row.createdAt
    && after.nextRunAt == (if c.SetNext? then Some(c.nextRunAt) else if c.Stop? then None else row.nextRunAt)
    && (if c.Stop? then after.endedAt == Some(c.at) && after.stopReason == Some(c.reason)
        else after.endedAt == row.endedAt && after.stopReason == row.stopReason)
    && (if c.RecordRun? then after.lastRunAt == Some(c.at) && after.lastOutcome == Some(c.outcome)
        else if c.Disable? then after.lastRunAt == Some(c.at) && after.lastOutcome == Some(Refused(c.reason))
        else after.lastRunAt == row.lastRunAt && after.lastOutcome == row.lastOutcome)
    && after.enabled == (row.enabled && !c.Disable?)
  }

  // ------------------------------------------------------------------
  // The row cap
  // ------------------------------------------------------------------

  function Max(a: nat, b: nat): nat { if a >= b then a else b }

  lemma SubsetSize<T>(a: set<T>, b: set<T>)
    requires a <= b
    ensures |a| <= |b|
  {
    assert b == a + (b - a);
  }

  /** The active rows after a call: at most one more, and then only with room. */
  lemma ExecActiveIds(t: Table, cap: Option<nat>, c: Command)
    requires Valid(t) && ValidCommand(c)
    ensures var (after, reply) := Exec(t, cap, c);
            || ActiveIds(after) <= ActiveIds(t)
            || (reply.Written? && HasRoom(t, cap) && ActiveIds(after) <= ActiveIds(t) + {reply.row.id})
  {
    match c {
      case Create(schedule, createdAt) => FoundIsUnique(t, schedule.spec.name);
      case ReplaceAndSetEnabled(schedule, enabled, createdAt, flags) =>
        ReplaceActiveIds(t, cap, schedule, enabled, createdAt, flags);
      case SetEnabledMany(flags) =>
        SetFlagsAllOrNothing(t, flags);
        FlagsKeepActiveIds(t, flags);
      case SetEnabled(name, enabled) =>
      case RecordRun(_, _, _, _) =>
      case SetNext(_, _, _) =>
      case Stop(_, _, _, _) =>
      case Disable(_, _, _, _) =>
    }
  }

  lemma FlagsKeepActiveIds(t: Table, flags: Flags)
    requires Valid(t)
    ensures SetFlags(t, flags).Some? ==> ActiveIds(SetFlags(t, flags).value) == ActiveIds(t)
  {
    SetFlagsAllOrNothing(t, flags);
    if SetFlags(t, flags).Some? {
      var after := SetFlags(t, flags).value;
      forall id | id in t.rows ensures after.rows[id].IsActive() == t.rows[id].IsActive() {
        assert after.rows[id] == WithFlag(t.rows[id], flags);
      }
    }
  }

  lemma ReplaceActiveIds(t: Table, cap: Option<nat>, schedule: NewSchedule, enabled: bool, createdAt: int, flags: Flags)
    requires Valid(t) && ValidNew(schedule)
    ensures var (after, reply) := Exec(t, cap, ReplaceAndSetEnabled(schedule, enabled, createdAt, flags));
            || ActiveIds(after) <= ActiveIds(t)
            || (reply.Written? && HasRoom(t, cap) && ActiveIds(after) <= ActiveIds(t) + {reply.row.id})
  {
    var (after, reply) := Exec(t, cap, ReplaceAndSetEnabled(schedule, enabled, createdAt, flags));
    if reply.Written? {
      WriteReplacementEffect(t, cap, schedule, enabled, createdAt);
      WriteReplacementKeepsValid(t, cap, schedule, enabled, createdAt);
      FlagsKeepActiveIds(WriteReplacement(t, cap, schedule, enabled, createdAt).0, flags);
    }
  }

  lemma ExecWithinCap(t: Table, limit: nat, c: Command)
    requires Valid(t) && ValidCommand(c)
    ensures ActiveCount(Exec(t, Some(limit), c).0) <= Max(ActiveCount(t), limit)
  {
    var (after, reply) := Exec(t, Some(limit), c);
    ExecKeepsValid(t, Some(limit), c);
    ExecActiveIds(t, Some(limit), c);
    ActiveCountIsSize(t);
    ActiveCountIsSize(after);
    if ActiveIds(after) <= ActiveIds(t) {
      SubsetSize(ActiveIds(after), ActiveIds(t));
    } else {
      SubsetSize(ActiveIds(after), ActiveIds(t) + {reply.row.id});
    }
  }

  /** Over any history the rows that have not ended stay within the larger of the cap and where they began. */
  lemma {:induction false} CapHoldsForever(t: Table, limit: nat, commands: seq<Command>)
    requires Valid(t) && ValidCommands(commands)
    ensures ActiveCount(ExecAll(t, Some(limit), commands)) <= Max(ActiveCount(t), limit)
    decreases |commands|
  {
    if commands != [] {
      ExecWithinCap(t, limit, commands[0]);
      ExecKeepsValid(t, Some(limit), commands[0]);
      CapHoldsForever(Exec(t, Some(limit), commands[0]).0, limit, commands[1..]);
    }
  }
}
