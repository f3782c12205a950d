/**
 What the first round of a worker launches when nothing stands in its way
 (crates/sc-cron/src/worker.rs): no other process writes, no call fails, no name
 is held, no launch is refused and no stop comes before the round is over.
 */
module WorkerFirstRound {
  import opened Options
  import opened Expr
  import opened Types
  import opened ScheduleTable
  import opened StoreHistory
  import StoreReads
  import opened WorkerState
  import opened WorkerWorld
  import opened WorkerReload
  import opened WorkerLaunch
  import opened WorkerRounds

  ghost predicate Calm(world: World) {
    world.Undisturbed() && !world.MayFail() && !world.MayHold() && !world.MayRefuse()
  }

  lemma CalmTurn(world: World, place: int)
    requires Calm(world)
    ensures world.TurnAt(place).answer.Served?
  {
  }

  /** The writes account for one table only. */
  lemma SameWritesSameTable(world: World, writes: seq<Attempt>, a: Table, b: Table)
    requires world.Undisturbed() && world.Accounts(writes, a) && world.Accounts(writes, b)
    ensures a == b
  {
    hide World.Honest;
  }

  // ------------------------------------------------------------------
  // Writes to other rows
  // ------------------------------------------------------------------

  /** The call is fenced and of another row. */
  predicate Elsewhere(c: Command, id: nat) {
    Guarded(c) && c.id != id
  }

  predicate AllElsewhere(writes: seq<Attempt>, id: nat) {
    forall i :: 0 <= i < |writes| ==> Elsewhere(writes[i].call, id)
  }

  /** A write to another row leaves this one. */
  lemma OtherRowStays(world: World, w: Attempt, id: nat)
    requires world.Honest(w) && Elsewhere(w.call, id) && id in w.met.rows
    ensures id in TableOf(world.cap, w).rows && TableOf(world.cap, w).rows[id] == w.met.rows[id]
  {
  }

  /** Writes to other rows, from the one after the first `since`, leave the row for the next write to meet. */
  lemma {:induction false} MetAsLeft(world: World, writes: seq<Attempt>, last: Table, since: nat, t: Table, n: nat,
                                     id: nat)
    requires world.Undisturbed() && world.Accounts(writes, last) && since <= n < |writes|
    requires world.Accounts(writes[..since], t) && id in t.rows
    requires forall i :: since <= i < n ==> Elsewhere(writes[i].call, id)
    ensures id in writes[n].met.rows && writes[n].met.rows[id] == t.rows[id]
    decreases n
  {
    hide Exec, World.Honest;
    if n == since {
      assert n > 0 ==> writes[..since][since - 1] == writes[n - 1];
    } else {
      MetAsLeft(world, writes, last, since, t, n - 1, id);
      OtherRowStays(world, writes[n - 1], id);
    }
  }

  // ------------------------------------------------------------------
  // No run to time out
  // ------------------------------------------------------------------

  predicate AllIdle(slots: seq<Slot>) {
    forall j :: 0 <= j < |slots| ==> slots[j].run.None?
  }

  /** Looking at idle slots changes nothing. */
  lemma {:induction false} IdleSlotsStay(slots: seq<Slot>, expiries: seq<Expiry>)
    requires AllIdle(slots) && |expiries| <= |slots|
    requires forall k :: 0 <= k < |expiries| ==> ExpiredAs(slots[k], expiries[k])
    ensures Survivors(expiries) == slots[..|expiries|] && Requests(expiries) == []
  {
    if expiries != [] {
      var n := |expiries| - 1;
      IdleSlotsStay(slots, expiries[..n]);
      assert ExpiredAs(slots[n], expiries[n]);
      assert slots[..n] + [slots[n]] == slots[..|expiries|];
    }
  }

  // ------------------------------------------------------------------
  // One decision among those of a pass
  // ------------------------------------------------------------------

  /** What one decision asked for and launched stands among what all of them did. */
  lemma {:induction false} AmongAll(decisions: seq<Decision>, k: nat)
    requires k < |decisions|
    ensures WorkerLaunch.Written(decisions[..k]) + decisions[k].writes <= WorkerLaunch.Written(decisions)
    ensures Launched(decisions[..k]) + decisions[k].launched <= Launched(decisions)
  {
    var n := |decisions| - 1;
    if k < n {
      AmongAll(decisions[..n], k);
      assert decisions[..n][..k] == decisions[..k];
    }
  }

  /** The decisions for slots of other ids write to other rows. */
  lemma {:induction false} WritesElsewhere(slots: seq<Slot>, decisions: seq<Decision>, since: nat, now: int,
                                           policy: MissedTickPolicy, marks: Marks, n: nat, id: nat)
    requires AllDealt(slots, decisions, since, now, policy, marks) && n <= |decisions|
    requires forall k :: 0 <= k < n ==> slots[k].schedule.id != id
    ensures AllElsewhere(WorkerLaunch.Written(decisions[..n]), id)
  {
    hide Launched;
    if n > 0 {
      WritesElsewhere(slots, decisions, since, now, policy, marks, n - 1, id);
      assert DealtAt(slots, decisions, n - 1, since, now, policy, marks);
      assert decisions[..n][..n - 1] == decisions[..n - 1];
      DecisionWrites(slots[n - 1], decisions[n - 1], since + |Launched(decisions[..n - 1])|, now, policy, marks, id);
    }
  }

  lemma DecisionWrites(slot: Slot, d: Decision, key: nat, now: int, policy: MissedTickPolicy, marks: Marks, id: nat)
    requires Dealt(slot, d, key, now, policy, marks) && slot.schedule.id != id
    ensures AllElsewhere(d.writes, id)
  {
    hide NextRun;
  }

  // ------------------------------------------------------------------
  // A due slot in a calm world
  // ------------------------------------------------------------------

  /** A launch of this occurrence of this row. */
  predicate IsLaunchOf(launch: Launch, row: Schedule) {
    row.nextRunAt.Some? && launch.id == row.id && launch.generation == row.generation
    && launch.due == row.nextRunAt.value
  }

  /** The row has come due, and the policy does not drop what was missed. */
  ghost predicate ToBeLaunched(row: Schedule, now: int, policy: MissedTickPolicy) {
    && row.nextRunAt.Some? && row.nextRunAt.value <= now
    && (policy.Coalesce? || NothingMissed(Slot(row, row.nextRunAt, None), now))
  }

  /** A `set_next` that met its row current and enabled, in a world where no call fails, permits the launch. */
  lemma StoredPermits(world: World, w: Attempt, row: Schedule, next: int)
    requires !world.MayFail() && world.Honest(w) && w.call == SetNext(row.id, row.generation, next)
    requires row.id in w.met.rows && w.met.rows[row.id] == row && row.id <= I64_MAX && row.IsActive() && row.enabled
    ensures w.result == Replied(true)
  {
  }

  /** The pass launches an idle due slot whose row is in the table as the slot has it. */
  lemma DueSlotIsLaunched(world: World, before: Trail, t: Table, decisions: seq<Decision>, after: Trail, last: Table,
                          now: int, policy: MissedTickPolicy, marks: Marks, j: nat, row: Schedule)
    requires Calm(world) && AllWarranted(world, decisions)
    requires PassDone(before, decisions, after, now, policy, marks) && !marks.stopping && IdsDistinct(before.slots)
    requires world.Accounts(before.writes, t) && world.Accounts(after.writes, last)
    requires j < |before.slots| && before.slots[j] == Slot(row, row.nextRunAt, None) && ToBeLaunched(row, now, policy)
    requires row.id in t.rows && t.rows[row.id] == row && row.id <= I64_MAX && row.IsActive() && row.enabled
    ensures exists k :: |before.launches| <= k < |after.launches| && IsLaunchOf(after.launches[k], row)
  {
    hide NextRun, World.Accounts, World.Undisturbed, World.MayFail, NothingMissed, Launched, WorkerLaunch.Written, Left;
    var slot, d := before.slots[j], decisions[j];
    assert Warranted(world, d);
    AmongAll(decisions, j);
    assert DealtAt(before.slots, decisions, j, |before.launches|, now, policy, marks);
    PermitsDue(world, before, t, decisions, after, last, now, policy, marks, j, row);
    assert PolicyKept(slot, d, now, policy);
    var k := |before.launches| + |Launched(decisions[..j])|;
    assert Launched(decisions)[|Launched(decisions[..j])|] == d.launched[0];
    assert after.launches[k] == d.launched[0];
  }

  lemma PermitsDue(world: World, before: Trail, t: Table, decisions: seq<Decision>, after: Trail, last: Table, now: int,
                   policy: MissedTickPolicy, marks: Marks, j: nat, row: Schedule)
    requires Calm(world) && PassDone(before, decisions, after, now, policy, marks) && IdsDistinct(before.slots)
    requires world.Accounts(before.writes, t) && world.Accounts(after.writes, last)
    requires j < |decisions| && before.slots[j] == Slot(row, row.nextRunAt, None) && DueAt(before.slots[j], now)
    requires !decisions[j].held
    requires row.id in t.rows && t.rows[row.id] == row && row.id <= I64_MAX && row.IsActive() && row.enabled
    ensures Permits(StoredBy(before.slots[j], now, decisions[j].writes))
  {
    hide NextRun, Launched, Left, NothingDue, PolicyKept, WorkerLaunch.Written, Exec, Chained;
    var slot, d := before.slots[j], decisions[j];
    assert DealtAt(before.slots, decisions, j, |before.launches|, now, policy, marks);
    if NextOf(slot, now).Some? {
      AmongAll(decisions, j);
      WritesElsewhere(before.slots, decisions, |before.launches|, now, policy, marks, j, row.id);
      var since := |before.writes|;
      var n := since + |WorkerLaunch.Written(decisions[..j])|;
      assert after.writes[..since] == before.writes;
      assert after.writes[n] == d.writes[0];
      forall i | since <= i < n ensures Elsewhere(after.writes[i].call, row.id) {
        assert after.writes[i] == WorkerLaunch.Written(decisions[..j])[i - since];
      }
      MetAsLeft(world, after.writes, last, since, t, n, row.id);
      StoredPermits(world, after.writes[n], row, Stamp(NextOf(slot, now).value));
    }
  }

  // ------------------------------------------------------------------
  // The first round
  // ------------------------------------------------------------------

  /** A readable row of the table the worker begins over, active and enabled, that has come due when it serves. */
  ghost predicate DueAtFirst(world: World, policy: MissedTickPolicy, begun: View, round: Round, id: nat) {
    && id in begun.table.rows && id !in world.TurnAt(round.retried.place + 1).unreadable
    && begun.table.rows[id].IsActive() && begun.table.rows[id].enabled
    && ToBeLaunched(begun.table.rows[id], round.served, policy)
  }

  /** A new worker's first reload finds the table as it is, and has a slot for each enabled active row. */
  lemma FirstReload(world: World, policy: MissedTickPolicy, reloadPoll: int, past: Past, begun: View, round: Round,
                    wake: Option<int>, rested: View, id: nat)
    requires Calm(world) && Valid(begun.table) && Begins(past, begun) && wake.Some?
    requires RoundDone(world, policy, reloadPoll, begun, round, wake, rested)
    requires DueAtFirst(world, policy, begun, round, id)
    ensures round.merged.table == begun.table && round.merged.writes == begun.writes
    ensures round.merged.launches == begun.launches && !round.passed.marks.stopping
    ensures AllIdle(round.merged.slots) && IdsDistinct(round.merged.slots)
    ensures var row := begun.table.rows[id];
            exists j :: 0 <= j < |round.merged.slots| && round.merged.slots[j] == Slot(row, row.nextRunAt, None)
  {
    hide World.Accounts, World.Undisturbed, SlotsServed, WakesAt, NothingMissed, StoreReads.ListActive;
    CalmTurn(world, round.retried.place + 1);
    SameWritesSameTable(world, begun.writes, begun.table, round.merged.table);
    assert !round.passed.marks.stopping && !round.merged.marks.stopping by {
      NotStopping(world, policy, round);
    }
    NewSlotsAreIdle(round.rows.value, round.merged.slots, round.merged.marks);
    ListedSlot(begun.table, world.TurnAt(round.retried.place + 1).unreadable, round.rows.value, round.merged.slots,
               round.merged.marks, id);
  }

  lemma NotStopping(world: World, policy: MissedTickPolicy, round: Round)
    requires SlotsServed(world, policy, round.merged, round.expiries, round.expired, round.served, round.decisions,
                         round.passed)
    ensures !round.passed.marks.stopping ==> !round.merged.marks.stopping && !round.expired.marks.stopping
  {
  }

  /** After a reload over no slots every slot is a new one. */
  lemma NewSlotsAreIdle(rows: seq<Schedule>, slots: seq<Slot>, marks: Marks)
    requires Reloaded([], rows, slots, marks)
    ensures AllIdle(slots) && IdsDistinct(slots)
  {
    hide Covered, Kept;
    forall j | 0 <= j < |slots| ensures slots[j].run.None? {
      assert Built([], rows, |rows|, slots[j]);
    }
  }

  /** Every enabled active row that was read has a slot as the row has it. */
  lemma ListedSlot(t: Table, unreadable: set<nat>, rows: seq<Schedule>, slots: seq<Slot>, marks: Marks, id: nat)
    requires Valid(t) && rows == StoreReads.ListActive(t, unreadable) && Reloaded([], rows, slots, marks)
    requires !marks.stopping && marks.pendingEnds == [] && id in t.rows && id !in unreadable
    requires t.rows[id].IsActive() && t.rows[id].enabled
    ensures exists j :: 0 <= j < |slots| && slots[j] == Slot(t.rows[id], t.rows[id].nextRunAt, None)
  {
    hide RunAborted, IdsDistinct, Kept, StoreReads.ByCreation, StoreReads.OldestFirst;
    var row := t.rows[id];
    StoreReads.ListIsActiveRows(t, unreadable, 1);
    assert row in rows;
    var k :| 0 <= k < |rows| && rows[k] == row;
    assert HasSlot(slots, row);
    var j :| 0 <= j < |slots| && SameKey(slots[j].schedule, row);
    assert Built([], rows, |rows|, slots[j]);
    var n :| 0 <= n < |rows| && rows[n].IsActive() && rows[n].enabled && rows[n] == slots[j].schedule;
    assert rows[n] in rows;
  }

  /**
   When nothing stands in its way a new worker launches, in its first round, every
   readable active enabled row that has come due.
   */
  lemma FirstRoundLaunchesTheDue(world: World, policy: MissedTickPolicy, reloadPoll: int, past: Past, begun: View,
                                 round: Round, wake: Option<int>, rested: View, id: nat)
    requires Calm(world) && Valid(begun.table) && Begins(past, begun) && wake.Some?
    requires RoundDone(world, policy, reloadPoll, begun, round, wake, rested)
    requires DueAtFirst(world, policy, begun, round, id)
    ensures exists k :: |begun.launches| <= k < |rested.launches|
                        && IsLaunchOf(rested.launches[k], begun.table.rows[id])
  {
    hide Calm, NothingMissed, PassDone, World.Accounts, Reloaded, WakesAt, IdsDistinct, Survivors, Requests;
    var row, merged, expired := begun.table.rows[id], round.merged, round.expired;
    FirstReload(world, policy, reloadPoll, past, begun, round, wake, rested, id);
    var j :| 0 <= j < |merged.slots| && merged.slots[j] == Slot(row, row.nextRunAt, None);
    NotStopping(world, policy, round);
    IdleSlotsStay(merged.slots, round.expiries);
    assert expired.slots == merged.slots && expired.writes == merged.writes;
    DueSlotIsLaunched(world, expired.Track(), begun.table, round.decisions, round.passed.Track(), rested.table,
                      round.served, policy, round.passed.marks, j, row);
  }

  // ------------------------------------------------------------------
  // In a whole life
  // ------------------------------------------------------------------

  /** A round ends with the worker stopped only if it was stopped before or a turn of the round asked for it. */
  lemma StopsOnlyWhenAsked(world: World, policy: MissedTickPolicy, reloadPoll: int, a: View, round: Round,
                           wake: Option<int>, b: View)
    requires RoundDone(world, policy, reloadPoll, a, round, wake, b)
    ensures wake.None? ==> a.marks.stopping || world.StopAsked(a.place, b.place)
  {
    hide World.Accounts, Swept, PassDone, EndingsAsked, Reloaded, WakesAt, World.TurnAt;
    if !a.marks.stopping && !world.TurnAt(a.place).stop {
      Widens(world, a.place, round.ready.place, round.retried.place, b.place);
      Widens(world, a.place, round.retried.place, round.merged.place, b.place);
      Widens(world, a.place, round.merged.place, round.expired.place, b.place);
      Widens(world, a.place, round.expired.place, round.passed.place, b.place);
      assert world.Taken(round.passed.place, a.place, b.place);
    } else {
      assert !a.marks.stopping ==> world.Taken(a.place, a.place, b.place) && world.TurnAt(a.place).stop;
    }
  }

  lemma Widens(world: World, from: int, a: int, b: int, to: int)
    requires from <= a <= b <= to <= |world.script|
    ensures world.StopAsked(a, b) ==> world.StopAsked(from, to)
  {
    if p :| world.Taken(p, a, b) && world.TurnAt(p).stop {
      assert world.Taken(p, from, to);
    }
  }

  lemma RoundGrows(world: World, policy: MissedTickPolicy, reloadPoll: int, a: View, round: Round, wake: Option<int>,
                   b: View)
    requires RoundDone(world, policy, reloadPoll, a, round, wake, b)
    ensures a.launches <= b.launches
  {
    hide World.Accounts, EndingsAsked, Reloaded, WakesAt, PassDone;
    if wake.Some? || !(a.marks.stopping || world.TurnAt(a.place).stop) {
      PassGrows(round.expired.Track(), round.decisions, round.passed.Track(), round.served, policy,
                round.passed.marks);
    }
  }

  lemma {:induction false} LapsGrow(world: World, policy: MissedTickPolicy, reloadPoll: int, laps: seq<Lap>, n: nat)
    requires n < |laps| && forall k :: 0 <= k < |laps| ==> LapDone(world, policy, reloadPoll, laps[k])
    requires forall k :: 0 < k < |laps| ==> LapFollows(laps[k - 1], laps[k])
    ensures laps[0].rested.launches <= laps[n].to.launches
    decreases n
  {
    hide RoundDone;
    assert LapDone(world, policy, reloadPoll, laps[n]);
    if n > 0 {
      LapsGrow(world, policy, reloadPoll, laps, n - 1);
      assert LapFollows(laps[n - 1], laps[n]);
      RoundGrows(world, policy, reloadPoll, laps[n].from, laps[n].round, laps[n].wake, laps[n].rested);
    }
  }

  lemma DrainedLaunchesNothing(world: World, d: Draining)
    requires Drained(world, d)
    ensures d.to.launches == d.from.launches
  {
    hide CompletionWrites, Ended, CompletedBy, ClocksWithin, AnyRunning, World.TurnAt;
  }

  lemma {:induction false} DrainLaunchesNothing(world: World, from: View, drain: seq<Draining>, to: View, n: nat)
    requires DrainedAll(world, from, drain, to) && n < |drain|
    ensures drain[n].to.launches == from.launches
    decreases n
  {
    hide Drained;
    DrainedLaunchesNothing(world, drain[n]);
    if n > 0 {
      DrainLaunchesNothing(world, from, drain, to, n - 1);
    }
  }

  /**
   A worker that is watched for a round at least, in a calm world and without a stop in
   its first round, has by the end of its life launched every readable active enabled row
   that had come due when it first served.
   */
  lemma LifeLaunchesTheDue(world: World, past: Past, life: Life, h: History, id: nat)
    requires Calm(world) && Valid(past.table) && Begins(past, h.begun) && Lived(world, life, h)
    requires life.rounds > 0 && !world.StopAsked(h.begun.place, h.laps[0].rested.place)
    requires DueAtFirst(world, life.policy, h.begun, h.laps[0].round, id)
    ensures id in past.table.rows
    ensures exists k :: |past.launches| <= k < |h.ended.launches|
                        && IsLaunchOf(h.ended.launches[k], past.table.rows[id])
  {
    hide Calm, RoundDone, NothingMissed, World.TurnAt, World.StopAsked, Drained;
    var lap := h.laps[0];
    assert LapDone(world, life.policy, PollOf(life.reloadPoll), lap);
    StopsOnlyWhenAsked(world, life.policy, PollOf(life.reloadPoll), lap.from, lap.round, lap.wake, lap.rested);
    FirstRoundLaunchesTheDue(world, life.policy, PollOf(life.reloadPoll), past, h.begun, lap.round, lap.wake,
                             lap.rested, id);
    var k :| |past.launches| <= k < |lap.rested.launches| && IsLaunchOf(lap.rested.launches[k], past.table.rows[id]);
    LapsGrow(world, life.policy, PollOf(life.reloadPoll), h.laps, |h.laps| - 1);
    if h.drain != [] {
      DrainLaunchesNothing(world, h.looped, h.drain, h.ended, |h.drain| - 1);
    }
    assert h.ended.launches[k] == lap.rested.launches[k];
  }
}
