/**
 What one launch pass makes of the slots (crates/sc-cron/src/worker.rs,
 `launch_due` and `launch_selected`), on values.
 */
module WorkerLaunch {
  import opened Options
  import opened Expr
  import opened Types
  import opened WorkerState
  import opened WorkerWorld
  import opened WorkerReload

  // ------------------------------------------------------------------
  // One due slot
  // ------------------------------------------------------------------

  predicate DueAt(slot: Slot, now: int) {
    slot.next.Some? && slot.next.value <= now
  }

  /** The first run of the slot's schedule after `now`. */
  function NextOf(slot: Slot, now: int): Option<int> {
    NextRun(slot.schedule.spec.expr, slot.schedule.jitter, now)
  }

  /** The slot at its next run. */
  function Moved(slot: Slot, now: int): Slot {
    slot.(next := NextOf(slot, now))
  }

  /** A due slot is launched unless a run of it is in flight or the policy drops missed occurrences. */
  predicate Wanted(slot: Slot, now: int, policy: MissedTickPolicy)
    requires slot.next.Some?
  {
    && slot.run.None?
    && !(policy.Skip? && Missed(slot.schedule.spec.expr, slot.schedule.jitter, slot.next.value, now))
  }

  /** Whatever the backlog, coalescing launches one run, and skipping one exactly when nothing was missed. */
  lemma PolicyDecides(slot: Slot, now: int, policy: MissedTickPolicy)
    requires DueAt(slot, now) && now <= MAX_UTC
    ensures Wanted(slot, now, policy) <==> slot.run.None? && (policy.Coalesce? || NothingMissed(slot, now))
  {
    var expr, jitter, due := slot.schedule.spec.expr, slot.schedule.jitter, slot.next.value;
    if Searchable(jitter, due) {
      MissedMeansBacklog(expr, jitter, due, now);
    }
  }

  /** The due occurrence is the only one that has come due, or lies too early to look for later ones. */
  ghost predicate NothingMissed(slot: Slot, now: int)
    requires slot.next.Some?
  {
    || |Backlog(slot.schedule.spec.expr, slot.schedule.jitter, slot.next.value, now)| == 1
    || !Searchable(slot.schedule.jitter, slot.next.value)
  }

  /** No run is past its deadline on the monotonic clock. */
  predicate NoneOverdue(slots: seq<Slot>, monotonic: int) {
    forall k :: 0 <= k < |slots| && slots[k].run.Some? ==> monotonic < slots[k].run.value.deadline
  }

  predicate AnyRunning(slots: seq<Slot>) {
    exists k :: 0 <= k < |slots| && slots[k].run.Some?
  }

  /** The slot with a run that is number `key` of the log. */
  function Started(slot: Slot, key: nat, monotonic: int): Slot {
    slot.(run := Some(InFlight(key, monotonic + slot.schedule.spec.timeout)))
  }

  /** A launch of the occurrence this slot was due for. */
  predicate LaunchedFor(launch: Launch, slot: Slot) {
    && slot.next.Some?
    && launch.id == slot.schedule.id && launch.generation == slot.schedule.generation
    && launch.due == slot.next.value
  }

  /** The store's answer to `set_next` does not refuse the launch; a run without a successor asks for none. */
  predicate Permits(stored: Option<CallResult>) {
    stored == None || stored == Some(Replied(true)) || stored == Some(CallFailed(false))
  }

  // ------------------------------------------------------------------
  // A whole pass
  // ------------------------------------------------------------------

  /**
   What a pass did with one slot: whether its name was held, the writes it asked for,
   whether the operation admitted launches, and what it launched, with the reading of the
   monotonic clock its deadline counts from, and left in place.
   */
  datatype Decision = Decision(
    held: bool,
    clock: int,
    writes: seq<Attempt>,
    admitted: bool,
    launched: seq<Launch>,
    left: seq<Slot>)

  const UNDECIDED := Decision(false, 0, [], false, [], [])

  /** How the `set_next` of a due slot came back, if there was a next run to store. */
  function StoredBy(slot: Slot, now: int, writes: seq<Attempt>): Option<CallResult> {
    if NextOf(slot, now).Some? && writes != [] then Some(writes[0].result) else None
  }

  /** What is known to stand behind the launch of a due slot. */
  predicate BackedBy(slot: Slot, now: int, writes: seq<Attempt>, backing: Backing) {
    if NextOf(slot, now).None? || writes == [] then backing.NoSuccessor?
    else if writes[0].took then backing.Stored? && backing.answered == writes[0].result.Replied?
    else backing.NotStored?
  }

  /** A due slot that is not held is launched exactly when the store, the operation and the policy allow it. */
  predicate Launches(slot: Slot, now: int, policy: MissedTickPolicy, writes: seq<Attempt>, admitted: bool)
    requires slot.next.Some?
  {
    Permits(StoredBy(slot, now, writes)) && admitted && Wanted(slot, now, policy)
  }

  /**
   A due slot dealt with: it moves to its next run, which is stored; it is launched if
   it may be; and it is removed exactly when it is idle with nothing left to run.
   */
  ghost predicate ServedAs(slot: Slot, d: Decision, key: nat, now: int, policy: MissedTickPolicy, marks: Marks)
    requires slot.next.Some?
  {
    var next := NextOf(slot, now);
    && SlotWrites(d.writes, slot.schedule, next, d.left == [])
    && (if Launches(slot, now, policy, d.writes, d.admitted)
        then |d.launched| == 1 && LaunchedFor(d.launched[0], slot)
          && BackedBy(slot, now, d.writes, d.launched[0].backing)
        else d.launched == [])
    && (if NothingLeft(slot, d.launched, now)
        then d.left == [] && OwedOrSettled(slot.schedule, marks)
        else |d.left| == 1 && MovedOn(slot, d.left[0], next, d.launched != [], key, d.clock))
  }

  /** An idle slot that has not been launched and has no next run. */
  predicate NothingLeft(slot: Slot, launched: seq<Launch>, now: int) {
    launched == [] && NextOf(slot, now).None? && slot.run.None?
  }

  /** The slot at its next run: running launch number `key`, its timeout counted from `clock`, or what it ran before. */
  predicate MovedOn(slot: Slot, after: Slot, next: Option<int>, launched: bool, key: nat, clock: int) {
    && after == slot.(next := next, run := after.run)
    && after.run == if launched then Some(InFlight(key, clock + slot.schedule.spec.timeout)) else slot.run
  }

  ghost predicate OwedOrSettled(schedule: Schedule, marks: Marks) {
    IsPending(marks.pendingEnds, schedule) || (schedule.id, schedule.generation) in marks.settled
  }

  /** A slot the pass has come to: held or not due and left alone, or served. */
  ghost predicate Dealt(slot: Slot, d: Decision, key: nat, now: int, policy: MissedTickPolicy, marks: Marks) {
    if d.held || !DueAt(slot, now)
    then d.writes == [] && d.launched == [] && d.left == [slot]
    else ServedAs(slot, d, key, now, policy, marks)
  }

  /** What the decisions so far launched, in order. */
  function Launched(decisions: seq<Decision>): seq<Launch> {
    if decisions == [] then []
    else Launched(decisions[..|decisions| - 1]) + decisions[|decisions| - 1].launched
  }

  /** The slots the decisions so far left, in order. */
  function Left(decisions: seq<Decision>): seq<Slot> {
    if decisions == [] then []
    else Left(decisions[..|decisions| - 1]) + decisions[|decisions| - 1].left
  }

  /** The writes the decisions so far asked for, in order. */
  function Written(decisions: seq<Decision>): seq<Attempt> {
    if decisions == [] then []
    else Written(decisions[..|decisions| - 1]) + decisions[|decisions| - 1].writes
  }

  /** The slot at `k` was dealt with as its decision says; `since` launches were in the log before the pass. */
  ghost predicate DealtAt(before: seq<Slot>, decisions: seq<Decision>, k: nat, since: nat, now: int,
                          policy: MissedTickPolicy, marks: Marks)
    requires k < |decisions| <= |before|
  {
    Dealt(before[k], decisions[k], since + |Launched(decisions[..k])|, now, policy, marks)
  }

  /** Each of the first slots was dealt with as its decision says. */
  ghost predicate AllDealt(before: seq<Slot>, decisions: seq<Decision>, since: nat, now: int, policy: MissedTickPolicy,
                           marks: Marks)
  {
    && |decisions| <= |before|
    && forall k :: 0 <= k < |decisions| ==> DealtAt(before, decisions, k, since, now, policy, marks)
  }

  /** What a worker's slots, log and writes have become. */
  datatype Trail = Trail(slots: seq<Slot>, launches: seq<Launch>, writes: seq<Attempt>)

  /** A pass over the slots of `before` that has made these decisions, all of them unless it was cut short. */
  ghost predicate Passed(before: Trail, decisions: seq<Decision>, after: Trail, now: int, policy: MissedTickPolicy,
                         marks: Marks)
  {
    && AllDealt(before.slots, decisions, |before.launches|, now, policy, marks)
    && after.slots == Left(decisions) + before.slots[|decisions|..]
    && after.launches == before.launches + Launched(decisions)
    && after.writes == before.writes + Written(decisions)
  }

  /** The readings of the clock the decisions were made by lie between these. */
  predicate MadeWithin(decisions: seq<Decision>, from: int, to: int) {
    forall k :: 0 <= k < |decisions| ==> from <= decisions[k].clock <= to
  }

  /** A slot whose name was held when the pass came to it. */
  ghost predicate HeldBack(slot: Slot, before: seq<Slot>, decisions: seq<Decision>) {
    exists k :: 0 <= k < |before| && k < |decisions| && decisions[k].held && before[k] == slot
  }

  /** Nothing is due any more, except slots held by name. */
  ghost predicate NothingDue(slots: seq<Slot>, now: int, before: seq<Slot>, decisions: seq<Decision>) {
    forall slot :: slot in slots && DueAt(slot, now) ==> HeldBack(slot, before, decisions)
  }

  lemma NothingPassed(before: Trail, now: int, policy: MissedTickPolicy, marks: Marks)
    ensures Passed(before, [], before, now, policy, marks)
  {
  }

  lemma MarksProgress(before: seq<Slot>, decisions: seq<Decision>, since: nat, now: int, policy: MissedTickPolicy,
                      a: Marks, b: Marks)
    requires AllDealt(before, decisions, since, now, policy, a) && Progress(a, b)
    ensures AllDealt(before, decisions, since, now, policy, b)
  {
    forall k | 0 <= k < |decisions| ensures DealtAt(before, decisions, k, since, now, policy, b) {
      assert DealtAt(before, decisions, k, since, now, policy, a);
      OweStays(before[k].schedule, a, b);
    }
  }

  lemma OweStays(schedule: Schedule, a: Marks, b: Marks)
    requires Progress(a, b)
    ensures OwedOrSettled(schedule, a) ==> OwedOrSettled(schedule, b)
  {
    if j :| 0 <= j < |a.pendingEnds| && SameKey(a.pendingEnds[j], schedule) {
      SameKeyPending(b.pendingEnds, a.pendingEnds[j], schedule);
    }
  }

  /** The slot the pass has come to comes right after those already dealt with. */
  lemma ComesTo(before: Trail, decisions: seq<Decision>, was: Trail, now: int, policy: MissedTickPolicy, marks: Marks)
    requires Passed(before, decisions, was, now, policy, marks) && |Left(decisions)| < |was.slots|
    ensures |decisions| < |before.slots| && was.slots[|Left(decisions)|] == before.slots[|decisions|]
  {
  }

  /** What one step of the pass makes of the slot it came to. */
  ghost predicate SlotPassed(was: Trail, index: nat, d: Decision, after: Trail, now: int, policy: MissedTickPolicy,
                             marks: Marks)
  {
    && index < |was.slots|
    && Dealt(was.slots[index], d, |was.launches|, now, policy, marks)
    && after.slots == was.slots[..index] + d.left + was.slots[index + 1..]
    && after.launches == was.launches + d.launched
    && after.writes == was.writes + d.writes
  }

  /** A slot whose launch the store refuses: moved on, and nothing more. */
  lemma RefusedPasses(was: Trail, index: nat, clock: int, writes: seq<Attempt>, after: Trail, now: int,
                      policy: MissedTickPolicy, marks: Marks)
    requires index < |was.slots| && DueAt(was.slots[index], now)
    requires SlotWrites(writes, was.slots[index].schedule, NextOf(was.slots[index], now), false)
    requires !Permits(StoredBy(was.slots[index], now, writes))
    requires after == Trail(was.slots[index := Moved(was.slots[index], now)], was.launches, was.writes + writes)
    ensures SlotPassed(was, index, Decision(false, clock, writes, true, [], [Moved(was.slots[index], now)]), after, now,
                       policy, marks)
  {
    var slot := was.slots[index];
    assert after.slots == was.slots[..index] + [Moved(slot, now)] + was.slots[index + 1..];
  }

  /** A slot the store lets be launched: launched if it may be, or ended if nothing is left of it. */
  lemma AllowedPasses(was: Trail, index: nat, clock: int, stored: seq<Attempt>, ended: seq<Attempt>, admitted: bool,
                      launched: seq<Launch>, after: Trail, now: int, policy: MissedTickPolicy, marks: Marks)
    requires index < |was.slots| && DueAt(was.slots[index], now)
    requires SlotWrites(stored, was.slots[index].schedule, NextOf(was.slots[index], now), false)
    requires Permits(StoredBy(was.slots[index], now, stored))
    requires launched == [] || (|launched| == 1 && LaunchedFor(launched[0], was.slots[index])
                                && BackedBy(was.slots[index], now, stored, launched[0].backing))
    requires launched != [] <==> admitted && Wanted(was.slots[index], now, policy)
    requires after.launches == was.launches + launched && after.writes == was.writes + stored + ended
    requires if NothingLeft(was.slots[index], launched, now)
             then && after.slots == Without(was.slots, index) && OwedOrSettled(was.slots[index].schedule, marks)
                  && |ended| == 1 && IsStop(ended[0], was.slots[index].schedule, EXHAUSTED)
             else && ended == []
                  && |after.slots| == |was.slots| && after.slots == was.slots[index := after.slots[index]]
                  && MovedOn(was.slots[index], after.slots[index], NextOf(was.slots[index], now),
                             launched != [], |was.launches|, clock)
    ensures var left := if NothingLeft(was.slots[index], launched, now) then [] else [after.slots[index]];
            SlotPassed(was, index, Decision(false, clock, stored + ended, admitted, launched, left), after, now, policy,
                       marks)
    ensures StoredBy(was.slots[index], now, stored + ended) == StoredBy(was.slots[index], now, stored)
  {
    hide NextRun;
    var next := NextOf(was.slots[index], now);
    var left := if NothingLeft(was.slots[index], launched, now) then [] else [after.slots[index]];
    assert after.slots == was.slots[..index] + left + was.slots[index + 1..];
    assert next.Some? ==> (stored + ended)[0] == stored[0];
  }

  lemma DealtStep(before: seq<Slot>, decisions: seq<Decision>, d: Decision, since: nat, now: int,
                  policy: MissedTickPolicy, marks: Marks)
    requires AllDealt(before, decisions, since, now, policy, marks) && |decisions| < |before|
    requires Dealt(before[|decisions|], d, since + |Launched(decisions)|, now, policy, marks)
    ensures AllDealt(before, decisions + [d], since, now, policy, marks)
  {
    hide Dealt, Launched;
    var more := decisions + [d];
    forall k | 0 <= k < |more| ensures DealtAt(before, more, k, since, now, policy, marks) {
      if k < |decisions| {
        assert DealtAt(before, decisions, k, since, now, policy, marks);
        assert more[..k] == decisions[..k] && more[k] == decisions[k];
      } else {
        assert more[..k] == decisions;
      }
    }
  }

  lemma OneMore(decisions: seq<Decision>, d: Decision)
    ensures Launched(decisions + [d]) == Launched(decisions) + d.launched
    ensures Left(decisions + [d]) == Left(decisions) + d.left
    ensures Written(decisions + [d]) == Written(decisions) + d.writes
  {
    var more := decisions + [d];
    assert more[..|more| - 1] == decisions && more[|more| - 1] == d;
  }

  /** The pass over one more slot. */
  lemma PassedStep(before: Trail, decisions: seq<Decision>, was: Trail, d: Decision, after: Trail, now: int,
                   policy: MissedTickPolicy, a: Marks, b: Marks)
    requires Passed(before, decisions, was, now, policy, a) && Progress(a, b)
    requires SlotPassed(was, |Left(decisions)|, d, after, now, policy, b)
    ensures |decisions| < |before.slots| && Passed(before, decisions + [d], after, now, policy, b)
    ensures Left(decisions + [d]) == Left(decisions) + d.left
  {
    hide Dealt, Progress, Launched, Left, Written, AllDealt;
    ComesTo(before, decisions, was, now, policy, a);
    MarksProgress(before.slots, decisions, |before.launches|, now, policy, a, b);
    DealtStep(before.slots, decisions, d, |before.launches|, now, policy, b);
    OneMore(decisions, d);
    assert was.slots[..|Left(decisions)|] == Left(decisions);
    assert was.slots[|Left(decisions)| + 1..] == before.slots[|decisions| + 1..];
  }

  lemma {:induction false} LeftFromDecisions(decisions: seq<Decision>, slot: Slot)
    requires slot in Left(decisions)
    ensures exists k :: 0 <= k < |decisions| && slot in decisions[k].left
  {
    var n := |decisions| - 1;
    if slot in decisions[n].left {
    } else {
      LeftFromDecisions(decisions[..n], slot);
      var k :| 0 <= k < n && slot in decisions[..n][k].left;
      assert slot in decisions[k].left;
    }
  }

  lemma DealtIsNotDue(slot: Slot, d: Decision, key: nat, now: int, policy: MissedTickPolicy, marks: Marks, left: Slot)
    requires Dealt(slot, d, key, now, policy, marks) && left in d.left && DueAt(left, now)
    ensures d.held && left == slot
  {
    NextRunAdvances(slot.schedule.spec.expr, slot.schedule.jitter, now);
  }

  /** A whole pass leaves nothing due but what is held by name. */
  lemma PassLeavesNothingDue(before: seq<Slot>, decisions: seq<Decision>, since: nat, now: int,
                             policy: MissedTickPolicy, marks: Marks)
    requires AllDealt(before, decisions, since, now, policy, marks)
    ensures NothingDue(Left(decisions), now, before, decisions)
  {
    hide Dealt, DueAt, Left, Launched;
    forall slot | slot in Left(decisions) && DueAt(slot, now) ensures HeldBack(slot, before, decisions) {
      LeftFromDecisions(decisions, slot);
      var k :| 0 <= k < |decisions| && slot in decisions[k].left;
      assert DealtAt(before, decisions, k, since, now, policy, marks);
      DealtIsNotDue(before[k], decisions[k], since + |Launched(decisions[..k])|, now, policy, marks, slot);
    }
  }

  /** In a pass a slot that was due is launched exactly when it was neither held, refused nor dropped. */
  ghost predicate PolicyKept(slot: Slot, d: Decision, now: int, policy: MissedTickPolicy) {
    |d.launched| == (if && !d.held && DueAt(slot, now) && slot.run.None?
                        && Permits(StoredBy(slot, now, d.writes)) && d.admitted
                        && (policy.Coalesce? || NothingMissed(slot, now))
                     then 1 else 0)
  }

  /** However many occurrences a pass finds missed, it launches one run per slot, or under `Skip` none. */
  lemma PassKeepsPolicy(before: seq<Slot>, decisions: seq<Decision>, since: nat, now: int, policy: MissedTickPolicy,
                        marks: Marks)
    requires AllDealt(before, decisions, since, now, policy, marks) && now <= MAX_UTC
    ensures forall k :: 0 <= k < |decisions| ==> PolicyKept(before[k], decisions[k], now, policy)
  {
    forall k | 0 <= k < |decisions| ensures PolicyKept(before[k], decisions[k], now, policy) {
      assert DealtAt(before, decisions, k, since, now, policy, marks);
      if DueAt(before[k], now) {
        PolicyDecides(before[k], now, policy);
      }
    }
  }

  /**
   A schedule is ended in a pass exactly when its slot was due and idle without a next
   run, and its last occurrence was not launched: as the operation admitted no launch,
   or as skipping dropped it with others missed.
   */
  ghost predicate EndedUnlaunched(slot: Slot, d: Decision, now: int, policy: MissedTickPolicy) {
    d.left == [] <==>
      && !d.held && DueAt(slot, now) && slot.run.None? && NextOf(slot, now).None?
      && (!d.admitted || (policy.Skip? && !NothingMissed(slot, now)))
  }

  /** What a pass ends has not been launched in it. */
  lemma PassEndsUnlaunched(before: seq<Slot>, decisions: seq<Decision>, since: nat, now: int, policy: MissedTickPolicy,
                           marks: Marks)
    requires AllDealt(before, decisions, since, now, policy, marks) && now <= MAX_UTC
    ensures forall k :: 0 <= k < |decisions| ==> EndedUnlaunched(before[k], decisions[k], now, policy)
  {
    forall k | 0 <= k < |decisions| ensures EndedUnlaunched(before[k], decisions[k], now, policy) {
      assert DealtAt(before, decisions, k, since, now, policy, marks);
      if DueAt(before[k], now) {
        PolicyDecides(before[k], now, policy);
      }
    }
  }

  lemma PassedStays(before: Trail, decisions: seq<Decision>, after: Trail, now: int, policy: MissedTickPolicy,
                    a: Marks, b: Marks)
    requires Passed(before, decisions, after, now, policy, a) && Progress(a, b)
    ensures Passed(before, decisions, after, now, policy, b)
  {
    MarksProgress(before.slots, decisions, |before.launches|, now, policy, a, b);
  }

  /** What a pass that ran is known to have done. */
  ghost predicate PassDone(before: Trail, decisions: seq<Decision>, after: Trail, now: int, policy: MissedTickPolicy,
                           marks: Marks)
  {
    && Passed(before, decisions, after, now, policy, marks)
    && (forall k :: 0 <= k < |decisions| ==> PolicyKept(before.slots[k], decisions[k], now, policy))
    && (marks.stopping
        || (|decisions| == |before.slots| && NothingDue(after.slots, now, before.slots, decisions)))
  }

  /** What a pass that came to the end of the slots, or was stopped, has done. */
  lemma PassEnds(before: Trail, decisions: seq<Decision>, after: Trail, now: int, policy: MissedTickPolicy,
                 marks: Marks)
    requires Passed(before, decisions, after, now, policy, marks) && now <= MAX_UTC
    requires marks.stopping || |Left(decisions)| == |after.slots|
    ensures PassDone(before, decisions, after, now, policy, marks)
  {
    hide DealtAt, Left, NothingDue, PolicyKept;
    PassKeepsPolicy(before.slots, decisions, |before.launches|, now, policy, marks);
    if !marks.stopping {
      assert |before.slots[|decisions|..]| == 0;
      PassLeavesNothingDue(before.slots, decisions, |before.launches|, now, policy, marks);
      assert after.slots == Left(decisions);
    }
  }

  lemma PassGrows(before: Trail, decisions: seq<Decision>, after: Trail, now: int, policy: MissedTickPolicy,
                  marks: Marks)
    requires PassDone(before, decisions, after, now, policy, marks)
    ensures before.launches <= after.launches
  {
    hide AllDealt, NothingDue, PolicyKept;
  }

  /** The slots left have distinct ids when the slots of before had. */
  lemma SlotPassedDistinct(was: Trail, index: nat, d: Decision, after: Trail, now: int, policy: MissedTickPolicy,
                           marks: Marks)
    requires SlotPassed(was, index, d, after, now, policy, marks) && IdsDistinct(was.slots)
    ensures IdsDistinct(after.slots)
  {
    var slot := was.slots[index];
    assert d.left == [] || (|d.left| == 1 && d.left[0].schedule == slot.schedule);
    if d.left == [] {
      assert after.slots == Without(was.slots, index);
    } else {
      assert after.slots == was.slots[index := d.left[0]];
    }
  }
}
