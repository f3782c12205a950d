/**
 The value-level half of the worker (crates/sc-cron/src/worker.rs): its slots as
 a list, what no step of it undoes, and what a reload makes of the slots.
 */
module WorkerReload {
  import opened Options
  import opened Expr
  import opened Types
  import opened ScheduleTable
  import StoreReads
  import opened WorkerState
  import opened WorkerWorld

  // ------------------------------------------------------------------
  // Slots as a sequence
  // ------------------------------------------------------------------

  ghost predicate IdsDistinct(slots: seq<Slot>) {
    forall i, j :: 0 <= i < j < |slots| ==> slots[i].schedule.id != slots[j].schedule.id
  }

  function Without<T>(s: seq<T>, i: nat): seq<T>
    requires i < |s|
  {
    s[..i] + s[i + 1..]
  }

  /** `Vec::swap_remove`: the last element takes the removed one's place. */
  function SwapRemoved<T>(s: seq<T>, i: nat): seq<T>
    requires i < |s|
  {
    s[i := s[|s| - 1]][..|s| - 1]
  }

  lemma WithoutMultiset<T>(s: seq<T>, i: nat)
    requires i < |s|
    ensures multiset(Without(s, i)) == multiset(s) - multiset{s[i]}
  {
    assert s == s[..i] + [s[i]] + s[i + 1..];
  }

  lemma SwapRemovedMultiset<T>(s: seq<T>, i: nat)
    requires i < |s|
    ensures multiset(SwapRemoved(s, i)) == multiset(s) - multiset{s[i]}
  {
    var last := s[|s| - 1];
    var swapped := s[i := last];
    assert swapped == SwapRemoved(s, i) + [last];
    assert multiset(swapped) == multiset(s) - multiset{s[i]} + multiset{last};
    assert multiset(swapped) == multiset(SwapRemoved(s, i)) + multiset{last};
    forall x ensures multiset(SwapRemoved(s, i))[x] == (multiset(s) - multiset{s[i]})[x] {
      assert multiset(swapped)[x] == multiset(SwapRemoved(s, i))[x] + multiset{last}[x];
    }
  }

  lemma UpdatedMultiset(s: seq<Slot>, taken: seq<Slot>, i: nat, x: Slot)
    requires i < |s|
    ensures multiset(s[i := x]) + multiset(taken) == Exchanged(multiset(s) + multiset(taken), s[i], x)
  {
  }

  lemma MoveNextAt(s: State, slots: seq<Slot>, taken: seq<Slot>, i: nat, next: Option<int>)
    requires Safe(s) && i < |slots| && s.slots == multiset(slots) + multiset(taken)
    requires next.Some? ==> slots[i].next.Some? && slots[i].next.value <= next.value
    ensures Safe(s.(slots := multiset(slots[i := slots[i].(next := next)]) + multiset(taken)))
  {
    hide Safe;
    assert slots[i] in multiset(slots);
    MoveNext(s, slots[i], next);
    UpdatedMultiset(slots, taken, i, slots[i].(next := next));
  }

  lemma TailMultiset<T>(s: seq<T>, i: nat)
    requires i < |s|
    ensures s[i] in s[i..] && multiset(s[i + 1..]) == multiset(s[i..]) - multiset{s[i]}
  {
    assert s[i..] == [s[i]] + s[i + 1..];
  }

  lemma CancelTakenAt(s: State, slots: seq<Slot>, taken: seq<Slot>, slot: Slot, rest: seq<Slot>)
    requires Safe(s) && s.slots == multiset(slots) + multiset(taken)
    requires slot in taken && multiset(rest) == multiset(taken) - multiset{slot}
    ensures Safe(s.(slots := multiset(slots) + multiset(rest),
                    cancelled := if slot.run.Some? then s.cancelled + {slot.run.value.key} else s.cancelled))
  {
    hide Safe;
    assert slot in multiset(taken);
    CancelSlot(s, slot);
    assert s.slots - multiset{slot} == multiset(slots) + multiset(rest);
    assert s.cancelled + {} == s.cancelled;
  }

  lemma TakeRunAt(s: State, slots: seq<Slot>, taken: seq<Slot>, i: nat, completes: bool)
    requires Safe(s) && i < |slots| && s.slots == multiset(slots) + multiset(taken) && slots[i].run.Some?
    ensures var idle := multiset(slots[i := slots[i].(run := None)]) + multiset(taken);
            Safe(WithRunTaken(s, slots[i], completes).(slots := idle))
  {
    hide Safe;
    assert slots[i] in multiset(slots);
    TakeRun(s, slots[i], completes);
    UpdatedMultiset(slots, taken, i, slots[i].(run := None));
  }

  lemma LaunchAt(s: State, slots: seq<Slot>, taken: seq<Slot>, i: nat, due: int, backing: Backing, deadline: int)
    requires Safe(s) && i < |slots| && s.slots == multiset(slots) + multiset(taken) && slots[i].run.None?
    requires Before(s.log, slots[i].schedule.id, slots[i].schedule.generation, due)
    requires slots[i].next.Some? ==> due < slots[i].next.value
    requires Authorized(LaunchOf(slots[i], due, backing))
    requires StoredAhead(LaunchOf(slots[i], due, backing), s.table, s.log.rewound)
    ensures Safe(WithLaunch(s, slots[i], due, backing, deadline))
    ensures var running := slots[i].(run := Some(InFlight(|s.log.launches|, deadline)));
            WithLaunch(s, slots[i], due, backing, deadline) ==
              s.(slots := multiset(slots[i := running]) + multiset(taken),
                 log := Appended(s.log, LaunchOf(slots[i], due, backing)))
  {
    hide Safe, Before, Authorized, StoredAhead;
    assert slots[i] in multiset(slots);
    LaunchStep(s, slots[i], due, backing, deadline);
    UpdatedMultiset(slots, taken, i, slots[i].(run := Some(InFlight(|s.log.launches|, deadline))));
  }

  lemma DropIdleAt(s: State, slots: seq<Slot>, taken: seq<Slot>, i: nat)
    requires Safe(s) && i < |slots| && s.slots == multiset(slots) + multiset(taken) && slots[i].run.None?
    ensures Safe(s.(slots := multiset(Without(slots, i)) + multiset(taken)))
    ensures NoSlotFor(multiset(Without(slots, i)) + multiset(taken), slots[i].schedule)
  {
    hide Safe;
    assert slots[i] in multiset(slots);
    DropIdle(s, slots[i]);
    WithoutMultiset(slots, i);
    assert s.slots - multiset{slots[i]} == multiset(Without(slots, i)) + multiset(taken);
  }

  /** A slot that is held owes no ending, and is what goes from the slots when it is removed. */
  lemma HeldOwesNothing(s: State, slots: seq<Slot>, taken: seq<Slot>, i: nat)
    requires Safe(s) && i < |slots| && s.slots == multiset(slots) + multiset(taken)
    ensures slots[i] in s.slots && !IsPending(s.pendingEnds, slots[i].schedule)
    ensures s.slots - multiset{slots[i]} == multiset(Without(slots, i)) + multiset(taken)
  {
    assert slots[i] in multiset(slots);
    WithoutMultiset(slots, i);
  }

  lemma EndedDistinct(slots: seq<Slot>, i: nat)
    requires i < |slots| && IdsDistinct(slots)
    ensures IdsDistinct(slots[i := slots[i].(run := None)]) && IdsDistinct(Without(slots, i))
    ensures Without(slots[i := slots[i].(run := None)], i) == Without(slots, i)
  {
  }

  // ------------------------------------------------------------------
  // Time
  // ------------------------------------------------------------------

  const EXHAUSTED := "no future occurrence"
  const MIN_RELOAD_POLL: int := SECOND

  /** `wall_after`: saturates at the last representable instant. */
  function WallAfter(now: int, span: int): (at: int)
  {
    if span > MAX_SPAN || now + span > MAX_UTC then MAX_UTC else now + span
  }

  function Remaining(deadline: int, monotonic: int): int {
    if deadline >= monotonic then deadline - monotonic else 0
  }

  /** An instant a slot is to be looked at: its next run, unless it is held, and the deadline of its run. */
  predicate SlotObliges(slot: Slot, at: int, now: int, monotonic: int, held: bool) {
    || (slot.next == Some(at) && !held)
    || (slot.run.Some? && at == WallAfter(now, Remaining(slot.run.value.deadline, monotonic)))
  }

  /** Slept until no later than this, the monotonic clock has not passed the deadline it had yet to reach. */
  lemma SleepEndsByTheDeadline(now: int, monotonic: int, deadline: int, wake: int)
    requires MIN_UTC <= now <= wake <= WallAfter(now, Remaining(deadline, monotonic))
    ensures monotonic + (wake - now) <= (if deadline < monotonic then monotonic else deadline)
    ensures WallAfter(now, Remaining(deadline, monotonic)) < MAX_UTC ==>
              monotonic + (WallAfter(now, Remaining(deadline, monotonic)) - now)
              == if deadline < monotonic then monotonic else deadline
  {
  }

  // ------------------------------------------------------------------
  // The writes a step asks for
  // ------------------------------------------------------------------

  /** `after` is `before` and `n` more. */
  predicate Grew<T(==)>(before: seq<T>, after: seq<T>, n: nat) {
    before <= after && |after| == |before| + n
  }

  predicate IsStop(write: Attempt, schedule: Schedule, reason: string) {
    var c := write.call;
    c.Stop? && c.id == schedule.id && c.generation == schedule.generation && c.reason == reason
  }

  /** The end of each owed schedule was asked for once, in order: of all of them, or of the first until a stop. */
  predicate EndingsAsked(writes: seq<Attempt>, owed: seq<Schedule>, stopped: bool) {
    && |writes| <= |owed| && (!stopped ==> |writes| == |owed|)
    && forall k :: 0 <= k < |writes| ==> IsStop(writes[k], owed[k], EXHAUSTED)
  }

  /** `after` is `before` and one more ending asked for, unless a stop was requested first. */
  predicate AskedOne(before: seq<Attempt>, after: seq<Attempt>, schedule: Schedule, stopped: bool) {
    if stopped then after == before else Grew(before, after, 1) && IsStop(after[|before|], schedule, EXHAUSTED)
  }

  lemma NoneAsked(writes: seq<Attempt>, owed: seq<Schedule>, stopped: bool)
    ensures EndingsAsked(writes[|writes|..], owed[..0], stopped)
  {
  }

  lemma AskedMore(before: seq<Attempt>, after: seq<Attempt>, since: nat, owed: seq<Schedule>, n: nat, was: bool,
                  stopped: bool)
    requires n < |owed| && since <= |before| && EndingsAsked(before[since..], owed[..n], was)
    requires AskedOne(before, after, owed[n], stopped) && (was ==> stopped)
    ensures before <= after && since <= |after| && EndingsAsked(after[since..], owed[..n + 1], stopped)
  {
    var more := after[since..];
    forall k | 0 <= k < |more| ensures IsStop(more[k], owed[..n + 1][k], EXHAUSTED) {
      if k < |before| - since {
        assert more[k] == before[since..][k];
      }
    }
  }

  predicate IsDisable(write: Attempt, schedule: Schedule, reason: string) {
    var c := write.call;
    c.Disable? && c.id == schedule.id && c.generation == schedule.generation && c.reason == reason
  }

  predicate IsRecord(write: Attempt, schedule: Schedule, outcome: RunOutcome) {
    var c := write.call;
    c.RecordRun? && c.id == schedule.id && c.generation == schedule.generation && c.outcome == outcome
  }

  /**
   The writes a finished run leads to, in order: its outcome, or a failure when it
   panicked, or nothing when it was aborted; and the end of an exhausted schedule.
   */
  predicate CompletionWrites(writes: seq<Attempt>, schedule: Schedule, report: Report, exhausted: bool) {
    match report
    case AskedDelete(reason) => |writes| == 1 && IsStop(writes[0], schedule, reason)
    case AskedDisable(reason) => |writes| == 1 && IsDisable(writes[0], schedule, reason)
    case Ran(outcome) =>
      |writes| >= 1 && IsRecord(writes[0], schedule, outcome) && EndsIf(exhausted, writes[1..], schedule)
    case Panicked =>
      && |writes| >= 1 && IsRecord(writes[0], schedule, RunOutcome.Failed("JOB_JOIN_FAILED"))
      && EndsIf(exhausted, writes[1..], schedule)
    case Aborted => EndsIf(exhausted, writes, schedule)
  }

  predicate EndsIf(exhausted: bool, writes: seq<Attempt>, schedule: Schedule) {
    if exhausted then |writes| == 1 && IsStop(writes[0], schedule, EXHAUSTED) else writes == []
  }

  /** The writes of a due slot: its next run if it has one, and its end if it has none and is idle. */
  predicate SlotWrites(writes: seq<Attempt>, schedule: Schedule, next: Option<int>, ended: bool) {
    var stores := if next.Some? then 1 else 0;
    && |writes| == stores + (if ended then 1 else 0)
    && (next.Some? ==> writes[0].call == SetNext(schedule.id, schedule.generation, Stamp(next.value)))
    && (ended ==> IsStop(writes[stores], schedule, EXHAUSTED))
  }

  // ------------------------------------------------------------------
  // The rows of a reload against the slots
  // ------------------------------------------------------------------

  /** One of the first `n` rows is active and is this slot's generation. */
  ghost predicate Matched(rows: seq<Schedule>, n: nat, slot: Slot)
    requires n <= |rows|
  {
    exists k :: 0 <= k < n && rows[k].IsActive() && SameKey(rows[k], slot.schedule)
  }

  /** One of the first `n` rows is active, enabled and this slot's generation. */
  ghost predicate Kept(rows: seq<Schedule>, n: nat, slot: Slot)
    requires n <= |rows|
  {
    exists k :: 0 <= k < n && rows[k].IsActive() && rows[k].enabled && SameKey(rows[k], slot.schedule)
  }

  ghost predicate RowIdsDistinct(rows: seq<Schedule>) {
    forall i, j :: 0 <= i < j < |rows| ==> rows[i].id != rows[j].id
  }

  ghost predicate NoSlotFor(slots: multiset<Slot>, schedule: Schedule) {
    forall slot :: slot in slots ==> !SameKey(slot.schedule, schedule)
  }

  // ------------------------------------------------------------------
  // What no step undoes
  // ------------------------------------------------------------------

  datatype Marks = Marks(
    stopping: bool,
    reloadWanted: bool,
    armed: bool,
    endingsArmed: bool,
    pendingEnds: seq<Schedule>,
    settled: set<(nat, nat)>,
    cancelled: set<nat>)

  /** Every ending owed before is owed still, or its write was settled. */
  ghost predicate EndingsKept(before: seq<Schedule>, after: seq<Schedule>, settled: set<(nat, nat)>) {
    forall k :: 0 <= k < |before| ==>
      IsPending(after, before[k]) || (before[k].id, before[k].generation) in settled
  }

  /** A stop or reload request stays, retries keep a date, and no owed ending is forgotten. */
  ghost predicate Progress(a: Marks, b: Marks) {
    && (a.stopping ==> b.stopping)
    && (a.reloadWanted ==> b.reloadWanted)
    && (a.armed ==> b.armed)
    && (a.endingsArmed ==> b.endingsArmed)
    && EndingsKept(a.pendingEnds, b.pendingEnds, b.settled)
    && a.settled <= b.settled
    && a.cancelled <= b.cancelled
  }

  lemma ProgressStays(a: Marks)
    ensures Progress(a, a)
  {
    EndingsGrow(a.pendingEnds, a.pendingEnds, a.settled);
  }

  lemma EndingsGrow(before: seq<Schedule>, after: seq<Schedule>, settled: set<(nat, nat)>)
    requires before <= after
    ensures EndingsKept(before, after, settled)
  {
    forall k | 0 <= k < |before| ensures IsPending(after, before[k]) {
      assert SameKey(after[k], before[k]);
    }
  }

  lemma WishStays(a: Marks, b: Marks)
    requires Progress(a, b)
    ensures a.reloadWanted ==> b.reloadWanted
  {
  }

  lemma StopStays(a: Marks, b: Marks)
    requires Progress(a, b)
    ensures a.stopping ==> b.stopping
  {
  }

  lemma StaysArmed(a: Marks, b: Marks)
    requires Progress(a, b)
    ensures a.armed ==> b.armed
    ensures a.endingsArmed ==> b.endingsArmed
  {
  }

  /** Endings lose their date for as long as they are being retried. */
  lemma ProgressResumes(a: Marks, undated: Marks, b: Marks)
    requires undated == a.(endingsArmed := undated.endingsArmed) && Progress(undated, b) && b.endingsArmed
    ensures Progress(a, b)
  {
  }

  lemma ForgettingTheWish(a: Marks)
    ensures Progress(a.(reloadWanted := false), a)
  {
    EndingsGrow(a.pendingEnds, a.pendingEnds, a.settled);
  }

  /** A reload clears the wish that led to it and has set a date instead. */
  lemma Rearmed(began: Marks, reading: Marks)
    requires reading.armed
    requires reading == began.(reloadWanted := reading.reloadWanted, armed := reading.armed)
    ensures Progress(began.(reloadWanted := false), reading)
  {
    EndingsGrow(began.pendingEnds, began.pendingEnds, began.settled);
  }

  lemma CancellingProgresses(a: Marks, cancelled: set<nat>)
    requires a.cancelled <= cancelled
    ensures Progress(a, a.(cancelled := cancelled))
  {
    EndingsGrow(a.pendingEnds, a.pendingEnds, a.settled);
  }

  lemma ProgressChains(a: Marks, b: Marks, c: Marks)
    requires Progress(a, b) && Progress(b, c)
    ensures Progress(a, c)
  {
    forall k | 0 <= k < |a.pendingEnds|
      ensures IsPending(c.pendingEnds, a.pendingEnds[k])
              || (a.pendingEnds[k].id, a.pendingEnds[k].generation) in c.settled
    {
      if IsPending(b.pendingEnds, a.pendingEnds[k]) {
        var j :| 0 <= j < |b.pendingEnds| && SameKey(b.pendingEnds[j], a.pendingEnds[k]);
        SameKeyPending(c.pendingEnds, b.pendingEnds[j], a.pendingEnds[k]);
      }
    }
  }

  /** Retrying the next owed ending keeps the ones before it and settles or owes it. */
  lemma EndingsStep(owed: seq<Schedule>, i: nat, before: Marks, after: Marks)
    requires i < |owed| && EndingsKept(owed[..i], before.pendingEnds, before.settled) && Progress(before, after)
    requires (owed[i].id, owed[i].generation) in after.settled || IsPending(after.pendingEnds, owed[i])
    ensures EndingsKept(owed[..i + 1], after.pendingEnds, after.settled)
  {
    var first := before.(pendingEnds := owed[..i]);
    ProgressChains(first, before, after);
    var done := owed[..i + 1];
    forall k | 0 <= k < |done|
      ensures IsPending(after.pendingEnds, done[k]) || (done[k].id, done[k].generation) in after.settled
    {
      if k < i {
        assert done[k] == owed[..i][k];
      }
    }
  }

  /** A row whose generation has a slot: the slot is kept as it is, or its run cancelled. */
  ghost predicate RowKept(schedule: Schedule, before: seq<Slot>, after: seq<Slot>, previous: seq<Slot>,
                          rest: seq<Slot>, cancelled: set<nat>, slot: Slot)
  {
    && slot in previous && SameKey(slot.schedule, schedule)
    && multiset(rest) == multiset(previous) - multiset{slot}
    && after == before + (if schedule.enabled then [slot] else [])
    && (!schedule.enabled && slot.run.Some? ==> slot.run.value.key in cancelled)
  }

  /** A new slot is idle and runs next when its row says, or else at the first run after some reading of the clock. */
  ghost predicate StartsAt(slot: Slot) {
    && slot.run.None? && slot.next.Some?
    && if slot.schedule.nextRunAt.Some? then slot.next == slot.schedule.nextRunAt
       else exists now :: slot.next == NextRun(slot.schedule.spec.expr, slot.schedule.jitter, now)
  }

  /** A row whose generation has no slot: one is built for it, unless it is disabled or there is an excuse. */
  ghost predicate RowBuilt(schedule: Schedule, before: seq<Slot>, after: seq<Slot>, excused: bool) {
    || (after == before && (schedule.enabled ==> excused))
    || (&& schedule.enabled && |after| == |before| + 1 && after == before + [after[|before|]]
        && after[|before|].schedule == schedule && StartsAt(after[|before|]))
  }

  /**
   What follows when a slot is removed for good. The write that was to end or disable
   its schedule was answered, is in doubt, or was fenced, which asks for a reload; or
   it is known to have failed, and the row comes back with a reload that has a date
   or stays owed.
   */
  ghost predicate Ended(schedule: Schedule, report: Report, result: CallResult, marks: Marks, writeRetry: ReloadRetry) {
    match result
    case Replied(true) => report.AskedDisable? || (schedule.id, schedule.generation) in marks.settled
    case Replied(false) =>
      marks.reloadWanted && (report.AskedDisable? || (schedule.id, schedule.generation) in marks.settled)
    case CallFailed(true) => report.AskedDisable? || (schedule.id, schedule.generation) in marks.settled
    case CallFailed(false) =>
      writeRetry.due.Some? && (report.AskedDisable? || report.AskedDelete? || IsPending(marks.pendingEnds, schedule))
  }

  // ------------------------------------------------------------------
  // A whole merge
  // ------------------------------------------------------------------

  /** A slot made for one of the first `n` rows, whose generation had none. */
  ghost predicate Built(before: seq<Slot>, rows: seq<Schedule>, n: nat, slot: Slot)
    requires n <= |rows|
  {
    && StartsAt(slot)
    && NoSlotFor(multiset(before), slot.schedule)
    && exists k :: 0 <= k < n && rows[k].IsActive() && rows[k].enabled && rows[k] == slot.schedule
  }

  ghost predicate HasSlot(slots: seq<Slot>, schedule: Schedule) {
    exists j :: 0 <= j < |slots| && SameKey(slots[j].schedule, schedule)
  }

  ghost predicate RunAborted(slot: Slot, cancelled: set<nat>) {
    slot.run.Some? ==> slot.run.value.key in cancelled
  }

  /** Every slot of before that is matched has been kept as it is, or its run aborted. */
  ghost predicate Decided(before: seq<Slot>, rows: seq<Schedule>, n: nat, slots: seq<Slot>, cancelled: set<nat>)
    requires n <= |rows|
  {
    forall a :: a in before && Matched(rows, n, a) ==>
      if Kept(rows, n, a) then a in slots else RunAborted(a, cancelled)
  }

  /** Every slot is an old one that was kept, or one built for a row. */
  ghost predicate Sourced(before: seq<Slot>, rows: seq<Schedule>, n: nat, slots: seq<Slot>)
    requires n <= |rows|
  {
    forall j :: 0 <= j < |slots| ==> (slots[j] in before && Kept(rows, n, slots[j])) || Built(before, rows, n, slots[j])
  }

  /** Why an enabled row may have no slot: a stop, an ending owed, or one settled as no run was left. */
  ghost predicate Excused(marks: Marks, schedule: Schedule) {
    || marks.stopping
    || IsPending(marks.pendingEnds, schedule)
    || (schedule.nextRunAt.None? && (schedule.id, schedule.generation) in marks.settled)
  }

  /** Every enabled active row has a slot or an excuse. */
  ghost predicate Covered(rows: seq<Schedule>, n: nat, slots: seq<Slot>, marks: Marks)
    requires n <= |rows|
  {
    forall k :: 0 <= k < n && rows[k].IsActive() && rows[k].enabled ==>
      HasSlot(slots, rows[k]) || Excused(marks, rows[k])
  }

  /** The slots not yet matched are still among those taken out. */
  ghost predicate Unmatched(before: seq<Slot>, rows: seq<Schedule>, n: nat, previous: seq<Slot>)
    requires n <= |rows|
  {
    && (forall a :: a in before && !Matched(rows, n, a) ==> a in previous)
    && (forall a :: a in previous ==> a in before && !Matched(rows, n, a))
    && DistinctKeys(multiset(previous))
  }

  ghost predicate FromRows(rows: seq<Schedule>, n: nat, slots: seq<Slot>)
    requires n <= |rows|
  {
    IdsDistinct(slots) && forall j :: 0 <= j < |slots| ==> HasRow(rows, n, slots[j].schedule.id)
  }

  ghost predicate HasRow(rows: seq<Schedule>, n: nat, id: nat)
    requires n <= |rows|
  {
    exists k :: 0 <= k < n && rows[k].id == id
  }

  lemma MatchedStep(rows: seq<Schedule>, n: nat, slot: Slot)
    requires n < |rows|
    ensures Matched(rows, n + 1, slot) <==>
              Matched(rows, n, slot) || (rows[n].IsActive() && SameKey(rows[n], slot.schedule))
    ensures Kept(rows, n + 1, slot) <==>
              Kept(rows, n, slot) || (rows[n].IsActive() && rows[n].enabled && SameKey(rows[n], slot.schedule))
  {
    if k :| 0 <= k < n + 1 && rows[k].IsActive() && rows[k].enabled && SameKey(rows[k], slot.schedule) {
      assert k < n ==> Kept(rows, n, slot);
    }
    if k :| 0 <= k < n + 1 && rows[k].IsActive() && SameKey(rows[k], slot.schedule) {
      assert k < n ==> Matched(rows, n, slot);
    }
  }

  /** A slot is matched by one row at most. */
  lemma MatchedOnce(rows: seq<Schedule>, n: nat, slot: Slot)
    requires n < |rows| && RowIdsDistinct(rows) && SameKey(rows[n], slot.schedule)
    ensures !Matched(rows, n, slot) && !Kept(rows, n, slot)
  {
  }

  lemma FromRowsStep(rows: seq<Schedule>, n: nat, before: seq<Slot>, after: seq<Slot>)
    requires n < |rows| && RowIdsDistinct(rows) && FromRows(rows, n, before)
    requires after == before
             || (|after| == |before| + 1 && after == before + [after[|before|]]
                 && after[|before|].schedule.id == rows[n].id)
    ensures FromRows(rows, n + 1, after)
  {
    forall id | HasRow(rows, n, id) ensures HasRow(rows, n + 1, id) && id != rows[n].id {
      var k :| 0 <= k < n && rows[k].id == id;
    }
    assert HasRow(rows, n + 1, rows[n].id);
    forall j | 0 <= j < |before| ensures HasRow(rows, n, after[j].schedule.id) {
      assert after[j] == before[j];
    }
  }

  lemma ExcuseStays(a: Marks, b: Marks, schedule: Schedule)
    requires Progress(a, b) && a.pendingEnds <= b.pendingEnds && Excused(a, schedule)
    ensures Excused(b, schedule)
  {
    if j :| 0 <= j < |a.pendingEnds| && SameKey(a.pendingEnds[j], schedule) {
      assert SameKey(b.pendingEnds[j], schedule);
    }
  }

  lemma CoveredStep(rows: seq<Schedule>, n: nat, before: seq<Slot>, after: seq<Slot>, a: Marks, b: Marks)
    requires n < |rows| && Covered(rows, n, before, a) && before <= after && Progress(a, b)
    requires a.pendingEnds <= b.pendingEnds
    requires rows[n].IsActive() && rows[n].enabled ==>
               HasSlot(after, rows[n]) || Excused(b, rows[n])
    ensures Covered(rows, n + 1, after, b)
  {
    forall k | 0 <= k < n && rows[k].IsActive() && rows[k].enabled
      ensures HasSlot(after, rows[k]) || Excused(b, rows[k])
    {
      if j :| 0 <= j < |before| && SameKey(before[j].schedule, rows[k]) {
        assert SameKey(after[j].schedule, rows[k]);
      } else {
        assert !HasSlot(before, rows[k]);
        ExcuseStays(a, b, rows[k]);
      }
    }
  }

  /** A row that is not active leaves everything as it was. */
  lemma SkipRow(before: seq<Slot>, rows: seq<Schedule>, n: nat, previous: seq<Slot>, slots: seq<Slot>,
                cancelled: set<nat>)
    requires n < |rows| && !rows[n].IsActive()
    requires Decided(before, rows, n, slots, cancelled) && Sourced(before, rows, n, slots)
             && Unmatched(before, rows, n, previous)
    ensures Decided(before, rows, n + 1, slots, cancelled) && Sourced(before, rows, n + 1, slots)
            && Unmatched(before, rows, n + 1, previous)
  {
    forall slot ensures Matched(rows, n + 1, slot) == Matched(rows, n, slot)
      && Kept(rows, n + 1, slot) == Kept(rows, n, slot) {
      MatchedStep(rows, n, slot);
    }
    BuiltStays(before, rows, n);
  }

  lemma BuiltStays(before: seq<Slot>, rows: seq<Schedule>, n: nat)
    requires n < |rows|
    ensures forall slot :: Built(before, rows, n, slot) ==> Built(before, rows, n + 1, slot)
  {
  }

  /** A row whose generation had a slot. */
  lemma KeepRow(before: seq<Slot>, rows: seq<Schedule>, n: nat, previous: seq<Slot>, rest: seq<Slot>,
                slots: seq<Slot>, after: seq<Slot>, cancelled: set<nat>, aborted: set<nat>, slot: Slot)
    requires n < |rows| && rows[n].IsActive() && RowIdsDistinct(rows) && DistinctKeys(multiset(before))
    requires Decided(before, rows, n, slots, cancelled) && Sourced(before, rows, n, slots)
             && Unmatched(before, rows, n, previous)
    requires RowKept(rows[n], slots, after, previous, rest, aborted, slot) && cancelled <= aborted
    ensures Decided(before, rows, n + 1, after, aborted) && Sourced(before, rows, n + 1, after)
            && Unmatched(before, rows, n + 1, rest)
  {
    MatchedOnce(rows, n, slot);
    WithoutMembers(multiset(previous), slot);
    forall a ensures a in rest <==> a in previous && a != slot {
      assert a in rest <==> a in multiset(rest);
    }
    forall a | a in before
      ensures Matched(rows, n + 1, a) <==> Matched(rows, n, a) || a == slot
      ensures Kept(rows, n + 1, a) <==> Kept(rows, n, a) || (a == slot && rows[n].enabled)
    {
      MatchedStep(rows, n, a);
      assert a in multiset(before) && slot in multiset(before);
    }
    BuiltStays(before, rows, n);
  }

  lemma UnmatchedHasNone(before: seq<Slot>, rows: seq<Schedule>, n: nat, previous: seq<Slot>, slot: Slot)
    requires n < |rows| && RowIdsDistinct(rows) && slot in before
    requires Unmatched(before, rows, n, previous) && NoSlotFor(multiset(previous), rows[n])
    ensures !SameKey(rows[n], slot.schedule)
  {
    assert slot in previous <==> slot in multiset(previous);
  }

  /** A row whose generation had no slot. */
  lemma BuildRow(before: seq<Slot>, rows: seq<Schedule>, n: nat, previous: seq<Slot>,
                 slots: seq<Slot>, after: seq<Slot>, cancelled: set<nat>, aborted: set<nat>, excused: bool)
    requires n < |rows| && rows[n].IsActive() && RowIdsDistinct(rows)
    requires Decided(before, rows, n, slots, cancelled) && Sourced(before, rows, n, slots)
             && Unmatched(before, rows, n, previous)
    requires NoSlotFor(multiset(previous), rows[n]) && RowBuilt(rows[n], slots, after, excused) && cancelled <= aborted
    ensures Decided(before, rows, n + 1, after, aborted) && Sourced(before, rows, n + 1, after)
            && Unmatched(before, rows, n + 1, previous)
  {
    forall a | a in before ensures !SameKey(a.schedule, rows[n]) {
      UnmatchedHasNone(before, rows, n, previous, a);
    }
    forall a | a in before
      ensures Matched(rows, n + 1, a) == Matched(rows, n, a) && Kept(rows, n + 1, a) == Kept(rows, n, a)
    {
      MatchedStep(rows, n, a);
    }
    assert NoSlotFor(multiset(before), rows[n]);
    BuiltStays(before, rows, n);
  }

  /** A whole reload over the slots of before. */
  ghost predicate Reloaded(before: seq<Slot>, rows: seq<Schedule>, after: seq<Slot>, marks: Marks) {
    && IdsDistinct(after)
    && (forall a :: a in before ==> if Kept(rows, |rows|, a) then a in after else RunAborted(a, marks.cancelled))
    && Sourced(before, rows, |rows|, after)
    && Covered(rows, |rows|, after, marks)
  }

  /** How far a merge of `rows` over the slots of before has come after `n` rows. */
  ghost predicate MergeOk(before: seq<Slot>, rows: seq<Schedule>, n: nat, previous: seq<Slot>, slots: seq<Slot>,
                          marks: Marks)
    requires n <= |rows|
  {
    && RowIdsDistinct(rows)
    && DistinctKeys(multiset(before))
    && Unmatched(before, rows, n, previous)
    && Decided(before, rows, n, slots, marks.cancelled)
    && Sourced(before, rows, n, slots)
    && FromRows(rows, n, slots)
    && Covered(rows, n, slots, marks)
  }

  /** A row whose generation had a slot, seen from the whole merge. */
  lemma KeepStep(before: seq<Slot>, rows: seq<Schedule>, n: nat, previous: seq<Slot>, rest: seq<Slot>,
                 slots: seq<Slot>, after: seq<Slot>, a: Marks, b: Marks, slot: Slot)
    requires n < |rows| && rows[n].IsActive()
    requires MergeOk(before, rows, n, previous, slots, a) && a.pendingEnds <= b.pendingEnds
    requires RowKept(rows[n], slots, after, previous, rest, b.cancelled, slot) && Progress(a, b)
    ensures MergeOk(before, rows, n + 1, rest, after, b)
  {
    KeepRow(before, rows, n, previous, rest, slots, after, a.cancelled, b.cancelled, slot);
    KeptCovers(rows[n], slots, after, previous, rest, b.cancelled, slot);
    WithoutMembers(multiset(previous), slot);
    FromRowsStep(rows, n, slots, after);
    CoveredStep(rows, n, slots, after, a, b);
  }

  /** A row whose generation had no slot, seen from the whole merge. */
  lemma BuildStep(before: seq<Slot>, rows: seq<Schedule>, n: nat, previous: seq<Slot>,
                  slots: seq<Slot>, after: seq<Slot>, a: Marks, b: Marks)
    requires n < |rows| && rows[n].IsActive()
    requires MergeOk(before, rows, n, previous, slots, a) && a.pendingEnds <= b.pendingEnds
    requires NoSlotFor(multiset(previous), rows[n]) && Progress(a, b)
    requires RowBuilt(rows[n], slots, after, Excused(b, rows[n]))
    ensures MergeOk(before, rows, n + 1, previous, after, b)
  {
    var excused := Excused(b, rows[n]);
    BuildRow(before, rows, n, previous, slots, after, a.cancelled, b.cancelled, excused);
    BuiltCovers(rows[n], slots, after, excused);
    FromRowsStep(rows, n, slots, after);
    CoveredStep(rows, n, slots, after, a, b);
  }

  lemma SkipStep(before: seq<Slot>, rows: seq<Schedule>, n: nat, previous: seq<Slot>, slots: seq<Slot>, marks: Marks)
    requires n < |rows| && !rows[n].IsActive()
    requires MergeOk(before, rows, n, previous, slots, marks)
    ensures MergeOk(before, rows, n + 1, previous, slots, marks)
  {
    SkipRow(before, rows, n, previous, slots, marks.cancelled);
    FromRowsSkip(rows, n, slots);
  }

  lemma FromRowsSkip(rows: seq<Schedule>, n: nat, slots: seq<Slot>)
    requires n < |rows| && FromRows(rows, n, slots)
    ensures FromRows(rows, n + 1, slots)
  {
    forall id | HasRow(rows, n, id) ensures HasRow(rows, n + 1, id) {
      var k :| 0 <= k < n && rows[k].id == id;
    }
  }

  /** Once the runs of the unmatched slots are aborted too, the merge is a reload. */
  lemma MergeEnds(before: seq<Slot>, rows: seq<Schedule>, previous: seq<Slot>, slots: seq<Slot>, marks: Marks,
                  cancelled: set<nat>)
    requires MergeOk(before, rows, |rows|, previous, slots, marks) && marks.cancelled <= cancelled
    requires forall k :: 0 <= k < |previous| ==> RunAborted(previous[k], cancelled)
    ensures Reloaded(before, rows, slots, marks.(cancelled := cancelled))
  {
    forall a | a in before ensures if Kept(rows, |rows|, a) then a in slots else RunAborted(a, cancelled) {
      KeptIsMatched(rows, a);
      if !Matched(rows, |rows|, a) {
        assert a in previous;
        var k :| 0 <= k < |previous| && previous[k] == a;
      }
    }
    assert Covered(rows, |rows|, slots, marks.(cancelled := cancelled));
  }

  lemma KeptIsMatched(rows: seq<Schedule>, slot: Slot)
    ensures Kept(rows, |rows|, slot) ==> Matched(rows, |rows|, slot)
  {
  }

  lemma NothingMerged(before: seq<Slot>, rows: seq<Schedule>, marks: Marks)
    requires RowIdsDistinct(rows) && DistinctKeys(multiset(before))
    ensures MergeOk(before, rows, 0, before, [], marks)
  {
  }

  /** The slots of earlier rows are of other ids. */
  lemma OtherRowsOnly(rows: seq<Schedule>, n: nat, slots: seq<Slot>)
    requires n < |rows| && RowIdsDistinct(rows) && FromRows(rows, n, slots)
    ensures NoSlotFor(multiset(slots), rows[n])
  {
    forall slot | slot in multiset(slots) ensures !SameKey(slot.schedule, rows[n]) {
      assert slot in slots;
      var j :| 0 <= j < |slots| && slots[j] == slot;
    }
  }

  lemma KeptCovers(schedule: Schedule, before: seq<Slot>, after: seq<Slot>, previous: seq<Slot>,
                   rest: seq<Slot>, cancelled: set<nat>, slot: Slot)
    requires RowKept(schedule, before, after, previous, rest, cancelled, slot)
    ensures before <= after && (schedule.enabled ==> HasSlot(after, schedule))
    ensures after == before
            || (|after| == |before| + 1 && after == before + [after[|before|]]
                && after[|before|].schedule.id == schedule.id)
  {
    if schedule.enabled {
      assert after[|before|] == slot;
    }
  }

  lemma BuiltCovers(schedule: Schedule, before: seq<Slot>, after: seq<Slot>, excused: bool)
    requires RowBuilt(schedule, before, after, excused)
    ensures before <= after
    ensures schedule.enabled ==> HasSlot(after, schedule) || excused
    ensures after == before
            || (|after| == |before| + 1 && after == before + [after[|before|]]
                && after[|before|].schedule.id == schedule.id)
  {
    if after != before {
      assert SameKey(after[|before|].schedule, schedule);
    }
  }

  lemma ListedIdsDistinct(s: State, unreadable: set<nat>)
    requires Safe(s)
    ensures RowIdsDistinct(StoreReads.ListActive(s.table, unreadable))
  {
    StoreReads.ListIdsDistinct(s.table, unreadable);
  }

  lemma SafeIsDistinct(s: State, slots: seq<Slot>)
    requires Safe(s) && s.slots == multiset(slots) + multiset([])
    ensures DistinctKeys(multiset(slots))
  {
    assert multiset(slots) + multiset([]) == multiset(slots);
  }

  lemma NoSlotAnywhere(slots: seq<Slot>, taken: seq<Slot>, schedule: Schedule)
    requires NoSlotFor(multiset(slots), schedule)
    requires forall k :: 0 <= k < |taken| ==> !SameKey(taken[k].schedule, schedule)
    ensures NoSlotFor(multiset(taken), schedule)
    ensures NoSlotFor(multiset(slots) + multiset(taken), schedule)
  {
    forall slot | slot in multiset(taken) ensures !SameKey(slot.schedule, schedule) {
      assert slot in taken;
    }
  }
}
