/**
 What a worker's rounds, its loop and its drain come to, told by what can be seen of
 it (crates/sc-cron/src/worker.rs and worker/worker_runs.rs), on values. `world`
 gives only what never changes of it: the script, the first table and the cap.
 */
module WorkerRounds {
  import opened Options
  import opened Expr
  import opened Types
  import opened ScheduleTable
  import StoreReads
  import opened WorkerState
  import opened WorkerWorld
  import opened WorkerReload
  import opened WorkerLaunch

  /** All that can be seen of a worker and its world between two steps. */
  datatype View = View(
    slots: seq<Slot>,
    launches: seq<Launch>,
    writes: seq<Attempt>,
    table: Table,
    marks: Marks,
    retry: ReloadRetry,
    writeRetry: ReloadRetry,
    pollDue: Option<int>,
    completed: set<nat>,
    monotonic: int,
    place: int)
  {
    function Track(): Trail { Trail(slots, launches, writes) }

    function Outlasts(): Past { Past(launches, writes, table, completed, marks.settled, monotonic, place) }
  }

  /** What of all that outlasts a worker. */
  datatype Past = Past(
    launches: seq<Launch>,
    writes: seq<Attempt>,
    table: Table,
    completed: set<nat>,
    settled: set<(nat, nat)>,
    monotonic: int,
    place: int)

  /** What the store holds, what was asked of it, and what is still to be asked. */
  datatype Account = Account(
    table: Table,
    rewound: set<(nat, nat)>,
    writes: seq<Attempt>,
    settled: set<(nat, nat)>,
    pendingEnds: seq<Schedule>,
    writeRetry: ReloadRetry,
    reloadWanted: bool)

  // ------------------------------------------------------------------
  // Reading the rows
  // ------------------------------------------------------------------

  /** Time goes on, a stop stays requested, and one is noted only when a turn in between asks for it. */
  ghost predicate GoesOn(world: World, a: View, b: View) {
    && a.place <= b.place <= |world.script|
    && (a.marks.stopping ==> b.marks.stopping)
    && (b.marks.stopping ==> a.marks.stopping || world.StopAsked(a.place, b.place))
  }

  /** When the next poll is due after a read begun at `started`: never, past the range of a date-time. */
  function PollAfter(started: int, reloadPoll: int): Option<int> {
    if started + reloadPoll <= MAX_UTC then Some(started + reloadPoll) else None
  }

  /**
   The rows were read again, or the call failed, as the script has it. A read takes the
   active rows other processes left and makes the slots over by them; a poll is due one
   interval after it began. After a failure everything stays, and has a date by the backoff.
   */
  ghost predicate ReadAgain(world: World, reloadPoll: int, a: View, rows: Option<seq<Schedule>>, b: View) {
    var call := world.TurnAt(a.place + 1);
    && b == a.(slots := b.slots, table := b.table, retry := b.retry, pollDue := b.pollDue, marks := b.marks,
               place := b.place)
    && GoesOn(world, a, b)
    && b.marks.pendingEnds == a.marks.pendingEnds && b.marks.settled == a.marks.settled && !b.marks.reloadWanted
    && (rows.Some? <==> call.answer.Served?)
    && match rows
       case Some(read) =>
         && read == StoreReads.ListActive(b.table, call.unreadable) && Reloaded(a.slots, read, b.slots, b.marks)
         && b.retry == NO_RETRY && b.pollDue == PollAfter(world.TurnAt(a.place).wall, reloadPoll)
       case None =>
         && b.slots == a.slots && b.marks.stopping == a.marks.stopping && b.marks.cancelled == a.marks.cancelled
         && b.retry == Backoff(a.retry, world.TurnAt(a.place + 2).wall) && b.pollDue.None?
  }

  // ------------------------------------------------------------------
  // Timed-out runs
  // ------------------------------------------------------------------

  /**
   A look at one slot for a run past its deadline: the clock it was held against; when
   there was one, what joining it gave and at which turn; the writes asked for, and what
   was left of the slot.
   */
  datatype Expiry = Expiry(clock: int, joined: Option<Report>, place: int, writes: seq<Attempt>, left: seq<Slot>)

  const UNSEEN := Expiry(0, None, 0, [], [])

  /** An overdue run is recorded as timed out if it had to be cut short, and else as what it ended with. */
  predicate ExpiredAs(slot: Slot, e: Expiry) {
    && (e.joined.Some? <==> slot.run.Some? && slot.run.value.deadline <= e.clock)
    && match e.joined
       case None => e.writes == [] && e.left == [slot]
       case Some(joined) =>
         && CompletionWrites(e.writes, slot.schedule, if joined.Aborted? then Ran(TimedOut) else joined,
                             slot.next.None?)
         && e.left == if joined.AskedDelete? || joined.AskedDisable? || slot.next.None? then []
                      else [slot.(run := None)]
  }

  /** What joining gave is what the script had, at a turn taken between these places. */
  ghost predicate JoinedAs(world: World, e: Expiry, from: int, to: int) {
    e.joined.Some? ==> world.Taken(e.place, from, to) && e.joined.value == world.TurnAt(e.place).late
  }

  /** What the looks so far left of the slots, in order. */
  function Survivors(expiries: seq<Expiry>): seq<Slot> {
    if expiries == [] then [] else Survivors(expiries[..|expiries| - 1]) + expiries[|expiries| - 1].left
  }

  /** The writes the looks so far asked for, in order. */
  function Requests(expiries: seq<Expiry>): seq<Attempt> {
    if expiries == [] then [] else Requests(expiries[..|expiries| - 1]) + expiries[|expiries| - 1].writes
  }

  /** The first slots of `before` were looked at, one after the other, and the others are as they were. */
  ghost predicate Looked(world: World, before: Trail, expiries: seq<Expiry>, after: Trail, from: int, to: int) {
    && |expiries| <= |before.slots|
    && (forall k :: 0 <= k < |expiries| ==>
          ExpiredAs(before.slots[k], expiries[k]) && JoinedAs(world, expiries[k], from, to))
    && after.slots == Survivors(expiries) + before.slots[|expiries|..]
    && after.writes == before.writes + Requests(expiries)
    && after.launches == before.launches
  }

  lemma NothingLooked(world: World, before: Trail, place: int)
    ensures Looked(world, before, [], before, place, place)
    ensures forall was, clock :: Swept(world, before, was, [], before, was, place, place, clock, clock)
  {
  }

  lemma LookedStays(world: World, before: Trail, expiries: seq<Expiry>, after: Trail, from: int, mid: int, to: int)
    requires Looked(world, before, expiries, after, from, mid) && mid <= to <= |world.script|
    ensures Looked(world, before, expiries, after, from, to)
  {
  }

  lemma OneMoreLook(expiries: seq<Expiry>, e: Expiry)
    ensures Survivors(expiries + [e]) == Survivors(expiries) + e.left
    ensures Requests(expiries + [e]) == Requests(expiries) + e.writes
  {
    var more := expiries + [e];
    assert more[..|more| - 1] == expiries && more[|more| - 1] == e;
  }

  /** The slot at `index` was looked at. */
  ghost predicate LookedAt(world: World, was: Trail, index: nat, e: Expiry, after: Trail, from: int, to: int) {
    && index < |was.slots|
    && ExpiredAs(was.slots[index], e) && JoinedAs(world, e, from, to)
    && after.slots == was.slots[..index] + e.left + was.slots[index + 1..]
    && after.writes == was.writes + e.writes
    && after.launches == was.launches
  }

  /** A slot whose run was overdue, or was not. */
  lemma LooksAt(world: World, was: Trail, index: nat, clock: int, joined: Option<Report>, writes: seq<Attempt>,
                removed: bool, after: Trail, from: int, to: int)
    requires index < |was.slots|
    requires joined.Some? <==> was.slots[index].run.Some? && was.slots[index].run.value.deadline <= clock
    requires match joined
             case None => after == was && writes == [] && !removed
             case Some(late) =>
               && world.Taken(from, from, to) && late == world.TurnAt(from).late
               && CompletionWrites(writes, was.slots[index].schedule, if late.Aborted? then Ran(TimedOut) else late,
                                   was.slots[index].next.None?)
               && (removed <==> late.AskedDelete? || late.AskedDisable? || was.slots[index].next.None?)
               && after.slots == (if removed then Without(was.slots, index)
                                  else was.slots[index := was.slots[index].(run := None)])
               && after.writes == was.writes + writes && after.launches == was.launches
    ensures var left := if removed then [] else if joined.None? then [was.slots[index]]
                        else [was.slots[index].(run := None)];
            LookedAt(world, was, index, Expiry(clock, joined, from, writes, left), after, from, to)
  {
    hide CompletionWrites;
    var left := if removed then [] else if joined.None? then [was.slots[index]]
      else [was.slots[index].(run := None)];
    assert after.slots == was.slots[..index] + left + was.slots[index + 1..];
  }

  lemma SlotExpired(world: World, was: Trail, index: nat, e: Expiry, after: Trail, from: int, to: int)
    requires LookedAt(world, was, index, e, after, from, to)
    ensures index < |was.slots| && ExpiredAs(was.slots[index], e)
  {
  }

  /** A look at one more slot. */
  lemma LookedStep(world: World, before: Trail, expiries: seq<Expiry>, was: Trail, e: Expiry, after: Trail, from: int,
                   mid: int, to: int)
    requires Looked(world, before, expiries, was, from, mid) && from <= mid <= to <= |world.script|
    requires LookedAt(world, was, |Survivors(expiries)|, e, after, mid, to)
    ensures |expiries| < |before.slots| && Looked(world, before, expiries + [e], after, from, to)
    ensures was.slots[|Survivors(expiries)|] == before.slots[|expiries|]
    ensures |Survivors(expiries + [e])| == |Survivors(expiries)| + |e.left| <= |after.slots|
  {
    hide Survivors, Requests, ExpiredAs;
    OneMoreLook(expiries, e);
    assert was.slots[|Survivors(expiries)|] == before.slots[|expiries|];
    assert was.slots[..|Survivors(expiries)|] == Survivors(expiries);
    assert was.slots[|Survivors(expiries)| + 1..] == before.slots[|expiries| + 1..];
  }

  /** Every run of the slots looked at that was overdue has been completed, and no other. */
  ghost predicate CompletedBy(before: seq<Slot>, expiries: seq<Expiry>, was: set<nat>, now: set<nat>) {
    && |expiries| <= |before|
    && forall key :: key in now <==>
         key in was || exists k :: 0 <= k < |expiries| && expiries[k].joined.Some? && Runs(before[k], key)
  }

  lemma CompletedStep(before: seq<Slot>, expiries: seq<Expiry>, e: Expiry, was: set<nat>, mid: set<nat>, now: set<nat>)
    requires CompletedBy(before, expiries, was, mid) && |expiries| < |before| && ExpiredAs(before[|expiries|], e)
    requires now == mid + (if e.joined.Some? then {before[|expiries|].run.value.key} else {})
    ensures CompletedBy(before, expiries + [e], was, now)
  {
    var more := expiries + [e];
    forall key | key in now
      ensures key in was || exists k :: 0 <= k < |more| && more[k].joined.Some? && Runs(before[k], key)
    {
      if key in mid && key !in was {
        var k :| 0 <= k < |expiries| && expiries[k].joined.Some? && Runs(before[k], key);
        assert more[k] == expiries[k];
      } else if key !in mid {
        assert more[|expiries|] == e;
      }
    }
    forall k, key | 0 <= k < |more| && more[k].joined.Some? && Runs(before[k], key) ensures key in now {
      if k < |expiries| {
        assert expiries[k] == more[k];
      }
    }
  }

  /** Every look was held against a reading of the clock between these. */
  predicate ClocksWithin(expiries: seq<Expiry>, from: int, to: int) {
    forall k :: 0 <= k < |expiries| ==> from <= expiries[k].clock <= to
  }

  /** What the looks so far have done: Looked, CompletedBy and ClocksWithin at once. */
  ghost predicate Swept(world: World, before: Trail, was: set<nat>, expiries: seq<Expiry>, after: Trail,
                        now: set<nat>, from: int, to: int, early: int, late: int)
  {
    && Looked(world, before, expiries, after, from, to)
    && CompletedBy(before.slots, expiries, was, now)
    && ClocksWithin(expiries, early, late)
  }

  lemma SweptStays(world: World, before: Trail, was: set<nat>, expiries: seq<Expiry>, after: Trail, now: set<nat>,
                   from: int, mid: int, to: int, early: int, late: int, later: int)
    requires Swept(world, before, was, expiries, after, now, from, mid, early, late)
    requires mid <= to <= |world.script| && late <= later
    ensures Swept(world, before, was, expiries, after, now, from, to, early, later)
  {
    LookedStays(world, before, expiries, after, from, mid, to);
  }

  lemma SweptSince(world: World, before: Trail, was: set<nat>, expiries: seq<Expiry>, after: Trail, now: set<nat>,
                   from: int, mid: int, to: int, early: int, late: int)
    requires Swept(world, before, was, expiries, after, now, mid, to, early, late) && from <= mid
    ensures Swept(world, before, was, expiries, after, now, from, to, early, late)
  {
  }

  /** A look at one more slot, with all that it did. */
  lemma SweptStep(world: World, before: Trail, was: set<nat>, expiries: seq<Expiry>, at: Trail, done: set<nat>,
                  e: Expiry, after: Trail, now: set<nat>, from: int, mid: int, to: int, early: int, late: int,
                  index: nat)
    requires Swept(world, before, was, expiries, at, done, from, mid, early, late)
    requires from <= mid <= to <= |world.script| && early <= late <= e.clock && index == |Survivors(expiries)|
    requires LookedAt(world, at, index, e, after, mid, to)
    requires now == done + (if e.joined.Some? then {at.slots[index].run.value.key} else {})
    ensures |expiries| < |before.slots|
    ensures Swept(world, before, was, expiries + [e], after, now, from, to, early, e.clock)
    ensures |Survivors(expiries + [e])| == index + |e.left| <= |after.slots|
  {
    hide ExpiredAs, Survivors, CompletedBy, Looked, LookedAt;
    SlotExpired(world, at, index, e, after, mid, to);
    LookedStep(world, before, expiries, at, e, after, from, mid, to);
    CompletedStep(before.slots, expiries, e, was, done, now);
  }

  lemma {:induction false} SurvivesFrom(expiries: seq<Expiry>, slot: Slot)
    requires slot in Survivors(expiries)
    ensures exists k :: 0 <= k < |expiries| && slot in expiries[k].left
  {
    var n := |expiries| - 1;
    if slot in expiries[n].left {
    } else {
      SurvivesFrom(expiries[..n], slot);
      var k :| 0 <= k < n && slot in expiries[..n][k].left;
      assert slot in expiries[k].left;
    }
  }

  lemma {:induction false} SurvivorsHold(expiries: seq<Expiry>, k: nat, slot: Slot)
    requires k < |expiries| && slot in expiries[k].left
    ensures slot in Survivors(expiries)
  {
    if k < |expiries| - 1 {
      SurvivorsHold(expiries[..|expiries| - 1], k, slot);
    }
  }

  /** Once every slot was looked at no run is overdue, and idle slots and runs in time are all there. */
  lemma SweepsLeaveNoneOverdue(world: World, before: Trail, was: set<nat>, expiries: seq<Expiry>, after: Trail,
                               now: set<nat>, from: int, to: int, early: int, late: int)
    requires Swept(world, before, was, expiries, after, now, from, to, early, late)
    ensures |Survivors(expiries)| == |after.slots| ==> |expiries| == |before.slots|
    ensures |expiries| == |before.slots| ==> NoneOverdue(after.slots, early)
    ensures forall slot :: slot in before.slots && (slot.run.None? || late < slot.run.value.deadline) ==>
              slot in after.slots
  {
    if |expiries| == |before.slots| {
      forall j | 0 <= j < |after.slots| && after.slots[j].run.Some? ensures early < after.slots[j].run.value.deadline {
        SurvivesFrom(expiries, after.slots[j]);
        var k :| 0 <= k < |expiries| && after.slots[j] in expiries[k].left;
        assert ExpiredAs(before.slots[k], expiries[k]);
      }
    }
    forall slot | slot in before.slots && (slot.run.None? || late < slot.run.value.deadline)
      ensures slot in after.slots
    {
      var k :| 0 <= k < |before.slots| && before.slots[k] == slot;
      if k < |expiries| {
        assert ExpiredAs(slot, expiries[k]);
        SurvivorsHold(expiries, k, slot);
      } else {
        assert before.slots[|expiries|..][k - |expiries|] == slot;
      }
    }
  }

  // ------------------------------------------------------------------
  // One round of the loop
  // ------------------------------------------------------------------

  /** The owed endings were asked for again if their date had come, and else nothing was done. */
  ghost predicate EndingsRetried(world: World, a: View, now: int, b: View) {
    GoesOn(world, a, b) &&
    if IsDue(a.writeRetry.due, now) then
      && b == a.(table := b.table, writes := b.writes, writeRetry := b.writeRetry, marks := b.marks, place := b.place)
      && b.marks.cancelled == a.marks.cancelled
      && a.writes <= b.writes && EndingsAsked(b.writes[|a.writes|..], a.marks.pendingEnds, b.marks.stopping)
      && (a.marks.pendingEnds == [] ==> b == a.(writeRetry := a.writeRetry.(due := None), place := b.place))
    else
      b == a
  }

  /** What makes a round read the rows again: a wish, a date that has come, or endings asked for again. */
  predicate ReadsAgain(a: View, now: int) {
    a.marks.reloadWanted || IsDue(a.writeRetry.due, now) || IsDue(a.retry.due, now) || IsDue(a.pollDue, now)
  }

  /** What a decision blames on others the world does: hold a name, refuse a launch. */
  ghost predicate Warranted(world: World, d: Decision) {
    (d.held ==> world.MayHold()) && (!d.admitted ==> world.MayRefuse())
  }

  ghost predicate AllWarranted(world: World, decisions: seq<Decision>) {
    forall k :: 0 <= k < |decisions| ==> Warranted(world, decisions[k])
  }

  /** Every slot was looked at for an overdue run, and then, by a fresh reading of the clock, every due one launched. */
  ghost predicate SlotsServed(world: World, policy: MissedTickPolicy, a: View, expiries: seq<Expiry>, expired: View,
                              now: int, decisions: seq<Decision>, b: View)
  {
    && Swept(world, a.Track(), a.completed, expiries, expired.Track(), expired.completed, a.place, expired.place,
             a.monotonic, expired.monotonic)
    && (expired.marks.stopping || |expiries| == |a.slots|) && (a.marks.stopping ==> expiries == [])
    && now == world.TurnAt(expired.place).wall
    && PassDone(expired.Track(), decisions, b.Track(), now, policy, b.marks) && AllWarranted(world, decisions)
    && MadeWithin(decisions, expired.monotonic, b.monotonic)
    && (expired.marks.stopping ==> b.Track() == expired.Track())
    && b.completed == expired.completed && b.marks.cancelled == expired.marks.cancelled == a.marks.cancelled
    && b.retry == a.retry && b.pollDue == a.pollDue
    && GoesOn(world, a, expired) && GoesOn(world, expired, b) && expired.monotonic <= b.monotonic
  }

  /**
   Everything a worker is to wake for: next runs of slots not held by name, run
   deadlines, retries and the poll.
   */
  ghost predicate Obliged(v: View, at: int, now: int, held: set<nat>) {
    || (exists k :: 0 <= k < |v.slots| && SlotObliges(v.slots[k], at, now, v.monotonic, k in held))
    || v.retry.due == Some(at) || v.writeRetry.due == Some(at) || v.pollDue == Some(at)
  }

  /** The earliest instant it is to wake for, or the end of time when there is none. */
  ghost predicate WakesAt(v: View, wake: int, now: int, held: set<nat>) {
    && (forall at :: Obliged(v, at, now, held) ==> wake <= at)
    && (Obliged(v, wake, now, held) || (wake == MAX_UTC && forall at :: !Obliged(v, at, now, held)))
  }

  /** The later of a reading of the monotonic clock and the one before. */
  function Later(clock: int, reading: int): int {
    if clock < reading then reading else clock
  }

  /** When to wake after a round: at once for a reload, else for the first obligation; never when stopped. */
  ghost predicate Rested(world: World, a: View, served: int, wake: Option<int>, now: int, held: set<nat>, b: View) {
    && b == a.(marks := a.marks.(stopping := b.marks.stopping), monotonic := b.monotonic, place := b.place)
    && b.marks.stopping == (a.marks.stopping || world.TurnAt(a.place).stop)
    && a.place <= b.place <= |world.script| && world.Taken(a.place, a.place, b.place)
    && (wake.None? <==> b.marks.stopping)
    && (wake.Some? && b.marks.reloadWanted ==> wake.value == served)
    && (wake.Some? && !b.marks.reloadWanted ==>
          && now == world.TurnAt(a.place + 1).wall
          && b.monotonic == Later(a.monotonic, world.TurnAt(a.place + 2).monotonic)
          && WakesAt(b, wake.value, now, held) && (held != {} ==> world.MayHold()))
  }

  /** What a round came to, from one of its steps to the next, and the readings it served and slept by. */
  datatype Round = Round(
    ready: View,
    began: int,
    retried: View,
    rows: Option<seq<Schedule>>,
    merged: View,
    expiries: seq<Expiry>,
    expired: View,
    served: int,
    decisions: seq<Decision>,
    passed: View,
    now: int,
    held: set<nat>)

  /**
   One round up to the sleep. A worker asked to stop does nothing more. Any other asks for
   the endings it owes and reads the rows again, each if it must; times out overdue runs
   and launches what is due; and finds out when to wake.
   */
  ghost predicate RoundDone(world: World, policy: MissedTickPolicy, reloadPoll: int, a: View, round: Round,
                            wake: Option<int>, b: View)
  {
    && world.Accounts(a.writes, a.table) && world.Accounts(b.writes, b.table) && a.place <= |world.script|
    && if a.marks.stopping || world.TurnAt(a.place).stop then
      && wake.None? && b == a.(marks := a.marks.(stopping := true), place := b.place)
      && world.Taken(a.place, a.place, b.place)
    else
      && world.Accounts(round.merged.writes, round.merged.table)
      && round.ready == a.(place := if a.place + 2 <= |world.script| then a.place + 2 else |world.script|)
      && round.began == world.TurnAt(a.place + 1).wall
      && EndingsRetried(world, round.ready, round.began, round.retried)
      && (if ReadsAgain(round.ready, round.began)
          then ReadAgain(world, reloadPoll, round.retried, round.rows, round.merged)
          else round.rows.None? && round.merged == round.retried)
      && SlotsServed(world, policy, round.merged, round.expiries, round.expired, round.served, round.decisions,
                  round.passed)
      && Rested(world, round.passed, round.served, wake, round.now, round.held, b)
  }

  lemma ReadIsDistinct(world: World, reloadPoll: int, a: View, rows: Option<seq<Schedule>>, b: View)
    requires ReadAgain(world, reloadPoll, a, rows, b) && IdsDistinct(a.slots)
    ensures IdsDistinct(b.slots)
  {
  }

  // ------------------------------------------------------------------
  // The next wake
  // ------------------------------------------------------------------

  /** The earliest instant the first `n` slots are to be looked at, if there is one. */
  ghost predicate LeastOf(slots: seq<Slot>, n: nat, least: Option<int>, now: int, clock: int, held: set<nat>)
    requires n <= |slots|
  {
    && (forall k :: k in held ==> k < n)
    && (forall k, at :: 0 <= k < n && SlotObliges(slots[k], at, now, clock, k in held) ==>
          least.Some? && least.value <= at)
    && (least.Some? ==> exists k :: 0 <= k < n && SlotObliges(slots[k], least.value, now, clock, k in held))
  }

  /** The earliest of what came before and of what one slot obliges to. */
  function LeastWith(least: Option<int>, slot: Slot, isHeld: bool, now: int, clock: int): Option<int> {
    var next := if slot.next.Some? && !isHeld then Earliest(least, slot.next) else least;
    if slot.run.Some? then Earliest(next, Some(WallAfter(now, Remaining(slot.run.value.deadline, clock)))) else next
  }

  lemma LeastOfNone(slots: seq<Slot>, now: int, clock: int)
    ensures LeastOf(slots, 0, None, now, clock, {})
  {
  }

  lemma LeastStep(slots: seq<Slot>, n: nat, least: Option<int>, now: int, clock: int, held: set<nat>, isHeld: bool)
    requires n < |slots| && LeastOf(slots, n, least, now, clock, held)
    ensures LeastOf(slots, n + 1, LeastWith(least, slots[n], isHeld, now, clock), now, clock,
                    if isHeld then held + {n} else held)
  {
    hide WallAfter, Remaining;
    var after := LeastWith(least, slots[n], isHeld, now, clock);
    var more := if isHeld then held + {n} else held;
    forall k, at | 0 <= k < n + 1 && SlotObliges(slots[k], at, now, clock, k in more)
      ensures after.Some? && after.value <= at
    {
      if k < n {
        assert SlotObliges(slots[k], at, now, clock, k in held);
      }
    }
    if after.Some? {
      if after == least {
        var k :| 0 <= k < n && SlotObliges(slots[k], least.value, now, clock, k in held);
        assert SlotObliges(slots[k], after.value, now, clock, k in more);
      } else {
        assert SlotObliges(slots[n], after.value, now, clock, n in more);
      }
    }
  }

  lemma LeastWakes(v: View, least: Option<int>, now: int, held: set<nat>)
    requires LeastOf(v.slots, |v.slots|, least, now, v.monotonic, held)
    ensures var at := Earliest(Earliest(Earliest(least, v.retry.due), v.writeRetry.due), v.pollDue);
            WakesAt(v, if at.Some? then at.value else MAX_UTC, now, held)
  {
    hide SlotObliges;
    var at := Earliest(Earliest(Earliest(least, v.retry.due), v.writeRetry.due), v.pollDue);
    if at.Some? && at == least {
      assert Obliged(v, at.value, now, held);
    }
  }

  // ------------------------------------------------------------------
  // The sleep
  // ------------------------------------------------------------------

  /** A run that is finished leaves its slot as completed, and its report is acted on; a slot goes as that asks. */
  ghost predicate RunEnded(a: View, index: nat, report: Report, b: View) {
    if index < |a.slots| && a.slots[index].run.Some? then
      var slot := a.slots[index];
      var removed := report.AskedDelete? || report.AskedDisable? || slot.next.None?;
      && b == a.(slots := if removed then Without(a.slots, index) else a.slots[index := slot.(run := None)],
                 completed := a.completed + {slot.run.value.key},
                 table := b.table, writes := b.writes, writeRetry := b.writeRetry, marks := b.marks, place := b.place)
      && b.marks.stopping == a.marks.stopping && b.marks.cancelled == a.marks.cancelled
      && a.writes <= b.writes
      && CompletionWrites(b.writes[|a.writes|..], slot.schedule, report, slot.next.None?)
      && (removed ==> b.writes != []
                      && Ended(slot.schedule, report, b.writes[|b.writes| - 1].result, b.marks, b.writeRetry))
    else
      b == a.(place := b.place)
  }

  /** What woke the worker is the next event of the script, and it did what that calls for and nothing else. */
  ghost predicate Slept(world: World, a: View, open: bool, event: Event, reloads: bool, b: View) {
    && event == world.TurnAt(a.place).event && a.place <= b.place <= |world.script|
    && reloads == (if event.ReloadSignalled? && open then event.open else open)
    && match event
       case ShutdownMessage => b == a.(marks := a.marks.(stopping := true), place := b.place)
       case ReloadSignalled(still) =>
         b == a.(marks := a.marks.(reloadWanted := a.marks.reloadWanted || (open && still)), place := b.place)
       case RunFinished(index, report) => RunEnded(a, index, report, b)
       case _ => b == a.(place := b.place)
  }

  // ------------------------------------------------------------------
  // The loop
  // ------------------------------------------------------------------

  /** A round and the sleep after it; `open` says whether reload signals still come. */
  datatype Lap = Lap(
    from: View,
    open: bool,
    round: Round,
    wake: Option<int>,
    rested: View,
    event: Event,
    reloads: bool,
    to: View)

  ghost predicate LapDone(world: World, policy: MissedTickPolicy, reloadPoll: int, lap: Lap) {
    && RoundDone(world, policy, reloadPoll, lap.from, lap.round, lap.wake, lap.rested)
    && if lap.wake.None? then lap.to == lap.rested
       else Slept(world, lap.rested, lap.open, lap.event, lap.reloads, lap.to)
  }

  predicate LapFollows(earlier: Lap, later: Lap) {
    earlier.wake.Some? && later.from == earlier.to && later.open == earlier.reloads
  }

  /** Each lap goes from where the one before came to, and none follows one that ended with the worker stopped. */
  ghost predicate LapsDone(world: World, policy: MissedTickPolicy, reloadPoll: int, from: View, laps: seq<Lap>,
                           to: View)
  {
    && (forall k :: 0 <= k < |laps| ==> LapDone(world, policy, reloadPoll, laps[k]))
    && (forall k :: 0 < k < |laps| ==> LapFollows(laps[k - 1], laps[k]))
    && if laps == [] then to == from else laps[0].from == from && laps[0].open && laps[|laps| - 1].to == to
  }

  lemma NoLaps(world: World, policy: MissedTickPolicy, reloadPoll: int, v: View)
    ensures LapsDone(world, policy, reloadPoll, v, [], v)
  {
  }

  lemma OneMoreLap(world: World, policy: MissedTickPolicy, reloadPoll: int, from: View, laps: seq<Lap>, lap: Lap)
    requires LapsDone(world, policy, reloadPoll, from, laps, lap.from) && LapDone(world, policy, reloadPoll, lap)
    requires lap.open == if laps == [] then true else laps[|laps| - 1].reloads
    requires laps != [] ==> laps[|laps| - 1].wake.Some?
    ensures LapsDone(world, policy, reloadPoll, from, laps + [lap], lap.to)
  {
    hide LapDone;
    var more := laps + [lap];
    forall k | 0 <= k < |more| ensures LapDone(world, policy, reloadPoll, more[k]) {
      if k < |laps| {
        assert more[k] == laps[k];
      }
    }
  }

  // ------------------------------------------------------------------
  // The drain
  // ------------------------------------------------------------------

  /** One event of the drain; a timer times out all runs overdue by one reading of the clock, a message cancels all. */
  datatype Draining = Draining(from: View, event: Event, expiries: seq<Expiry>, to: View)

  ghost predicate Drained(world: World, d: Draining) {
    && AnyRunning(d.from.slots) && d.event == world.TurnAt(d.from.place).event
    && (d.event.TimerFired? ==>
          d.to.monotonic == Later(d.from.monotonic, world.TurnAt(d.from.place + 1).monotonic))
    && DrainedAs(world, d.from, d.event, d.expiries, d.to)
  }

  /** What an event makes of the runs. */
  ghost predicate DrainedAs(world: World, a: View, event: Event, expiries: seq<Expiry>, b: View) {
    match event
    case RunFinished(index, report) => RunEnded(a, index, report, b)
    case TimerFired =>
      && Swept(world, a.Track(), a.completed, expiries, b.Track(), b.completed, a.place, b.place, b.monotonic,
               b.monotonic)
      && |expiries| == |a.slots|
      && b.marks.cancelled == a.marks.cancelled && b.marks.stopping == a.marks.stopping
    case ShutdownMessage =>
      && b == a.(slots := b.slots, marks := a.marks.(cancelled := b.marks.cancelled), place := b.place)
      && |b.slots| == |a.slots| && (forall k :: 0 <= k < |b.slots| ==> b.slots[k] == a.slots[k].(run := None))
      && (forall key :: key in b.marks.cancelled <==>
            key in a.marks.cancelled || exists k :: 0 <= k < |a.slots| && Runs(a.slots[k], key))
    case _ => b == a.(place := b.place)
  }

  /** Each event finds what the one before left. */
  ghost predicate DrainedAll(world: World, from: View, drain: seq<Draining>, to: View) {
    && (forall k :: 0 <= k < |drain| ==> Drained(world, drain[k]))
    && (forall k :: 0 < k < |drain| ==> drain[k].from == drain[k - 1].to)
    && if drain == [] then to == from else drain[0].from == from && drain[|drain| - 1].to == to
  }

  /** An event is dealt with after it was waited for. */
  lemma EventDrains(world: World, a: View, mid: View, event: Event, expiries: seq<Expiry>, b: View)
    requires mid == a.(place := mid.place) && a.place <= mid.place && DrainedAs(world, mid, event, expiries, b)
    ensures DrainedAs(world, a, event, expiries, b)
  {
    if event.TimerFired? {
      SweptSince(world, a.Track(), a.completed, expiries, b.Track(), b.completed, a.place, mid.place, b.place,
                 b.monotonic, b.monotonic);
    }
  }

  lemma NoneDrained(world: World, v: View)
    ensures DrainedAll(world, v, [], v)
  {
  }

  lemma OneMoreDrained(world: World, from: View, drain: seq<Draining>, d: Draining)
    requires DrainedAll(world, from, drain, d.from) && Drained(world, d)
    ensures DrainedAll(world, from, drain + [d], d.to)
  {
    hide Drained;
    var more := drain + [d];
    forall k | 0 <= k < |more| ensures Drained(world, more[k]) {
      if k < |drain| {
        assert more[k] == drain[k];
      }
    }
  }

  // ------------------------------------------------------------------
  // A life
  // ------------------------------------------------------------------

  /** How long one worker lives: rounds of its loop and events of its drain, after any number of which it is dropped. */
  datatype Life = Life(policy: MissedTickPolicy, reloadPoll: int, rounds: nat, events: nat)

  datatype History = History(begun: View, laps: seq<Lap>, looped: View, drain: seq<Draining>, ended: View)

  /**
   The loop went round as often as it was watched, unless it was stopped before; then the
   drain dealt with as many events, unless no run was left before.
   */
  ghost predicate Lived(world: World, life: Life, h: History) {
    && LapsDone(world, life.policy, PollOf(life.reloadPoll), h.begun, h.laps, h.looped) && |h.laps| <= life.rounds
    && (|h.laps| < life.rounds ==> h.laps != [] && h.laps[|h.laps| - 1].wake.None?)
    && DrainedAll(world, h.looped, h.drain, h.ended) && |h.drain| <= life.events
    && (|h.drain| < life.events ==> !AnyRunning(h.ended.slots))
  }

  /** A new worker has no slots, wants a reload and owes nothing; what went before is as it was left. */
  ghost predicate Begins(past: Past, begun: View) {
    && begun.slots == [] && begun.marks.reloadWanted && !begun.marks.stopping && begun.marks.pendingEnds == []
    && begun.retry == NO_RETRY && begun.writeRetry == NO_RETRY && begun.pollDue.None?
    && begun.Outlasts() == past
  }

  /** The interval of the poll is never below one second. */
  function PollOf(reloadPoll: int): (interval: int)
    ensures interval >= 1_000_000_000 && (reloadPoll >= 1_000_000_000 ==> interval == reloadPoll)
  {
    if reloadPoll < MIN_RELOAD_POLL then MIN_RELOAD_POLL else reloadPoll
  }

  /** Each worker lived its life from what the one before it left, the first one from `first`. */
  ghost predicate LivedInTurn(world: World, first: Past, lives: seq<Life>, histories: seq<History>, last: Past) {
    && |histories| == |lives|
    && (forall k :: 0 <= k < |lives| ==> Lived(world, lives[k], histories[k]))
    && (forall k :: 0 < k < |lives| ==> Begins(histories[k - 1].ended.Outlasts(), histories[k].begun))
    && if lives == [] then last == first
       else Begins(first, histories[0].begun) && histories[|lives| - 1].ended.Outlasts() == last
  }

  lemma OneMoreLife(world: World, first: Past, lives: seq<Life>, histories: seq<History>, n: nat, mid: Past, h: History)
    requires n < |lives| && LivedInTurn(world, first, lives[..n], histories, mid)
    requires Lived(world, lives[n], h) && Begins(mid, h.begun)
    ensures LivedInTurn(world, first, lives[..n + 1], histories + [h], h.ended.Outlasts())
  {
    hide Lived, Begins;
    var more := histories + [h];
    forall k | 0 <= k < n + 1 ensures Lived(world, lives[..n + 1][k], more[k]) {
      if k < n {
        assert lives[..n][k] == lives[k] && more[k] == histories[k];
      }
    }
    forall k | 0 < k < n + 1 ensures Begins(more[k - 1].ended.Outlasts(), more[k].begun) {
      if k < n {
        assert more[k] == histories[k] && more[k - 1] == histories[k - 1];
      }
    }
  }
}
