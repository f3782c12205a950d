/**
 The worker loop (crates/sc-cron/src/worker.rs and its submodules
 worker/store_calls.rs, worker/worker_runs.rs), against a world that other
 processes, clocks, jobs and the operator also act on.

 Monty runs are not modelled: every run is an abortable task.
 */
module Worker {
  import opened Options
  import opened Expr
  import opened Types
  import opened ScheduleTable
  import opened StoreHistory
  import StoreReads
  import opened WorkerState
  import opened WorkerWorld
  import opened WorkerReload
  import opened WorkerLaunch
  import opened WorkerRounds
  import opened WorkerRuns
  import opened WorkerSteps
  import WorkerRepeats

  class Worker {
    const world: World
    const policy: MissedTickPolicy
    const reloadPoll: int
    var slots: seq<Slot>
    /** The slots a merge has taken out and not yet put back. */
    ghost var taken: seq<Slot>
    /** The rows a merge is working through. */
    ghost var listing: seq<Schedule>
    var stopping: bool
    var reloadWanted: bool
    var retry: ReloadRetry
    var writeRetry: ReloadRetry
    var pendingEnds: seq<Schedule>
    var pollDue: Option<int>
    /** A poll deadline fell outside the range of a date-time. */
    ghost var pollLost: bool

    ghost function Snapshot(): State
      reads this, world
    {
      State(world.table, multiset(slots) + multiset(taken), pendingEnds, world.Logged(), world.completed,
            world.cancelled)
    }

    /** Where this worker stands among the steps. */
    ghost function Here(merging: bool): Config
      reads this, world
    {
      Config(Snapshot(), listing, merging, stopping)
    }

    ghost predicate Sound()
      reads this, world
    {
      && Safe(Snapshot()) && AllListed(listing, world.table, world.Logged()) && world.Scripted()
      && reloadPoll >= MIN_RELOAD_POLL
    }

    /** A reload is wanted or has a date. */
    ghost predicate Armed()
      reads this
    {
      reloadWanted || retry.due.Some? || pollDue.Some? || pollLost
    }

    ghost function Marked(): Marks
      reads this, world
    {
      Marks(stopping, reloadWanted, Armed(), EndingsArmed(), pendingEnds, world.settled, world.cancelled)
    }

    /** While an ending is owed its retry has a date. */
    ghost predicate EndingsArmed()
      reads this
    {
      pendingEnds != [] ==> writeRetry.due.Some? || stopping
    }

    ghost predicate Valid()
      reads this, world
    {
      Sound() && taken == [] && listing == [] && IdsDistinct(slots) && Armed() && EndingsArmed()
    }

    /**
     A worker over a world that earlier workers may have left: runs they still had
     in flight were aborted when they were dropped.
     */
    constructor (world: World, policy: MissedTickPolicy, reloadPoll: int, ghost left: Config)
      requires Safe(left.state) && world.Scripted()
      requires left.state.table == world.table && left.state.log == world.Logged()
      requires left.state.completed == world.completed && left.state.cancelled == world.cancelled
      modifies world`cancelled
      ensures Here(false) == Stepped(left, world.cap, Restart)
      ensures Valid() && slots == [] && this.world == world && this.policy == policy
      ensures reloadWanted && !stopping && pendingEnds == []
      ensures this.reloadPoll == PollOf(reloadPoll) && Begins(old(PastOf(world)), Seen())
      ensures world.cancelled == old(world.cancelled) + Unfinished(left.state)
    {
      this.world := world;
      this.policy := policy;
      this.reloadPoll := if reloadPoll < MIN_RELOAD_POLL then MIN_RELOAD_POLL else reloadPoll;
      slots, taken, listing := [], [], [];
      stopping, reloadWanted := false, true;
      retry, writeRetry := NO_RETRY, NO_RETRY;
      pendingEnds, pollDue, pollLost := [], None, false;
      new;
      StartOver(left.state);
      var lost := set k: nat | k < |world.launches| && k !in world.completed && k !in world.cancelled;
      world.cancelled := world.cancelled + lost;
      assert lost == Unfinished(left.state);
      assert Here(false) == Stepped(left, world.cap, Restart);
    }

    // ----------------------------------------------------------------
    // Reading the world
    // ----------------------------------------------------------------

    method Now() returns (now: int)
      requires Sound()
      modifies world`turns
      ensures |world.turns| <= |old(world.turns)|
      ensures world.OneTaken(old(world.Place()), world.Place())
      ensures Snapshot() == old(Snapshot())
      ensures Sound() && Marked() == old(Marked())
      ensures now == old(world.Ahead()).wall && MIN_UTC <= now <= MAX_UTC
    {
      hide Safe, AllListed;
      var turn := world.Take();
      now := turn.wall;
    }

    method NoteClock(at: int)
      requires Sound()
      modifies world`monotonic
      ensures Snapshot() == old(Snapshot())
      ensures Sound() && Marked() == old(Marked())
      ensures world.monotonic == if old(world.monotonic) < at then at else old(world.monotonic)
    {
      hide Safe, AllListed;
      if world.monotonic < at {
        world.monotonic := at;
      }
    }

    /** The monotonic clock never goes back. */
    method MonotonicNow() returns (now: int)
      requires Sound()
      modifies world`turns, world`monotonic
      ensures |world.turns| <= |old(world.turns)|
      ensures world.OneTaken(old(world.Place()), world.Place())
      ensures Snapshot() == old(Snapshot())
      ensures Sound() && Marked() == old(Marked())
      ensures now == world.monotonic && old(world.monotonic) <= world.monotonic
      ensures world.monotonic == Later(old(world.monotonic), old(world.Ahead()).monotonic)
    {
      hide Sound, Armed, EndingsArmed;
      var turn := NextEvent();
      NoteClock(turn.monotonic);
      now := world.monotonic;
    }

    method StopRequested() returns (stop: bool)
      requires Sound()
      modifies `stopping, world`turns
      ensures |world.turns| <= |old(world.turns)|
      ensures world.OneTaken(old(world.Place()), world.Place())
      ensures Snapshot() == old(Snapshot())
      ensures Sound() && Progress(old(Marked()), Marked())
      ensures Marked() == old(Marked()).(stopping := stopping, endingsArmed := EndingsArmed())
      ensures stop == stopping == (old(stopping) || old(world.Ahead()).stop)
      ensures stop && !old(stopping) ==> world.StopAsked(old(world.Place()), world.Place())
    {
      var turn := world.Take();
      if turn.stop {
        stopping := true;
      }
      stop := stopping;
      EndingsGrow(pendingEnds, pendingEnds, world.settled);
    }

    // ----------------------------------------------------------------
    // Store writes
    // ----------------------------------------------------------------

    /** One fenced write. A `set_next` must name a time past the stored launches of its generation. */
    method Write(c: Command)
      returns (result: CallResult, found: Option<Schedule>, ghost met: Table, ghost foreign: seq<Command>)
      requires Sound() && Guarded(c)
      requires c.SetNext? ==> Before(world.Logged(), c.id, c.generation, c.nextRunAt)
      modifies world`turns, world`table, world`rewound, world`writes
      ensures |world.turns| <= |old(world.turns)|
      ensures Sound() && Marked() == old(Marked()) && old(world.rewound) <= world.rewound
      ensures world.writes == old(world.writes) + [Attempt(c, result, found.Some?, met)]
      ensures result.Replied? ==> result.changed == found.Some? == (Exec(met, world.cap, c).1 == Changed(true))
      ensures result.CallFailed? ==> world.MayFail()
      ensures if found.Some?
              then c.id in met.rows && found.value == met.rows[c.id]
                && (world.table, Changed(true)) == Exec(met, world.cap, c)
              else world.table == met
      ensures ScheduleTable.Valid(met)
      ensures ValidCommands(foreign) && Interfered(old(Snapshot()), world.cap, foreign).table == met
      ensures Snapshot() == Interfered(old(Snapshot()), world.cap, foreign).(table := world.table)
      ensures Wrote(old(Snapshot()), world.cap, Sent(foreign, c, AnswerOf(result, found.Some?)), Snapshot())
    {
      hide Safe, AllListed, Before, Exec, ExecAll, RewoundByAll;
      ghost var before := Snapshot();
      result, found, met, foreign := world.Call(c);
      WriteAnswers(met, world.cap, c, result, found.Some?, world.table);
      WriteKeepsSafe(before, world.cap, foreign, c, listing);
      assert Snapshot() == Interfered(before, world.cap, foreign).(table := world.table);
    }

    /** Stores the next run time; a fenced or an uncertain write refuses the launch. */
    method PersistNext(schedule: Schedule, next: int)
      returns (proceed: bool, backing: Backing, result: CallResult, ghost foreign: seq<Command>)
      requires Sound()
      requires Before(world.Logged(), schedule.id, schedule.generation, Stamp(next))
      modifies `reloadWanted, world`turns, world`table, world`rewound, world`writes
      ensures |world.turns| <= |old(world.turns)|
      ensures Sound() && Progress(old(Marked()), Marked()) && old(world.rewound) <= world.rewound
      ensures proceed <==> result == Replied(true) || result == CallFailed(false)
      ensures reloadWanted == (old(reloadWanted) || result == Replied(false))
      ensures world.writes == old(world.writes)
                              + [Attempt(SetNext(schedule.id, schedule.generation, Stamp(next)), result,
                                         backing.Stored?, Interfered(old(Snapshot()), world.cap, foreign).table)]
      ensures !backing.NoSuccessor? && (result.Replied? ==> result.changed == backing.Stored?)
      ensures backing.Stored? ==>
                && backing.answered == result.Replied?
                && backing.row.id == schedule.id && backing.row.generation == schedule.generation
                && backing.row.IsActive() && backing.row.enabled
                && Current(world.table, schedule.id, schedule.generation)
                && world.table.rows[schedule.id].nextRunAt == Some(Stamp(next))
      ensures ValidCommands(foreign)
      ensures var call := SetNext(schedule.id, schedule.generation, Stamp(next));
              var between := Interfered(old(Snapshot()), world.cap, foreign);
              var stored := Exec(between.table, world.cap, call).0;
              && Snapshot() == between.(table := if backing.Stored? then stored else between.table)
              && (backing.Stored? ==>
                  schedule.id in between.table.rows && backing.row == between.table.rows[schedule.id]
                                      && Exec(between.table, world.cap, call).1 == Changed(true))
              && (result.Replied? ==> result.changed == (Exec(between.table, world.cap, call).1 == Changed(true)))
    {
      hide Safe, AllListed;
      var found;
      ghost var met;
      result, found, met, foreign := Write(SetNext(schedule.id, schedule.generation, Stamp(next)));
      backing := if found.Some? then Stored(found.value, result.Replied?) else NotStored;
      match result {
        case Replied(true) => proceed := true;
        case Replied(false) =>
          Fenced();
          proceed := false;
        case CallFailed(reconcile) => proceed := !reconcile;
      }
      EndingsGrow(pendingEnds, pendingEnds, world.settled);
    }

    method Fenced()
      requires Sound()
      modifies `reloadWanted
      ensures Snapshot() == old(Snapshot())
      ensures Sound() && reloadWanted && Progress(old(Marked()), Marked())
    {
      hide Safe, AllListed;
      reloadWanted := true;
      EndingsGrow(pendingEnds, pendingEnds, world.settled);
    }

    /** A stop or disable write reached the store. */
    method WriteAnswered()
      requires Sound()
      modifies `writeRetry
      ensures Snapshot() == old(Snapshot())
      ensures Sound() && Marked() == old(Marked())
      ensures writeRetry == if pendingEnds == [] then old(writeRetry).(failures := 0) else old(writeRetry)
    {
      hide Safe, AllListed;
      if pendingEnds == [] {
        writeRetry := writeRetry.(failures := 0);
      }
    }

    /** Asks for a reload with backoff, so that a schedule left without a slot is not lost. */
    method RebuildLater()
      requires Sound()
      modifies `writeRetry, world`turns
      ensures |world.turns| <= |old(world.turns)|
      ensures Snapshot() == old(Snapshot())
      ensures Sound() && writeRetry.due.Some? && Progress(old(Marked()), Marked())
      ensures Retried(old(writeRetry), writeRetry)
    {
      hide Safe, AllListed;
      var now := Now();
      writeRetry := Backoff(writeRetry, now);
      EndingsGrow(pendingEnds, pendingEnds, world.settled);
    }

    /** How the last write asked for came back. */
    ghost function LastResult(): CallResult
      requires world.writes != []
      reads this, world
    {
      world.writes[|world.writes| - 1].result
    }

    method SendStop(schedule: Schedule, reason: string) returns (result: CallResult, ghost w: Sent)
      requires Sound()
      modifies world`turns, world`table, world`rewound, world`writes
      ensures |world.turns| <= |old(world.turns)|
      ensures Sound() && Marked() == old(Marked())
      ensures Grew(old(world.writes), world.writes, 1) && IsStop(world.writes[|old(world.writes)|], schedule, reason)
      ensures world.writes[|old(world.writes)|].call.at == Stamp(old(world.Ahead()).wall)
      ensures result == LastResult()
      ensures Wrote(old(Snapshot()), world.cap, w, Snapshot()) && StopsAs(w, schedule, reason)
      ensures result == CallFailed(false) <==> KnownToFail(w.answer)
    {
      hide Sound, Armed, EndingsArmed, WrittenState;
      var at := Now();
      var found;
      ghost var met, foreign;
      result, found, met, foreign := Write(Stop(schedule.id, schedule.generation, Stamp(at), reason));
      w := Sent(foreign, Stop(schedule.id, schedule.generation, Stamp(at), reason), AnswerOf(result, found.Some?));
    }

    /** Writes the end of a schedule; true unless the write is known to have failed. */
    method End(schedule: Schedule, reason: string) returns (settled: bool, ghost w: Sent)
      requires Sound()
      modifies `reloadWanted, `writeRetry, world`turns, world`table, world`rewound, world`writes, world`settled
      ensures |world.turns| <= |old(world.turns)|
      ensures Sound() && Progress(old(Marked()), Marked())
      ensures Grew(old(world.writes), world.writes, 1) && IsStop(world.writes[|old(world.writes)|], schedule, reason)
      ensures world.writes[|old(world.writes)|].call.at == Stamp(old(world.Ahead()).wall)
      ensures settled <==> LastResult() != CallFailed(false)
      ensures Wrote(old(Snapshot()), world.cap, w, Snapshot()) && StopsAs(w, schedule, reason)
      ensures settled <==> !KnownToFail(w.answer)
      ensures world.settled == old(world.settled) + (if settled then {(schedule.id, schedule.generation)} else {})
      ensures reloadWanted == (old(reloadWanted) || LastResult() == Replied(false))
      ensures writeRetry == if LastResult().Replied? && pendingEnds == []
                            then old(writeRetry).(failures := 0) else old(writeRetry)
    {
      hide Sound, Armed, EndingsArmed, Wrote, KnownToFail, StopsAs, IsStop, Snapshot;
      var result;
      result, w := SendStop(schedule, reason);
      settled := true;
      match result {
        case Replied(true) => WriteAnswered();
        case Replied(false) =>
          Fenced();
          WriteAnswered();
        case CallFailed(reconcile) => settled := reconcile;
      }
      if settled {
        Settle(schedule);
      }
      EndingsGrow(pendingEnds, pendingEnds, world.settled);
    }

    /** Notes that an ending reached the store, or may have. */
    ghost method Settle(schedule: Schedule)
      requires Sound()
      modifies world`settled
      ensures Snapshot() == old(Snapshot())
      ensures Sound() && world.settled == old(world.settled) + {(schedule.id, schedule.generation)}
      ensures Marked() == old(Marked()).(settled := world.settled)
    {
      hide Safe, AllListed;
      world.settled := world.settled + {(schedule.id, schedule.generation)};
    }

    /** Disables the schedule on its stop check's say-so; a write known to have failed gets a retry date. */
    method DisableRow(schedule: Schedule, reason: string) returns (ghost w: Sent)
      requires Sound()
      modifies `reloadWanted, `writeRetry, world`turns, world`table, world`rewound, world`writes
      ensures |world.turns| <= |old(world.turns)|
      ensures Sound() && Progress(old(Marked()), Marked())
      ensures Grew(old(world.writes), world.writes, 1) && IsDisable(world.writes[|old(world.writes)|], schedule, reason)
      ensures world.writes[|old(world.writes)|].call.at == Stamp(old(world.Ahead()).wall)
      ensures Wrote(old(Snapshot()), world.cap, w, Snapshot()) && IsEnding(w.call, schedule)
      ensures reloadWanted == (old(reloadWanted) || LastResult() == Replied(false))
      ensures match LastResult()
              case Replied(true) =>
                writeRetry == if pendingEnds == [] then old(writeRetry).(failures := 0) else old(writeRetry)
              case CallFailed(false) => Retried(old(writeRetry), writeRetry)
              case _ => writeRetry == old(writeRetry)
    {
      hide Sound, Armed, EndingsArmed, WrittenState;
      ProgressStays(Marked());
      var at := Now();
      var result, found;
      ghost var met, foreign;
      result, found, met, foreign := Write(Disable(schedule.id, schedule.generation, Stamp(at), reason));
      w := Sent(foreign, Disable(schedule.id, schedule.generation, Stamp(at), reason),
                AnswerOf(result, found.Some?));
      match result {
        case Replied(true) => WriteAnswered();
        case Replied(false) => Fenced();
        case CallFailed(reconcile) =>
          if !reconcile {
            RebuildLater();
          }
      }
    }

    /** Records a finished run; a fenced record asks for a reload. */
    method Record(schedule: Schedule, outcome: RunOutcome) returns (ghost w: Sent)
      requires Sound()
      modifies `reloadWanted, world`turns, world`table, world`rewound, world`writes
      ensures |world.turns| <= |old(world.turns)|
      ensures Sound() && Progress(old(Marked()), Marked())
      ensures Grew(old(world.writes), world.writes, 1) && IsRecord(world.writes[|old(world.writes)|], schedule, outcome)
      ensures world.writes[|old(world.writes)|].call.at == Stamp(old(world.Ahead()).wall)
      ensures Wrote(old(Snapshot()), world.cap, w, Snapshot()) && w.call.RecordRun?
      ensures reloadWanted == (old(reloadWanted) || LastResult() == Replied(false))
    {
      hide Safe, AllListed, WrittenState;
      var at := Now();
      var result, found;
      ghost var met, foreign;
      result, found, met, foreign := Write(RecordRun(schedule.id, schedule.generation, Stamp(at), outcome));
      w := Sent(foreign, RecordRun(schedule.id, schedule.generation, Stamp(at), outcome),
                AnswerOf(result, found.Some?));
      if result == Replied(false) {
        Fenced();
      }
      EndingsGrow(pendingEnds, pendingEnds, world.settled);
    }

    /** Where this worker stands with the store. */
    ghost function Standing(): Account
      reads `reloadWanted, `writeRetry, `pendingEnds, world`table, world`rewound, world`writes, world`settled
    {
      Account(world.table, world.rewound, world.writes, world.settled, pendingEnds, writeRetry, reloadWanted)
    }

    // ----------------------------------------------------------------
    // Exhausted schedules
    // ----------------------------------------------------------------

    method Owe(schedule: Schedule)
      requires Sound() && NoSlotFor(Snapshot().slots, schedule)
      modifies `pendingEnds
      ensures Sound() && pendingEnds == old(pendingEnds) + [schedule]
      ensures Snapshot() == old(Snapshot()).(pendingEnds := old(Snapshot()).pendingEnds + [schedule])
      ensures IsPending(pendingEnds, schedule)
    {
      hide Safe, AllListed;
      ghost var s := Snapshot();
      OweEnding(s, schedule);
      pendingEnds := pendingEnds + [schedule];
      assert Snapshot() == s.(pendingEnds := pendingEnds);
      assert SameKey(pendingEnds[|pendingEnds| - 1], schedule);
    }

    /** Ends a schedule whose last occurrence has run; a failed write is owed and gets a retry date. */
    method EndExhausted(schedule: Schedule) returns (ghost w: Sent)
      requires Sound() && NoSlotFor(Snapshot().slots, schedule)
      modifies `reloadWanted, `writeRetry, `pendingEnds, world`turns, world`table, world`rewound, world`writes,
               world`settled
      ensures |world.turns| <= |old(world.turns)|
      ensures Sound() && Progress(old(Marked()), Marked())
      ensures old(pendingEnds) <= pendingEnds
      ensures Grew(old(world.writes), world.writes, 1) && IsStop(world.writes[|old(world.writes)|], schedule, EXHAUSTED)
      ensures world.writes[|old(world.writes)|].call.at == Stamp(old(world.Ahead()).wall)
      ensures Snapshot().slots == old(Snapshot()).slots
      ensures ValidCommands(w.foreign) && StopsAs(w, schedule, EXHAUSTED)
      ensures !IsPending(old(pendingEnds), schedule) ==>
                Snapshot() == EndedState(old(Snapshot()), world.cap, schedule, w)
      ensures reloadWanted == (old(reloadWanted) || LastResult() == Replied(false))
      ensures if LastResult() == CallFailed(false)
              then IsPending(pendingEnds, schedule) && Retried(old(writeRetry), writeRetry)
              else pendingEnds == old(pendingEnds) && (schedule.id, schedule.generation) in world.settled
    {
      hide Sound, NoSlotFor, Retried, Interfered, WrittenTo, KnownToFail;
      var settled;
      settled, w := End(schedule, EXHAUSTED);
      if settled {
        return;
      }
      if !IsPending(pendingEnds, schedule) {
        Owe(schedule);
      }
      RebuildLater();
      EndingsGrow(old(pendingEnds), pendingEnds, world.settled);
    }

    /** Asks for one owed ending again and owes it still if the write is known to fail, or if a stop was requested. */
    method RetryOne(schedule: Schedule) returns (ghost w: Sent)
      requires Sound() && NoSlotFor(Snapshot().slots, schedule) && EndingsArmed()
      modifies `stopping, `reloadWanted, `writeRetry, `pendingEnds, world`turns, world`table, world`rewound,
               world`writes, world`settled
      ensures |world.turns| <= |old(world.turns)|
      ensures stopping && !old(stopping) ==> world.StopAsked(old(world.Place()), world.Place())
      ensures Sound() && Progress(old(Marked()), Marked())
      ensures (schedule.id, schedule.generation) in world.settled || IsPending(pendingEnds, schedule)
      ensures RetriedAs(old(Snapshot()), world.cap, schedule, stopping, w, Snapshot())
      ensures AskedOne(old(world.writes), world.writes, schedule, stopping)
    {
      hide Sound, NoSlotFor, WrittenTo, KnownToFail, IsStop, Snapshot;
      w := UNSENT;
      var stop := StopRequested();
      if stop {
        Owe(schedule);
      } else {
        var settled;
        settled, w := End(schedule, EXHAUSTED);
        if !settled {
          Owe(schedule);
          RebuildLater();
        }
      }
      EndingsGrow(old(pendingEnds), pendingEnds, world.settled);
    }

    /** Retries one owed ending, or keeps owing it. */
    method RetryEnd(schedule: Schedule, ghost rest: seq<Schedule>)
      requires Sound() && NoSlotFor(Snapshot().slots, schedule) && EndingsArmed()
      modifies `stopping, `reloadWanted, `writeRetry, `pendingEnds, world`turns, world`table, world`rewound,
               world`writes, world`settled
      ensures |world.turns| <= |old(world.turns)|
      ensures stopping && !old(stopping) ==> world.StopAsked(old(world.Place()), world.Place())
      ensures Sound() && Progress(old(Marked()), Marked())
      ensures (schedule.id, schedule.generation) in world.settled || IsPending(pendingEnds, schedule)
      ensures Snapshot().slots == old(Snapshot()).slots
      ensures LeadsTo(old(WithOwed([schedule] + rest)), world.cap, WithOwed(rest))
      ensures AskedOne(old(world.writes), world.writes, schedule, stopping)
    {
      hide Sound, LeadsTo, RetriedAs, Progress, EndingsArmed, AskedOne;
      ghost var at := Here(false);
      ghost var w := RetryOne(schedule);
      assert at.stopping ==> stopping by {
        StopStays(old(Marked()), Marked());
      }
      RetriesLead(at.state, world.cap, schedule, rest, listing, at.stopping, stopping, w, Snapshot());
    }

    /** Where this worker stands with these endings owed before the others. */
    ghost function WithOwed(owed: seq<Schedule>): Config
      reads this, world
    {
      Config(Snapshot().(pendingEnds := owed + pendingEnds), listing, false, stopping)
    }

    /** Takes the owed endings out, to try them again. */
    method TakeOwed() returns (owed: seq<Schedule>)
      requires Sound()
      modifies `pendingEnds
      ensures Sound() && owed == old(pendingEnds) && pendingEnds == []
      ensures EndingsArmed() && Marked() == old(Marked()).(pendingEnds := [], endingsArmed := true)
      ensures Snapshot().slots == old(Snapshot()).slots && WithOwed(owed) == old(Here(false))
      ensures forall k :: 0 <= k < |owed| ==> NoSlotFor(Snapshot().slots, owed[k])
    {
      hide Safe, AllListed;
      owed := pendingEnds;
      ghost var s := Snapshot();
      OweFewer(s, []);
      forall k | 0 <= k < |owed| ensures NoSlotFor(s.slots, owed[k]) {
        NotPendingHasNoSlot(s, owed, k);
      }
      pendingEnds := [];
      assert Snapshot() == s.(pendingEnds := []);
      assert owed + [] == owed;
    }

    lemma NoneOwed()
      ensures WithOwed([]) == Here(false)
    {
      assert [] + pendingEnds == pendingEnds;
    }

    /** Retries the ending writes that failed: each is settled, or owed still with a new date. */
    method RetryEnds()
      requires Sound()
      modifies `stopping, `reloadWanted, `writeRetry, `pendingEnds, world`turns, world`table, world`rewound,
               world`writes, world`settled
      ensures |world.turns| <= |old(world.turns)|
      ensures stopping && !old(stopping) ==> world.StopAsked(old(world.Place()), world.Place())
      ensures Sound() && EndingsArmed() && Progress(old(Marked()), Marked())
      ensures old(world.writes) <= world.writes
      ensures EndingsAsked(world.writes[|old(world.writes)|..], old(pendingEnds), stopping)
      ensures old(pendingEnds) == [] ==> Standing() == old(Standing()) && stopping == old(stopping)
      ensures LeadsTo(old(Here(false)), world.cap, Here(false))
    {
      hide Sound, Snapshot, WithOwed, LeadsTo, AskedOne, EndingsAsked, NoSlotFor, World.StopAsked;
      var owed := TakeOwed();
      ghost var start, begun, kept := Marked(), WithOwed(owed), Snapshot().slots;
      ProgressStays(start);
      assert owed[0..] == owed;
      NoneAsked(world.writes, owed, stopping);
      LeadsToItself(begun, world.cap);
      var i := 0;
      while i < |owed|
        invariant |world.turns| <= |old(world.turns)|
        invariant stopping && !old(stopping) ==> world.StopAsked(old(world.Place()), world.Place())
        invariant 0 <= i <= |owed|
        invariant Sound() && EndingsArmed() && Progress(start, Marked())
        invariant Snapshot().slots == kept
        invariant LeadsTo(begun, world.cap, WithOwed(owed[i..]))
        invariant EndingsKept(owed[..i], pendingEnds, world.settled)
        invariant old(world.writes) <= world.writes
        invariant EndingsAsked(world.writes[|old(world.writes)|..], owed[..i], stopping)
        invariant i == 0 ==> Standing() == old(Standing()).(pendingEnds := []) && stopping == old(stopping)
      {
        ghost var before, writes, at, from := Marked(), world.writes, WithOwed(owed[i..]), world.Place();
        assert owed[i..] == [owed[i]] + owed[i + 1..];
        RetryEnd(owed[i], owed[i + 1..]);
        LeadsOn(begun, world.cap, at, WithOwed(owed[i + 1..]));
        StopStays(before, Marked());
        AskedMore(writes, world.writes, |old(world.writes)|, owed, i, before.stopping, stopping);
        world.AskedWithin(old(world.Place()), from, world.Place());
        ProgressChains(start, before, Marked());
        EndingsStep(owed, i, before, Marked());
        i := i + 1;
      }
      assert owed[..|owed|] == owed && owed[|owed|..] == [];
      NoneOwed();
    }

    // ----------------------------------------------------------------
    // Reload
    // ----------------------------------------------------------------

    /** The slot of a listed schedule that has none: nothing while its ending is owed. */
    method NewSlot(schedule: Schedule) returns (slot: Option<Slot>)
      requires Sound() && schedule in listing && NoSlotFor(Snapshot().slots, schedule)
      modifies `reloadWanted, `writeRetry, `pendingEnds, world`turns, world`table, world`rewound, world`writes,
               world`settled
      ensures |world.turns| <= |old(world.turns)|
      ensures old(pendingEnds) <= pendingEnds
      ensures Sound() && Progress(old(Marked()), Marked())
      ensures slot.Some? ==>
                && slot.value.schedule == schedule && StartsAt(slot.value)
                && SlotOk(slot.value, world.table, world.Logged())
                && !IsPending(pendingEnds, schedule)
      ensures slot.None? ==> Excused(Marked(), schedule)
      ensures schedule.nextRunAt.Some? ==>
                if slot.None? then IsPending(pendingEnds, schedule) else slot.value.next == schedule.nextRunAt
      ensures schedule.nextRunAt.Some? ==> Standing() == old(Standing()) && Snapshot() == old(Snapshot())
      ensures Snapshot().slots == old(Snapshot()).slots
    {
      hide Safe, Snapshot;
      ProgressStays(Marked());
      if IsPending(pendingEnds, schedule) {
        return None;
      }
      var next := schedule.nextRunAt;
      if next.None? {
        var now;
        next, now := ComputeNext(schedule);
      }
      if next.None? {
        ghost var _ := EndExhausted(schedule);
        return None;
      }
      return Some(Slot(schedule, next, None));
    }

    /** The next run of a row the store has none for, stored when there is one. */
    method ComputeNext(schedule: Schedule) returns (next: Option<int>, now: int)
      requires Sound() && NoneStored(world.Logged(), schedule.id, schedule.generation)
      modifies `reloadWanted, world`turns, world`table, world`rewound, world`writes
      ensures |world.turns| <= |old(world.turns)|
      ensures Sound() && Progress(old(Marked()), Marked())
      ensures next == NextRun(schedule.spec.expr, schedule.jitter, now)
      ensures old(world.writes) <= world.writes && Snapshot().slots == old(Snapshot()).slots
      ensures SlotWrites(world.writes[|old(world.writes)|..], schedule, next, false)
    {
      hide Safe, AllListed;
      now := Now();
      next := NextRun(schedule.spec.expr, schedule.jitter, now);
      ProgressStays(Marked());
      if next.Some? {
        var _, _, _, _ := PersistNext(schedule, next.value);
      }
    }

    /** The index of the slot of the row's generation, or the length when there is none. */
    method Position(previous: seq<Slot>, schedule: Schedule) returns (index: nat)
      ensures index <= |previous|
      ensures index < |previous| ==> SameKey(previous[index].schedule, schedule)
      ensures index == |previous| ==> forall k :: 0 <= k < |previous| ==> !SameKey(previous[k].schedule, schedule)
    {
      index := 0;
      while index < |previous|
        invariant index <= |previous|
        invariant forall k :: 0 <= k < index ==> !SameKey(previous[k].schedule, schedule)
      {
        if SameKey(previous[index].schedule, schedule) {
          return;
        }
        index := index + 1;
      }
    }

    /** Puts back, as it is, a slot a merge has taken out. */
    method KeepTaken(slot: Slot, ghost rest: seq<Slot>)
      requires Sound() && slot in taken && multiset(rest) == multiset(taken) - multiset{slot}
      modifies `slots, `taken
      ensures Sound() && taken == rest && slots == old(slots) + [slot] && Snapshot() == old(Snapshot())
      ensures Marked() == old(Marked())
    {
      hide Safe, AllListed;
      ghost var s := Snapshot();
      slots := slots + [slot];
      taken := rest;
      assert Snapshot().slots == s.slots;
      assert Snapshot() == s;
    }

    /** `cancel_slot_run` on a slot a merge has taken out, which is then dropped. */
    method CancelTaken(slot: Slot, ghost rest: seq<Slot>)
      requires Sound() && slot in taken && multiset(rest) == multiset(taken) - multiset{slot}
      modifies `taken, world`cancelled
      ensures Sound() && taken == rest
      ensures !ListsEnabled(listing, slot.schedule.id, slot.schedule.generation) ==>
                LeadsTo(old(Here(true)), world.cap, Here(true))
      ensures Marked() == old(Marked()).(cancelled := world.cancelled)
      ensures world.cancelled == old(world.cancelled) + (if slot.run.Some? then {slot.run.value.key} else {})
    {
      hide Safe, AllListed, LeadsTo, ListsEnabled;
      ghost var s, begun := Snapshot(), Here(true);
      CancelTakenAt(s, slots, taken, slot, rest);
      taken := rest;
      if slot.run.Some? {
        world.cancelled := world.cancelled + {slot.run.value.key};
      }
      assert Snapshot() == s.(slots := multiset(slots) + multiset(taken), cancelled := world.cancelled);
      if !ListsEnabled(listing, slot.schedule.id, slot.schedule.generation) {
        DropTakenLeads(begun, world.cap, slots, old(taken), slot, rest);
      }
    }

    /** The slot of a listed row as the store has it. */
    ghost predicate FromRow(slot: Slot)
      reads `listing
    {
      && slot == Slot(slot.schedule, slot.schedule.nextRunAt, None) && slot.next.Some?
      && slot.schedule in listing && slot.schedule.IsActive() && slot.schedule.enabled
    }

    /** Adds a slot a row has just been given. */
    method PushSlot(slot: Slot)
      requires Sound() && slot.run.None? && SlotOk(slot, world.table, world.Logged())
      requires NoSlotFor(Snapshot().slots, slot.schedule) && !IsPending(pendingEnds, slot.schedule)
      modifies `slots
      ensures Sound() && slots == old(slots) + [slot]
      ensures FromRow(slot) && !stopping ==> LeadsTo(old(Here(true)), world.cap, Here(true))
    {
      hide Safe, AllListed, SlotOk, LeadsTo;
      ghost var s, begun := Snapshot(), Here(true);
      AddIdle(s, slot);
      slots := slots + [slot];
      assert Snapshot().slots == s.slots + multiset{slot};
      assert Snapshot() == s.(slots := s.slots + multiset{slot});
      if FromRow(slot) && !stopping {
        BuildLeads(begun, world.cap, slot.schedule);
      }
    }

    /** Builds the slot of an enabled row that has none. */
    method BuildEnabled(schedule: Schedule)
      requires Sound() && schedule in listing && NoSlotFor(Snapshot().slots, schedule) && schedule.enabled
      modifies `slots, `reloadWanted, `writeRetry, `pendingEnds, world`turns, world`table, world`rewound, world`writes,
               world`settled
      ensures |world.turns| <= |old(world.turns)|
      ensures old(pendingEnds) <= pendingEnds
      ensures Sound() && Progress(old(Marked()), Marked())
      ensures RowBuilt(schedule, old(slots), slots, Excused(Marked(), schedule))
      ensures schedule.nextRunAt.Some? ==> Standing() == old(Standing())
      ensures schedule.nextRunAt.Some? && schedule.IsActive() && !stopping ==>
                LeadsTo(old(Here(true)), world.cap, Here(true))
      ensures slots == old(slots) && schedule.nextRunAt.Some? ==> IsPending(pendingEnds, schedule)
    {
      hide Standing, Sound, SlotOk, Progress, LeadsTo, NoSlotFor, Snapshot;
      ghost var begun := Here(true);
      LeadsToItself(begun, world.cap);
      var slot := NewSlot(schedule);
      if slot.Some? {
        PushSlot(slot.value);
      }
    }

    /** Builds the slot of a row that has none, unless it is disabled or a stop was requested. */
    method BuildFor(schedule: Schedule)
      requires Sound() && schedule in listing && NoSlotFor(Snapshot().slots, schedule)
      modifies `slots, `stopping, `reloadWanted, `writeRetry, `pendingEnds, world`turns, world`table, world`rewound,
               world`writes, world`settled
      ensures |world.turns| <= |old(world.turns)|
      ensures stopping && !old(stopping) ==> world.StopAsked(old(world.Place()), world.Place())
      ensures old(pendingEnds) <= pendingEnds
      ensures Sound() && Progress(old(Marked()), Marked())
      ensures RowBuilt(schedule, old(slots), slots, Excused(Marked(), schedule))
      ensures old(stopping) || !schedule.enabled || schedule.nextRunAt.Some? ==> Standing() == old(Standing())
      ensures old(stopping) ==> slots == old(slots)
      ensures schedule.nextRunAt.Some? && schedule.IsActive() ==> LeadsTo(old(Here(true)), world.cap, Here(true))
      ensures slots == old(slots) && schedule.enabled && schedule.nextRunAt.Some? ==>
                stopping || IsPending(pendingEnds, schedule)
    {
      hide Standing, Sound, Progress, LeadsTo, NoSlotFor, IsPending;
      ghost var start, begun := Marked(), Here(true);
      ProgressStays(start);
      LeadsToItself(begun, world.cap);
      if schedule.enabled {
        var stop := StopRequested();
        if !stop {
          ghost var asked := Marked();
          assert Here(true) == begun;
          BuildEnabled(schedule);
          ProgressChains(start, asked, Marked());
        } else {
          AsksToStop(begun, world.cap, true);
        }
      }
    }

    /** A row whose generation has a slot: an enabled one keeps it, a disabled one cancels its run. */
    method MergeMatched(schedule: Schedule, previous: seq<Slot>, index: nat) returns (rest: seq<Slot>)
      requires Sound() && taken == previous
      requires index < |previous| && SameKey(previous[index].schedule, schedule)
      modifies `slots, `taken, world`cancelled
      ensures Sound() && taken == rest
      ensures RowKept(schedule, old(slots), slots, previous, rest, world.cancelled, previous[index])
      ensures world.cancelled >= old(world.cancelled) && Marked() == old(Marked()).(cancelled := world.cancelled)
      ensures schedule.enabled || !ListsEnabled(listing, schedule.id, schedule.generation) ==>
                LeadsTo(old(Here(true)), world.cap, Here(true))
    {
      hide Sound, Armed, EndingsArmed, ListsEnabled, LeadsTo, Snapshot;
      ghost var begun := Here(true);
      LeadsToItself(begun, world.cap);
      var slot := previous[index];
      rest := SwapRemoved(previous, index);
      SwapRemovedMultiset(previous, index);
      if schedule.enabled {
        KeepTaken(slot, rest);
      } else {
        CancelTaken(slot, rest);
        assert slots == slots + [];
      }
    }

    /** A row of a valid table, and the only one of its id. */
    ghost predicate Mergeable(schedule: Schedule)
      reads `listing
    {
      && schedule.IsActive() && schedule.nextRunAt.Some?
      && (schedule.enabled || !ListsEnabled(listing, schedule.id, schedule.generation))
    }

    /** One active row of a reload: keeps or cancels the slot of its generation, or builds one. */
    method MergeRow(schedule: Schedule, previous: seq<Slot>) returns (rest: seq<Slot>, ghost matched: Option<Slot>)
      requires Sound() && taken == previous && schedule in listing && NoSlotFor(multiset(slots), schedule)
      modifies `slots, `taken, `stopping, `reloadWanted, `writeRetry, `pendingEnds, world`turns, world`table,
               world`rewound, world`writes, world`cancelled, world`settled
      ensures |world.turns| <= |old(world.turns)|
      ensures stopping && !old(stopping) ==> world.StopAsked(old(world.Place()), world.Place())
      ensures old(pendingEnds) <= pendingEnds
      ensures Sound() && taken == rest && Progress(old(Marked()), Marked())
      ensures schedule.nextRunAt.Some? ==> Standing() == old(Standing())
      ensures matched.Some? ==> RowKept(schedule, old(slots), slots, previous, rest, world.cancelled, matched.value)
      ensures old(Mergeable(schedule)) ==> LeadsTo(old(Here(true)), world.cap, Here(true))
      ensures matched.None? ==>
                && rest == previous && NoSlotFor(multiset(previous), schedule)
                && RowBuilt(schedule, old(slots), slots, Excused(Marked(), schedule))
    {
      hide Standing, Safe, AllListed, Armed, EndingsArmed, RowKept, RowBuilt, LeadsTo, ListsEnabled;
      ghost var marks := Marked();
      var index := Position(previous, schedule);
      if index == |previous| {
        matched, rest := None, previous;
        NoSlotAnywhere(slots, previous, schedule);
        BuildFor(schedule);
      } else {
        matched := Some(previous[index]);
        rest := MergeMatched(schedule, previous, index);
        CancellingProgresses(marks, world.cancelled);
      }
    }

    /** Takes every slot out. */
    method TakeAll()
      requires Sound() && taken == []
      modifies `slots, `taken
      ensures Sound() && slots == [] && taken == old(slots)
      ensures Marked() == old(Marked()) && Snapshot() == old(Snapshot())
    {
      hide Safe, AllListed;
      ghost var s := Snapshot();
      taken := slots;
      slots := [];
      assert Snapshot().slots == s.slots;
      assert Snapshot() == s;
    }

    /** The row a merge has come to: no slot of an earlier row is of its generation. */
    lemma NextRow(before: seq<Slot>, rows: seq<Schedule>, n: nat, previous: seq<Slot>)
      requires n < |rows| && rows[n].IsActive() && listing == rows
      requires MergeOk(before, rows, n, previous, slots, Marked())
      ensures rows[n] in listing && NoSlotFor(multiset(slots), rows[n])
      ensures AllStored(rows) ==> Mergeable(rows[n]) && rows[n].nextRunAt.Some?
    {
      hide Marked, Unmatched, Decided, Sourced, Covered, DistinctKeys, ListsEnabled;
      OnlyRow(rows, n);
      OtherRowsOnly(rows, n, slots);
    }

    method MergeStep(ghost before: seq<Slot>, rows: seq<Schedule>, n: nat, previous: seq<Slot>)
      returns (rest: seq<Slot>)
      requires n < |rows| && rows[n].IsActive()
      requires Sound() && taken == previous && listing == rows
      requires MergeOk(before, rows, n, previous, slots, Marked())
      modifies `slots, `taken, `stopping, `reloadWanted, `writeRetry, `pendingEnds, world`turns, world`table,
               world`rewound, world`writes, world`cancelled, world`settled
      ensures |world.turns| <= |old(world.turns)|
      ensures stopping && !old(stopping) ==> world.StopAsked(old(world.Place()), world.Place())
      ensures old(pendingEnds) <= pendingEnds
      ensures Sound() && taken == rest && Progress(old(Marked()), Marked())
      ensures MergeOk(before, rows, n + 1, rest, slots, Marked())
      ensures AllStored(rows) ==> Standing() == old(Standing())
      ensures AllStored(rows) ==> LeadsTo(old(Here(true)), world.cap, Here(true))
    {
      hide Standing, Sound, Progress, MergeOk, RowKept, RowBuilt, NoSlotFor, LeadsTo, AllStored, Mergeable, Here,
        Snapshot, Armed, EndingsArmed;
      ghost var was, marks := slots, Marked();
      NextRow(before, rows, n, previous);
      ghost var matched;
      rest, matched := MergeRow(rows[n], previous);
      if matched.Some? {
        KeepStep(before, rows, n, previous, rest, was, slots, marks, Marked(), matched.value);
      } else {
        BuildStep(before, rows, n, previous, was, slots, marks, Marked());
      }
    }

    /** Drops the slots no row matched, aborting their runs. */
    method CancelRest(previous: seq<Slot>)
      requires Sound() && taken == previous
      modifies `taken, `listing, world`cancelled
      ensures Sound() && taken == [] && listing == [] && world.cancelled >= old(world.cancelled)
      ensures Marked() == old(Marked()).(cancelled := world.cancelled)
      ensures forall k :: 0 <= k < |previous| ==> RunAborted(previous[k], world.cancelled)
      ensures NoneListed(previous, old(listing)) ==>
                LeadsTo(old(Here(true)), world.cap, Here(true).(listing := old(listing)))
    {
      hide Sound, Armed, EndingsArmed, LeadsTo, NoneListed, ListsEnabled, Snapshot;
      ghost var begun := Here(true);
      LeadsToItself(begun, world.cap);
      var j := 0;
      while j < |previous|
        invariant 0 <= j <= |previous|
        invariant Sound() && taken == previous[j..] && Marked() == old(Marked()).(cancelled := world.cancelled)
        invariant world.cancelled >= old(world.cancelled) && listing == old(listing)
        invariant NoneListed(previous, listing) ==> LeadsTo(begun, world.cap, Here(true))
        invariant forall k :: 0 <= k < j ==> RunAborted(previous[k], world.cancelled)
      {
        TailMultiset(previous, j);
        ghost var at := Here(true);
        CancelTaken(previous[j], previous[j + 1..]);
        if NoneListed(previous, listing) {
          UnlistedAt(previous, listing, j);
          LeadsOn(begun, world.cap, at, Here(true));
        }
        j := j + 1;
      }
      ForgetListing();
    }

    ghost method ForgetListing()
      requires Sound()
      modifies `listing
      ensures Sound() && listing == [] && Marked() == old(Marked()) && Snapshot() == old(Snapshot())
    {
      hide Safe;
      listing := [];
    }

    lemma SoundIsDistinct()
      requires Sound() && taken == []
      ensures DistinctKeys(multiset(slots))
    {
      hide Safe;
      SafeIsDistinct(Snapshot(), slots);
    }

    lemma MergeIsOver(before: seq<Slot>, rows: seq<Schedule>)
      requires taken == [] && listing == [] && AllStored(rows) && Reloaded(before, rows, slots, Marked())
      ensures LeadsTo(Here(true).(listing := rows), world.cap, Here(false))
    {
      hide LeadsTo, Reloaded, AllStored, Armed, EndingsArmed;
      MergedLeads(Here(true).(listing := rows), world.cap, before, slots, Marked());
    }

    /**
     Keeps the slots whose generation is still active and enabled, exactly as they
     are; aborts the runs of all others; builds the slots that are missing.
     */
    method Merge(rows: seq<Schedule>)
      requires Sound() && taken == [] && listing == rows && RowIdsDistinct(rows)
      modifies `slots, `taken, `listing, `stopping, `reloadWanted, `writeRetry, `pendingEnds, world`turns, world`table,
               world`rewound, world`writes, world`cancelled, world`settled
      ensures |world.turns| <= |old(world.turns)|
      ensures stopping && !old(stopping) ==> world.StopAsked(old(world.Place()), world.Place())
      ensures Sound() && taken == [] && listing == [] && Progress(old(Marked()), Marked())
      ensures Reloaded(old(slots), rows, slots, Marked())
      ensures AllStored(rows) ==> Standing() == old(Standing())
      ensures AllStored(rows) ==> LeadsTo(old(Here(true)), world.cap, Here(false))
    {
      hide Standing, Snapshot, Sound, Armed, EndingsArmed, Progress, MergeOk, Reloaded, LeadsTo, AllStored, NoneListed;
      ghost var before, start, begun := slots, Marked(), Here(true);
      LeadsToItself(begun, world.cap);
      SoundIsDistinct();
      var previous := slots;
      TakeAll();
      NothingMerged(before, rows, start);
      ProgressStays(start);
      var n := 0;
      while n < |rows|
        invariant |world.turns| <= |old(world.turns)|
        invariant stopping && !old(stopping) ==> world.StopAsked(old(world.Place()), world.Place())
        invariant 0 <= n <= |rows|
        invariant Sound() && taken == previous && listing == rows
        invariant MergeOk(before, rows, n, previous, slots, Marked()) && Progress(start, Marked())
        invariant AllStored(rows) ==> Standing() == old(Standing())
        invariant AllStored(rows) ==> LeadsTo(begun, world.cap, Here(true))
      {
        ghost var marks, at := Marked(), Here(true);
        if rows[n].IsActive() {
          previous := MergeStep(before, rows, n, previous);
          ProgressChains(start, marks, Marked());
          if AllStored(rows) {
            LeadsOn(begun, world.cap, at, Here(true));
          }
        } else {
          SkipStep(before, rows, n, previous, slots, marks);
        }
        n := n + 1;
      }
      ghost var marks, at := Marked(), Here(true);
      MergeUnlisted(before, rows, previous, slots, marks);
      CancelRest(previous);
      MergeEnds(before, rows, previous, slots, marks, world.cancelled);
      if AllStored(rows) {
        ghost var dropped := Here(true).(listing := rows);
        LeadsOn(begun, world.cap, at, dropped);
        MergeIsOver(before, rows);
        LeadsOn(begun, world.cap, dropped, Here(false));
      }
      CancellingProgresses(marks, world.cancelled);
      ProgressChains(start, marks, Marked());
    }

    /** `list_active`; the rows become the listing a merge works through. */
    method ListRows() returns (result: ListResult, ghost unreadable: set<nat>)
      requires Sound() && listing == []
      modifies `listing, world`turns, world`table, world`rewound
      ensures |world.turns| <= |old(world.turns)|
      ensures world.OneTaken(old(world.Place()), world.Place())
      ensures Sound()
      ensures match result
              case Rows(rows) =>
                listing == rows && RowIdsDistinct(rows) && rows == StoreReads.ListActive(world.table, unreadable)
              case ListFailed => listing == []
      ensures unreadable == old(world.Ahead()).unreadable && (result.Rows? <==> old(world.Ahead()).answer.Served?)
      ensures Marked() == old(Marked())
      ensures LeadsTo(old(Here(false)), world.cap, Here(result.Rows?)) && (result.Rows? ==> AllStored(result.rows))
    {
      hide Safe, AllListed, RowIdsDistinct, LeadsTo, AllStored;
      ghost var s, begun := Snapshot(), Here(false);
      ghost var foreign;
      result, foreign, unreadable := world.List();
      InterferenceKeepsSafe(s, world.cap, foreign);
      assert Snapshot() == s.(table := world.table, log := world.Logged());
      NothingListed(world.table, world.Logged());
      if result.Rows? {
        listing := result.rows;
        ListIsListed(Snapshot(), unreadable);
        ListedIdsDistinct(Snapshot(), unreadable);
        SafeIsValid(Snapshot());
        ListedAreStored(world.table, unreadable);
        ListLeads(begun, world.cap, foreign, unreadable);
      } else {
        CallsLead(begun, world.cap, foreign);
      }
    }

    /** A successful read arms the poll again, counted from before the query. */
    method ArmPoll(started: int)
      requires Sound()
      modifies `retry, `pollDue, `pollLost
      ensures Sound() && Armed() && Marked() == old(Marked()).(armed := true)
      ensures retry == NO_RETRY && Snapshot() == old(Snapshot()) && Here(true) == old(Here(true))
      ensures pollDue == if started + reloadPoll <= MAX_UTC then Some(started + reloadPoll) else old(pollDue)
      ensures pollLost == (old(pollLost) || started + reloadPoll > MAX_UTC)
    {
      hide Safe, AllListed;
      retry := NO_RETRY;
      if started + reloadPoll <= MAX_UTC {
        pollDue := Some(started + reloadPoll);
      } else {
        pollLost := true;
      }
    }

    /** A failed read gets a retry date. */
    method ArmRetry() returns (ghost now: int)
      requires Sound()
      modifies `retry, world`turns
      ensures |world.turns| <= |old(world.turns)|
      ensures world.OneTaken(old(world.Place()), world.Place())
      ensures retry == Backoff(old(retry), now) && now == old(world.Ahead()).wall && Snapshot() == old(Snapshot())
      ensures Sound() && Armed() && retry.due.Some? && Marked() == old(Marked()).(armed := true)
    {
      hide Safe, AllListed;
      var reading := Now();
      now := reading;
      retry := Backoff(retry, reading);
    }

    /** Clears the wish for a reload and the poll date; the interval counts from here. */
    method BeginReload() returns (started: int)
      requires Sound()
      modifies `reloadWanted, `pollDue, `pollLost, world`turns
      ensures |world.turns| <= |old(world.turns)|
      ensures world.OneTaken(old(world.Place()), world.Place())
      ensures Snapshot() == old(Snapshot()) && started == old(world.Ahead()).wall
      ensures Sound() && !reloadWanted && pollDue.None? && !pollLost
      ensures Marked() == old(Marked()).(reloadWanted := false, armed := Armed())
    {
      hide Safe, AllListed;
      reloadWanted := false;
      pollDue, pollLost := None, false;
      started := Now();
    }

    /** All that can be seen of this worker and its world. */
    ghost function Seen(): View
      reads this, world
    {
      View(slots, world.launches, world.writes, world.table, Marked(), retry, writeRetry, pollDue, world.completed,
           world.monotonic, world.Place())
    }

    /** Begins a reload and asks for the rows. */
    method AskForRows() returns (started: int, result: ListResult)
      requires Sound() && listing == []
      modifies `listing, `reloadWanted, `pollDue, `pollLost, world`turns, world`table, world`rewound
      ensures |world.turns| <= |old(world.turns)|
      ensures Sound() && listing == (if result.Rows? then result.rows else [])
      ensures Marked() == old(Marked()).(reloadWanted := false, armed := Armed())
      ensures Seen() == old(Seen()).(table := world.table, marks := Marked(), pollDue := None, place := world.Place())
      ensures var call := world.TurnAt(old(world.Place()) + 1);
              && started == old(world.Ahead()).wall && (result.Rows? <==> call.answer.Served?)
              && (result.Rows? ==>
                    && RowIdsDistinct(result.rows) && AllStored(result.rows)
                    && result.rows == StoreReads.ListActive(world.table, call.unreadable))
      ensures world.Ahead() == world.TurnAt(old(world.Place()) + 2)
      ensures LeadsTo(old(Here(false)), world.cap, Here(result.Rows?))
    {
      hide Sound, Armed, EndingsArmed, RowIdsDistinct, LeadsTo, AllStored, Snapshot, StoreReads.ListActive,
        World.TurnAt, World.OneTaken;
      ghost var from := world.Place();
      started := BeginReload();
      ghost var unreadable, mid := {}, world.Place();
      result, unreadable := ListRows();
      world.NextTurns(from, mid, world.Place());
    }

    /** Reads the active rows and merges them. */
    method Reload() returns (ghost rows: Option<seq<Schedule>>)
      requires Sound() && taken == [] && listing == []
      modifies `slots, `taken, `listing, `stopping, `reloadWanted, `retry, `writeRetry, `pendingEnds, `pollDue,
               `pollLost, world`turns, world`table, world`rewound, world`writes, world`cancelled, world`settled
      ensures |world.turns| <= |old(world.turns)|
      ensures stopping && !old(stopping) ==> world.StopAsked(old(world.Place()), world.Place())
      ensures Sound() && taken == [] && listing == [] && Armed()
      ensures Progress(old(Marked()).(reloadWanted := false), Marked())
      ensures ReadAgain(world, reloadPoll, old(Seen()), rows, Seen())
      ensures LeadsTo(old(Here(false)), world.cap, Here(false))
    {
      hide Sound, Armed, EndingsArmed, Progress, Reloaded, RowIdsDistinct, LeadsTo, AllStored, Snapshot,
        StoreReads.ListActive, World.TurnAt, World.StopAsked, Backoff;
      ghost var began, begun, from := Marked(), Here(false), world.Place();
      var started, result := AskForRows();
      Rearmed(began, Marked().(armed := true));
      ghost var reading, mid := Here(result.Rows?), world.Place();
      match result {
        case Rows(listed) =>
          MergeListed(began.(reloadWanted := false), started, listed);
          LeadsOn(begun, world.cap, reading, Here(false));
          StopStays(began.(reloadWanted := false), Marked());
          world.AskedWithin(from, mid, world.Place());
          rows := Some(listed);
        case ListFailed =>
          ghost var _ := ArmRetry();
          rows := None;
      }
    }

    /** Arms the poll and merges the rows read. */
    method MergeListed(ghost began: Marks, started: int, rows: seq<Schedule>)
      requires Sound() && taken == [] && listing == rows && RowIdsDistinct(rows) && AllStored(rows)
      requires Progress(began, Marked().(armed := true)) && pollDue.None?
      modifies `slots, `taken, `listing, `stopping, `reloadWanted, `retry, `writeRetry, `pendingEnds, `pollDue,
               `pollLost, world`turns, world`table, world`rewound, world`writes, world`cancelled, world`settled
      ensures |world.turns| <= |old(world.turns)|
      ensures stopping && !old(stopping) ==> world.StopAsked(old(world.Place()), world.Place())
      ensures Sound() && taken == [] && listing == [] && Progress(began, Marked()) && Armed()
      ensures Reloaded(old(slots), rows, slots, Marked())
      ensures Standing() == old(Standing())
      ensures Seen() == old(Seen()).(slots := slots, retry := NO_RETRY, pollDue := PollAfter(started, reloadPoll),
                                     marks := Marked(), place := world.Place())
      ensures LeadsTo(old(Here(true)), world.cap, Here(false))
    {
      hide Sound, Progress, Reloaded, RowIdsDistinct, LeadsTo, AllStored, Here, Armed, EndingsArmed;
      ArmPoll(started);
      ghost var reading := Marked();
      Merge(rows);
      ProgressChains(began, reading, Marked());
      StaysArmed(reading, Marked());
    }

    // ----------------------------------------------------------------
    // Finished runs
    // ----------------------------------------------------------------

    /** Takes the run out of a slot; it counts as completed, or as aborted. */
    method TakeRunOf(index: nat, completes: bool)
      requires Sound() && index < |slots| && slots[index].run.Some?
      modifies `slots, world`completed, world`cancelled
      ensures Sound()
      ensures slots == old(slots)[index := old(slots)[index].(run := None)]
      ensures var key := old(slots)[index].run.value.key;
              && world.completed == (if completes then old(world.completed) + {key} else old(world.completed))
              && world.cancelled == (if completes then old(world.cancelled) else old(world.cancelled) + {key})
      ensures Marked() == old(Marked()).(cancelled := world.cancelled)
      ensures LeadsTo(old(Here(false)), world.cap, Here(false))
    {
      hide Safe, AllListed, LeadsTo;
      ghost var s, begun := Snapshot(), Here(false);
      var slot := slots[index];
      TakeRunAt(s, slots, taken, index, completes);
      slots := slots[index := slot.(run := None)];
      if completes {
        world.completed := world.completed + {slot.run.value.key};
      } else {
        world.cancelled := world.cancelled + {slot.run.value.key};
      }
      assert Snapshot() == WithRunTaken(s, slot, completes).(slots := multiset(slots) + multiset(taken));
      FinishLeads(begun, world.cap, old(slots), taken, index, completes);
    }

    /** Removes a slot that holds no run. */
    method RemoveSlot(index: nat)
      requires Sound() && index < |slots| && slots[index].run.None?
      modifies `slots
      ensures Sound() && slots == Without(old(slots), index)
      ensures NoSlotFor(Snapshot().slots, old(slots)[index].schedule)
      ensures Marked() == old(Marked())
      ensures old(slots)[index] in old(Snapshot()).slots
      ensures Snapshot() == old(Snapshot()).(slots := old(Snapshot()).slots - multiset{old(slots)[index]})
      ensures !IsPending(pendingEnds, old(slots)[index].schedule)
    {
      hide Safe, AllListed;
      ghost var s := Snapshot();
      DropIdleAt(s, slots, taken, index);
      HeldOwesNothing(s, slots, taken, index);
      slots := Without(slots, index);
      assert Snapshot() == s.(slots := multiset(slots) + multiset(taken));
    }

    /** Writes what a run that was not stopped did; an aborted one records nothing. */
    method RecordReport(schedule: Schedule, report: Report)
      requires Sound() && !report.AskedDelete? && !report.AskedDisable?
      modifies `reloadWanted, world`turns, world`table, world`rewound, world`writes
      ensures |world.turns| <= |old(world.turns)|
      ensures Sound() && Progress(old(Marked()), Marked())
      ensures old(world.writes) <= world.writes
      ensures LeadsTo(old(Here(false)), world.cap, Here(false))
      ensures CompletionWrites(world.writes[|old(world.writes)|..], schedule, report, false)
    {
      hide Safe, AllListed, Progress, LeadsTo, WrittenState;
      ProgressStays(Marked());
      ghost var begun, w := Here(false), UNSENT;
      match report {
        case Ran(outcome) => w := Record(schedule, outcome);
        case Panicked => w := Record(schedule, RunOutcome.Failed("JOB_JOIN_FAILED"));
        case Aborted =>
      }
      if report.Aborted? {
        LeadsToItself(begun, world.cap);
      } else {
        RecordLeads(begun, world.cap, w);
      }
    }

    /** Acts on a stop check's say-so, the slot already removed. */
    method ObeyStopCheck(schedule: Schedule, report: Report) returns (ghost w: Sent)
      requires Sound() && (report.AskedDelete? || report.AskedDisable?)
      modifies `reloadWanted, `writeRetry, world`turns, world`table, world`rewound, world`writes, world`settled
      ensures |world.turns| <= |old(world.turns)|
      ensures Sound() && Progress(old(Marked()), Marked())
      ensures old(world.writes) < world.writes && Ended(schedule, report, LastResult(), Marked(), writeRetry)
      ensures Wrote(old(Snapshot()), world.cap, w, Snapshot()) && IsEnding(w.call, schedule)
      ensures CompletionWrites(world.writes[|old(world.writes)|..], schedule, report, false)
    {
      hide Safe, AllListed, Progress, Wrote;
      if report.AskedDelete? {
        w := DeleteRow(schedule, report.reason);
      } else {
        w := DisableRow(schedule, report.reason);
      }
    }

    /** Removes an idle slot as its stop check asked for, and acts on that. */
    method RemoveAndObey(index: nat, report: Report)
      requires Sound() && index < |slots| && slots[index].run.None? && (report.AskedDelete? || report.AskedDisable?)
      modifies `slots, `reloadWanted, `writeRetry, world`turns, world`table, world`rewound, world`writes, world`settled
      ensures |world.turns| <= |old(world.turns)|
      ensures Sound() && Progress(old(Marked()), Marked()) && slots == Without(old(slots), index)
      ensures old(world.writes) < world.writes
      ensures Ended(old(slots)[index].schedule, report, LastResult(), Marked(), writeRetry)
      ensures LeadsTo(old(Here(false)), world.cap, Here(false))
      ensures CompletionWrites(world.writes[|old(world.writes)|..], old(slots)[index].schedule, report,
                               old(slots)[index].next.None?)
    {
      hide Sound, Armed, EndingsArmed, Progress, Without, IsStop, IsDisable, NoSlotFor, LeadsTo, Wrote, IsEnding,
        Snapshot;
      var slot := slots[index];
      ghost var begun := Here(false);
      RemoveSlot(index);
      ghost var w := ObeyStopCheck(slot.schedule, report);
      ObeyLeads(begun, world.cap, slot, w, Snapshot());
    }

    /** Removes an idle slot with nothing left to run, and ends its schedule. */
    method RemoveAndEnd(index: nat)
      requires Sound() && index < |slots| && slots[index].run.None? && slots[index].next.None?
      modifies `slots, `reloadWanted, `writeRetry, `pendingEnds, world`turns, world`table, world`rewound, world`writes,
               world`settled
      ensures |world.turns| <= |old(world.turns)|
      ensures Sound() && Progress(old(Marked()), Marked()) && slots == Without(old(slots), index)
      ensures Grew(old(world.writes), world.writes, 1)
      ensures IsStop(world.writes[|old(world.writes)|], old(slots)[index].schedule, EXHAUSTED)
      ensures LastResult() == Replied(false) ==> reloadWanted
      ensures LeadsTo(old(Here(false)), world.cap, Here(false))
      ensures if LastResult() == CallFailed(false)
              then IsPending(pendingEnds, old(slots)[index].schedule) && writeRetry.due.Some?
              else (old(slots)[index].schedule.id, old(slots)[index].schedule.generation) in world.settled
    {
      hide Sound, Armed, EndingsArmed, Progress, Without, IsStop, NoSlotFor, LeadsTo, StopsAs, EndedState, Snapshot;
      var slot := slots[index];
      ghost var begun := Here(false);
      RemoveSlot(index);
      ghost var w := EndExhausted(slot.schedule);
      ExhaustLeads(begun, world.cap, slot, w);
    }

    /** Records what a finished run did, or acts on what its stop check asked for. */
    method Complete(index: nat, report: Report) returns (removed: bool)
      requires Sound() && index < |slots| && slots[index].run.None?
      modifies `slots, `reloadWanted, `writeRetry, `pendingEnds, world`turns, world`table, world`rewound, world`writes,
               world`settled
      ensures |world.turns| <= |old(world.turns)|
      ensures Sound() && Progress(old(Marked()), Marked())
      ensures removed <==> report.AskedDelete? || report.AskedDisable? || old(slots)[index].next.None?
      ensures slots == if removed then Without(old(slots), index) else old(slots)
      ensures old(world.writes) <= world.writes
      ensures removed ==>
                && world.writes != []
                && Ended(old(slots)[index].schedule, report, LastResult(), Marked(), writeRetry)
      ensures LeadsTo(old(Here(false)), world.cap, Here(false))
      ensures CompletionWrites(world.writes[|old(world.writes)|..], old(slots)[index].schedule, report,
                               old(slots)[index].next.None?)
    {
      hide Sound, Armed, EndingsArmed, Progress, Without, IsStop, IsRecord, IsDisable, LeadsTo, Here;
      var slot := slots[index];
      if report.AskedDelete? || report.AskedDisable? {
        RemoveAndObey(index, report);
        return true;
      }
      ghost var start, begun := Marked(), Here(false);
      RecordReport(slot.schedule, report);
      removed := slot.next.None?;
      if removed {
        ghost var recorded, idle := Marked(), Here(false);
        RemoveAndEnd(index);
        LeadsOn(begun, world.cap, idle, Here(false));
        ProgressChains(start, recorded, Marked());
      }
    }

    /** Ends a schedule on its stop check's say-so; a failed write asks for a reload. */
    method DeleteRow(schedule: Schedule, reason: string) returns (ghost w: Sent)
      requires Sound()
      modifies `reloadWanted, `writeRetry, world`turns, world`table, world`rewound, world`writes, world`settled
      ensures |world.turns| <= |old(world.turns)|
      ensures Sound() && Progress(old(Marked()), Marked())
      ensures Grew(old(world.writes), world.writes, 1) && IsStop(world.writes[|old(world.writes)|], schedule, reason)
      ensures world.writes[|old(world.writes)|].call.at == Stamp(old(world.Ahead()).wall)
      ensures Wrote(old(Snapshot()), world.cap, w, Snapshot()) && IsEnding(w.call, schedule)
      ensures reloadWanted == (old(reloadWanted) || LastResult() == Replied(false))
      ensures if LastResult() == CallFailed(false) then Retried(old(writeRetry), writeRetry)
              else (schedule.id, schedule.generation) in world.settled
    {
      hide Safe, AllListed, Progress, WrittenState;
      ghost var start := Marked();
      var settled;
      settled, w := End(schedule, reason);
      if !settled {
        ghost var failed := Marked();
        RebuildLater();
        ProgressChains(start, failed, Marked());
      }
    }

    // ----------------------------------------------------------------
    // Timed-out runs
    // ----------------------------------------------------------------

    /** What the worker's slots, the log and the writes have become. */
    ghost function Traced(): Trail
      reads this, world
    {
      Trail(slots, world.launches, world.writes)
    }

    /** Takes an expired run out and completes it: as timed out, or with what joining it gave after all. */
    method ExpireRun(index: nat) returns (removed: bool, ghost joined: Report)
      requires Sound() && index < |slots| && slots[index].run.Some? && IdsDistinct(slots)
      modifies `slots, `reloadWanted, `writeRetry, `pendingEnds, world`turns, world`table, world`rewound, world`writes,
               world`settled, world`completed, world`cancelled
      ensures |world.turns| <= |old(world.turns)|
      ensures Sound() && Progress(old(Marked()), Marked()) && IdsDistinct(slots)
      ensures slots == if removed then Without(old(slots), index)
                       else old(slots)[index := old(slots)[index].(run := None)]
      ensures LeadsTo(old(Here(false)), world.cap, Here(false))
      ensures world.completed == old(world.completed) + {old(slots)[index].run.value.key}
      ensures world.cancelled == old(world.cancelled)
      ensures joined == old(world.Ahead()).late && world.Taken(old(world.Place()), old(world.Place()), world.Place())
      ensures old(world.writes) <= world.writes
      ensures removed <==> joined.AskedDelete? || joined.AskedDisable? || old(slots)[index].next.None?
      ensures CompletionWrites(world.writes[|old(world.writes)|..], old(slots)[index].schedule,
                               if joined.Aborted? then Ran(TimedOut) else joined, old(slots)[index].next.None?)
    {
      hide Sound, Progress, CompletionWrites, LeadsTo, Snapshot;
      ghost var start, begun := Marked(), Here(false);
      ProgressStays(start);
      TakeRunOf(index, true);
      assert Marked() == start;
      joined := world.Ahead().late;
      var report := LateReport();
      ghost var took, idle := Marked(), Here(false);
      removed := Complete(index, report);
      LeadsOn(begun, world.cap, idle, Here(false));
      ProgressChains(start, took, Marked());
    }

    /** What joining an aborted task gives: cancelled, or what it had just finished with. */
    method LateReport() returns (report: Report)
      requires Sound()
      modifies world`turns
      ensures |world.turns| <= |old(world.turns)|
      ensures Snapshot() == old(Snapshot()) && world.Taken(old(world.Place()), old(world.Place()), world.Place())
      ensures Sound() && Marked() == old(Marked())
      ensures report == if old(world.Ahead()).late.Aborted? then Ran(TimedOut) else old(world.Ahead()).late
    {
      hide Safe, AllListed;
      var turn := world.Take();
      report := if turn.late.Aborted? then Ran(TimedOut) else turn.late;
    }

    /** Times out the run of one slot if its deadline has come by this clock. */
    method ExpireBy(index: nat, clock: int) returns (removed: bool, ghost e: Expiry)
      requires Sound() && IdsDistinct(slots) && index < |slots|
      modifies `slots, `reloadWanted, `writeRetry, `pendingEnds, world`turns, world`table, world`rewound, world`writes,
               world`settled, world`completed, world`cancelled
      ensures |world.turns| <= |old(world.turns)|
      ensures Sound() && Progress(old(Marked()), Marked()) && IdsDistinct(slots)
      ensures LeadsTo(old(Here(false)), world.cap, Here(false))
      ensures LookedAt(world, old(Traced()), index, e, Traced(), old(world.Place()), world.Place()) && e.clock == clock
      ensures |e.left| == if removed then 0 else 1
      ensures world.completed == old(world.completed)
                                 + (if e.joined.Some? then {old(slots)[index].run.value.key} else {})
      ensures world.cancelled == old(world.cancelled)
    {
      hide Sound, Marked, Progress, LeadsTo, Snapshot, IdsDistinct, CompletionWrites, LookedAt, Without, World.Taken;
      LeadsToItself(Here(false), world.cap);
      ProgressStays(Marked());
      ghost var was, slot, from := Traced(), slots[index], world.Place();
      removed, e := false, Expiry(clock, None, from, [], [slot]);
      if slots[index].run.Some? && slots[index].run.value.deadline <= clock {
        ghost var joined;
        removed, joined := ExpireRun(index);
        e := Expiry(clock, Some(joined), from, world.writes[|was.writes|..],
                    if removed then [] else [slot.(run := None)]);
      }
      LooksAt(world, was, index, clock, e.joined, e.writes, removed, Traced(), from, world.Place());
    }

    /** Times out the run of one slot if its deadline has come, unless a stop was requested. */
    method ExpireNext(index: nat) returns (stop: bool, removed: bool, ghost e: Expiry)
      requires Sound() && IdsDistinct(slots) && index < |slots|
      modifies `slots, `stopping, `reloadWanted, `writeRetry, `pendingEnds, world`turns, world`table, world`rewound,
               world`writes, world`settled, world`completed, world`cancelled, world`monotonic
      ensures |world.turns| <= |old(world.turns)|
      ensures Sound() && Progress(old(Marked()), Marked()) && IdsDistinct(slots)
      ensures LeadsTo(old(Here(false)), world.cap, Here(false))
      ensures stop == stopping == (old(stopping) || old(world.Ahead()).stop)
      ensures stop && !old(stopping) ==> world.StopAsked(old(world.Place()), world.Place())
      ensures stop ==> Traced() == old(Traced()) && world.completed == old(world.completed)
      ensures !stop ==>
                && LookedAt(world, old(Traced()), index, e, Traced(), old(world.Place()), world.Place())
                && |e.left| == (if removed then 0 else 1)
                && world.completed == old(world.completed)
                                      + (if e.joined.Some? then {old(slots)[index].run.value.key} else {})
      ensures world.cancelled == old(world.cancelled)
      ensures old(world.monotonic) <= world.monotonic && (!stop ==> e.clock == world.monotonic)
    {
      hide Sound, Marked, Progress, LeadsTo, Snapshot, IdsDistinct, CompletionWrites;
      ghost var start, begun := Marked(), Here(false);
      removed, e := false, UNSEEN;
      stop := StopRequested();
      AsksToStop(begun, world.cap, stop);
      if !stop {
        var clock := MonotonicNow();
        ghost var marks, at := Marked(), Here(false);
        removed, e := ExpireBy(index, clock);
        LeadsOn(begun, world.cap, at, Here(false));
        ProgressChains(start, marks, Marked());
      }
    }

    /** Times out every run past its monotonic deadline, and no other: one look at each slot, unless stopped. */
    method Expire() returns (ghost expiries: seq<Expiry>)
      requires Sound() && IdsDistinct(slots)
      modifies `slots, `stopping, `reloadWanted, `writeRetry, `pendingEnds, world`turns, world`table, world`rewound,
               world`writes, world`settled, world`completed, world`cancelled, world`monotonic
      ensures |world.turns| <= |old(world.turns)|
      ensures Sound() && Progress(old(Marked()), Marked()) && IdsDistinct(slots)
      ensures LeadsTo(old(Here(false)), world.cap, Here(false))
      ensures Swept(world, old(Traced()), old(world.completed), expiries, Traced(), world.completed,
                    old(world.Place()), world.Place(), old(world.monotonic), world.monotonic)
      ensures stopping || |expiries| == |old(slots)|
      ensures world.cancelled == old(world.cancelled)
      ensures stopping || NoneOverdue(slots, old(world.monotonic))
      ensures stopping && !old(stopping) ==> world.StopAsked(old(world.Place()), world.Place())
      ensures old(stopping) ==> expiries == []
    {
      hide Sound, Marked, Progress, LeadsTo, Snapshot, Here, IdsDistinct, LookedAt, Survivors, NoneOverdue, Swept,
        World.StopAsked;
      ghost var start, begun, before, was := Marked(), Here(false), Traced(), world.completed;
      ghost var from, early := world.Place(), world.monotonic;
      ProgressStays(start);
      LeadsToItself(begun, world.cap);
      expiries := [];
      NothingLooked(world, before, from);
      var index := 0;
      while index < |slots|
        invariant |world.turns| <= |old(world.turns)|
        invariant Sound() && Progress(start, Marked()) && IdsDistinct(slots) && early <= world.monotonic
        invariant stopping == old(stopping) && LeadsTo(begun, world.cap, Here(false))
        invariant Swept(world, before, was, expiries, Traced(), world.completed, from, world.Place(), early,
                        world.monotonic)
        invariant index == |Survivors(expiries)| <= |slots| && world.cancelled == old(world.cancelled)
        invariant stopping ==> expiries == []
        decreases |before.slots| - |expiries|
      {
        ghost var marks, at, traced, e := Marked(), Here(false), Traced(), UNSEEN;
        ghost var mid, done, late := world.Place(), world.completed, world.monotonic;
        var stop, removed;
        stop, removed, e := ExpireNext(index);
        ProgressChains(start, marks, Marked());
        LeadsOn(begun, world.cap, at, Here(false));
        if stop {
          world.AskedWithin(from, mid, world.Place());
          SweptStays(world, before, was, expiries, Traced(), done, from, mid, world.Place(), early, late,
                     world.monotonic);
          return;
        }
        SweptStep(world, before, was, expiries, traced, done, e, Traced(), world.completed, from, mid, world.Place(),
                  early, late, index);
        expiries := expiries + [e];
        index := if removed then index else index + 1;
      }
      SweepsLeaveNoneOverdue(world, before, was, expiries, Traced(), world.completed, from, world.Place(), early,
                             world.monotonic);
    }

    // ----------------------------------------------------------------
    // Launching
    // ----------------------------------------------------------------

    /** Moves a slot's next run forward, or to none. */
    method MoveSlot(index: nat, next: Option<int>)
      requires Sound() && index < |slots|
      requires next.Some? ==> slots[index].next.Some? && slots[index].next.value <= next.value
      modifies `slots
      ensures Sound() && slots == old(slots)[index := old(slots)[index].(next := next)]
      ensures Snapshot() == old(Snapshot()).(slots := Exchanged(old(Snapshot()).slots, old(slots)[index], slots[index]))
      ensures Marked() == old(Marked())
    {
      hide Safe, AllListed, Exchanged;
      ghost var s := Snapshot();
      var slot := slots[index];
      MoveNextAt(s, slots, taken, index, next);
      UpdatedMultiset(slots, taken, index, slot.(next := next));
      slots := slots[index := slot.(next := next)];
      assert Snapshot() == s.(slots := multiset(slots) + multiset(taken));
    }

    /** The state once the slot has been launched, its deadline counted from the latest reading of the clock. */
    ghost function LaunchedAt(s: State, slot: Slot, due: int, backing: Backing): State
      reads world
    {
      WithLaunch(s, slot, due, backing, world.monotonic + slot.schedule.spec.timeout)
    }

    /** Puts a run in an idle slot and logs it. */
    method StartRun(index: nat, due: int, backing: Backing)
      requires Sound() && listing == [] && index < |slots| && slots[index].run.None?
      requires slots[index].next.Some? ==> due < slots[index].next.value
      requires Before(world.Logged(), slots[index].schedule.id, slots[index].schedule.generation, due)
      requires Authorized(LaunchOf(slots[index], due, backing))
      requires StoredAhead(LaunchOf(slots[index], due, backing), world.table, world.rewound)
      modifies `slots, world`launches
      ensures Sound() && Marked() == old(Marked())
      ensures world.launches == old(world.launches) + [LaunchOf(old(slots)[index], due, backing)]
      ensures slots == old(slots)[index := Started(old(slots)[index], |old(world.launches)|, world.monotonic)]
      ensures slots[index].run == Some(InFlight(|old(world.launches)|,
                                                world.monotonic + old(slots)[index].schedule.spec.timeout))
      ensures Snapshot() == LaunchedAt(old(Snapshot()), old(slots)[index], due, backing)
    {
      hide Safe, AllListed, Before, Authorized, StoredAhead, WithLaunch, LaunchOf;
      ghost var s := Snapshot();
      var slot := slots[index];
      var running := Started(slot, |world.launches|, world.monotonic);
      LaunchAt(s, slots, taken, index, due, backing, running.run.value.deadline);
      slots := slots[index := running];
      world.launches := world.launches + [LaunchOf(slot, due, backing)];
      assert Snapshot() == WithLaunch(s, slot, due, backing, running.run.value.deadline);
      NothingListed(world.table, world.Logged());
    }

    /** Starts the run of an idle slot, unless the operation no longer admits launches. */
    method Launch(index: nat, due: int, backing: Backing) returns (admitted: bool)
      requires Sound() && listing == [] && index < |slots| && slots[index].run.None?
      requires slots[index].next.Some? ==> due < slots[index].next.value
      requires Before(world.Logged(), slots[index].schedule.id, slots[index].schedule.generation, due)
      requires Authorized(LaunchOf(slots[index], due, backing))
      requires StoredAhead(LaunchOf(slots[index], due, backing), world.table, world.rewound)
      modifies `slots, world`turns, world`launches, world`monotonic
      ensures |world.turns| <= |old(world.turns)|
      ensures old(world.monotonic) <= world.monotonic
      ensures Sound() && Marked() == old(Marked())
      ensures admitted == old(world.Ahead()).admitted && (!admitted ==> world.MayRefuse())
      ensures !admitted ==> slots == old(slots) && world.launches == old(world.launches)
      ensures admitted ==>
                && world.launches == old(world.launches) + [LaunchOf(old(slots)[index], due, backing)]
                && slots == old(slots)[index := Started(old(slots)[index], |old(world.launches)|, world.monotonic)]
      ensures Snapshot() == if admitted then LaunchedAt(old(Snapshot()), old(slots)[index], due, backing)
                            else old(Snapshot())
    {
      hide Sound, Armed, EndingsArmed, Before, Authorized, StoredAhead, WithLaunch;
      var turn := NextEvent();
      admitted := turn.admitted;
      if admitted {
        var _ := MonotonicNow();
        StartRun(index, due, backing);
      }
    }

    /** Launches an idle due slot, unless the policy drops what was missed. */
    method LaunchSelected(index: nat, due: int, missed: bool, backing: Backing)
      returns (launched: bool, ghost admitted: bool)
      requires Sound() && listing == [] && index < |slots|
      requires slots[index].next.Some? ==> due < slots[index].next.value
      requires Before(world.Logged(), slots[index].schedule.id, slots[index].schedule.generation, due)
      requires Authorized(LaunchOf(slots[index], due, backing))
      requires StoredAhead(LaunchOf(slots[index], due, backing), world.table, world.rewound)
      modifies `slots, world`turns, world`launches, world`monotonic
      ensures |world.turns| <= |old(world.turns)|
      ensures old(world.monotonic) <= world.monotonic
      ensures Sound() && Marked() == old(Marked())
      ensures launched <==> admitted && old(slots)[index].run.None? && !(missed && policy.Skip?)
      ensures old(slots)[index].run.None? && !(missed && policy.Skip?) ==> admitted == old(world.Ahead()).admitted
      ensures !admitted ==> world.MayRefuse()
      ensures !launched ==> slots == old(slots) && world.launches == old(world.launches)
      ensures launched ==>
                && world.launches == old(world.launches) + [LaunchOf(old(slots)[index], due, backing)]
                && slots == old(slots)[index := Started(old(slots)[index], |old(world.launches)|, world.monotonic)]
      ensures Snapshot() == if launched then LaunchedAt(old(Snapshot()), old(slots)[index], due, backing)
                            else old(Snapshot())
    {
      hide Sound, Marked, Before, Authorized, StoredAhead;
      launched, admitted := false, true;
      if slots[index].run.None? && !(missed && policy == Skip) {
        launched := Launch(index, due, backing);
        admitted := launched;
      }
    }

    lemma SlotIsHeld(index: nat)
      requires index < |slots|
      ensures slots[index] in Snapshot().slots
    {
    }

    /** What a slot held by this worker is known to have behind it. */
    lemma HeldSlotOk(index: nat)
      requires Sound() && index < |slots|
      ensures SlotOk(slots[index], world.table, world.Logged())
    {
      hide SlotOk;
      assert slots[index] in Snapshot().slots;
    }

    /** Stores the next run of a slot being served, if there is one. */
    method StoreNext(slot: Slot, now: int)
      returns (proceed: bool, backing: Backing, ghost writes: seq<Attempt>, ghost foreign: seq<Command>,
               ghost step: Step)
      requires Sound() && DueAt(slot, now)
      requires NextOf(slot, now).Some? ==>
                 && Stamp(NextOf(slot, now).value) == NextOf(slot, now).value > slot.next.value
                 && Before(world.Logged(), slot.schedule.id, slot.schedule.generation, NextOf(slot, now).value)
      modifies `reloadWanted, world`turns, world`table, world`rewound, world`writes
      ensures |world.turns| <= |old(world.turns)|
      ensures Sound() && Progress(old(Marked()), Marked()) && old(world.rewound) <= world.rewound
      ensures world.writes == old(world.writes) + writes
      ensures SlotWrites(writes, slot.schedule, NextOf(slot, now), false)
      ensures proceed <==> Permits(StoredBy(slot, now, writes))
      ensures BackedBy(slot, now, writes, backing)
      ensures StoredBy(slot, now, writes) == Some(Replied(false)) ==> reloadWanted
      ensures Authorized(LaunchOf(slot, slot.next.value, backing))
      ensures StoredAhead(LaunchOf(slot, slot.next.value, backing), world.table, world.rewound)
      ensures ValidCommands(foreign) && step.Serve? && step == Step.Serve(slot, now, policy, step.answer, false, 0)
      ensures StoresAs(old(Snapshot()), world.cap, foreign, step, Snapshot(), backing, proceed)
    {
      hide Sound, Progress, Before, NextRun, StoresAs, Interfered;
      ghost var start, before := Snapshot(), world.writes;
      var next := NextOf(slot, now);
      ProgressStays(Marked());
      proceed, backing, writes, foreign := true, NoSuccessor, [], [];
      step := Step.Serve(slot, now, policy, Answer.Served, false, 0);
      if next.Some? {
        var result;
        proceed, backing, result, foreign := PersistNext(slot.schedule, next.value);
        writes := world.writes[|before|..];
        step := Step.Serve(slot, now, policy, AnswerOf(result, backing.Stored?), false, 0);
        StoresNext(start, world.cap, foreign, step, backing.Stored?, result, Snapshot());
      } else {
        StoresNothing(start, world.cap, step);
      }
    }

    /** Moves a due slot's next run to the first after `now`, and stores it if there is one. */
    method MoveAndStore(index: nat, now: int)
      returns (proceed: bool, backing: Backing, ghost writes: seq<Attempt>, ghost foreign: seq<Command>,
               ghost step: Step)
      requires Sound() && listing == [] && index < |slots| && DueAt(slots[index], now)
      modifies `slots, `reloadWanted, world`turns, world`table, world`rewound, world`writes
      ensures |world.turns| <= |old(world.turns)|
      ensures Sound() && Progress(old(Marked()), Marked())
      ensures slots == old(slots)[index := Moved(old(slots)[index], now)]
      ensures world.writes == old(world.writes) + writes
      ensures SlotWrites(writes, old(slots)[index].schedule, NextOf(old(slots)[index], now), false)
      ensures proceed <==> Permits(StoredBy(old(slots)[index], now, writes))
      ensures BackedBy(old(slots)[index], now, writes, backing)
      ensures StoredBy(old(slots)[index], now, writes) == Some(Replied(false)) ==> reloadWanted
      ensures Authorized(LaunchOf(slots[index], old(slots)[index].next.value, backing))
      ensures StoredAhead(LaunchOf(slots[index], old(slots)[index].next.value, backing), world.table, world.rewound)
      ensures Before(world.Logged(), slots[index].schedule.id, slots[index].schedule.generation,
                     old(slots)[index].next.value)
      ensures ValidCommands(foreign) && step.Serve?
      ensures step == Step.Serve(old(slots)[index], now, policy, step.answer, false, 0)
      ensures MovesAs(old(Snapshot()), world.cap, foreign, step, Snapshot(), backing, proceed)
    {
      hide Sound, Progress, Before, NextRun, StoresAs, BackedBy, SlotWrites, Authorized, StoredAhead, Exchanged;
      ghost var log := world.Logged();
      var slot := slots[index];
      NextIsLater(index, now);
      MoveSlot(index, NextOf(slot, now));
      proceed, backing, writes, foreign, step := StoreNext(slot, now);
      BeforeStays(log, world.Logged(), slot.schedule.id, slot.schedule.generation, slot.next.value);
    }

    /** The next run of a due slot is later, past its stored launches, and stored exactly. */
    lemma NextIsLater(index: nat, now: int)
      requires Sound() && index < |slots| && DueAt(slots[index], now)
      ensures var slot, next := slots[index], NextOf(slots[index], now);
              && Before(world.Logged(), slot.schedule.id, slot.schedule.generation, slot.next.value)
              && (next.Some? ==>
                    && Stamp(next.value) == next.value > slot.next.value
                    && Before(world.Logged(), slot.schedule.id, slot.schedule.generation, next.value))
    {
      hide Sound, NextRun;
      HeldSlotOk(index);
      var schedule := slots[index].schedule;
      NextRunAdvances(schedule.spec.expr, schedule.jitter, now);
      if NextOf(slots[index], now).Some? {
        RunStampsExactly(schedule.spec.expr, schedule.jitter, now);
      }
    }

    /** Launches the occurrence a slot was due for, or ends an idle slot that has nothing left to run. */
    method LaunchOrEnd(index: nat, due: int, missed: bool, backing: Backing)
      returns (removed: bool, ghost admitted: bool)
      requires Sound() && listing == [] && index < |slots|
      requires slots[index].next.Some? ==> due < slots[index].next.value
      requires Before(world.Logged(), slots[index].schedule.id, slots[index].schedule.generation, due)
      requires Authorized(LaunchOf(slots[index], due, backing))
      requires StoredAhead(LaunchOf(slots[index], due, backing), world.table, world.rewound)
      modifies `slots, `reloadWanted, `writeRetry, `pendingEnds, world`turns, world`table, world`rewound, world`writes,
               world`settled, world`launches, world`monotonic
      ensures |world.turns| <= |old(world.turns)|
      ensures old(world.monotonic) <= world.monotonic
      ensures Sound() && Progress(old(Marked()), Marked())
      ensures if removed
              then Grew(old(world.writes), world.writes, 1)
                   && IsStop(world.writes[|old(world.writes)|], old(slots)[index].schedule, EXHAUSTED)
              else world.writes == old(world.writes)
      ensures var launched := admitted && old(slots)[index].run.None? && !(missed && policy.Skip?);
              && world.launches ==
                  old(world.launches) + (if launched then [LaunchOf(old(slots)[index], due, backing)] else [])
              && (removed <==> !launched && old(slots)[index].next.None? && old(slots)[index].run.None?)
              && (!removed ==> slots == old(slots)[index := if launched
                                                            then Started(old(slots)[index], |old(world.launches)|,
                                                                         world.monotonic)
                                                            else old(slots)[index]])
      ensures !removed ==>
                Snapshot() == if admitted && old(slots)[index].run.None? && !(missed && policy.Skip?)
                              then LaunchedAt(old(Snapshot()), old(slots)[index], due, backing) else old(Snapshot())
      ensures old(slots)[index].run.None? && !(missed && policy.Skip?) ==> admitted == old(world.Ahead()).admitted
      ensures !admitted ==> world.MayRefuse()
      ensures removed ==> LeadsTo(old(Here(false)), world.cap, Here(false))
      ensures removed ==> slots == Without(old(slots), index) && OwedOrSettled(old(slots)[index].schedule, Marked())
    {
      hide Sound, Armed, EndingsArmed, Progress, Before, Authorized, StoredAhead, LeadsTo, Snapshot;
      ghost var start := Marked();
      var launched;
      launched, admitted := LaunchSelected(index, due, missed, backing);
      ProgressStays(Marked());
      removed := slots[index].next.None? && slots[index].run.None?;
      if removed {
        RemoveAndEnd(index);
      }
    }

    /** The second half of `LaunchSlot`: the slot has been moved and what is to permit its launch has. */
    method LaunchMoved(index: nat, now: int, slot: Slot, backing: Backing, ghost was: Trail, ghost stored: seq<Attempt>,
                       ghost from: Config, ghost foreign: seq<Command>, ghost asked: Step)
      returns (removed: bool, ghost d: Decision, ghost step: Step)
      requires Sound() && listing == [] && index < |slots| && DueAt(slot, now) && slots[index] == Moved(slot, now)
      requires slots[index].next.Some? ==> slot.next.value < slots[index].next.value
      requires Before(world.Logged(), slot.schedule.id, slot.schedule.generation, slot.next.value)
      requires Authorized(LaunchOf(slots[index], slot.next.value, backing))
      requires StoredAhead(LaunchOf(slots[index], slot.next.value, backing), world.table, world.rewound)
      requires index < |was.slots| && was.slots[index] == slot
      requires Traced() == Trail(was.slots[index := Moved(slot, now)], was.launches, was.writes + stored)
      requires SlotWrites(stored, slot.schedule, NextOf(slot, now), false)
      requires Permits(StoredBy(slot, now, stored)) && BackedBy(slot, now, stored, backing)
      requires !from.merging && from.listing == [] && from.stopping == stopping && slot in from.state.slots
      requires ValidCommands(foreign) && asked.Serve? && asked == Step.Serve(slot, now, policy, asked.answer, false, 0)
      requires MovesAs(from.state, world.cap, foreign, asked, Snapshot(), backing, true)
      modifies `slots, `reloadWanted, `writeRetry, `pendingEnds, world`turns, world`table, world`rewound, world`writes,
               world`settled, world`launches, world`monotonic
      ensures |world.turns| <= |old(world.turns)|
      ensures old(world.monotonic) <= world.monotonic == d.clock
      ensures Sound() && Progress(old(Marked()), Marked())
      ensures !d.held && SlotPassed(was, index, d, Traced(), now, policy, Marked()) && Warranted(world, d)
      ensures |d.left| == if removed then 0 else 1
      ensures StoredBy(slot, now, d.writes) == StoredBy(slot, now, stored)
      ensures step.Serve? && step == Step.Serve(slot, now, policy, step.answer, d.admitted, step.deadline)
      ensures !stopping ==> LeadsTo(from, world.cap, Here(false))
      ensures !removed ==> Snapshot() == AfterServe(Met(from.state, world.cap, foreign), world.cap, step)
    {
      hide Sound, Armed, EndingsArmed, Progress, Before, Authorized, StoredAhead, NextRun, MovesAs, AfterServe, Met,
        SlotPassed, SlotWrites, StoredBy, BackedBy, OwedOrSettled, WithLaunch, Snapshot, Missed, LeadsTo, Permits,
        Interfered, ValidCommands, Stamp;
      ghost var moved, midway, idle := Snapshot(), Traced(), Here(false);
      var due := slot.next.value;
      var missed := Missed(slot.schedule.spec.expr, slot.schedule.jitter, due, now);
      ghost var admitted;
      removed, admitted := LaunchOrEnd(index, due, missed, backing);
      ghost var ended, launched := world.writes[|midway.writes|..], world.launches[|was.launches|..];
      d := Decision(false, world.monotonic, stored + ended, admitted, launched, if removed then [] else [slots[index]]);
      AllowedPasses(was, index, world.monotonic, stored, ended, admitted, launched, Traced(), now, policy, Marked());
      step := asked.(admitted := admitted, deadline := world.monotonic + slot.schedule.spec.timeout);
      LaunchLeads(from, world.cap, foreign, asked, step, moved, backing, true, if removed then moved else Snapshot());
      if removed && !stopping {
        LeadsOn(from, world.cap, idle, Here(false));
      }
    }

    /**
     A due slot: its next run moves to the first after `now`, is stored if there is
     one, and the occurrence is launched. A write that was fenced, or whose effect
     is in doubt, refuses the launch. An idle slot with nothing left to run ends. All
     but that end is the step `Serve` after the calls of others in between.
     */
    method LaunchSlot(index: nat, now: int)
      returns (removed: bool, ghost d: Decision, ghost foreign: seq<Command>, ghost step: Step)
      requires Sound() && listing == [] && index < |slots| && DueAt(slots[index], now)
      modifies `slots, `reloadWanted, `writeRetry, `pendingEnds, world`turns, world`table, world`rewound, world`writes,
               world`settled, world`launches, world`monotonic
      ensures |world.turns| <= |old(world.turns)|
      ensures old(world.monotonic) <= world.monotonic == d.clock
      ensures Sound() && Progress(old(Marked()), Marked())
      ensures !d.held && SlotPassed(old(Traced()), index, d, Traced(), now, policy, Marked()) && Warranted(world, d)
      ensures |d.left| == if removed then 0 else 1
      ensures StoredBy(old(slots)[index], now, d.writes) == Some(Replied(false)) ==> reloadWanted
      ensures ValidCommands(foreign) && step.Serve?
      ensures step == Step.Serve(old(slots)[index], now, policy, step.answer, d.admitted, step.deadline)
      ensures !stopping ==> LeadsTo(old(Here(false)), world.cap, Here(false))
      ensures !removed ==> Snapshot() == AfterServe(Met(old(Snapshot()), world.cap, foreign), world.cap, step)
    {
      hide Sound, Armed, EndingsArmed, Progress, Before, Authorized, StoredAhead, NextRun, MovesAs, AfterServe, Met,
        SlotPassed, SlotWrites, StoredBy, BackedBy, OwedOrSettled, WithLaunch, Snapshot, LeadsTo, Permits, Interfered,
        ValidCommands, Stamp;
      ghost var start, was, from := Marked(), Traced(), Here(false);
      SlotIsHeld(index);
      var slot := slots[index];
      NextIsLater(index, now);
      var proceed, backing;
      ghost var stored, asked;
      proceed, backing, stored, foreign, asked := MoveAndStore(index, now);
      ghost var marks := Marked();
      if proceed {
        removed, d, step := LaunchMoved(index, now, slot, backing, was, stored, from, foreign, asked);
        ProgressChains(start, marks, Marked());
        WishStays(marks, Marked());
      } else {
        removed, d := false, Decision(false, world.monotonic, stored, true, [], [slots[index]]);
        RefusedPasses(was, index, world.monotonic, stored, Traced(), now, policy, Marked());
        step := asked.(admitted := true);
        LaunchLeads(from, world.cap, foreign, asked, step, Snapshot(), backing, proceed, Snapshot());
      }
    }

    /** A `run_due` of this process holds the schedule's name. */
    method Held(name: string) returns (held: bool)
      requires Sound()
      modifies world`turns
      ensures |world.turns| <= |old(world.turns)|
      ensures world.OneTaken(old(world.Place()), world.Place())
      ensures Snapshot() == old(Snapshot())
      ensures Sound() && Marked() == old(Marked()) && held == old(world.Ahead()).held
      ensures held ==> world.MayHold()
    {
      hide Safe, AllListed;
      var turn := world.Take();
      held := turn.held;
    }

    /** Deals with the slot the pass has come to. */
    method PassSlot(index: nat, now: int) returns (removed: bool, ghost d: Decision)
      requires Sound() && listing == [] && index < |slots|
      modifies `slots, `reloadWanted, `writeRetry, `pendingEnds, world`turns, world`table, world`rewound, world`writes,
               world`settled, world`launches, world`monotonic
      ensures |world.turns| <= |old(world.turns)|
      ensures old(world.monotonic) <= world.monotonic == d.clock
      ensures Sound() && Progress(old(Marked()), Marked())
      ensures SlotPassed(old(Traced()), index, d, Traced(), now, policy, Marked())
      ensures !stopping ==> LeadsTo(old(Here(false)), world.cap, Here(false))
      ensures |d.left| == (if removed then 0 else 1) && Warranted(world, d) && d.held == old(world.Ahead()).held
    {
      hide Sound, Progress, Marked, WorkerLaunch.ServedAs, LeadsTo, Snapshot;
      LeadsToItself(Here(false), world.cap);
      ProgressStays(Marked());
      var isHeld := Held(slots[index].schedule.spec.name);
      d := Decision(isHeld, world.monotonic, [], true, [], [slots[index]]);
      if isHeld || !DueAt(slots[index], now) {
        return false, d;
      }
      ghost var foreign, step;
      removed, d, foreign, step := LaunchSlot(index, now);
    }

    /** Deals with the slot the pass has come to, unless a stop was requested. */
    method PassNext(index: nat, now: int) returns (stop: bool, removed: bool, ghost d: Decision)
      requires Sound() && listing == [] && index < |slots|
      modifies `slots, `stopping, `reloadWanted, `writeRetry, `pendingEnds, world`turns, world`table, world`rewound,
               world`writes, world`settled, world`launches, world`monotonic
      ensures |world.turns| <= |old(world.turns)|
      ensures old(world.monotonic) <= world.monotonic && (!stop ==> d.clock == world.monotonic)
      ensures Sound() && Progress(old(Marked()), Marked())
      ensures LeadsTo(old(Here(false)), world.cap, Here(false))
      ensures stop == stopping == (old(stopping) || old(world.Ahead()).stop)
      ensures stop && !old(stopping) ==> world.StopAsked(old(world.Place()), world.Place())
      ensures stop ==> Traced() == old(Traced())
      ensures !stop ==>
                && SlotPassed(old(Traced()), index, d, Traced(), now, policy, Marked())
                && |d.left| == (if removed then 0 else 1) && Warranted(world, d)
    {
      hide Sound, Progress, Armed, EndingsArmed, SlotPassed, LeadsTo, Warranted, Snapshot;
      ghost var start, begun := Marked(), Here(false);
      removed, d := false, UNDECIDED;
      stop := StopRequested();
      AsksToStop(begun, world.cap, stop);
      if !stop {
        ghost var asked, at := Marked(), Here(false);
        removed, d := PassSlot(index, now);
        LeadsOn(begun, world.cap, at, Here(false));
        ProgressChains(start, asked, Marked());
      }
    }

    /**
     Launches every due slot, and makes one decision for each slot it comes to: for
     all of them unless a stop cuts the pass short. However many occurrences were
     missed, a slot is launched once, or under `Skip` not at all.
     */
    method LaunchDue(now: int) returns (ghost decisions: seq<Decision>)
      requires Sound() && listing == [] && IdsDistinct(slots) && now <= MAX_UTC
      modifies `slots, `stopping, `reloadWanted, `writeRetry, `pendingEnds, world`turns, world`table, world`rewound,
               world`writes, world`settled, world`launches, world`monotonic
      ensures |world.turns| <= |old(world.turns)|
      ensures old(world.monotonic) <= world.monotonic
      ensures MadeWithin(decisions, old(world.monotonic), world.monotonic)
      ensures Sound() && Progress(old(Marked()), Marked()) && IdsDistinct(slots)
      ensures PassDone(old(Traced()), decisions, Traced(), now, policy, Marked()) && AllWarranted(world, decisions)
      ensures LeadsTo(old(Here(false)), world.cap, Here(false))
      ensures stopping && !old(stopping) ==> world.StopAsked(old(world.Place()), world.Place())
      ensures old(stopping) ==> Traced() == old(Traced())
    {
      hide Sound, Progress, Armed, EndingsArmed, Passed, PassDone, NothingDue, IdsDistinct, Dealt, Left, LeadsTo,
        Warranted, Snapshot;
      decisions := [];
      ghost var before, start, begun := Traced(), Marked(), Here(false);
      LeadsToItself(begun, world.cap);
      NothingPassed(before, now, policy, start);
      ProgressStays(start);
      var index := 0;
      while index < |slots|
        invariant |world.turns| <= |old(world.turns)| && old(world.monotonic) <= world.monotonic
        invariant MadeWithin(decisions, old(world.monotonic), world.monotonic)
        invariant Sound() && listing == [] && IdsDistinct(slots) && Progress(start, Marked())
        invariant LeadsTo(begun, world.cap, Here(false))
        invariant Passed(before, decisions, Traced(), now, policy, Marked())
        invariant index == |Left(decisions)| <= |slots|
        invariant AllWarranted(world, decisions) && stopping == old(stopping)
        invariant stopping ==> Traced() == before
        decreases |before.slots| - |decisions|
      {
        ghost var marks, at, was, d := Marked(), Here(false), Traced(), UNDECIDED;
        var stop, removed;
        stop, removed, d := PassNext(index, now);
        LeadsOn(begun, world.cap, at, Here(false));
        ProgressChains(start, marks, Marked());
        if stop {
          PassedStays(before, decisions, Traced(), now, policy, marks, Marked());
          break;
        }
        SlotPassedDistinct(was, index, d, Traced(), now, policy, Marked());
        PassedStep(before, decisions, was, d, Traced(), now, policy, marks, Marked());
        decisions := decisions + [d];
        index := if removed then index else index + 1;
      }
      PassEnds(before, decisions, Traced(), now, policy, Marked());
    }

    // ----------------------------------------------------------------
    // The next wake
    // ----------------------------------------------------------------

    /** The earliest instant the worker is obliged to wake for, or the end of time when there is none. */
    method Wake() returns (wake: int, ghost now: int, ghost held: set<nat>)
      requires Sound()
      modifies world`turns, world`monotonic
      ensures |world.turns| <= |old(world.turns)|
      ensures Snapshot() == old(Snapshot())
      ensures Sound() && Marked() == old(Marked())
      ensures now == old(world.Ahead()).wall
      ensures world.monotonic == Later(old(world.monotonic), world.TurnAt(old(world.Place()) + 1).monotonic)
      ensures WakesAt(Seen(), wake, now, held) && (held != {} ==> world.MayHold())
    {
      hide Sound, Marked, Snapshot, WallAfter, Remaining, LeastOf, WakesAt, Earliest;
      var wall := Now();
      var clock := MonotonicNow();
      now, held := wall, {};
      var least: Option<int> := None;
      LeastOfNone(slots, now, clock);
      var index := 0;
      while index < |slots|
        invariant |world.turns| <= |old(world.turns)|
        invariant 0 <= index <= |slots| && Sound() && clock == world.monotonic
        invariant Snapshot() == old(Snapshot()) && Marked() == old(Marked())
        invariant LeastOf(slots, index, least, now, clock, held) && (held != {} ==> world.MayHold())
      {
        var slot := slots[index];
        ghost var before, isHeld := least, false;
        if slot.next.Some? {
          var inFlight := Held(slot.schedule.spec.name);
          isHeld := inFlight;
          if !inFlight {
            least := Earliest(least, slot.next);
          }
        }
        if slot.run.Some? {
          least := Earliest(least, Some(WallAfter(wall, Remaining(slot.run.value.deadline, clock))));
        }
        LeastStep(slots, index, before, now, clock, held, isHeld);
        held := if isHeld then held + {index} else held;
        index := index + 1;
      }
      LeastWakes(Seen(), least, now, held);
      least := Earliest(Earliest(Earliest(least, retry.due), writeRetry.due), pollDue);
      wake := if least.Some? then least.value else MAX_UTC;
    }

    // ----------------------------------------------------------------
    // One round of the loop
    // ----------------------------------------------------------------

    /** Retries the owed endings once their date has come. */
    method RetryWrites(now: int) returns (due: bool)
      requires Valid()
      modifies `stopping, `reloadWanted, `writeRetry, `pendingEnds, world`turns, world`table, world`rewound,
               world`writes, world`settled
      ensures |world.turns| <= |old(world.turns)|
      ensures stopping && !old(stopping) ==> world.StopAsked(old(world.Place()), world.Place())
      ensures Valid() && Progress(old(Marked()), Marked())
      ensures LeadsTo(old(Here(false)), world.cap, Here(false))
      ensures due == IsDue(old(writeRetry).due, now) && EndingsRetried(world, old(Seen()), now, Seen())
      ensures old(reloadWanted) ==> reloadWanted
    {
      hide Sound, Progress, LeadsTo, Snapshot, EndingsAsked, World.StopAsked;
      ghost var start, seen := Marked(), Seen();
      ProgressStays(start);
      LeadsToItself(Here(false), world.cap);
      due := IsDue(writeRetry.due, now);
      if due {
        ForgetDate();
        ghost var undated := Marked();
        RetryEnds();
        ProgressResumes(start, undated, Marked());
        StaysArmed(start, Marked());
        WishStays(start, Marked());
      }
    }

    method ForgetDate()
      requires Sound()
      modifies `writeRetry
      ensures Snapshot() == old(Snapshot()) && writeRetry == old(writeRetry).(due := None)
      ensures Sound() && Marked() == old(Marked()).(endingsArmed := EndingsArmed())
    {
      hide Safe, AllListed;
      writeRetry := writeRetry.(due := None);
    }

    /** Reloads when a reload is wanted, or a retry or the poll has come due. */
    method ReloadIfDue(now: int, writeDue: bool) returns (ghost rows: Option<seq<Schedule>>)
      requires Valid()
      modifies `slots, `taken, `listing, `stopping, `reloadWanted, `retry, `writeRetry, `pendingEnds, `pollDue,
               `pollLost, world`turns, world`table, world`rewound, world`writes, world`cancelled, world`settled
      ensures |world.turns| <= |old(world.turns)|
      ensures stopping && !old(stopping) ==> world.StopAsked(old(world.Place()), world.Place())
      ensures Valid() && Progress(old(Marked()).(reloadWanted := false), Marked())
      ensures LeadsTo(old(Here(false)), world.cap, Here(false))
      ensures if old(reloadWanted) || writeDue || IsDue(old(retry).due, now) || IsDue(old(pollDue), now)
              then ReadAgain(world, reloadPoll, old(Seen()), rows, Seen())
              else rows.None? && Seen() == old(Seen())
    {
      hide Sound, Progress, ReadAgain, LeadsTo, Snapshot, World.StopAsked;
      LeadsToItself(Here(false), world.cap);
      ghost var start, seen := Marked(), Seen();
      ForgettingTheWish(start);
      rows := None;
      if reloadWanted || writeDue || IsDue(retry.due, now) || IsDue(pollDue, now) {
        rows := Reload();
        StaysArmed(start.(reloadWanted := false), Marked());
        ReadIsDistinct(world, reloadPoll, seen, rows, Seen());
      }
    }

    /** The runs past their deadline, then the due slots. */
    method Serve() returns (now: int, ghost expiries: seq<Expiry>, ghost expired: View, ghost decisions: seq<Decision>)
      requires Valid()
      modifies `slots, `stopping, `reloadWanted, `writeRetry, `pendingEnds, world`turns, world`table, world`rewound,
               world`writes, world`settled, world`launches, world`completed, world`cancelled, world`monotonic
      ensures |world.turns| <= |old(world.turns)|
      ensures stopping && !old(stopping) ==> world.StopAsked(old(world.Place()), world.Place())
      ensures Valid() && Progress(old(Marked()), Marked()) && old(world.launches) <= world.launches
      ensures LeadsTo(old(Here(false)), world.cap, Here(false))
      ensures SlotsServed(world, policy, old(Seen()), expiries, expired, now, decisions, Seen())
    {
      hide Sound, Armed, EndingsArmed, Progress, NothingDue, NoneOverdue, AllDealt, PolicyKept, IdsDistinct, LeadsTo,
        Snapshot, Swept, PassDone, AllWarranted, World.StopAsked;
      ghost var start, begun, from := Marked(), Here(false), world.Place();
      expiries := Expire();
      expired := Seen();
      ghost var marks, at := Marked(), Here(false);
      StopStays(start, marks);
      now := Now();
      ghost var mid := world.Place();
      decisions := LaunchDue(now);
      LeadsOn(begun, world.cap, at, Here(false));
      ProgressChains(start, marks, Marked());
      StopStays(marks, Marked());
      world.AskedWithin(from, expired.place, world.Place());
      world.AskedWithin(from, mid, world.Place());
      world.AskedWithin(expired.place, mid, world.Place());
      PassGrows(expired.Track(), decisions, Traced(), now, policy, Marked());
      ValidAgain(start);
    }

    lemma ValidAgain(start: Marks)
      requires Sound() && taken == [] && listing == [] && IdsDistinct(slots)
      requires start.armed && start.endingsArmed && Progress(start, Marked())
      ensures Valid()
    {
      hide Sound, Progress;
      StaysArmed(start, Marked());
    }

    /** When to wake after a round: at once for a reload, else for the first obligation; never when stopped. */
    method Rest(served: int) returns (wake: Option<int>, ghost now: int, ghost held: set<nat>)
      requires Valid()
      modifies `stopping, world`turns, world`monotonic
      ensures |world.turns| <= |old(world.turns)|
      ensures Valid() && Progress(old(Marked()), Marked())
      ensures LeadsTo(old(Here(false)), world.cap, Here(false))
      ensures wake.None? <==> stopping
      ensures Rested(world, old(Seen()), served, wake, now, held, Seen())
    {
      hide Sound, Progress, WakesAt, LeadsTo, Snapshot;
      ghost var start, begun := Marked(), Here(false);
      now, held := 0, {};
      var stop := StopRequested();
      AsksToStop(begun, world.cap, stop);
      ValidAgain(start);
      if stop {
        return None, now, held;
      }
      if reloadWanted {
        return Some(served), now, held;
      }
      var at;
      at, now, held := Wake();
      wake := Some(at);
    }

    /** The first half of a round: owed endings are retried if that is due, then the rows read again if they must. */
    method Refresh(due: int) returns (ghost retried: View, ghost rows: Option<seq<Schedule>>)
      requires Valid()
      modifies `slots, `taken, `listing, `stopping, `reloadWanted, `retry, `writeRetry, `pendingEnds, `pollDue,
               `pollLost, world`turns, world`table, world`rewound, world`writes, world`cancelled, world`settled
      ensures |world.turns| <= |old(world.turns)|
      ensures Valid() && (old(stopping) ==> stopping)
      ensures LeadsTo(old(Here(false)), world.cap, Here(false))
      ensures EndingsRetried(world, old(Seen()), due, retried)
      ensures if ReadsAgain(old(Seen()), due) then ReadAgain(world, reloadPoll, retried, rows, Seen())
              else rows.None? && Seen() == retried
    {
      hide Sound, Progress, ReadAgain, LeadsTo, Snapshot, World.StopAsked;
      ghost var start, begun, seen := Marked(), Here(false), Seen();
      var writeDue := RetryWrites(due);
      StopStays(start, Marked());
      ghost var asked, at := Marked(), Here(false);
      retried := Seen();
      rows := ReloadIfDue(due, writeDue);
      StopStays(asked.(reloadWanted := false), Marked());
      LeadsOn(begun, world.cap, at, Here(false));
    }

    lemma SoundAccounts()
      requires Sound()
      ensures world.Accounts(world.writes, world.table)
    {
      hide Safe, AllListed;
    }

    /**
     One round up to the sleep. It reloads when a reload is wanted or due, serves
     every due slot, and never sleeps past an obligation: it goes to sleep with a
     reload wanted or dated, and with a date for every ending it owes.
     */
    method Pass() returns (wake: Option<int>, ghost round: Round)
      requires Valid()
      modifies `slots, `taken, `listing, `stopping, `reloadWanted, `retry, `writeRetry, `pendingEnds, `pollDue,
               `pollLost, world`turns, world`table, world`rewound, world`writes, world`settled, world`launches,
               world`completed, world`cancelled, world`monotonic
      ensures |world.turns| <= |old(world.turns)|
      ensures Valid() && old(world.launches) <= world.launches
      ensures LeadsTo(old(Here(false)), world.cap, Here(false))
      ensures wake.None? <==> stopping
      ensures RoundDone(world, policy, reloadPoll, old(Seen()), round, wake, Seen())
    {
      hide Sound, Progress, EndingsRetried, ReadAgain, SlotsServed, Rested, LeadsTo, Snapshot,
        Armed, EndingsArmed, World.StopAsked, World.Accounts, ReadsAgain;
      ghost var start, begun, seen := Marked(), Here(false), Seen();
      round := Round(seen, 0, seen, None, seen, [], seen, 0, [], seen, 0, {});
      SoundAccounts();
      var stop := StopRequested();
      ValidAgain(start);
      AsksToStop(begun, world.cap, stop);
      if stop {
        SoundAccounts();
        return None, round;
      }
      var due := Now();
      ghost var ready, at := Seen(), Here(false);
      ghost var retried, rows := Refresh(due);
      LeadsOn(begun, world.cap, at, Here(false));
      at := Here(false);
      ghost var merged := Seen();
      SoundAccounts();
      ghost var expiries, expired, decisions;
      var served;
      served, expiries, expired, decisions := Serve();
      LeadsOn(begun, world.cap, at, Here(false));
      at := Here(false);
      ghost var passed := Seen();
      ghost var now, held;
      wake, now, held := Rest(served);
      SoundAccounts();
      LeadsOn(begun, world.cap, at, Here(false));
      round := Round(ready, due, retried, rows, merged, expiries, expired, served, decisions, passed, now, held);
    }

    // ----------------------------------------------------------------
    // The loop
    // ----------------------------------------------------------------

    /** A run that is finished leaves its slot and is recorded. */
    method OnFinished(index: nat, report: Report)
      requires Valid() && index < |slots| && slots[index].run.Some?
      modifies `slots, `reloadWanted, `writeRetry, `pendingEnds, world`turns, world`table, world`rewound, world`writes,
               world`settled, world`completed, world`cancelled
      ensures |world.turns| <= |old(world.turns)|
      ensures Valid() && Progress(old(Marked()), Marked())
      ensures LeadsTo(old(Here(false)), world.cap, Here(false))
      ensures RunEnded(old(Seen()), index, report, Seen())
    {
      hide Without, Sound, Armed, EndingsArmed, Progress, CompletionWrites, Ended, IdsDistinct, LeadsTo, Snapshot;
      ghost var start, begun := Marked(), Here(false);
      TakeRunOf(index, true);
      ghost var idle := Here(false);
      var removed := Complete(index, report);
      LeadsOn(begun, world.cap, idle, Here(false));
      EndedDistinct(old(slots), index);
      ValidAgain(start);
    }

    /** Sleeps until the wake or the first thing that happens. */
    method Sleep(open: bool) returns (reloads: bool, ghost event: Event)
      requires Valid()
      modifies `slots, `stopping, `reloadWanted, `writeRetry, `pendingEnds, world`turns, world`table, world`rewound,
               world`writes, world`settled, world`completed, world`cancelled
      ensures |world.turns| <= |old(world.turns)|
      ensures Valid() && Progress(old(Marked()), Marked())
      ensures LeadsTo(old(Here(false)), world.cap, Here(false))
      ensures Slept(world, old(Seen()), open, event, reloads, Seen())
    {
      hide Sound, Progress, CompletionWrites, Ended, LeadsTo, Snapshot;
      ghost var start, begun := Marked(), Here(false);
      LeadsToItself(begun, world.cap);
      ProgressStays(start);
      var turn := NextEvent();
      event, reloads := turn.event, open;
      match turn.event {
        case Notified =>
        case TimerFired =>
        case ShutdownMessage =>
          NoteStop();
          AsksToStop(begun, world.cap, true);
        case ReloadSignalled(still) =>
          if open {
            reloads := still;
            WishReload(still);
          }
        case RunFinished(index, report) =>
          if index < |slots| && slots[index].run.Some? {
            OnFinished(index, report);
          }
      }
    }

    method NextEvent() returns (turn: Turn)
      requires Sound()
      modifies world`turns
      ensures |world.turns| <= |old(world.turns)|
      ensures world.OneTaken(old(world.Place()), world.Place())
      ensures Snapshot() == old(Snapshot())
      ensures Sound() && Marked() == old(Marked()) && turn == old(world.Ahead())
      ensures turn in world.script || turn == FINAL_TURN
    {
      hide Safe, AllListed;
      turn := world.Take();
    }

    method NoteStop()
      requires Valid()
      modifies `stopping
      ensures Snapshot() == old(Snapshot())
      ensures Valid() && stopping && Progress(old(Marked()), Marked())
    {
      hide Safe, AllListed;
      stopping := true;
      EndingsGrow(pendingEnds, pendingEnds, world.settled);
    }

    method WishReload(wanted: bool)
      requires Valid()
      modifies `reloadWanted
      ensures Snapshot() == old(Snapshot())
      ensures Valid() && reloadWanted == (old(reloadWanted) || wanted) && Progress(old(Marked()), Marked())
    {
      hide Safe, AllListed;
      reloadWanted := reloadWanted || wanted;
      EndingsGrow(pendingEnds, pendingEnds, world.settled);
    }

    /** One round and the sleep after it. */
    method RoundAndSleep(open: bool) returns (ghost lap: Lap, wake: Option<int>, reloads: bool)
      requires Valid()
      modifies this, world
      ensures |world.turns| <= |old(world.turns)|
      ensures Valid() && old(world.launches) <= world.launches
      ensures LeadsTo(old(Here(false)), world.cap, Here(false))
      ensures LapDone(world, policy, reloadPoll, lap) && lap.from == old(Seen()) && lap.to == Seen()
      ensures lap.open == open && lap.wake == wake && (wake.Some? ==> lap.reloads == reloads)
    {
      hide Valid, LeadsTo, Here, RoundDone, Slept, Marked;
      ghost var begun, seen := Here(false), Seen();
      ghost var round;
      wake, round := Pass();
      ghost var rested, event := Seen(), Notified;
      reloads := open;
      if wake.Some? {
        ghost var at := Here(false);
        reloads, event := Sleep(open);
        LeadsOn(begun, world.cap, at, Here(false));
      }
      lap := Lap(seen, open, round, wake, rested, event, reloads, Seen());
    }

    /** The loop, for as many rounds as it is watched. */
    method Loop(rounds: nat) returns (ghost laps: seq<Lap>)
      requires Valid()
      modifies this, world
      ensures |world.turns| <= |old(world.turns)|
      ensures Valid() && old(world.launches) <= world.launches
      ensures LeadsTo(old(Here(false)), world.cap, Here(false))
      ensures LapsDone(world, policy, reloadPoll, old(Seen()), laps, Seen()) && |laps| <= rounds
      ensures |laps| < rounds ==> laps != [] && laps[|laps| - 1].wake.None?
    {
      hide Valid, LeadsTo, Here, Seen, LapDone, LapsDone;
      ghost var begun, seen := Here(false), Seen();
      LeadsToItself(begun, world.cap);
      laps := [];
      NoLaps(world, policy, reloadPoll, seen);
      var open := true;
      for k := 0 to rounds
        invariant |world.turns| <= |old(world.turns)|
        invariant Valid() && old(world.launches) <= world.launches && LeadsTo(begun, world.cap, Here(false))
        invariant LapsDone(world, policy, reloadPoll, seen, laps, Seen()) && |laps| == k
        invariant open == if laps == [] then true else laps[k - 1].reloads
        invariant laps != [] ==> laps[k - 1].wake.Some?
      {
        ghost var lap;
        ghost var at := Here(false);
        var wake;
        lap, wake, open := RoundAndSleep(open);
        LeadsOn(begun, world.cap, at, Here(false));
        OneMoreLap(world, policy, reloadPoll, seen, laps, lap);
        laps := laps + [lap];
        if wake.None? {
          return;
        }
      }
    }

    // ----------------------------------------------------------------
    // Shutdown
    // ----------------------------------------------------------------

    /** Times out every run past its deadline, and no other, by one reading of the monotonic clock. */
    method AbortDue() returns (ghost expiries: seq<Expiry>)
      requires Valid()
      modifies `slots, `reloadWanted, `writeRetry, `pendingEnds, world`turns, world`table, world`rewound, world`writes,
               world`settled, world`completed, world`cancelled, world`monotonic
      ensures |world.turns| <= |old(world.turns)|
      ensures Valid() && Progress(old(Marked()), Marked())
      ensures LeadsTo(old(Here(false)), world.cap, Here(false))
      ensures Swept(world, old(Traced()), old(world.completed), expiries, Traced(), world.completed,
                    old(world.Place()), world.Place(), world.monotonic, world.monotonic)
      ensures |expiries| == |old(slots)|
      ensures world.monotonic == Later(old(world.monotonic), old(world.Ahead()).monotonic)
      ensures world.cancelled == old(world.cancelled)
      ensures NoneOverdue(slots, world.monotonic)
    {
      hide Sound, Progress, LeadsTo, Snapshot, IdsDistinct, LookedAt, Survivors, NoneOverdue, Swept, Armed,
        EndingsArmed;
      ghost var start, begun, before, was := Marked(), Here(false), Traced(), world.completed;
      ghost var from := world.Place();
      LeadsToItself(begun, world.cap);
      ProgressStays(start);
      var clock := MonotonicNow();
      expiries := [];
      NothingLooked(world, before, from);
      SweptStays(world, before, was, expiries, Traced(), was, from, from, world.Place(), clock, clock, clock);
      var index := 0;
      while index < |slots|
        invariant |world.turns| <= |old(world.turns)|
        invariant clock == world.monotonic && Sound() && Progress(start, Marked()) && IdsDistinct(slots)
        invariant LeadsTo(begun, world.cap, Here(false))
        invariant Swept(world, before, was, expiries, Traced(), world.completed, from, world.Place(), clock, clock)
        invariant index == |Survivors(expiries)| <= |slots| && world.cancelled == old(world.cancelled)
        decreases |before.slots| - |expiries|
      {
        ghost var marks, at, traced, mid, e := Marked(), Here(false), Traced(), world.Place(), UNSEEN;
        ghost var done := world.completed;
        var removed;
        removed, e := ExpireBy(index, clock);
        ProgressChains(start, marks, Marked());
        LeadsOn(begun, world.cap, at, Here(false));
        SweptStep(world, before, was, expiries, traced, done, e, Traced(), world.completed, from, mid, world.Place(),
                  clock, clock, index);
        expiries := expiries + [e];
        index := if removed then index else index + 1;
      }
      SweepsLeaveNoneOverdue(world, before, was, expiries, Traced(), world.completed, from, world.Place(), clock,
                             clock);
      ValidAgain(start);
    }

    /** Cancels every run at the handle deadline; they end without an outcome. */
    method Discard()
      requires Valid()
      modifies `slots, world`completed, world`cancelled
      ensures Valid() && !AnyRunning(slots) && Progress(old(Marked()), Marked())
      ensures LeadsTo(old(Here(false)), world.cap, Here(false))
      ensures |slots| == |old(slots)| && forall k :: 0 <= k < |slots| ==> slots[k] == old(slots)[k].(run := None)
      ensures world.completed == old(world.completed)
      ensures forall key :: key in world.cancelled <==>
                key in old(world.cancelled) || exists k :: 0 <= k < |old(slots)| && Runs(old(slots)[k], key)
      ensures Marked() == old(Marked()).(cancelled := world.cancelled)
    {
      hide Sound, Armed, EndingsArmed, Progress, LeadsTo, Snapshot;
      ghost var start, begun := Marked(), Here(false);
      LeadsToItself(begun, world.cap);
      ProgressStays(start);
      var index := 0;
      while index < |slots|
        invariant 0 <= index <= |slots| == |old(slots)|
        invariant Valid() && Progress(start, Marked()) && world.completed == old(world.completed)
        invariant LeadsTo(begun, world.cap, Here(false))
        invariant forall key :: key in world.cancelled <==>
                  key in old(world.cancelled) || exists k :: 0 <= k < index && Runs(old(slots)[k], key)
        invariant Marked() == start.(cancelled := world.cancelled)
        invariant forall k :: 0 <= k < index ==> slots[k] == old(slots)[k].(run := None)
        invariant forall k :: index <= k < |slots| ==> slots[k] == old(slots)[k]
      {
        if slots[index].run.Some? {
          ghost var marks, at := Marked(), Here(false);
          TakeRunOf(index, false);
          LeadsOn(begun, world.cap, at, Here(false));
          CancellingProgresses(marks, world.cancelled);
          ProgressChains(start, marks, Marked());
          ValidAgain(marks);
        }
        index := index + 1;
      }
    }

    /** What one event means while the worker drains. */
    method DrainEvent(event: Event) returns (ghost expiries: seq<Expiry>)
      requires Valid()
      modifies `slots, `reloadWanted, `writeRetry, `pendingEnds, world`turns, world`table, world`rewound, world`writes,
               world`settled, world`completed, world`cancelled, world`monotonic
      ensures |world.turns| <= |old(world.turns)|
      ensures Valid() && Progress(old(Marked()), Marked())
      ensures LeadsTo(old(Here(false)), world.cap, Here(false))
      ensures event.TimerFired? ==>
                world.monotonic == Later(old(world.monotonic), old(world.Ahead()).monotonic)
      ensures DrainedAs(world, old(Seen()), event, expiries, Seen())
    {
      hide Valid, Progress, LeadsTo, Here, Swept, CompletionWrites, Ended;
      LeadsToItself(Here(false), world.cap);
      ProgressStays(Marked());
      expiries := [];
      match event {
        case RunFinished(index, report) =>
          if index < |slots| && slots[index].run.Some? {
            OnFinished(index, report);
          }
        case TimerFired => expiries := AbortDue();
        case ShutdownMessage => Discard();
        case _ =>
      }
    }

    /** The next event, and what it means while the worker drains. */
    method DrainNext() returns (ghost d: Draining)
      requires Valid() && AnyRunning(slots)
      modifies `slots, `reloadWanted, `writeRetry, `pendingEnds, world`turns, world`table, world`rewound, world`writes,
               world`settled, world`completed, world`cancelled, world`monotonic
      ensures |world.turns| <= |old(world.turns)|
      ensures Valid()
      ensures LeadsTo(old(Here(false)), world.cap, Here(false))
      ensures Drained(world, d) && d.from == old(Seen()) && d.to == Seen()
    {
      hide Sound, Marked, Progress, LeadsTo, Snapshot, DrainedAs;
      ghost var seen := Seen();
      var turn := NextEvent();
      ghost var mid := Seen();
      ghost var expiries := DrainEvent(turn.event);
      d := Draining(seen, turn.event, expiries, Seen());
      EventDrains(world, seen, mid, turn.event, expiries, Seen());
    }

    /**
     Joins the runs still in flight, for as many events as it is watched. Once no
     slot runs, every run ever launched has completed or was cancelled.
     */
    method Drain(events: nat) returns (idle: bool, ghost drain: seq<Draining>)
      requires Valid()
      modifies `slots, `reloadWanted, `writeRetry, `pendingEnds, world`turns, world`table, world`rewound, world`writes,
               world`settled, world`completed, world`cancelled, world`monotonic
      ensures |world.turns| <= |old(world.turns)|
      ensures Valid()
      ensures LeadsTo(old(Here(false)), world.cap, Here(false))
      ensures DrainedAll(world, old(Seen()), drain, Seen()) && |drain| <= events
      ensures (idle <==> !AnyRunning(slots)) && (|drain| < events ==> idle)
      ensures idle ==> forall k: nat :: k < |world.launches| ==> k in world.completed || k in world.cancelled
    {
      hide Sound, Armed, EndingsArmed, Seen, Drained, DrainedAll, LeadsTo, Snapshot;
      ghost var begun, seen := Here(false), Seen();
      LeadsToItself(begun, world.cap);
      drain := [];
      NoneDrained(world, seen);
      for k := 0 to events
        invariant |world.turns| <= |old(world.turns)|
        invariant Valid() && LeadsTo(begun, world.cap, Here(false))
        invariant DrainedAll(world, seen, drain, Seen()) && |drain| == k
      {
        if !AnyRunning(slots) {
          break;
        }
        ghost var at := Here(false);
        ghost var d := DrainNext();
        LeadsOn(begun, world.cap, at, Here(false));
        OneMoreDrained(world, seen, drain, d);
        drain := drain + [d];
      }
      idle := !AnyRunning(slots);
      if idle {
        IdleIsFinished();
      }
    }

    lemma IdleIsFinished()
      requires Sound() && taken == [] && !AnyRunning(slots)
      ensures forall k: nat :: k < |world.launches| ==> k in world.completed || k in world.cancelled
    {
      assert forall slot :: slot in Snapshot().slots ==> slot in slots;
      assert forall k: nat :: !Running(Snapshot().slots, k);
    }

    lemma ValidIsSound()
      requires Valid()
      ensures WorkerRuns.Sound(Here(false)) && reloadPoll >= MIN_RELOAD_POLL
    {
      hide Safe;
    }

    /** A worker's whole life: its loop, then the drain. */
    method Run(rounds: nat, events: nat) returns (idle: bool, ghost h: History)
      requires Valid()
      modifies this, world
      ensures |world.turns| <= |old(world.turns)|
      ensures Valid() && old(world.launches) <= world.launches
      ensures LeadsTo(old(Here(false)), world.cap, Here(false))
      ensures WorkerRepeats.RepeatsNothing(old(Here(false)), Here(false))
      ensures Lived(world, Life(policy, reloadPoll, rounds, events), h)
      ensures h.begun == old(Seen()) && h.ended == Seen()
      ensures idle ==> forall k: nat :: k < |world.launches| ==> k in world.completed || k in world.cancelled
    {
      hide Valid, LeadsTo, Here, Marked, LapsDone, DrainedAll, AnyRunning, WorkerRepeats.RepeatsNothing;
      ghost var begun, seen := Here(false), Seen();
      ValidIsSound();
      ghost var laps := Loop(rounds);
      ghost var at, looped := Here(false), Seen();
      ghost var drain;
      idle, drain := Drain(events);
      LeadsOn(begun, world.cap, at, Here(false));
      WorkerRepeats.LifeRepeatsNothing(begun, world.cap, Here(false));
      h := History(seen, laps, looped, drain, Seen());
    }
  }

  // ------------------------------------------------------------------
  // Many workers, one after the other
  // ------------------------------------------------------------------

  ghost function PastOf(world: World): Past
    reads world
  {
    Past(world.launches, world.writes, world.table, world.completed, world.settled, world.monotonic, world.Place())
  }

  /** The world stands where `c` says. */
  ghost predicate StandsAt(world: World, c: Config)
    reads world
  {
    && Safe(c.state) && world.Scripted()
    && c.state.table == world.table && c.state.log == world.Logged()
    && c.state.completed == world.completed && c.state.cancelled == world.cancelled
  }

  /** One worker over what earlier ones left. */
  method LiveOnce(world: World, life: Life, ghost left: Config) returns (ghost last: Config, ghost h: History)
    requires StandsAt(world, left)
    modifies world
    ensures StandsAt(world, last)
    ensures LeadsTo(Stepped(left, world.cap, Restart), world.cap, last)
    ensures Lived(world, life, h) && Begins(old(PastOf(world)), h.begun) && h.ended.Outlasts() == PastOf(world)
  {
    hide Safe, AllListed, LeadsTo, Stepped, Lived;
    var worker := new Worker(world, life.policy, life.reloadPoll, left);
    ghost var begun := worker.Seen();
    var idle;
    idle, h := worker.Run(life.rounds, life.events);
    last := worker.Here(false);
    SameLife(world, life, worker.reloadPoll, h);
  }

  /** A worker keeps its interval once it has been raised. */
  lemma SameLife(world: World, life: Life, reloadPoll: int, h: History)
    requires reloadPoll == PollOf(life.reloadPoll) && Lived(world, life.(reloadPoll := reloadPoll), h)
    ensures Lived(world, life, h)
  {
    hide LapsDone, DrainedAll;
  }

  /**
   Any number of workers run one store one after the other, each dropped where its
   life ends, while other processes write to it whatever they like. Over the whole
   history no occurrence whose `set_next` took effect is launched again, each such
   write met an enabled active row of its generation, and the stored next run stays
   past it: unless another process has moved that generation's next run back. Each
   life is of rounds and drained events that did what the loop and the drain promise.
   */
  method Lifetimes(world: World, lives: seq<Life>) returns (ghost last: Config, ghost histories: seq<History>)
    requires ScheduleTable.Valid(world.table) && world.Scripted()
    requires world.launches == [] && world.completed == {} && world.cancelled == {} && world.rewound == {}
    modifies world
    ensures ScheduleTable.Valid(world.table) && world.completed !! world.cancelled
    ensures NeverRepeats(world.Logged())
    ensures forall i :: 0 <= i < |world.launches| ==>
              Authorized(world.launches[i]) && StoredAhead(world.launches[i], world.table, world.rewound)
    ensures Becomes(NothingYet(old(world.table)), world.cap, last)
    ensures last.state.table == world.table && last.state.log == world.Logged()
    ensures last.state.completed == world.completed && last.state.cancelled == world.cancelled
    ensures LivedInTurn(world, old(PastOf(world)), lives, histories, PastOf(world))
  {
    last := NothingYet(world.table);
    NothingIsSafe(world.table);
    assert CanRun(last, world.cap, []) && RanAll(last, world.cap, []) == last;
    histories := [];
    for k := 0 to |lives|
      invariant StandsAt(world, last)
      invariant Becomes(NothingYet(old(world.table)), world.cap, last)
      invariant LivedInTurn(world, old(PastOf(world)), lives[..k], histories, PastOf(world))
    {
      hide Safe, AllListed, LeadsTo, Becomes, Stepped, LivedInTurn, Lived, Begins;
      ghost var left, past := last, PastOf(world);
      ghost var h;
      last, h := LiveOnce(world, lives[k], left);
      NextLife(NothingYet(old(world.table)), world.cap, left, last);
      OneMoreLife(world, old(PastOf(world)), lives, histories, k, past, h);
      histories := histories + [h];
    }
    assert lives[..|lives|] == lives;
  }

  /** Before the first worker of a store. */
  ghost function NothingYet(t: Table): Config {
    Config(State(t, multiset{}, [], Log([], {}), {}, {}), [], false, false)
  }
}
