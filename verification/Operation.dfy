/**
 Cooperative shutdown (crates/sc-cron/src/operation.rs): admission of work and of
 commits, and the guards that own physical completion.

 The fields stand under one lock, so each locked section is one atomic step. The
 class has the sections as methods; the steps of any number of threads in any
 order are the sequences of `Step`.
 */
module Operation {
  import opened Options

  // ------------------------------------------------------------------
  // Values of the consumer contract (crates/sc-cron/src/consumer_contract.rs)
  // ------------------------------------------------------------------

  /** Cutoffs on the monotonic clock: ordinary commits before `grace`, cleanup commits before `cleanup`. */
  datatype Budget = Budget(grace: int, cleanup: int)

  /** `ShutdownBudget::new`: cleanup may not end before grace. */
  function NewBudget(grace: int, cleanup: int): (budget: Option<Budget>)
    ensures budget.Some? ==> budget.value.grace == grace <= cleanup == budget.value.cleanup
    ensures budget.None? ==> cleanup < grace
  {
    if cleanup < grace then None else Some(Budget(grace, cleanup))
  }

  datatype Status = Running | Draining | CleaningUp | DeadlineExceeded | Joined

  function Rank(status: Status): nat {
    match status
    case Running => 0
    case Draining => 1
    case CleaningUp => 2
    case DeadlineExceeded => 3
    case Joined => 4
  }

  datatype CommitAdmission = NotAttempted | Vetoed | Admitted
  datatype Persistence = NoMutationAttempted | Committed | RolledBack | Indeterminate
  datatype Outcome = Outcome(admission: CommitAdmission, persistence: Persistence, late: bool)

  const NOTHING_ATTEMPTED := Outcome(NotAttempted, NoMutationAttempted, false)

  datatype Refusal = Expired | Stopping | CapacityExhausted

  /** A `PhysicalGuard`. */
  datatype Guard = Guard(command: bool, cleanup: bool)

  /** What can interrupt a connection, and whether the connection does cleanup work. */
  datatype Handle = Handle(id: nat, cleanup: bool)

  /** What stands under the controller's lock, and the status others watch. */
  datatype Shared = Shared(
    budget: Option<Budget>,
    cancelled: bool,
    started: bool,
    capacity: nat,
    commands: nat,
    active: nat,
    interrupts: seq<Handle>,
    cleanup: Option<Outcome>,
    ordinaryCompleted: Option<int>,
    cleanupCompleted: Option<int>,
    workerFinished: bool,
    status: Status)

  const DEFAULT_CAPACITY: nat := 64
  const MAX_CAPACITY: nat := 65536
  const FRESH := Shared(None, false, false, DEFAULT_CAPACITY, 0, 0, [], None, None, None, false, Running)

  function Min(a: int, b: int): int { if a <= b then a else b }

  predicate IsLeast(least: int, of: seq<int>) {
    least in of && forall i :: 0 <= i < |of| ==> least <= of[i]
  }

  function Cutoff(s: Shared, cleanup: bool): Option<int> {
    match s.budget
    case None => None
    case Some(b) => Some(if cleanup then b.cleanup else b.grace)
  }

  predicate Reached(cutoff: Option<int>, now: int) {
    cutoff.Some? && cutoff.value <= now
  }

  // ------------------------------------------------------------------
  // The locked sections
  // ------------------------------------------------------------------

  function Announced(s: Shared, status: Status): Shared {
    if Rank(s.status) < Rank(status) then s.(status := status) else s
  }

  /** A first stop sets the budget; a further one cancels and can only shorten it. */
  function Stopped(s: Shared, budget: Budget, now: int): Shared {
    Announced(
      match s.budget
      case None => s.(budget := Some(budget))
      case Some(earlier) =>
        s.(cancelled := true,
           budget := Some(Budget(Min(Min(earlier.grace, budget.grace), now), Min(earlier.cleanup, budget.cleanup)))),
      Draining)
  }

  function Refused(s: Shared, cleanup: bool, external: Option<int>, command: bool, now: int,
                   later: int): Option<Refusal>
  {
    if Reached(external, now) then Some(Expired)
    else if s.budget.Some? && !cleanup then Some(Stopping)
    else if cleanup && s.budget.Some? && s.budget.value.cleanup <= later then Some(Expired)
    else if command && s.commands >= s.capacity then Some(CapacityExhausted)
    else None
  }

  function Registered(s: Shared, command: bool): Shared {
    s.(started := true, active := s.active + 1, commands := if command then s.commands + 1 else s.commands)
  }

  /** The decision of the commit hook's lock: the own cutoff is read against the clock first, then the outer one. */
  predicate Admits(s: Shared, cleanup: bool, external: Option<int>, now: int, later: int) {
    && (cleanup || !s.cancelled)
    && !Reached(Cutoff(s, cleanup), now)
    && !Reached(external, later)
  }

  function Dropped(s: Shared, guard: Guard, now: int): Shared
    requires s.active > 0 && (guard.command ==> s.commands > 0)
  {
    s.(active := s.active - 1,
       commands := if guard.command then s.commands - 1 else s.commands,
       cleanupCompleted := if guard.cleanup then Some(now) else s.cleanupCompleted,
       ordinaryCompleted := if guard.cleanup then s.ordinaryCompleted else Some(now))
  }

  /** Merges the evidence of one more cleanup operation into what is known. */
  function CleanupRecorded(known: Option<Outcome>, outcome: Outcome): Option<Outcome> {
    if outcome.persistence == NoMutationAttempted && !outcome.late then known
    else
      match known
      case None => Some(outcome)
      case Some(previous) =>
        var late := outcome.late || previous.late;
        if previous.persistence == Indeterminate || outcome.persistence == NoMutationAttempted
        then Some(Outcome(previous.admission, previous.persistence, late))
        else Some(outcome.(late := late))
  }

  predicate HandleExpired(s: Shared, handle: Handle, now: int) {
    if handle.cleanup then s.budget.Some? && s.budget.value.cleanup <= now
    else s.cancelled || (s.budget.Some? && s.budget.value.grace <= now)
  }

  function ExpiredHandles(s: Shared, handles: seq<Handle>, now: int): (expired: seq<Handle>)
    ensures forall h :: h in expired <==> h in handles && HandleExpired(s, h, now)
  {
    if handles == [] then []
    else
      assert forall h :: h in handles <==> h == handles[0] || h in handles[1..];
      (if HandleExpired(s, handles[0], now) then [handles[0]] else []) + ExpiredHandles(s, handles[1..], now)
  }

  lemma ExpiredOneByOne(s: Shared, handles: seq<Handle>, index: nat, now: int)
    requires index < |handles|
    ensures ExpiredHandles(s, handles[index..], now) ==
              (if HandleExpired(s, handles[index], now) then [handles[index]] else [])
              + ExpiredHandles(s, handles[index + 1..], now)
  {
    assert handles[index..][1..] == handles[index + 1..];
  }

  lemma NoneExpired(s: Shared, now: int)
    ensures ExpiredHandles(s, [], now) == []
  {
  }

  predicate MissedCutoff(s: Shared) {
    && s.budget.Some?
    && (CompletedLate(s.ordinaryCompleted, s.budget.value.grace)
        || CompletedLate(s.cleanupCompleted, s.budget.value.cleanup))
  }

  predicate CompletedLate(completed: Option<int>, cutoff: int) {
    completed.Some? && cutoff <= completed.value
  }

  /** `interrupt_if_expired_at`: the status it leaves and the connections it interrupts. */
  function Interrupting(s: Shared, now: int): (Shared, seq<Handle>) {
    if s.workerFinished && s.active == 0 then
      (if MissedCutoff(s) then Announced(s, DeadlineExceeded) else s, [])
    else if !s.cancelled && (s.budget.None? || now < s.budget.value.grace) then (s, [])
    else (Announced(s, DeadlineExceeded), ExpiredHandles(s, s.interrupts, now))
  }

  function WithoutHandle(handles: seq<Handle>, id: nat): (rest: seq<Handle>)
    ensures forall h :: h in rest <==> h in handles && h.id != id
  {
    if handles == [] then []
    else
      assert forall h :: h in handles <==> h == handles[0] || h in handles[1..];
      (if handles[0].id == id then [] else [handles[0]]) + WithoutHandle(handles[1..], id)
  }

  // ------------------------------------------------------------------
  // The controller
  // ------------------------------------------------------------------

  class Controller {
    var budget: Option<Budget>
    var cancelled: bool
    var started: bool
    var capacity: nat
    var commands: nat
    var active: nat
    var interrupts: seq<Handle>
    var cleanup: Option<Outcome>
    var ordinaryCompleted: Option<int>
    var cleanupCompleted: Option<int>
    var workerFinished: bool
    var status: Status

    function View(): Shared
      reads this
    {
      Shared(budget, cancelled, started, capacity, commands, active, interrupts, cleanup,
             ordinaryCompleted, cleanupCompleted, workerFinished, status)
    }

    constructor ()
      ensures View() == FRESH
    {
      budget, cancelled, started, capacity, commands, active := None, false, false, DEFAULT_CAPACITY, 0, 0;
      interrupts, cleanup, ordinaryCompleted, cleanupCompleted := [], None, None, None;
      workerFinished, status := false, Running;
    }

    method Configure(capacity: nat) returns (ok: bool)
      modifies `capacity
      ensures ok <==> 1 <= capacity <= MAX_CAPACITY && !started
      ensures this.capacity == if ok then capacity else old(this.capacity)
    {
      ok := 1 <= capacity <= MAX_CAPACITY && !started;
      if ok {
        this.capacity := capacity;
      }
    }

    method Announce(status: Status)
      modifies `status
      ensures View() == Announced(old(View()), status)
      ensures this.status == if Rank(old(this.status)) < Rank(status) then status else old(this.status)
    {
      if Rank(this.status) < Rank(status) {
        this.status := status;
      }
    }

    /** The locked section of `stop`. */
    method StopLocked(budget: Budget, now: int)
      modifies `budget, `cancelled, `status
      ensures View() == Stopped(old(View()), budget, now)
      ensures old(this.budget).None? ==> this.budget == Some(budget) && cancelled == old(cancelled)
      ensures old(this.budget).Some? ==>
                && cancelled && this.budget.Some?
                && IsLeast(this.budget.value.grace, [old(this.budget).value.grace, budget.grace, now])
                && IsLeast(this.budget.value.cleanup, [old(this.budget).value.cleanup, budget.cleanup])
      ensures status == if old(status).Running? then Draining else old(status)
    {
      if this.budget.Some? {
        var earlier := this.budget.value;
        ghost var graces, cleanups := [earlier.grace, budget.grace, now], [earlier.cleanup, budget.cleanup];
        assert graces[0] == earlier.grace && graces[1] == budget.grace && graces[2] == now;
        assert cleanups[0] == earlier.cleanup && cleanups[1] == budget.cleanup;
        cancelled := true;
        this.budget := Some(Budget(Min(Min(earlier.grace, budget.grace), now), Min(earlier.cleanup, budget.cleanup)));
      } else {
        this.budget := Some(budget);
      }
      Announce(Draining);
    }

    /** The connections whose time has come. */
    method CollectExpired(now: int) returns (expired: seq<Handle>)
      ensures expired == ExpiredHandles(View(), interrupts, now)
    {
      hide HandleExpired, ExpiredHandles;
      var s, handles := View(), interrupts;
      expired := [];
      var index := 0;
      assert handles[0..] == handles;
      while index < |handles|
        invariant 0 <= index <= |handles|
        invariant expired + ExpiredHandles(s, handles[index..], now) == ExpiredHandles(s, handles, now)
      {
        ExpiredOneByOne(s, handles, index, now);
        if HandleExpired(s, handles[index], now) {
          expired := expired + [handles[index]];
        }
        index := index + 1;
      }
      NoneExpired(s, now);
      assert handles[index..] == [];
      assert expired + [] == expired;
    }

    /** `interrupt_if_expired_at`: gives the connections to interrupt. */
    method InterruptIfExpired(now: int) returns (interrupted: seq<Handle>)
      modifies `status
      ensures (View(), interrupted) == Interrupting(old(View()), now)
      ensures forall h :: h in interrupted <==>
                && h in interrupts && !(workerFinished && active == 0)
                && (cancelled || (budget.Some? && budget.value.grace <= now))
                && (h.cleanup ==> budget.Some? && budget.value.cleanup <= now)
      ensures status != old(status) ==> status == DeadlineExceeded
      ensures Rank(DeadlineExceeded) <= Rank(status) <==>
                || Rank(DeadlineExceeded) <= Rank(old(status))
                || (if workerFinished && active == 0
                    then budget.Some?
                         && ((ordinaryCompleted.Some? && budget.value.grace <= ordinaryCompleted.value)
                             || (cleanupCompleted.Some? && budget.value.cleanup <= cleanupCompleted.value))
                    else cancelled || (budget.Some? && budget.value.grace <= now))
    {
      if workerFinished && active == 0 {
        if MissedCutoff(View()) {
          Announce(DeadlineExceeded);
        }
        return [];
      }
      if !cancelled && (budget.None? || now < budget.value.grace) {
        return [];
      }
      interrupted := CollectExpired(now);
      Announce(DeadlineExceeded);
    }

    /** `stop`, run without interruption by another thread. An inverted budget is refused. */
    method Stop(grace: int, cleanup: int, now: int, later: int) returns (ok: bool, interrupted: seq<Handle>)
      modifies `budget, `cancelled, `status
      ensures ok <==> grace <= cleanup
      ensures !ok ==> View() == old(View()) && interrupted == []
      ensures ok ==> (View(), interrupted) == Interrupting(Stopped(old(View()), Budget(grace, cleanup), now), later)
    {
      var checked := NewBudget(grace, cleanup);
      if checked.None? {
        return false, [];
      }
      StopLocked(checked.value, now);
      interrupted := InterruptIfExpired(later);
      ok := true;
    }

    /** `cancel`: a stop with both cutoffs now, and then the flag. */
    method Cancel(now: int, later: int) returns (interrupted: seq<Handle>)
      requires now <= later
      modifies `budget, `cancelled, `status
      ensures cancelled && budget.Some? && budget.value.grace <= now && budget.value.cleanup <= now
      ensures (View(), interrupted) ==
              Interrupting(Interrupting(Stopped(old(View()), Budget(now, now), now), now).0.(cancelled := true), later)
    {
      hide ExpiredHandles, MissedCutoff;
      var _, _ := Stop(now, now, now, now);
      cancelled := true;
      interrupted := InterruptIfExpired(later);
    }

    method Register(cleanup: bool, external: Option<int>, command: bool, now: int, later: int)
      returns (refusal: Option<Refusal>, guard: Guard)
      modifies `started, `active, `commands
      ensures refusal == Refused(old(View()), cleanup, external, command, now, later)
      ensures guard == Guard(command, cleanup)
      ensures View() == if refusal.None? then Registered(old(View()), command) else old(View())
      ensures refusal.None? <==>
                && (external.None? || now < external.value)
                && (budget.None? || (cleanup && later < budget.value.cleanup))
                && (command ==> old(commands) < capacity)
      ensures refusal == Some(Stopping) <==> (external.None? || now < external.value) && budget.Some? && !cleanup
      ensures refusal == Some(CapacityExhausted) ==> command && old(commands) >= capacity
      ensures refusal.None? ==>
                started && active == old(active) + 1 && commands == old(commands) + (if command then 1 else 0)
    {
      guard := Guard(command, cleanup);
      if external.Some? && external.value <= now {
        return Some(Expired), guard;
      }
      if budget.Some? && !cleanup {
        return Some(Stopping), guard;
      }
      if cleanup && budget.Some? && budget.value.cleanup <= later {
        return Some(Expired), guard;
      }
      if command && commands >= capacity {
        return Some(CapacityExhausted), guard;
      }
      started := true;
      active := active + 1;
      if command {
        commands := commands + 1;
      }
      refusal := None;
    }

    method AdmitCommit(cleanup: bool, external: Option<int>, now: int, later: int) returns (admitted: bool)
      ensures admitted == Admits(View(), cleanup, external, now, later)
      ensures admitted <==>
                && (cleanup || !cancelled)
                && (budget.None? || now < (if cleanup then budget.value.cleanup else budget.value.grace))
                && (external.None? || later < external.value)
    {
      var cutoff := Cutoff(View(), cleanup);
      if !cleanup && cancelled {
        return false;
      }
      return !Reached(cutoff, now) && !Reached(external, later);
    }

    /** The locked section of a guard's drop. */
    method DropGuard(guard: Guard, now: int)
      requires active > 0 && (guard.command ==> commands > 0)
      modifies `active, `commands, `ordinaryCompleted, `cleanupCompleted
      ensures View() == Dropped(old(View()), guard, now)
      ensures active == old(active) - 1 && commands == old(commands) - (if guard.command then 1 else 0)
      ensures if guard.cleanup then cleanupCompleted == Some(now) && ordinaryCompleted == old(ordinaryCompleted)
              else ordinaryCompleted == Some(now) && cleanupCompleted == old(cleanupCompleted)
    {
      active := active - 1;
      if guard.cleanup {
        cleanupCompleted := Some(now);
      } else {
        ordinaryCompleted := Some(now);
      }
      if guard.command {
        commands := commands - 1;
      }
    }

    method RecordCleanup(outcome: Outcome)
      modifies `cleanup
      ensures View() == old(View()).(cleanup := CleanupRecorded(old(cleanup), outcome))
      ensures cleanup == old(cleanup) || (cleanup.Some? && (outcome.late ==> cleanup.value.late))
      ensures outcome.persistence != NoMutationAttempted || outcome.late ==>
                && cleanup.Some?
                && (cleanup.value.late <==> outcome.late || (old(cleanup).Some? && old(cleanup).value.late))
      ensures outcome.persistence != NoMutationAttempted
              && (old(cleanup).None? || old(cleanup).value.persistence != Indeterminate) ==>
                cleanup.value.persistence == outcome.persistence && cleanup.value.admission == outcome.admission
    {
      if outcome.persistence != NoMutationAttempted || outcome.late {
        var observed := outcome;
        if cleanup.Some? {
          var previous := cleanup.value;
          observed := observed.(late := observed.late || previous.late);
          if previous.persistence == Indeterminate || observed.persistence == NoMutationAttempted {
            observed := observed.(admission := previous.admission, persistence := previous.persistence);
          }
        }
        cleanup := Some(observed);
      }
    }
  }
}
