/**
 Every interleaving of the controller's locked sections
 (crates/sc-cron/src/operation.rs): a thread's calls are spread over a sequence of
 steps in any order, and any number of threads contribute to it.
 */
module OperationRuns {
  import opened Options
  import opened Operation

  datatype Step =
    | Configure(capacity: nat)
    | MarkStarted
    | StopLocked(grace: int, terminal: int, now: int)
    | CancelLocked
    | Interrupt(now: int)
    | Register(cleanup: bool, external: Option<int>, command: bool, now: int, later: int)
    | DropGuard(guard: Guard, now: int)
    | Admit(cleanup: bool, external: Option<int>, now: int, later: int)
    | RecordCleanup(outcome: Outcome)
    | NoteOrdinaryCompletion(now: int)
    | WorkerFinished
    | AddInterrupt(handle: Handle)
    | RemoveInterrupt(id: nat)
    | Announce(status: Status)

  /** An admitted commit, and what was in force when it was admitted. */
  datatype Admission = Admission(cleanup: bool, at: int, cancelled: bool, budget: Option<Budget>,
                                 external: Option<int>, end: int)

  /** The controller, the guards that are alive, the latest reading of the clock, and what was admitted. */
  datatype System = System(shared: Shared, guards: multiset<Guard>, clock: int, admissions: seq<Admission>)

  const START := System(FRESH, multiset{}, 0, [])

  /** The monotonic clock never reads less than it has. */
  function Reading(clock: int, now: int): int {
    if now < clock then clock else now
  }

  function Moved(y: System, shared: Shared, now: int): System {
    y.(shared := shared, clock := Reading(y.clock, now))
  }

  /** One locked section. A guard that is not alive cannot be dropped. */
  function Next(y: System, step: Step): System
    requires Sound(y)
  {
    var s := y.shared;
    match step
    case Configure(capacity) =>
      if 1 <= capacity <= MAX_CAPACITY && !s.started then y.(shared := s.(capacity := capacity)) else y
    case MarkStarted => y.(shared := s.(started := true))
    case StopLocked(grace, cleanup, now) =>
      (match NewBudget(grace, cleanup)
       case None => y
       case Some(budget) => Moved(y, Stopped(s, budget, Reading(y.clock, now)), now))
    case CancelLocked => y.(shared := s.(cancelled := true))
    case Interrupt(now) => Moved(y, Interrupting(s, Reading(y.clock, now)).0, now)
    case Register(cleanup, external, command, now, later) =>
      var first := Reading(y.clock, now);
      var second := Reading(first, later);
      if Refused(s, cleanup, external, command, first, second).Some? then Moved(y, s, second)
      else Moved(y, Registered(s, command), second).(guards := y.guards + multiset{Guard(command, cleanup)})
    case DropGuard(guard, now) =>
      if guard !in y.guards then y
      else
        GuardIsCounted(y, guard);
        Moved(y, Dropped(s, guard, Reading(y.clock, now)), now).(guards := y.guards - multiset{guard})
    case Admit(cleanup, external, now, later) =>
      var first := Reading(y.clock, now);
      var second := Reading(first, later);
      if !Admits(s, cleanup, external, first, second) then Moved(y, s, second)
      else
        var admission := Admission(cleanup, first, s.cancelled, s.budget, external, second);
        Moved(y, s, second).(admissions := y.admissions + [admission])
    case RecordCleanup(outcome) => y.(shared := s.(cleanup := CleanupRecorded(s.cleanup, outcome)))
    case NoteOrdinaryCompletion(now) =>
      Moved(y, s.(ordinaryCompleted := Some(Reading(y.clock, now))), now)
    case WorkerFinished => y.(shared := s.(workerFinished := true))
    case AddInterrupt(handle) => y.(shared := s.(interrupts := s.interrupts + [handle]))
    case RemoveInterrupt(id) => y.(shared := s.(interrupts := WithoutHandle(s.interrupts, id)))
    case Announce(status) => y.(shared := Announced(s, status))
  }

  // ------------------------------------------------------------------
  // What every interleaving keeps
  // ------------------------------------------------------------------

  function CommandGuards(guards: multiset<Guard>): nat {
    guards[Guard(true, false)] + guards[Guard(true, true)]
  }

  /**
   An ordinary commit is admitted while not cancelled and before the grace cutoff
   then in force, a cleanup commit before the cleanup cutoff then in force, and
   either before the outer deadline it came with.
   */
  predicate AdmittedInTime(a: Admission) {
    && (!a.cleanup ==> !a.cancelled)
    && (a.budget.Some? ==> a.at < (if a.cleanup then a.budget.value.cleanup else a.budget.value.grace))
    && !Reached(a.external, a.end) && a.at <= a.end
  }

  /** `active` counts the live guards, `commands` those of commands, and the latter stay within the capacity. */
  predicate Counted(s: Shared, guards: multiset<Guard>) {
    && s.active == |guards|
    && s.commands == CommandGuards(guards) <= s.capacity <= MAX_CAPACITY
    && (guards != multiset{} ==> s.started)
  }

  predicate Budgeted(s: Shared) {
    s.budget.Some? ==> s.budget.value.grace <= s.budget.value.cleanup && Rank(Draining) <= Rank(s.status)
  }

  predicate AllInTime(admissions: seq<Admission>) {
    forall i :: 0 <= i < |admissions| ==> AdmittedInTime(admissions[i])
  }

  predicate Sound(y: System) {
    Counted(y.shared, y.guards) && Budgeted(y.shared) && AllInTime(y.admissions)
  }

  lemma GuardIsCounted(y: System, guard: Guard)
    requires Sound(y) && guard in y.guards
    ensures y.shared.active > 0
    ensures guard.command ==> y.shared.commands > 0
  {
    assert y.guards == y.guards - multiset{guard} + multiset{guard};
    assert guard.command ==> guard == Guard(true, false) || guard == Guard(true, true);
  }

  /** What holds of any later system: nothing is undone. */
  ghost predicate Follows(a: System, b: System) {
    && a.clock <= b.clock
    && a.admissions <= b.admissions
    && (a.shared.cancelled ==> b.shared.cancelled)
    && (a.shared.started ==> b.shared.started && b.shared.capacity == a.shared.capacity)
    && (a.shared.workerFinished ==> b.shared.workerFinished)
    && Rank(a.shared.status) <= Rank(b.shared.status)
    && Shrinks(a.shared.budget, b.shared.budget)
    && EvidenceKept(a.shared.cleanup, b.shared.cleanup)
  }

  /** A budget is never lifted and only ever shrinks. */
  predicate Shrinks(a: Option<Budget>, b: Option<Budget>) {
    a.Some? ==> b.Some? && b.value.grace <= a.value.grace && b.value.cleanup <= a.value.cleanup
  }

  /** Cleanup evidence stays; what is in doubt stays in doubt, and what was late stays late. */
  predicate EvidenceKept(a: Option<Outcome>, b: Option<Outcome>) {
    a.Some? ==>
      && b.Some?
      && (a.value.late ==> b.value.late)
      && (a.value.persistence == Indeterminate ==>
            b.value.persistence == Indeterminate && b.value.admission == a.value.admission)
      && (a.value.persistence != NoMutationAttempted ==> b.value.persistence != NoMutationAttempted)
  }

  lemma RegisteredCounted(s: Shared, guards: multiset<Guard>, guard: Guard)
    requires Counted(s, guards) && (guard.command ==> s.commands < s.capacity)
    ensures Counted(Registered(s, guard.command), guards + multiset{guard})
  {
    assert |guards + multiset{guard}| == |guards| + 1;
  }

  lemma DroppedCounted(s: Shared, guards: multiset<Guard>, guard: Guard, now: int)
    requires Counted(s, guards) && guard in guards && s.active > 0 && (guard.command ==> s.commands > 0)
    ensures Counted(Dropped(s, guard, now), guards - multiset{guard})
  {
    assert guards == guards - multiset{guard} + multiset{guard};
  }

  /** A section that leaves the counters alone. */
  lemma OthersCounted(s: Shared, after: Shared, guards: multiset<Guard>)
    requires Counted(s, guards)
    requires after.active == s.active && after.commands == s.commands && (s.started ==> after.started)
    requires after.capacity == s.capacity || (guards == multiset{} && after.capacity <= MAX_CAPACITY)
    ensures Counted(after, guards)
  {
  }

  lemma StepKeepsCounted(y: System, step: Step)
    requires Sound(y)
    ensures Counted(Next(y, step).shared, Next(y, step).guards)
  {
    match step {
      case Register(cleanup, external, command, now, later) =>
        RegisteredIsCounted(y, cleanup, external, command, now, later);
      case DropGuard(guard, now) =>
        if guard in y.guards {
          GuardIsCounted(y, guard);
          DroppedCounted(y.shared, y.guards, guard, Reading(y.clock, now));
        }
      case _ =>
        hide Counted, Budgeted, AllInTime;
        GuardsStarted(y);
        OthersCounted(y.shared, Next(y, step).shared, y.guards);
    }
  }

  lemma GuardsStarted(y: System)
    requires Sound(y)
    ensures y.guards != multiset{} ==> y.shared.started
  {
  }

  lemma RegisteredIsCounted(y: System, cleanup: bool, external: Option<int>, command: bool, now: int, later: int)
    requires Sound(y)
    ensures var after := Next(y, Register(cleanup, external, command, now, later)); Counted(after.shared, after.guards)
  {
    hide Counted;
    if Refused(y.shared, cleanup, external, command, Reading(y.clock, now),
               Reading(Reading(y.clock, now), later)).None? {
      RegisteredCounted(y.shared, y.guards, Guard(command, cleanup));
    }
  }

  lemma StepKeepsBudgeted(y: System, step: Step)
    requires Sound(y)
    ensures Budgeted(Next(y, step).shared)
  {
    hide Counted, AllInTime, CleanupRecorded, WithoutHandle, ExpiredHandles, Admits;
  }

  lemma StepKeepsInTime(y: System, step: Step)
    requires Sound(y)
    ensures AllInTime(Next(y, step).admissions)
  {
    hide Counted, CleanupRecorded, WithoutHandle, Interrupting, Refused;
  }

  lemma StepKeepsSound(y: System, step: Step)
    requires Sound(y)
    ensures Sound(Next(y, step))
  {
    hide Next, Counted, Budgeted, AllInTime;
    StepKeepsCounted(y, step);
    StepKeepsBudgeted(y, step);
    StepKeepsInTime(y, step);
  }

  lemma StepFollows(y: System, step: Step)
    requires Sound(y)
    ensures Follows(y, Next(y, step))
  {
    hide Next, Counted, Budgeted, AllInTime, EvidenceKept, Shrinks;
    EvidenceStays(y, step);
    BudgetShrinks(y, step);
    HistoryGrows(y, step);
    FlagsStay(y, step);
  }

  lemma BudgetShrinks(y: System, step: Step)
    requires Sound(y)
    ensures Shrinks(y.shared.budget, Next(y, step).shared.budget)
  {
    hide Counted, AllInTime, Refused, ExpiredHandles, WithoutHandle, Admits, CleanupRecorded, MissedCutoff;
  }

  lemma HistoryGrows(y: System, step: Step)
    requires Sound(y)
    ensures y.clock <= Next(y, step).clock && y.admissions <= Next(y, step).admissions
  {
    hide Counted, AllInTime, Refused, Interrupting, WithoutHandle, Admits, CleanupRecorded, Stopped, Registered,
      Announced;
  }

  lemma FlagsStay(y: System, step: Step)
    requires Sound(y)
    ensures var a, b := y.shared, Next(y, step).shared;
            && (a.cancelled ==> b.cancelled)
            && (a.started ==> b.started && b.capacity == a.capacity)
            && (a.workerFinished ==> b.workerFinished)
            && Rank(a.status) <= Rank(b.status)
  {
    hide Counted, AllInTime, Refused, ExpiredHandles, WithoutHandle, Admits, CleanupRecorded, MissedCutoff;
  }

  lemma EvidenceStays(y: System, step: Step)
    requires Sound(y)
    ensures EvidenceKept(y.shared.cleanup, Next(y, step).shared.cleanup)
  {
    hide Counted, AllInTime, Refused, ExpiredHandles, WithoutHandle, Admits, MissedCutoff;
  }

  lemma FollowsChains(a: System, b: System, c: System)
    requires Follows(a, b) && Follows(b, c)
    ensures Follows(a, c)
  {
  }

  // ------------------------------------------------------------------
  // Whole runs
  // ------------------------------------------------------------------

  function Run(y: System, steps: seq<Step>): (after: System)
    requires Sound(y)
    ensures Sound(after) && Follows(y, after)
    decreases |steps|
  {
    if steps == [] then y
    else
      StepKeepsSound(y, steps[0]);
      StepFollows(y, steps[0]);
      var next := Next(y, steps[0]);
      FollowsChains(y, next, Run(next, steps[1..]));
      Run(next, steps[1..])
  }

  /** Every interleaving from a fresh controller keeps its accounts and admits commits in time only. */
  lemma EveryRunIsSound(steps: seq<Step>)
    ensures Sound(START) && Sound(Run(START, steps))
    ensures forall i :: 0 <= i < |Run(START, steps).admissions| ==> AdmittedInTime(Run(START, steps).admissions[i])
  {
    assert |START.guards| == 0;
  }

  /** No ordinary commit can be admitted any more: cancelled, or past grace. */
  predicate OrdinaryClosed(y: System) {
    y.shared.cancelled || Reached(Cutoff(y.shared, false), y.clock)
  }

  predicate CleanupClosed(y: System) {
    Reached(Cutoff(y.shared, true), y.clock)
  }

  lemma ClosedStays(a: System, b: System)
    requires Follows(a, b)
    ensures OrdinaryClosed(a) ==> OrdinaryClosed(b)
    ensures CleanupClosed(a) ==> CleanupClosed(b)
  {
  }

  function OfKind(admissions: seq<Admission>, cleanup: bool): (count: nat)
    decreases |admissions|
  {
    if admissions == [] then 0
    else
      OfKind(admissions[..|admissions| - 1], cleanup)
      + (if admissions[|admissions| - 1].cleanup == cleanup then 1 else 0)
  }

  /** Exactly the commits in time are admitted, by the readings of the clock at the lock. */
  lemma AdmitsExactly(y: System, cleanup: bool, external: Option<int>, now: int, later: int)
    requires Sound(y)
    ensures var first := if now < y.clock then y.clock else now;
            var second := if later < first then first else later;
            var after := Next(y, Admit(cleanup, external, now, later));
            |after.admissions| == |y.admissions| + 1 <==>
              && (cleanup || !y.shared.cancelled)
              && (y.shared.budget.None?
                  || first < (if cleanup then y.shared.budget.value.cleanup else y.shared.budget.value.grace))
              && (external.None? || second < external.value)
  {
    hide Counted, Budgeted, AllInTime;
  }

  /** The run stops and cancels nothing. */
  predicate StopsNothing(steps: seq<Step>) {
    forall i :: 0 <= i < |steps| ==> !steps[i].StopLocked? && !steps[i].CancelLocked?
  }

  lemma {:induction false} BudgetRemains(y: System, steps: seq<Step>)
    requires Sound(y) && StopsNothing(steps)
    ensures Run(y, steps).shared.budget == y.shared.budget && Run(y, steps).shared.cancelled == y.shared.cancelled
    decreases |steps|
  {
    hide Next, Sound;
    if steps != [] {
      StepKeepsSound(y, steps[0]);
      StepFollows(y, steps[0]);
      SectionLeavesBudget(y, steps[0]);
      BudgetRemains(Next(y, steps[0]), steps[1..]);
    }
  }

  lemma SectionLeavesBudget(y: System, step: Step)
    requires Sound(y) && !step.StopLocked? && !step.CancelLocked?
    ensures Next(y, step).shared.budget == y.shared.budget && Next(y, step).shared.cancelled == y.shared.cancelled
  {
    hide Counted, Budgeted, AllInTime, Refused, ExpiredHandles, WithoutHandle, Admits, CleanupRecorded, MissedCutoff;
  }

  /**
   A graceful stop: after one stop and until a further one, an ordinary commit is
   admitted exactly before the grace cutoff that was asked for, and a cleanup commit
   exactly before the cleanup cutoff.
   */
  lemma OneStopAdmitsUntilItsCutoffs(y: System, grace: int, terminal: int, at: int, steps: seq<Step>, cleanup: bool,
                                     now: int, later: int)
    requires Sound(y) && y.shared.budget.None? && !y.shared.cancelled && grace <= terminal && StopsNothing(steps)
    ensures var stopped := Next(y, StopLocked(grace, terminal, at));
            && Sound(stopped) && stopped.shared.budget == Some(Budget(grace, terminal))
            && var drained := Run(stopped, steps);
               |Next(drained, Admit(cleanup, None, now, later)).admissions| == |drained.admissions| + 1 <==>
                 (if now < drained.clock then drained.clock else now) < (if cleanup then terminal else grace)
  {
    hide Next, Sound;
    StepKeepsSound(y, StopLocked(grace, terminal, at));
    FirstStop(y, grace, terminal, at);
    var stopped := Next(y, StopLocked(grace, terminal, at));
    BudgetRemains(stopped, steps);
    AdmitsExactly(Run(stopped, steps), cleanup, None, now, later);
  }

  lemma FirstStop(y: System, grace: int, terminal: int, at: int)
    requires Sound(y) && y.shared.budget.None? && grace <= terminal
    ensures var stopped := Next(y, StopLocked(grace, terminal, at)).shared;
            stopped.budget == Some(Budget(grace, terminal)) && stopped.cancelled == y.shared.cancelled
  {
    hide Counted, AllInTime;
  }

  /** Exactly the work that comes in time, before a stop unless it is cleanup, and within the capacity is registered. */
  lemma RegistersExactly(y: System, cleanup: bool, external: Option<int>, command: bool, now: int, later: int)
    requires Sound(y)
    ensures var first := if now < y.clock then y.clock else now;
            var second := if later < first then first else later;
            var after := Next(y, Register(cleanup, external, command, now, later));
            && (after.guards == y.guards + multiset{Guard(command, cleanup)} || after.guards == y.guards)
            && (after.guards != y.guards <==>
                  && (external.None? || first < external.value)
                  && (y.shared.budget.None? || (cleanup && second < y.shared.budget.value.cleanup))
                  && (command ==> CommandGuards(y.guards) < y.shared.capacity))
  {
    hide Budgeted, AllInTime;
    var guard := Guard(command, cleanup);
    assert (y.guards + multiset{guard})[guard] == y.guards[guard] + 1;
  }

  lemma AdmitsNoneClosed(y: System, step: Step)
    requires Sound(y)
    ensures OrdinaryClosed(y) ==> OfKind(Next(y, step).admissions, false) == OfKind(y.admissions, false)
    ensures CleanupClosed(y) ==> OfKind(Next(y, step).admissions, true) == OfKind(y.admissions, true)
  {
    hide Counted, Budgeted, AllInTime, Stopped, Interrupting, CleanupRecorded, Refused;
    var after := Next(y, step);
    if step.Admit? && after.admissions != y.admissions {
      assert after.admissions[..|after.admissions| - 1] == y.admissions;
    }
  }

  /** Once ordinary commits are closed none is ever admitted again, and so for cleanup commits. */
  lemma {:induction false} ClosedForever(y: System, steps: seq<Step>)
    requires Sound(y)
    ensures OrdinaryClosed(y) ==> OfKind(Run(y, steps).admissions, false) == OfKind(y.admissions, false)
    ensures CleanupClosed(y) ==> OfKind(Run(y, steps).admissions, true) == OfKind(y.admissions, true)
    decreases |steps|
  {
    hide Next, Sound, OrdinaryClosed, CleanupClosed;
    if steps != [] {
      StepKeepsSound(y, steps[0]);
      StepFollows(y, steps[0]);
      ClosedStays(y, Next(y, steps[0]));
      AdmitsNoneClosed(y, steps[0]);
      ClosedForever(Next(y, steps[0]), steps[1..]);
    }
  }

  /** A second stop closes ordinary commits for good, and so does either section of a cancel. */
  lemma SecondStopCloses(y: System, grace: int, cleanup: int, now: int, steps: seq<Step>)
    requires Sound(y) && y.shared.budget.Some? && grace <= cleanup
    ensures var stopped := Next(y, StopLocked(grace, cleanup, now));
            && Sound(stopped) && stopped.shared.cancelled && Reached(Cutoff(stopped.shared, false), stopped.clock)
            && OfKind(Run(stopped, steps).admissions, false) == OfKind(y.admissions, false)
  {
    StepKeepsSound(y, StopLocked(grace, cleanup, now));
    ClosedForever(Next(y, StopLocked(grace, cleanup, now)), steps);
  }

  /**
   A cancel reads the clock before its first section, in which both cutoffs become
   that instant at the latest. From then on nothing is admitted, ordinary or
   cleanup, although the flag is only set by its last section.
   */
  lemma CancelCloses(y: System, read: int, now: int, steps: seq<Step>)
    requires Sound(y) && read <= y.clock
    ensures var stopped := Next(y, StopLocked(read, read, now));
            && Sound(stopped)
            && OfKind(Run(stopped, steps).admissions, false) == OfKind(y.admissions, false)
            && OfKind(Run(stopped, steps).admissions, true) == OfKind(y.admissions, true)
  {
    StepKeepsSound(y, StopLocked(read, read, now));
    ClosedForever(Next(y, StopLocked(read, read, now)), steps);
  }

  lemma RegistersNoneClosed(y: System, step: Step, command: bool)
    requires Sound(y)
    ensures y.shared.budget.Some? ==> Next(y, step).guards[Guard(command, false)] <= y.guards[Guard(command, false)]
    ensures CleanupClosed(y) ==> Next(y, step).shared.active <= y.shared.active
  {
    match step {
      case Register(cleanup, external, wanted, now, later) =>
        RefusedWhenClosed(y, cleanup, external, wanted, now, later);
      case _ => NothingElseRegisters(y, step);
    }
  }

  lemma RefusedWhenClosed(y: System, cleanup: bool, external: Option<int>, command: bool, now: int, later: int)
    requires Sound(y)
    ensures var after := Next(y, Register(cleanup, external, command, now, later));
            && (y.shared.budget.Some? && !cleanup ==> after.guards == y.guards)
            && (cleanup ==> forall c :: after.guards[Guard(c, false)] == y.guards[Guard(c, false)])
            && (CleanupClosed(y) ==> after.shared.active == y.shared.active)
  {
    hide Counted, Budgeted, AllInTime;
  }

  lemma NothingElseRegisters(y: System, step: Step)
    requires Sound(y) && !step.Register?
    ensures forall guard :: Next(y, step).guards[guard] <= y.guards[guard]
    ensures Next(y, step).shared.active <= y.shared.active
  {
    hide Counted, Budgeted, AllInTime, CleanupRecorded, Refused, Admits, ExpiredHandles, MissedCutoff, WithoutHandle;
  }

  /** After a stop no ordinary work is registered, so ordinary guards only ever drain. */
  lemma {:induction false} OrdinaryWorkOnlyDrains(y: System, steps: seq<Step>, command: bool)
    requires Sound(y) && y.shared.budget.Some?
    ensures Run(y, steps).guards[Guard(command, false)] <= y.guards[Guard(command, false)]
    decreases |steps|
  {
    hide Next, Sound;
    if steps != [] {
      StepKeepsSound(y, steps[0]);
      StepFollows(y, steps[0]);
      RegistersNoneClosed(y, steps[0], command);
      OrdinaryWorkOnlyDrains(Next(y, steps[0]), steps[1..], command);
    }
  }

  /** Past the cleanup cutoff nothing at all is registered: `active` only falls, so a join comes to its end. */
  lemma {:induction false} AllWorkOnlyDrains(y: System, steps: seq<Step>)
    requires Sound(y) && CleanupClosed(y)
    ensures Run(y, steps).shared.active <= y.shared.active
    decreases |steps|
  {
    hide Next, Sound, CleanupClosed;
    if steps != [] {
      StepKeepsSound(y, steps[0]);
      StepFollows(y, steps[0]);
      ClosedStays(y, Next(y, steps[0]));
      RegistersNoneClosed(y, steps[0], false);
      AllWorkOnlyDrains(Next(y, steps[0]), steps[1..]);
    }
  }

  /** The last guard's completion, and what was noted of the other kind before, decide whether a cutoff was missed. */
  lemma LateCompletionIsReported(y: System, guard: Guard, now: int, later: int)
    requires Sound(y) && y.guards == multiset{guard} && y.shared.workerFinished && y.shared.budget.Some?
    ensures Sound(Next(y, DropGuard(guard, now)))
    ensures var reported := Next(Next(y, DropGuard(guard, now)), Interrupt(later)).shared;
            var b := y.shared.budget.value;
            var dropped := Reading(y.clock, now);
            Rank(DeadlineExceeded) <= Rank(reported.status) <==>
              || Rank(DeadlineExceeded) <= Rank(y.shared.status)
              || (if guard.cleanup then b.cleanup <= dropped || CompletedLate(y.shared.ordinaryCompleted, b.grace)
                  else b.grace <= dropped || CompletedLate(y.shared.cleanupCompleted, b.cleanup))
  {
    StepKeepsSound(y, DropGuard(guard, now));
    var after := Next(y, DropGuard(guard, now));
    assert y.guards - multiset{guard} == multiset{};
    assert after.shared.active == 0;
  }

  /**
   A section that interrupts reaches every connection whose time has come and no
   other, until the worker has finished and no guard is alive.
   */
  lemma InterruptsExactlyTheExpired(y: System, now: int, handle: Handle)
    requires Sound(y) && handle in y.shared.interrupts
    requires !(y.shared.workerFinished && y.guards == multiset{})
    ensures handle in Interrupting(y.shared, now).1 <==> HandleExpired(y.shared, handle, now)
  {
    assert y.shared.active == 0 ==> y.guards == multiset{};
  }

  // ------------------------------------------------------------------
  // The limits of the own lock
  // ------------------------------------------------------------------

  /**
   Between the two sections of a cancel that meets no earlier stop, the flag is not
   yet set: only the cutoff refuses the commit, and cleanup work can be registered
   no more than ordinary work can.
   */
  lemma CancelIsNotAtomic(y: System)
    requires Sound(y) && y.shared.budget.None? && !y.shared.cancelled
    ensures var stopped := Next(y, StopLocked(y.clock, y.clock, y.clock));
            && !stopped.shared.cancelled
            && !Admits(stopped.shared, false, None, stopped.clock, stopped.clock)
            && Refused(stopped.shared, true, None, false, stopped.clock, stopped.clock) == Some(Expired)
  {
  }
}
