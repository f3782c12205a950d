/**
 The wait for the last guard (crates/sc-cron/src/operation.rs, `Controller::join`
 and `PhysicalGuard::drop`).

 A guard's drop is two steps: it lowers `active` under the lock, then notifies. A
 notification wakes only a waiter that is already enabled; it is not kept for one
 that comes later. The order in which the joiner enables its waiter and reads
 `active` is a parameter, so that the order the code uses can be told from the other.
 */
module Join {
  datatype Order = EnableFirst | ReadFirst

  datatype Joiner =
    | Begin
    | Enabled(notified: bool)
    | SawActive
    | Asleep(notified: bool)
    | Returned

  /** `unnotified` counts the guards that have lowered `active` and have yet to notify. */
  datatype State = State(active: nat, unnotified: nat, joiner: Joiner)

  datatype Step =
    | Register
    | Decrement
    | NotifyDropped
    | NotifyOther
    | JoinerStep

  /** A notification reaches an enabled waiter. */
  function Notified(joiner: Joiner): Joiner {
    match joiner
    case Enabled(_) => Enabled(true)
    case Asleep(_) => Asleep(true)
    case _ => joiner
  }

  /** The joiner's next step; asleep it makes none until it has been notified. */
  function JoinerNext(order: Order, s: State): Joiner {
    match s.joiner
    case Begin =>
      if order.EnableFirst? then Enabled(false)
      else if s.active == 0 then Returned else SawActive
    case Enabled(notified) => if s.active == 0 then Returned else Asleep(notified)
    case SawActive => Asleep(false)
    case Asleep(notified) => if notified then Begin else s.joiner
    case Returned => Returned
  }

  function Next(order: Order, s: State, step: Step): State {
    match step
    case Register => s.(active := s.active + 1)
    case Decrement => if s.active == 0 then s else s.(active := s.active - 1, unnotified := s.unnotified + 1)
    case NotifyDropped =>
      if s.unnotified == 0 then s else s.(unnotified := s.unnotified - 1, joiner := Notified(s.joiner))
    case NotifyOther => s.(joiner := Notified(s.joiner))
    case JoinerStep => s.(joiner := JoinerNext(order, s))
  }

  function Run(order: Order, s: State, steps: seq<Step>): State
    decreases |steps|
  {
    if steps == [] then s else Run(order, Next(order, s, steps[0]), steps[1..])
  }

  /** A joiner that sleeps unnotified is still owed a notification. */
  predicate WakeIsOwed(s: State) {
    && !s.joiner.SawActive?
    && (s.joiner == Asleep(false) ==> s.active > 0 || s.unnotified > 0)
  }

  /** Every interleaving owes a sleeping joiner its wakeup. */
  lemma {:induction false} NoLostWakeup(s: State, steps: seq<Step>)
    requires WakeIsOwed(s)
    ensures WakeIsOwed(Run(EnableFirst, s, steps))
    decreases |steps|
  {
    if steps != [] {
      NoLostWakeup(Next(EnableFirst, s, steps[0]), steps[1..]);
    }
  }

  /** The joiner comes to its end only by finding no guard alive. */
  lemma {:induction false} ReturnsOnlyWhenIdle(order: Order, s: State, steps: seq<Step>)
    requires !s.joiner.Returned? && Run(order, s, steps).joiner.Returned?
    ensures exists i :: 0 <= i < |steps| && steps[i] == JoinerStep && Run(order, s, steps[..i]).active == 0
                        && !Run(order, s, steps[..i]).joiner.Returned?
    decreases |steps|
  {
    var next := Next(order, s, steps[0]);
    if next.joiner.Returned? {
      assert Run(order, s, steps[..0]) == s;
    } else {
      ReturnsOnlyWhenIdle(order, next, steps[1..]);
      var i :| 0 <= i < |steps| - 1 && steps[1..][i] == JoinerStep && Run(order, next, steps[1..][..i]).active == 0
               && !Run(order, next, steps[1..][..i]).joiner.Returned?;
      assert steps[..i + 1][1..] == steps[1..][..i];
      assert Run(order, s, steps[..i + 1]) == Run(order, next, steps[1..][..i]);
      assert steps[i + 1] == JoinerStep;
    }
  }

  /** Once every guard is gone and has notified, the joiner returns by its own next steps, wherever it was. */
  lemma IdleJoinerReturns(s: State, steps: seq<Step>)
    requires WakeIsOwed(s) && Run(EnableFirst, s, steps).active == 0 && Run(EnableFirst, s, steps).unnotified == 0
    ensures Run(EnableFirst, Run(EnableFirst, s, steps), [JoinerStep, JoinerStep, JoinerStep]).joiner == Returned
  {
    NoLostWakeup(s, steps);
    var last := Run(EnableFirst, s, steps);
    var one := Next(EnableFirst, last, JoinerStep);
    var two := Next(EnableFirst, one, JoinerStep);
    var three := Next(EnableFirst, two, JoinerStep);
    assert three.joiner == Returned;
    var all := [JoinerStep, JoinerStep, JoinerStep];
    assert all[1..] == [JoinerStep, JoinerStep] && all[1..][1..] == [JoinerStep] && all[1..][1..][1..] == [];
  }

  /** With the two reads in the other order the last guard's drop can be missed, and the joiner sleeps for good. */
  lemma ReadingFirstLosesTheWakeup(steps: seq<Step>)
    requires forall i :: 0 <= i < |steps| ==> steps[i] == JoinerStep
    ensures var s := Run(ReadFirst, State(1, 0, Begin), [JoinerStep, Decrement, NotifyDropped, JoinerStep]);
            s.active == 0 && s.unnotified == 0 && Run(ReadFirst, s, steps).joiner == Asleep(false)
  {
    var a := Next(ReadFirst, State(1, 0, Begin), JoinerStep);
    var b := Next(ReadFirst, a, Decrement);
    var c := Next(ReadFirst, b, NotifyDropped);
    var d := Next(ReadFirst, c, JoinerStep);
    var all := [JoinerStep, Decrement, NotifyDropped, JoinerStep];
    assert all[1..] == [Decrement, NotifyDropped, JoinerStep] && all[1..][1..] == [NotifyDropped, JoinerStep];
    assert all[1..][1..][1..] == [JoinerStep] && all[1..][1..][1..][1..] == [];
    assert d == State(0, 0, Asleep(false));
    StaysAsleep(d, steps);
  }

  lemma {:induction false} StaysAsleep(s: State, steps: seq<Step>)
    requires s.joiner == Asleep(false) && forall i :: 0 <= i < |steps| ==> steps[i] == JoinerStep
    ensures Run(ReadFirst, s, steps) == s
    decreases |steps|
  {
    if steps != [] {
      StaysAsleep(Next(ReadFirst, s, steps[0]), steps[1..]);
    }
  }
}
