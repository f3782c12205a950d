/**
 From the controller's lock to the stored content: the scopes of any number of
 connections (crates/sc-cron/src/sqlite_scope.rs), interleaved with the locked sections
 of any number of controllers (crates/sc-cron/src/operation.rs). A commit is two steps:
 the hook's admission under the lock, and later, with no lock held, what the database
 makes of it.
 */
module Closing {
  import opened Options
  import opened Operation
  import Context
  import OperationRuns
  import Scope

  /**
   A connection: what happens on it, the context of the scope it is in, and, while a
   commit that the hook has admitted is not answered, its place among the admissions
   of its controller. It has a content of its own.
   */
  datatype Line<D> = Line(session: Scope.Session<D>, scope: Option<Context.Context>, pending: Option<nat>)

  datatype Store<D> = Store(systems: map<nat, OperationRuns.System>, lines: map<nat, Line<D>>)

  /** The readings of a commit hook: the controllers the check before the lock saw, and the clock. */
  datatype Hook = Hook(seen: Context.Controllers, checked: int, now: int, later: int)

  datatype Action<D> =
    /** A locked section of a controller. */
    | Control(id: nat, step: OperationRuns.Step)
    /** A scope begins or ends. */
    | Enter(connection: nat, x: Context.Context)
    | Leave(connection: nat)
    /** Anything but the commit of a scope; without a scope no hook is installed. */
    | Act(connection: nat, event: Scope.Event<D>)
    /** The commit hook is asked. */
    | Ask(connection: nat, hook: Hook)
    /** The database is done with a commit the hook has admitted. */
    | Complete(connection: nat, effect: Scope.Effect)

  /** A thread in the middle of a commit does nothing else. */
  ghost predicate Possible<D(!new)>(store: Store<D>, action: Action<D>) {
    match action
    case Control(id, _) => id in store.systems
    case Complete(k, _) => k in store.lines && store.lines[k].pending.Some?
    case _ =>
      var k := action.connection;
      && k in store.lines && store.lines[k].pending.None?
      && match action
         case Enter(_, x) =>
           store.lines[k].scope.None? && store.lines[k].session.draft.None? && x.state in store.systems
         case Leave(_) => store.lines[k].scope.Some?
         case Act(_, event) => event.Commit? ==> store.lines[k].scope.None?
         case _ => store.lines[k].scope.Some? && store.lines[k].session.draft.Some?
  }

  /** A pending commit stands in its controller's log of admissions. */
  ghost predicate LineSound<D(!new)>(systems: map<nat, OperationRuns.System>, line: Line<D>) {
    && Scope.Honest(line.session)
    && (line.scope.Some? ==> line.scope.value.state in systems)
    && (line.pending.Some? ==>
          && line.scope.Some? && line.session.draft.Some? && line.session.outcome.admission == Admitted
          && line.pending.value < |systems[line.scope.value.state].admissions|
          && systems[line.scope.value.state].admissions[line.pending.value].cleanup == line.scope.value.cleanup)
  }

  ghost predicate Sound<D(!new)>(store: Store<D>) {
    && (forall id :: id in store.systems ==> OperationRuns.Sound(store.systems[id]))
    && (forall k :: k in store.lines ==> LineSound(store.systems, store.lines[k]))
  }

  /** The hook's decision, by what its own controller holds at the lock. */
  predicate HookAdmits(y: OperationRuns.System, x: Context.Context, hook: Hook) {
    var now := OperationRuns.Reading(y.clock, hook.now);
    Context.HookAdmits(x, hook.seen, hook.checked, map[x.state := y.shared],
                       now, OperationRuns.Reading(now, hook.later))
  }

  /** The section in which the controller is asked; it is not when the check before has failed. */
  function Asked(y: OperationRuns.System, x: Context.Context, hook: Hook): OperationRuns.System
    requires OperationRuns.Sound(y)
  {
    if Context.Check(x, hook.seen, hook.checked) != Context.Live then y
    else OperationRuns.Next(y, OperationRuns.Admit(x.cleanup, Context.ExternalDeadline(x, hook.seen),
                                                   hook.now, hook.later))
  }

  /** The session of a scope whose commit is admitted and not answered yet. */
  function Admitting<D>(s: Scope.Session<D>): Scope.Session<D> {
    s.(outcome := Scope.CommitHook(s.outcome, true))
  }

  /** The hook lets the commit wait for the database, or has it undone. */
  function AskedLine<D>(line: Line<D>, y: OperationRuns.System, hook: Hook): Line<D>
    requires line.scope.Some?
  {
    if HookAdmits(y, line.scope.value, hook) then
      line.(session := Admitting(line.session), pending := Some(|y.admissions|))
    else line.(session := Scope.Next(line.session, Scope.Commit(false, Scope.CommitFailed)))
  }

  ghost function LineAfter<D(!new)>(store: Store<D>, k: nat, action: Action<D>): Line<D>
    requires Possible(store, action) && Sound(store) && !action.Control? && k == action.connection
  {
    var line := store.lines[k];
    match action
    case Enter(_, x) => Line(Scope.Opened(line.session.durable), Some(x), None)
    case Leave(_) => line.(scope := None)
    case Act(_, event) => line.(session := Scope.Next(line.session, event))
    case Ask(_, hook) => AskedLine(line, store.systems[line.scope.value.state], hook)
    case Complete(_, effect) =>
      line.(session := Scope.Next(line.session, Scope.Commit(true, effect)), pending := None)
    case Control(_, _) => line
  }

  ghost function After<D(!new)>(store: Store<D>, action: Action<D>): Store<D>
    requires Sound(store) && Possible(store, action)
  {
    if action.Control? then
      store.(systems := store.systems[action.id := OperationRuns.Next(store.systems[action.id], action.step)])
    else
      var k := action.connection;
      var lines := store.lines[k := LineAfter(store, k, action)];
      if action.Ask? then
        var x := store.lines[k].scope.value;
        Store(store.systems[x.state := Asked(store.systems[x.state], x, action.hook)], lines)
      else store.(lines := lines)
  }

  /** An admitted commit is appended to the log of its controller. */
  lemma AskedAppends(y: OperationRuns.System, x: Context.Context, hook: Hook)
    requires OperationRuns.Sound(y)
    ensures OperationRuns.Sound(Asked(y, x, hook)) && OperationRuns.Follows(y, Asked(y, x, hook))
    ensures HookAdmits(y, x, hook) ==>
              var log := Asked(y, x, hook).admissions;
              |log| == |y.admissions| + 1 && log[|y.admissions|].cleanup == x.cleanup
  {
    hide OperationRuns.Sound, OperationRuns.Follows, Context.Check, Context.ExternalDeadline;
    var admit := OperationRuns.Admit(x.cleanup, Context.ExternalDeadline(x, hook.seen), hook.now, hook.later);
    OperationRuns.StepKeepsSound(y, admit);
    OperationRuns.StepFollows(y, admit);
    FollowsItself(y);
    assert Context.StateOf(map[x.state := y.shared], x.state) == y.shared;
  }

  lemma FollowsItself(y: OperationRuns.System)
    ensures OperationRuns.Follows(y, y)
  {
  }

  lemma SystemsFollow<D(!new)>(store: Store<D>, action: Action<D>)
    requires Sound(store) && Possible(store, action)
    ensures After(store, action).systems.Keys == store.systems.Keys
    ensures After(store, action).lines.Keys == store.lines.Keys
    ensures forall id :: id in store.systems ==>
              && OperationRuns.Sound(After(store, action).systems[id])
              && OperationRuns.Follows(store.systems[id], After(store, action).systems[id])
  {
    hide OperationRuns.Sound, OperationRuns.Follows, OperationRuns.Next, Asked, AskedLine, Scope.Honest, Scope.Next;
    forall id | id in store.systems
      ensures OperationRuns.Sound(After(store, action).systems[id])
      ensures OperationRuns.Follows(store.systems[id], After(store, action).systems[id])
    {
      FollowsItself(store.systems[id]);
      match action {
        case Control(_, step) =>
          OperationRuns.StepKeepsSound(store.systems[id], step);
          OperationRuns.StepFollows(store.systems[id], step);
        case Ask(k, hook) => AskedAppends(store.systems[id], store.lines[k].scope.value, hook);
        case _ =>
      }
    }
  }

  /** A line stays sound while its controllers go on. */
  lemma LineStaysSound<D(!new)>(before: map<nat, OperationRuns.System>, after: map<nat, OperationRuns.System>,
                                line: Line<D>)
    requires LineSound(before, line) && before.Keys == after.Keys
    requires forall id :: id in before ==> OperationRuns.Follows(before[id], after[id])
    ensures LineSound(after, line)
  {
    hide Scope.Honest;
    if line.pending.Some? {
      var id := line.scope.value.state;
      assert before[id].admissions <= after[id].admissions;
    }
  }

  lemma AfterIsSound<D(!new)>(store: Store<D>, action: Action<D>)
    requires Sound(store) && Possible(store, action)
    ensures Sound(After(store, action))
    ensures After(store, action).systems.Keys == store.systems.Keys
    ensures After(store, action).lines.Keys == store.lines.Keys
    ensures forall id :: id in store.systems ==>
              OperationRuns.Follows(store.systems[id], After(store, action).systems[id])
  {
    hide OperationRuns.Sound, OperationRuns.Follows, OperationRuns.Next, Asked, HookAdmits, Scope.Honest, Scope.Next;
    var after := After(store, action);
    SystemsFollow(store, action);
    forall k | k in after.lines ensures LineSound(after.systems, after.lines[k]) {
      if action.Control? || k != action.connection {
        LineStaysSound(store.systems, after.systems, store.lines[k]);
      } else {
        LineAfterIsSound(store, action);
      }
    }
  }

  lemma LineAfterIsSound<D(!new)>(store: Store<D>, action: Action<D>)
    requires Sound(store) && Possible(store, action) && !action.Control?
    ensures LineSound(After(store, action).systems, After(store, action).lines[action.connection])
  {
    hide OperationRuns.Sound, OperationRuns.Follows, OperationRuns.Next, Asked, HookAdmits;
    var line := store.lines[action.connection];
    match action {
      case Enter(_, x) => Scope.OpenedIsHonest(line.session.durable);
      case Act(_, event) => Scope.NextKeepsHonest(line.session, event);
      case Complete(_, effect) => Scope.NextKeepsHonest(line.session, Scope.Commit(true, effect));
      case Ask(_, hook) =>
        AskedAppends(store.systems[line.scope.value.state], line.scope.value, hook);
        Scope.NextKeepsHonest(line.session, Scope.Commit(false, Scope.CommitFailed));
      case _ =>
    }
  }

  // ------------------------------------------------------------------
  // Runs
  // ------------------------------------------------------------------

  ghost predicate CanRun<D(!new)>(store: Store<D>, actions: seq<Action<D>>)
    requires Sound(store)
    decreases |actions|
  {
    actions == []
    || (Possible(store, actions[0])
        && (AfterIsSound(store, actions[0]); CanRun(After(store, actions[0]), actions[1..])))
  }

  ghost function Run<D(!new)>(store: Store<D>, actions: seq<Action<D>>): Store<D>
    requires Sound(store) && CanRun(store, actions)
    decreases |actions|
  {
    if actions == [] then store
    else
      AfterIsSound(store, actions[0]);
      Run(After(store, actions[0]), actions[1..])
  }

  lemma {:induction false} RunIsSound<D(!new)>(store: Store<D>, actions: seq<Action<D>>)
    requires Sound(store) && CanRun(store, actions)
    ensures Sound(Run(store, actions))
    ensures Run(store, actions).systems.Keys == store.systems.Keys && Run(store, actions).lines.Keys == store.lines.Keys
    ensures forall id :: id in store.systems ==>
              OperationRuns.Follows(store.systems[id], Run(store, actions).systems[id])
    decreases |actions|
  {
    hide Sound, Possible, After, OperationRuns.Follows;
    if actions == [] {
      forall id | id in store.systems ensures OperationRuns.Follows(store.systems[id], store.systems[id]) {
        FollowsItself(store.systems[id]);
      }
    } else {
      AfterIsSound(store, actions[0]);
      var next, end := After(store, actions[0]), Run(store, actions);
      RunIsSound(next, actions[1..]);
      forall id | id in store.systems ensures OperationRuns.Follows(store.systems[id], end.systems[id]) {
        FollowsOn(store.systems[id], next.systems[id], end.systems[id]);
      }
    }
  }

  lemma FollowsOn(a: OperationRuns.System, b: OperationRuns.System, c: OperationRuns.System)
    requires OperationRuns.Follows(a, b) && OperationRuns.Follows(b, c)
    ensures OperationRuns.Follows(a, c)
  {
  }

  /** What happens on a connection in a run, a commit in two steps being one event. */
  ghost function EventsOn<D(!new)>(store: Store<D>, actions: seq<Action<D>>, k: nat): seq<Scope.Event<D>>
    requires Sound(store) && CanRun(store, actions)
    decreases |actions|
  {
    if actions == [] then []
    else
      AfterIsSound(store, actions[0]);
      var rest := EventsOn(After(store, actions[0]), actions[1..], k);
      match actions[0]
      case Act(connection, event) => if connection == k then [event] + rest else rest
      case Complete(connection, effect) => if connection == k then [Scope.Commit(true, effect)] + rest else rest
      case Ask(connection, hook) =>
        var line := store.lines[connection];
        if connection == k && !HookAdmits(store.systems[line.scope.value.state], line.scope.value, hook)
        then [Scope.Commit(false, Scope.CommitFailed)] + rest else rest
      case _ => rest
  }

  /** What stands on the line is the session `s`, or `s` with its commit admitted and not answered. */
  predicate Stands<D(==)>(line: Line<D>, s: Scope.Session<D>) {
    line.session == if line.pending.Some? then Admitting(s) else s
  }

  lemma StepStands<D(!new)>(store: Store<D>, action: Action<D>, k: nat, s: Scope.Session<D>)
    requires Sound(store) && Possible(store, action) && k in store.lines && Stands(store.lines[k], s)
    requires !(action.Enter? && action.connection == k)
    ensures CanRun(store, [action])
    ensures Stands(After(store, action).lines[k], Scope.Run(s, EventsOn(store, [action], k)))
    ensures |EventsOn(store, [action], k)| <= 1
  {
    hide OperationRuns.Sound, OperationRuns.Next, Asked, HookAdmits, Scope.Honest;
    AfterIsSound(store, action);
    assert [action][1..] == [];
    assert Scope.Run(s, []) == s;
    forall e: Scope.Event<D> ensures Scope.Run(s, [e]) == Scope.Next(s, e) {
      assert [e][1..] == [];
    }
  }

  /**
   For the scope itself a commit is one event: in any interleaving what stands on its
   connection is what a run of its own events comes to.
   */
  lemma {:induction false} ScopeSeesOneEvent<D(!new)>(store: Store<D>, actions: seq<Action<D>>, k: nat,
                                                      s: Scope.Session<D>)
    requires Sound(store) && CanRun(store, actions) && k in store.lines && Stands(store.lines[k], s)
    requires forall i :: 0 <= i < |actions| && actions[i].Enter? ==> actions[i].connection != k
    ensures k in Run(store, actions).lines
    ensures Stands(Run(store, actions).lines[k], Scope.Run(s, EventsOn(store, actions, k)))
    decreases |actions|
  {
    hide Sound, Possible, After, Stands, Scope.Next, HookAdmits;
    if actions != [] {
      AfterIsSound(store, actions[0]);
      StepStands(store, actions[0], k, s);
      var first, rest := EventsOn(store, [actions[0]], k), EventsOn(After(store, actions[0]), actions[1..], k);
      assert [actions[0]][1..] == [];
      assert EventsOn(store, actions, k) == first + rest;
      ScopeSeesOneEvent(After(store, actions[0]), actions[1..], k, Scope.Run(s, first));
      if first != [] {
        assert (first + rest)[1..] == rest && first[1..] == [];
      } else {
        assert first + rest == rest;
      }
    }
  }

  // ------------------------------------------------------------------
  // A closed controller
  // ------------------------------------------------------------------

  /** In a scope of this controller, of ordinary work unless cleanup counts too. */
  predicate OfKind<D>(line: Line<D>, id: nat, cleanup: bool) {
    line.scope.Some? && line.scope.value.state == id && (cleanup || !line.scope.value.cleanup)
  }

  /** The controller admits no ordinary commit any more, and no cleanup commit either if that is asked. */
  ghost predicate Closed(y: OperationRuns.System, cleanup: bool) {
    OperationRuns.OrdinaryClosed(y) && (cleanup ==> OperationRuns.CleanupClosed(y))
  }

  lemma ClosedAdmitsNone(y: OperationRuns.System, x: Context.Context, hook: Hook, cleanup: bool)
    requires Closed(y, cleanup) && (cleanup || !x.cleanup)
    ensures !HookAdmits(y, x, hook)
  {
    hide Context.Check;
    assert Context.StateOf(map[x.state := y.shared], x.state) == y.shared;
  }

  lemma StaysClosed(a: OperationRuns.System, b: OperationRuns.System, cleanup: bool)
    requires OperationRuns.Follows(a, b) && Closed(a, cleanup)
    ensures Closed(b, cleanup)
  {
    OperationRuns.ClosedStays(a, b);
  }

  predicate Elsewhere<D>(action: Action<D>, k: nat) {
    action.Control? || action.connection != k
  }

  /** The connections with an admitted commit of this kind that is not answered. */
  function Waiting<D>(store: Store<D>, id: nat, cleanup: bool): set<nat> {
    set k | k in store.lines && OfKind(store.lines[k], id, cleanup) && store.lines[k].pending.Some?
  }

  /** A scope of this kind changes what its connection holds only by the commit it had waiting in `lines`. */
  ghost predicate WritesOnlyWaited<D(!new)>(store: Store<D>, action: Action<D>, id: nat, cleanup: bool,
                                            lines: map<nat, Line<D>>)
    requires Sound(store) && Possible(store, action)
  {
    AfterIsSound(store, action);
    forall k :: k in store.lines && OfKind(store.lines[k], id, cleanup)
                && After(store, action).lines[k].session.durable != store.lines[k].session.durable ==>
      && (action == Complete(k, Scope.Reported) || action == Complete(k, Scope.Lost))
      && k in lines && store.lines[k] == lines[k] && lines[k].pending.Some?
      && After(store, action).lines[k].session.durable == lines[k].session.draft.value
  }

  /** A commit of this kind that is asked for is vetoed and undone. */
  ghost predicate Vetoes<D(!new)>(store: Store<D>, action: Action<D>, id: nat, cleanup: bool)
    requires Sound(store) && Possible(store, action)
  {
    AfterIsSound(store, action);
    action.Ask? && OfKind(store.lines[action.connection], id, cleanup) ==>
      var s := After(store, action).lines[action.connection].session;
      s.outcome.admission == Vetoed && s.outcome.persistence == RolledBack && s.draft.None?
      && s.durable == store.lines[action.connection].session.durable
  }

  /** What waits in the one store waits, just so, in the other. */
  predicate WaitsStill<D(==)>(later: Store<D>, id: nat, cleanup: bool, lines: map<nat, Line<D>>) {
    forall k :: k in Waiting(later, id, cleanup) ==> k in lines && later.lines[k] == lines[k]
  }

  /** The action's own connection. */
  lemma ClosedLine<D(!new)>(store: Store<D>, action: Action<D>, id: nat, cleanup: bool)
    requires Sound(store) && Possible(store, action) && !action.Control?
    requires id in store.systems && Closed(store.systems[id], cleanup)
    ensures var line, after := store.lines[action.connection], LineAfter(store, action.connection, action);
            && (OfKind(after, id, cleanup) ==> after.pending.None?)
            && (OfKind(line, id, cleanup) && after.session.durable != line.session.durable ==>
                  && action.Complete? && (action.effect.Reported? || action.effect.Lost?) && line.pending.Some?
                  && after.session.durable == line.session.draft.value)
            && (OfKind(line, id, cleanup) && action.Ask? ==>
                  && after.session.outcome.admission == Vetoed && after.session.outcome.persistence == RolledBack
                  && after.session.draft.None? && after.session.durable == line.session.durable)
  {
    hide OperationRuns.Sound, HookAdmits, Closed, Scope.Honest;
    if action.Ask? {
      var x := store.lines[action.connection].scope.value;
      if x.state == id && (cleanup || !x.cleanup) {
        ClosedAdmitsNone(store.systems[id], x, action.hook, cleanup);
      }
    }
  }

  lemma OthersStay<D(!new)>(store: Store<D>, action: Action<D>)
    requires Sound(store) && Possible(store, action)
    ensures forall k :: k in store.lines && Elsewhere(action, k) ==>
              k in After(store, action).lines && After(store, action).lines[k] == store.lines[k]
    ensures !action.Control? ==>
              After(store, action).lines[action.connection] == LineAfter(store, action.connection, action)
  {
    hide OperationRuns.Sound, OperationRuns.Next, Asked, AskedLine, Scope.Honest, Scope.Next;
  }

  lemma ClosedWrites<D(!new)>(store: Store<D>, action: Action<D>, id: nat, cleanup: bool, lines: map<nat, Line<D>>)
    requires Sound(store) && Possible(store, action) && id in store.systems && Closed(store.systems[id], cleanup)
    requires WaitsStill(store, id, cleanup, lines)
    ensures WritesOnlyWaited(store, action, id, cleanup, lines)
  {
    hide Sound, Possible, After, LineAfter, Closed, OperationRuns.Follows, OfKind;
    AfterIsSound(store, action);
    OthersStay(store, action);
    if !action.Control? {
      ConnectionIsThere(store, action);
      ClosedLine(store, action, id, cleanup);
    }
    forall k | k in store.lines && OfKind(store.lines[k], id, cleanup)
               && After(store, action).lines[k].session.durable != store.lines[k].session.durable
      ensures !Elsewhere(action, k) && k in Waiting(store, id, cleanup)
    {
    }
  }

  lemma ClosedStep<D(!new)>(store: Store<D>, action: Action<D>, id: nat, cleanup: bool, lines: map<nat, Line<D>>)
    requires Sound(store) && Possible(store, action) && id in store.systems && Closed(store.systems[id], cleanup)
    requires WaitsStill(store, id, cleanup, lines)
    ensures WritesOnlyWaited(store, action, id, cleanup, lines) && Vetoes(store, action, id, cleanup)
    ensures WaitsStill(After(store, action), id, cleanup, lines)
    ensures Waiting(After(store, action), id, cleanup) <= Waiting(store, id, cleanup)
  {
    hide Sound, Possible, After, LineAfter, Closed, OperationRuns.Follows, OfKind, WritesOnlyWaited;
    ClosedWrites(store, action, id, cleanup, lines);
    AfterIsSound(store, action);
    OthersStay(store, action);
    if !action.Control? {
      ConnectionIsThere(store, action);
      ClosedLine(store, action, id, cleanup);
    }
    forall k | k in Waiting(After(store, action), id, cleanup)
      ensures k in Waiting(store, id, cleanup) && After(store, action).lines[k] == store.lines[k]
    {
      assert Elsewhere(action, k);
    }
  }

  lemma ConnectionIsThere<D(!new)>(store: Store<D>, action: Action<D>)
    requires Possible(store, action) && !action.Control?
    ensures action.connection in store.lines
  {
  }

  /** Each step of the run is such a step, and nothing begins to wait. */
  ghost predicate OnlyFinishes<D(!new)>(store: Store<D>, actions: seq<Action<D>>, id: nat, cleanup: bool,
                                        lines: map<nat, Line<D>>)
    requires Sound(store) && CanRun(store, actions)
    decreases |actions|
  {
    actions == []
    || (AfterIsSound(store, actions[0]);
        && WritesOnlyWaited(store, actions[0], id, cleanup, lines)
        && Vetoes(store, actions[0], id, cleanup)
        && Waiting(After(store, actions[0]), id, cleanup) <= Waiting(store, id, cleanup)
        && OnlyFinishes(After(store, actions[0]), actions[1..], id, cleanup, lines))
  }

  lemma {:induction false} ClosedRun<D(!new)>(store: Store<D>, actions: seq<Action<D>>, id: nat, cleanup: bool,
                                              lines: map<nat, Line<D>>)
    requires Sound(store) && CanRun(store, actions) && id in store.systems && Closed(store.systems[id], cleanup)
    requires WaitsStill(store, id, cleanup, lines)
    ensures OnlyFinishes(store, actions, id, cleanup, lines)
    decreases |actions|
  {
    hide Sound, Possible, After, Closed, OperationRuns.Follows, WritesOnlyWaited, Vetoes, Waiting, WaitsStill;
    if actions != [] {
      AfterIsSound(store, actions[0]);
      StaysClosed(store.systems[id], After(store, actions[0]).systems[id], cleanup);
      ClosedStep(store, actions[0], id, cleanup, lines);
      ClosedRun(After(store, actions[0]), actions[1..], id, cleanup, lines);
    }
  }

  /**
   Once a controller is closed its scopes change the content of a connection only by
   finishing the commit that had been admitted there before, and with the content it
   then had; a commit that is asked for is vetoed, and none begins to wait.
   */
  lemma ClosedOnlyFinishes<D(!new)>(store: Store<D>, actions: seq<Action<D>>, id: nat, cleanup: bool)
    requires Sound(store) && CanRun(store, actions) && id in store.systems && Closed(store.systems[id], cleanup)
    ensures OnlyFinishes(store, actions, id, cleanup, store.lines)
  {
    ClosedRun(store, actions, id, cleanup, store.lines);
  }

  // ------------------------------------------------------------------
  // The content in the end
  // ------------------------------------------------------------------

  predicate Commits<D>(action: Action<D>, k: nat) {
    || (action.Ask? && action.connection == k)
    || (action.Complete? && action.connection == k)
    || (action.Act? && action.connection == k && action.event.Commit?)
  }

  /** The commits on this connection are all made in scopes of this kind. */
  ghost predicate CommitsOfKind<D(!new)>(store: Store<D>, actions: seq<Action<D>>, k: nat, id: nat, cleanup: bool)
    requires Sound(store) && CanRun(store, actions)
    decreases |actions|
  {
    actions == []
    || (AfterIsSound(store, actions[0]);
        && (Commits(actions[0], k) ==> OfKind(store.lines[k], id, cleanup))
        && CommitsOfKind(After(store, actions[0]), actions[1..], k, id, cleanup))
  }

  /** What the database made of the first commit it was done with on this connection. */
  function FirstEffect<D>(actions: seq<Action<D>>, k: nat): Option<Scope.Effect> {
    if actions == [] then None
    else if actions[0].Complete? && actions[0].connection == k then Some(actions[0].effect)
    else FirstEffect(actions[1..], k)
  }

  /** The content once the waiting commit, if there is one, came to this. */
  function Settled<D>(line: Line<D>, effect: Option<Scope.Effect>): D {
    if line.pending.Some? && line.session.draft.Some? && (effect == Some(Scope.Reported) || effect == Some(Scope.Lost))
    then line.session.draft.value else line.session.durable
  }

  lemma SettledStep<D(!new)>(store: Store<D>, action: Action<D>, k: nat, id: nat, cleanup: bool)
    requires Sound(store) && Possible(store, action) && id in store.systems && Closed(store.systems[id], cleanup)
    requires k in store.lines && (Commits(action, k) ==> OfKind(store.lines[k], id, cleanup))
    ensures var line, after := store.lines[k], After(store, action).lines[k];
            if action.Complete? && action.connection == k
            then after.pending.None? && after.session.durable == Settled(line, Some(action.effect))
            else if line.pending.Some? then after == line
            else after.pending.None? && after.session.durable == line.session.durable
  {
    hide OperationRuns.Sound, OperationRuns.Next, Asked, HookAdmits, Closed, Scope.Honest;
    if action.Ask? && action.connection == k {
      ClosedAdmitsNone(store.systems[id], store.lines[k].scope.value, action.hook, cleanup);
    }
  }

  /**
   What a connection holds in the end, when all its commits are by scopes of a closed
   controller: what it held when the controller was closed, or, exactly if a commit was
   waiting then and the database made it durable, what that commit wrote.
   */
  lemma {:induction false} ContentAfterClose<D(!new)>(store: Store<D>, actions: seq<Action<D>>, k: nat, id: nat,
                                                      cleanup: bool)
    requires Sound(store) && CanRun(store, actions) && id in store.systems && Closed(store.systems[id], cleanup)
    requires k in store.lines && CommitsOfKind(store, actions, k, id, cleanup)
    ensures k in Run(store, actions).lines
    ensures Run(store, actions).lines[k].session.durable == Settled(store.lines[k], FirstEffect(actions, k))
    decreases |actions|
  {
    hide Sound, Possible, After, Closed, OperationRuns.Follows, Commits, OfKind;
    if actions != [] {
      AfterIsSound(store, actions[0]);
      StaysClosed(store.systems[id], After(store, actions[0]).systems[id], cleanup);
      SettledStep(store, actions[0], k, id, cleanup);
      ContentAfterClose(After(store, actions[0]), actions[1..], k, id, cleanup);
    }
  }

  ghost predicate ChangesContent<D(!new)>(store: Store<D>, actions: seq<Action<D>>, k: nat, id: nat, cleanup: bool)
    requires Sound(store) && k in store.lines
  {
    && CanRun(store, actions) && CommitsOfKind(store, actions, k, id, cleanup)
    && k in Run(store, actions).lines
    && Run(store, actions).lines[k].session.durable != store.lines[k].session.durable
  }

  lemma FinishRuns<D(!new)>(store: Store<D>, k: nat, id: nat, cleanup: bool)
    requires Sound(store) && k in Waiting(store, id, cleanup)
    ensures CanRun(store, [Complete(k, Scope.Reported)])
    ensures CommitsOfKind(store, [Complete(k, Scope.Reported)], k, id, cleanup)
    ensures store.lines[k].session.draft.Some? && store.lines[k].pending.Some?
  {
    hide OperationRuns.Sound, Scope.Honest, After;
    AfterIsSound(store, Complete(k, Scope.Reported));
    var finish: seq<Action<D>> := [Complete(k, Scope.Reported)];
    assert finish[1..] == [];
  }

  /** The scopes of a closed controller can still change a content exactly where a commit that changes it waits. */
  lemma WritesExactlyWhatWaits<D(!new)>(store: Store<D>, k: nat, id: nat, cleanup: bool)
    requires Sound(store) && id in store.systems && Closed(store.systems[id], cleanup) && k in store.lines
    ensures (exists actions :: ChangesContent(store, actions, k, id, cleanup))
            <==> k in Waiting(store, id, cleanup)
                 && store.lines[k].session.draft != Some(store.lines[k].session.durable)
  {
    hide Sound, After, Closed, CanRun, CommitsOfKind, Run, OfKind;
    if actions: seq<Action<D>> :| ChangesContent(store, actions, k, id, cleanup) {
      ContentAfterClose(store, actions, k, id, cleanup);
      CommitsFirst(store, actions, k, id, cleanup);
    }
    if k in Waiting(store, id, cleanup) && store.lines[k].session.draft != Some(store.lines[k].session.durable) {
      FinishRuns(store, k, id, cleanup);
      ContentAfterClose(store, [Complete(k, Scope.Reported)], k, id, cleanup);
      assert ChangesContent(store, [Complete(k, Scope.Reported)], k, id, cleanup);
    }
  }

  /** The waiting commit that is finished in such a run is of this kind. */
  lemma {:induction false} CommitsFirst<D(!new)>(store: Store<D>, actions: seq<Action<D>>, k: nat, id: nat,
                                                 cleanup: bool)
    requires Sound(store) && CanRun(store, actions) && CommitsOfKind(store, actions, k, id, cleanup)
    requires k in store.lines && store.lines[k].pending.Some? && FirstEffect(actions, k).Some?
    ensures k in Waiting(store, id, cleanup)
    decreases |actions|
  {
    hide Sound, OfKind, OperationRuns.Follows, LineAfter;
    AfterIsSound(store, actions[0]);
    OthersStay(store, actions[0]);
    if Elsewhere(actions[0], k) {
      CommitsFirst(After(store, actions[0]), actions[1..], k, id, cleanup);
    }
  }

  // ------------------------------------------------------------------
  // Cancel and the second stop
  // ------------------------------------------------------------------

  lemma StoppedCloses(y: OperationRuns.System, grace: int, cleanup: int, now: int)
    requires OperationRuns.Sound(y)
    ensures y.shared.budget.Some? && grace <= cleanup ==>
              Closed(OperationRuns.Next(y, OperationRuns.StopLocked(grace, cleanup, now)), false)
    ensures grace == cleanup <= OperationRuns.Reading(y.clock, now) ==>
              Closed(OperationRuns.Next(y, OperationRuns.StopLocked(grace, cleanup, now)), true)
  {
  }

  lemma SystemIsSound<D(!new)>(store: Store<D>, id: nat)
    requires Sound(store) && id in store.systems
    ensures OperationRuns.Sound(store.systems[id])
  {
  }

  /** After a stop that closes the controller, only what was admitted before it is finished. */
  lemma StopOnlyFinishes<D(!new)>(store: Store<D>, id: nat, stop: OperationRuns.Step, actions: seq<Action<D>>,
                                  cleanup: bool)
    requires Sound(store) && id in store.systems && OperationRuns.Sound(store.systems[id])
    requires CanRun(store, actions) && actions != [] && actions[0] == Control(id, stop)
    requires Closed(OperationRuns.Next(store.systems[id], stop), cleanup)
    ensures OnlyFinishes(store, actions, id, cleanup, store.lines)
  {
    hide Sound, OperationRuns.Next, Closed, OperationRuns.Sound;
    AfterIsSound(store, actions[0]);
    ClosedOnlyFinishes(After(store, actions[0]), actions[1..], id, cleanup);
  }

  /**
   From the first section of a cancel on, no scope of the controller, ordinary or
   cleanup, changes anything but by finishing a commit admitted before it.
   */
  lemma CancelOnlyFinishes<D(!new)>(store: Store<D>, id: nat, read: int, now: int, actions: seq<Action<D>>)
    requires Sound(store) && CanRun(store, actions) && id in store.systems
    requires read <= OperationRuns.Reading(store.systems[id].clock, now)
    requires actions != [] && actions[0] == Control(id, OperationRuns.StopLocked(read, read, now))
    ensures OnlyFinishes(store, actions, id, true, store.lines)
  {
    hide Sound, Closed, OperationRuns.Next, OperationRuns.Sound;
    SystemIsSound(store, id);
    StoppedCloses(store.systems[id], read, read, now);
    StopOnlyFinishes(store, id, OperationRuns.StopLocked(read, read, now), actions, true);
  }

  /** After a second stop no ordinary scope changes anything but by finishing a commit admitted before it. */
  lemma SecondStopOnlyFinishes<D(!new)>(store: Store<D>, id: nat, grace: int, cleanup: int, now: int,
                                        actions: seq<Action<D>>)
    requires Sound(store) && CanRun(store, actions) && id in store.systems
    requires store.systems[id].shared.budget.Some? && grace <= cleanup
    requires actions != [] && actions[0] == Control(id, OperationRuns.StopLocked(grace, cleanup, now))
    ensures OnlyFinishes(store, actions, id, false, store.lines)
  {
    hide Sound, Closed, OperationRuns.Next, OperationRuns.Sound;
    SystemIsSound(store, id);
    StoppedCloses(store.systems[id], grace, cleanup, now);
    StopOnlyFinishes(store, id, OperationRuns.StopLocked(grace, cleanup, now), actions, false);
  }

  // ------------------------------------------------------------------
  // The late commit
  // ------------------------------------------------------------------

  function Shareds<D>(store: Store<D>): Context.Controllers {
    map id | id in store.systems :: store.systems[id].shared
  }

  function Revocation(verdict: Context.Verdict): Option<Scope.Kind> {
    match verdict
    case Live => None
    case Cancelled => Some(Scope.KindCancelled)
    case PastDeadline => Some(Scope.KindDeadlineExceeded)
  }

  /** The scope ends after its cutoff: its deadline has come by the last reading of the clock. */
  predicate EndsLate<D>(store: Store<D>, x: Context.Context, later: int) {
    Reached(Context.Deadline(x, Shareds(store)), later)
  }

  /** What the scope of a connection answers, if it ends here: it is checked at `now`, and `later` for being late. */
  function AnswerOf<D>(store: Store<D>, k: nat, result: Option<Scope.Failure>, now: int, later: int): Scope.Answer
    requires k in store.lines && store.lines[k].scope.Some?
  {
    var x := store.lines[k].scope.value;
    Scope.Answered(result, Revocation(Context.Check(x, Shareds(store), now)),
                   Scope.Final(store.lines[k].session.outcome, EndsLate(store, x, later)))
  }

  lemma {:induction false} StaysElsewhere<D(!new)>(store: Store<D>, actions: seq<Action<D>>, k: nat)
    requires Sound(store) && CanRun(store, actions) && k in store.lines
    requires forall i :: 0 <= i < |actions| ==> Elsewhere(actions[i], k)
    ensures k in Run(store, actions).lines && Run(store, actions).lines[k] == store.lines[k]
    decreases |actions|
  {
    hide Sound, Possible, OperationRuns.Follows;
    if actions != [] {
      AfterIsSound(store, actions[0]);
      assert Elsewhere(actions[0], k);
      StaysElsewhere(After(store, actions[0]), actions[1..], k);
    }
  }

  /** The kind of the answer of a scope whose commit took effect after its controller was closed. */
  function LateKind(effect: Scope.Effect, late: bool): Scope.Kind {
    if effect.Lost? then Scope.KindIndeterminate
    else if late then Scope.KindDeadlineExceeded
    else Scope.KindCancelled
  }

  /** The commit of this connection that was waiting took effect, and nothing has happened there since. */
  ghost predicate TookEffect<D(!new)>(line: Line<D>, effect: Scope.Effect, after: Line<D>) {
    && line.session.draft.Some? && after.scope == line.scope
    && after.session.durable == line.session.draft.value
    && after.session.outcome.admission == Admitted
    && after.session.outcome.persistence == (if effect.Lost? then Indeterminate else Committed)
  }

  /**
   A commit that was waiting when its controller was closed and that took effect: the
   content is durable, and the scope fails whenever it then ends. The evidence is an
   admitted commit, committed, or in doubt if the answer was lost; and the kind tells
   it from a rollback. It is late if the cutoff is what closed the controller.
   */
  lemma LateCommitIsReported<D(!new)>(store: Store<D>, k: nat, effect: Scope.Effect, actions: seq<Action<D>>,
                                      result: Option<Scope.Failure>, now: int, later: int)
    requires Sound(store) && k in store.lines && store.lines[k].pending.Some?
    requires var x := store.lines[k].scope.value;
             Closed(store.systems[x.state], x.cleanup) && store.systems[x.state].clock <= now <= later
    requires effect.Reported? || (effect.Lost? && store.lines[k].session.draft != Some(store.lines[k].session.durable))
    requires CanRun(store, actions) && actions != [] && actions[0] == Complete(k, effect)
    requires forall i :: 1 <= i < |actions| ==> Elsewhere(actions[i], k)
    ensures var x, end := store.lines[k].scope.value, Run(store, actions);
            && k in end.lines && TookEffect(store.lines[k], effect, end.lines[k])
            && var late := EndsLate(end, x, later);
               && AnswerOf(end, k, result, now, later) ==
                    Scope.Attached(LateKind(effect, late),
                                   Outcome(Admitted, if effect.Lost? then Indeterminate else Committed, late))
               && (Reached(Cutoff(store.systems[x.state].shared, x.cleanup), store.systems[x.state].clock) ==> late)
  {
    hide Sound, Possible, After, Closed, OperationRuns.Follows, EndsLate, TookEffect, Reached, Shareds;
    AfterIsSound(store, actions[0]);
    CompletedLine(store, k, effect);
    StaysElsewhere(After(store, actions[0]), actions[1..], k);
    RunIsSound(store, actions);
    PendingIsInScope(store, k);
    LateEnd(store, Run(store, actions), k, effect, result, now, later);
  }

  lemma LateEnd<D(!new)>(store: Store<D>, end: Store<D>, k: nat, effect: Scope.Effect,
                         result: Option<Scope.Failure>, now: int, later: int)
    requires k in store.lines && store.lines[k].scope.Some? && k in end.lines
    requires var x := store.lines[k].scope.value;
             && x.state in store.systems && x.state in end.systems
             && OperationRuns.Follows(store.systems[x.state], end.systems[x.state])
             && Closed(store.systems[x.state], x.cleanup) && store.systems[x.state].clock <= now <= later
    requires TookEffect(store.lines[k], effect, end.lines[k])
    ensures var x := store.lines[k].scope.value;
            var late := EndsLate(end, x, later);
            && AnswerOf(end, k, result, now, later) ==
                 Scope.Attached(LateKind(effect, late),
                                Outcome(Admitted, if effect.Lost? then Indeterminate else Committed, late))
            && (Reached(Cutoff(store.systems[x.state].shared, x.cleanup), store.systems[x.state].clock) ==> late)
  {
    hide Closed, OperationRuns.Follows, Context.Check, EndsLate, Scope.Final, Scope.Answered, Reached, LateKind,
      Revocation;
    var x := store.lines[k].scope.value;
    RevokedOnceClosed(store, end, x, now, later);
    LateAnswer(result, Context.Check(x, Shareds(end), now), end.lines[k].session.outcome, effect,
               EndsLate(end, x, later));
  }

  lemma PendingIsInScope<D(!new)>(store: Store<D>, k: nat)
    requires Sound(store) && k in store.lines && store.lines[k].pending.Some?
    ensures store.lines[k].scope.Some? && store.lines[k].scope.value.state in store.systems
  {
  }

  lemma CompletedLine<D(!new)>(store: Store<D>, k: nat, effect: Scope.Effect)
    requires Sound(store) && Possible(store, Complete(k, effect))
    requires effect.Reported? || (effect.Lost? && store.lines[k].session.draft != Some(store.lines[k].session.durable))
    ensures TookEffect(store.lines[k], effect, After(store, Complete(k, effect)).lines[k])
  {
    hide OperationRuns.Sound;
  }

  lemma LateAnswer(result: Option<Scope.Failure>, verdict: Context.Verdict, outcome: Outcome, effect: Scope.Effect,
                   late: bool)
    requires verdict != Context.Live && (!late ==> verdict == Context.Cancelled)
    requires outcome.admission == Admitted
    requires outcome.persistence == if effect.Lost? then Indeterminate else Committed
    ensures Scope.Answered(result, Revocation(verdict), Scope.Final(outcome, late)) ==
              Scope.Attached(LateKind(effect, late), Outcome(Admitted, outcome.persistence, late))
  {
  }

  /** Whoever ends on a closed controller is revoked, and late if the cutoff closed it. */
  lemma RevokedOnceClosed<D(!new)>(store: Store<D>, end: Store<D>, x: Context.Context, now: int, later: int)
    requires x.state in store.systems && x.state in end.systems && now <= later
    requires OperationRuns.Follows(store.systems[x.state], end.systems[x.state])
    requires Closed(store.systems[x.state], x.cleanup) && store.systems[x.state].clock <= now
    ensures Context.Check(x, Shareds(end), now) != Context.Live
    ensures !EndsLate(end, x, later) ==> Context.Check(x, Shareds(end), now) == Context.Cancelled
    ensures Reached(Cutoff(store.systems[x.state].shared, x.cleanup), store.systems[x.state].clock) ==>
              EndsLate(end, x, later)
  {
    hide Context.ExternalDeadline, Context.ParentCancelled;
    assert Context.StateOf(Shareds(end), x.state) == end.systems[x.state].shared;
  }

  lemma Prepend<D(!new)>(store: Store<D>, action: Action<D>, actions: seq<Action<D>>)
    requires Sound(store) && Possible(store, action) && Sound(After(store, action))
    requires CanRun(After(store, action), actions)
    ensures CanRun(store, [action] + actions)
    ensures Run(store, [action] + actions) == Run(After(store, action), actions)
  {
    hide Sound, Possible, After;
    assert ([action] + actions)[1..] == actions;
  }

  lemma AdmittedWaits<D(!new)>(store: Store<D>, k: nat, hook: Hook, now: int)
    requires Sound(store) && Possible(store, Ask(k, hook))
    requires var x := store.lines[k].scope.value;
             && HookAdmits(store.systems[x.state], x, hook)
             && store.systems[x.state].clock <= now && hook.now <= now && hook.later <= now
    ensures var x, after := store.lines[k].scope.value, After(store, Ask(k, hook));
            && Sound(after) && x.state in after.systems && after.systems[x.state].clock <= now
            && k in after.lines && after.lines[k].scope == Some(x) && after.lines[k].pending.Some?
            && after.lines[k].session.draft == store.lines[k].session.draft
            && after.lines[k].session.durable == store.lines[k].session.durable
  {
    hide OperationRuns.Sound, Scope.Honest, Context.Check, OperationRuns.Follows;
    AfterIsSound(store, Ask(k, hook));
  }

  /** Both cutoffs have come. */
  predicate PastCutoffs(y: OperationRuns.System) {
    Reached(Cutoff(y.shared, false), y.clock) && Reached(Cutoff(y.shared, true), y.clock)
  }

  lemma CancelPassesCutoffs(y: OperationRuns.System, now: int)
    requires OperationRuns.Sound(y) && y.clock <= now
    ensures var stopped := OperationRuns.Next(y, OperationRuns.StopLocked(now, now, now));
            PastCutoffs(stopped) && stopped.clock <= now
    ensures PastCutoffs(y) ==> PastCutoffs(OperationRuns.Next(y, OperationRuns.CancelLocked))
    ensures OperationRuns.Next(y, OperationRuns.CancelLocked).clock <= now
  {
  }

  /** A section of its controller leaves a waiting commit waiting. */
  lemma SectionLeavesWaiting<D(!new)>(store: Store<D>, k: nat, step: OperationRuns.Step)
    requires Sound(store) && k in store.lines && store.lines[k].pending.Some?
    ensures store.lines[k].scope.Some?
    ensures var id := store.lines[k].scope.value.state;
            var after := After(store, Control(id, step));
            && Sound(after) && after.lines == store.lines && id in after.systems
            && OperationRuns.Sound(store.systems[id])
            && after.systems[id] == OperationRuns.Next(store.systems[id], step)
            && OperationRuns.Follows(store.systems[id], after.systems[id])
  {
    hide OperationRuns.Sound, Scope.Honest, OperationRuns.Next, OperationRuns.Follows;
    AfterIsSound(store, Control(store.lines[k].scope.value.state, step));
  }

  /** A waiting commit that is finished past the cutoffs. */
  lemma DoneLate<D(!new)>(store: Store<D>, k: nat, result: Option<Scope.Failure>, ends: int, later: int)
    requires Sound(store) && k in store.lines && store.lines[k].pending.Some?
    requires var y := store.systems[store.lines[k].scope.value.state]; PastCutoffs(y) && y.clock <= ends <= later
    ensures IsDone(store, [Complete(k, Scope.Reported)], k, store.lines[k], result, ends, later)
  {
    hide Sound, After, OperationRuns.Sound, OperationRuns.Follows, EndsLate, AnswerOf, Possible;
    PendingIsInScope(store, k);
    var x := store.lines[k].scope.value;
    FinishRuns(store, k, x.state, true);
    LateCommitIsReported(store, k, Scope.Reported, [Complete(k, Scope.Reported)], result, ends, later);
  }

  /** The run leaves what was waiting on the line durable, and the scope, where it ends, late. */
  ghost predicate IsDone<D(!new)>(store: Store<D>, actions: seq<Action<D>>, k: nat, line: Line<D>,
                                  result: Option<Scope.Failure>, ends: int, later: int)
    requires Sound(store)
  {
    && CanRun(store, actions) && k in Run(store, actions).lines
    && Run(store, actions).lines[k].scope == line.scope && line.scope.Some?
    && Some(Run(store, actions).lines[k].session.durable) == line.session.draft
    && AnswerOf(Run(store, actions), k, result, ends, later) ==
         Scope.Attached(Scope.KindDeadlineExceeded, Outcome(Admitted, Committed, true))
  }

  lemma CancelledThenDone<D(!new)>(store: Store<D>, k: nat, now: int, result: Option<Scope.Failure>, ends: int,
                                   later: int)
    requires Sound(store) && k in store.lines && store.lines[k].pending.Some?
    requires store.systems[store.lines[k].scope.value.state].clock <= now <= ends <= later
    ensures var id := store.lines[k].scope.value.state;
            IsDone(store, [Control(id, OperationRuns.StopLocked(now, now, now)),
                           Control(id, OperationRuns.CancelLocked), Complete(k, Scope.Reported)],
                   k, store.lines[k], result, ends, later)
  {
    hide Sound, After, OperationRuns.Next, OperationRuns.Sound, OperationRuns.Follows, PastCutoffs, AnswerOf, Run,
      CanRun;
    PendingIsInScope(store, k);
    var id := store.lines[k].scope.value.state;
    var stop, cancel := Control(id, OperationRuns.StopLocked(now, now, now)), Control(id, OperationRuns.CancelLocked);
    var stopped := After(store, stop);
    SectionLeavesWaiting(store, k, stop.step);
    CancelPassesCutoffs(store.systems[id], now);
    SectionLeavesWaiting(stopped, k, cancel.step);
    CancelPassesCutoffs(stopped.systems[id], now);
    DoneLate(After(stopped, cancel), k, result, ends, later);
    Prepend(stopped, cancel, [Complete(k, Scope.Reported)]);
    assert [cancel] + [Complete(k, Scope.Reported)] == [cancel, Complete(k, Scope.Reported)];
    Prepend(store, stop, [cancel, Complete(k, Scope.Reported)]);
    assert [stop] + [cancel, Complete(k, Scope.Reported)] == [stop, cancel, Complete(k, Scope.Reported)];
  }

  /**
   Whatever scope has a commit admitted, the sections of a cancel may come before the
   database has made it durable; the commit then stands, and the scope fails as late.
   */
  lemma CommitOutlivesACancel<D(!new)>(store: Store<D>, k: nat, hook: Hook, now: int, result: Option<Scope.Failure>,
                                       ends: int, later: int)
    requires Sound(store) && Possible(store, Ask(k, hook))
    requires var x := store.lines[k].scope.value;
             && HookAdmits(store.systems[x.state], x, hook)
             && store.systems[x.state].clock <= now && hook.now <= now && hook.later <= now <= ends <= later
    ensures var x := store.lines[k].scope.value;
            IsDone(store, [Ask(k, hook), Control(x.state, OperationRuns.StopLocked(now, now, now)),
                           Control(x.state, OperationRuns.CancelLocked), Complete(k, Scope.Reported)],
                   k, store.lines[k], result, ends, later)
  {
    hide Sound, After, OperationRuns.Next, HookAdmits, OperationRuns.Sound, OperationRuns.Follows, PastCutoffs,
      AnswerOf, Run, CanRun;
    AdmittedWaits(store, k, hook, now);
    CancelledThenDone(After(store, Ask(k, hook)), k, now, result, ends, later);
    var x := store.lines[k].scope.value;
    var rest := [Control(x.state, OperationRuns.StopLocked(now, now, now)),
                 Control(x.state, OperationRuns.CancelLocked), Complete(k, Scope.Reported)];
    Prepend(store, Ask(k, hook), rest);
    assert [Ask(k, hook)] + rest == [Ask(k, hook), rest[0], rest[1], rest[2]];
  }

  /** A fresh controller, and one connection with a scope that has written 1 over 0. */
  function WrittenOver(x: Context.Context): Store<int> {
    var session := Scope.Session(0, Some(1), Outcome(NotAttempted, Indeterminate, false), 0, 0, Scope.InTransaction);
    Store(map[0 := OperationRuns.START], map[0 := Line(session, Some(x), None)])
  }

  /** It happens to an ordinary scope and to a cleanup scope that 1 is durable only after the cancel. */
  lemma LateCommitHappens(cleanup: bool)
    ensures var x := if cleanup then Context.Terminal(Context.Root(0)) else Context.Root(0);
            var store := WrittenOver(x);
            && Sound(store)
            && IsDone(store, [Ask(0, Hook(map[0 := FRESH], 0, 0, 0)), Control(0, OperationRuns.StopLocked(0, 0, 0)),
                              Control(0, OperationRuns.CancelLocked), Complete(0, Scope.Reported)],
                      0, store.lines[0], None, 0, 0)
  {
    hide IsDone;
    var x := if cleanup then Context.Terminal(Context.Root(0)) else Context.Root(0);
    CommitOutlivesACancel(WrittenOver(x), 0, Hook(map[0 := FRESH], 0, 0, 0), 0, None, 0, 0);
  }
}
