/**
 Operation contexts (crates/sc-cron/src/consumer_contract.rs): deadlines and
 cancellation that a chain of derived contexts inherits, and the commit hook that
 reads them (crates/sc-cron/src/sqlite_scope.rs).

 A context names its controllers; what stands under their locks at one moment is
 a `Controllers` value.
 */
module Context {
  import opened Options
  import opened Operation
  import OperationRuns

  type Controllers = map<nat, Shared>

  function StateOf(c: Controllers, id: nat): Shared {
    if id in c then c[id] else FRESH
  }

  /** A parent's controller and the deadline the parent had when this context was bound. */
  datatype Parent = Parent(state: nat, deadline: Option<int>)

  datatype Context = Context(state: nat, deadline: Option<int>, cleanup: bool, parents: seq<Parent>)

  function Root(state: nat): Context {
    Context(state, None, false, [])
  }

  function ParentsCutoff(parents: seq<Parent>, c: Controllers): Option<int> {
    if parents == [] then None
    else Earliest(Earliest(Cutoff(StateOf(c, parents[0].state), false), parents[0].deadline),
                  ParentsCutoff(parents[1..], c))
  }

  function ExternalDeadline(x: Context, c: Controllers): Option<int> {
    Earliest(ParentsCutoff(x.parents, c), x.deadline)
  }

  function Deadline(x: Context, c: Controllers): Option<int> {
    Earliest(ExternalDeadline(x, c), Cutoff(StateOf(c, x.state), x.cleanup))
  }

  predicate ParentCancelled(parents: seq<Parent>, c: Controllers) {
    exists i :: 0 <= i < |parents| && StateOf(c, parents[i].state).cancelled
  }

  predicate StopRequested(x: Context, c: Controllers) {
    || StateOf(c, x.state).budget.Some?
    || exists i :: 0 <= i < |x.parents| && StateOf(c, x.parents[i].state).budget.Some?
  }

  datatype Verdict = Live | Cancelled | PastDeadline

  function Check(x: Context, c: Controllers, now: int): Verdict {
    if !x.cleanup && StateOf(c, x.state).cancelled then Cancelled
    else if ParentCancelled(x.parents, c) then Cancelled
    else if Reached(Deadline(x, c), now) then PastDeadline
    else Live
  }

  function WithDeadline(x: Context, deadline: int): Context {
    x.(deadline := Some(match x.deadline case None => deadline case Some(current) => Min(current, deadline)))
  }

  function Bind(x: Context, state: nat): Context {
    Context(state, x.deadline, false, if state == x.state then x.parents else x.parents + [Parent(x.state, x.deadline)])
  }

  function Terminal(x: Context): Context {
    Context(x.state, None, true, [])
  }

  // ------------------------------------------------------------------
  // When a context is live
  // ------------------------------------------------------------------

  /** The time has not come, if there is one. */
  predicate StillBefore(now: int, bound: Option<int>) {
    bound.None? || now < bound.value
  }

  /** The parent's controller admits ordinary work, and the deadline the parent had lies ahead. */
  predicate ParentLive(p: Parent, c: Controllers, now: int) {
    var s := if p.state in c then c[p.state] else FRESH;
    && !s.cancelled && (s.budget.None? || now < s.budget.value.grace) && StillBefore(now, p.deadline)
  }

  lemma {:induction false} ParentsCutoffAhead(parents: seq<Parent>, c: Controllers, now: int)
    ensures StillBefore(now, ParentsCutoff(parents, c)) <==>
              forall i :: 0 <= i < |parents| ==>
                && StillBefore(now, parents[i].deadline)
                && (StateOf(c, parents[i].state).budget.None? || now < StateOf(c, parents[i].state).budget.value.grace)
  {
    if parents != [] {
      ParentsCutoffAhead(parents[1..], c, now);
      assert forall i :: 1 <= i < |parents| ==> parents[i] == parents[1..][i - 1];
      assert forall i :: 0 <= i < |parents| - 1 ==> parents[1..][i] == parents[i + 1];
    }
  }

  /**
   A context is live exactly while its own controller is (ordinary work also until it is
   cancelled), every parent's is, and its own deadline and its parents' lie ahead. One
   that is not is reported as cancelled exactly if a cancellation is why.
   */
  lemma LiveExactly(x: Context, c: Controllers, now: int)
    ensures Check(x, c, now) == Live <==>
              && (x.cleanup || !StateOf(c, x.state).cancelled)
              && (StateOf(c, x.state).budget.None?
                  || now < (if x.cleanup then StateOf(c, x.state).budget.value.cleanup
                            else StateOf(c, x.state).budget.value.grace))
              && StillBefore(now, x.deadline)
              && forall i :: 0 <= i < |x.parents| ==> ParentLive(x.parents[i], c, now)
    ensures Check(x, c, now) == Cancelled <==>
              || (!x.cleanup && StateOf(c, x.state).cancelled)
              || exists i :: 0 <= i < |x.parents| && StateOf(c, x.parents[i].state).cancelled
  {
    ParentsCutoffAhead(x.parents, c, now);
    assert Reached(Deadline(x, c), now) <==>
      !StillBefore(now, ParentsCutoff(x.parents, c)) || !StillBefore(now, x.deadline)
        || !StillBefore(now, Cutoff(StateOf(c, x.state), x.cleanup));
  }

  // ------------------------------------------------------------------
  // Derived contexts never extend the scope
  // ------------------------------------------------------------------

  datatype Derivation = Within(deadline: int) | BoundTo(state: nat)

  function Derived(x: Context, chain: seq<Derivation>): Context
    decreases |chain|
  {
    if chain == [] then x
    else
      Derived(match chain[0]
              case Within(deadline) => WithDeadline(x, deadline)
              case BoundTo(state) => Bind(x, state),
              chain[1..])
  }

  /** `a` is a bound at least as strict as `b`. */
  predicate NoLater(a: Option<int>, b: Option<int>) {
    b.Some? ==> a.Some? && a.value <= b.value
  }

  /** Every controller keeps grace before cleanup, as all of their runs do. */
  ghost predicate AllBudgeted(c: Controllers) {
    forall id :: id in c ==> OperationRuns.Budgeted(c[id])
  }

  lemma {:induction false} ParentsCutoffAppends(parents: seq<Parent>, p: Parent, c: Controllers)
    ensures ParentsCutoff(parents + [p], c) ==
              Earliest(ParentsCutoff(parents, c), Earliest(Cutoff(StateOf(c, p.state), false), p.deadline))
  {
    if parents == [] {
      assert ([] + [p])[1..] == [];
    } else {
      assert (parents + [p])[1..] == parents[1..] + [p];
      ParentsCutoffAppends(parents[1..], p, c);
    }
  }

  lemma ParentCancelledAppends(parents: seq<Parent>, p: Parent, c: Controllers)
    ensures ParentCancelled(parents + [p], c) <==> ParentCancelled(parents, c) || StateOf(c, p.state).cancelled
  {
    var all := parents + [p];
    if ParentCancelled(parents, c) {
      var i :| 0 <= i < |parents| && StateOf(c, parents[i].state).cancelled;
      assert all[i] == parents[i];
    }
    if StateOf(c, p.state).cancelled {
      assert all[|parents|] == p;
    }
  }

  /** Within the first of the two deadlines; nothing else of the parent's is lost. */
  lemma WithDeadlineIsEarlier(x: Context, deadline: int, c: Controllers)
    ensures Deadline(WithDeadline(x, deadline), c) == Earliest(Deadline(x, c), Some(deadline))
  {
  }

  /** Binding ordinary work to another controller keeps the deadline of both. */
  lemma BindMeetsBoth(x: Context, state: nat, c: Controllers)
    requires !x.cleanup
    ensures Deadline(Bind(x, state), c) == Earliest(Deadline(x, c), Cutoff(StateOf(c, state), false))
  {
    ParentsCutoffAppends(x.parents, Parent(x.state, x.deadline), c);
  }

  lemma BindNeverExtends(x: Context, state: nat, c: Controllers, now: int)
    requires AllBudgeted(c)
    ensures NoLater(Deadline(Bind(x, state), c), Deadline(x, c))
    ensures Check(x, c, now) != Live ==> Check(Bind(x, state), c, now) != Live
  {
    ParentsCutoffAppends(x.parents, Parent(x.state, x.deadline), c);
    ParentCancelledAppends(x.parents, Parent(x.state, x.deadline), c);
  }

  /** However a context is derived, its deadline is never later and no revocation of the original is missed. */
  lemma {:induction false} DerivedNeverExtends(x: Context, chain: seq<Derivation>, c: Controllers, now: int)
    requires AllBudgeted(c)
    ensures NoLater(Deadline(Derived(x, chain), c), Deadline(x, c))
    ensures Check(x, c, now) != Live ==> Check(Derived(x, chain), c, now) != Live
    decreases |chain|
  {
    if chain != [] {
      match chain[0] {
        case Within(deadline) =>
          WithDeadlineIsEarlier(x, deadline, c);
          DerivedNeverExtends(WithDeadline(x, deadline), chain[1..], c, now);
        case BoundTo(state) =>
          BindNeverExtends(x, state, c, now);
          DerivedNeverExtends(Bind(x, state), chain[1..], c, now);
      }
    }
  }

  /** A stop of the original is seen by every context derived from it. */
  lemma {:induction false} DerivedSeesTheStop(x: Context, chain: seq<Derivation>, c: Controllers)
    requires StopRequested(x, c)
    ensures StopRequested(Derived(x, chain), c)
    decreases |chain|
  {
    if chain != [] {
      match chain[0] {
        case Within(deadline) => DerivedSeesTheStop(WithDeadline(x, deadline), chain[1..], c);
        case BoundTo(state) =>
          var bound := Bind(x, state);
          if i :| 0 <= i < |x.parents| && StateOf(c, x.parents[i].state).budget.Some? {
            assert bound.parents[i] == x.parents[i];
          } else if state != x.state {
            assert bound.parents[|x.parents|].state == x.state;
          }
          DerivedSeesTheStop(bound, chain[1..], c);
      }
    }
  }

  /** Terminal cleanup answers to the cleanup cutoff of its own controller and to nothing else. */
  lemma TerminalAnswersToCleanup(x: Context, c: Controllers, now: int)
    ensures Deadline(Terminal(x), c) == Cutoff(StateOf(c, x.state), true)
    ensures Check(Terminal(x), c, now) == Live <==> !Reached(Cutoff(StateOf(c, x.state), true), now)
  {
  }

  // ------------------------------------------------------------------
  // The commit hook
  // ------------------------------------------------------------------

  /**
   The hook's decision: the context is checked and its outer deadline read (`seen`,
   at `checked`), then the own controller decides under its lock (`locked`).
   */
  predicate HookAdmits(x: Context, seen: Controllers, checked: int, locked: Controllers, now: int, later: int) {
    && Check(x, seen, checked) == Live
    && Admits(StateOf(locked, x.state), x.cleanup, ExternalDeadline(x, seen), now, later)
  }

  /**
   The hook's admission agrees with a check at the lock itself exactly when no
   parent was cancelled or cut off in between: that, and only that, can be missed.
   */
  lemma HookMissesOnlyLateParents(x: Context, seen: Controllers, checked: int, locked: Controllers, now: int,
                                  later: int)
    requires HookAdmits(x, seen, checked, locked, now, later) && now <= later
    ensures Check(x, locked, now) == Live <==>
              !ParentCancelled(x.parents, locked) && !Reached(ParentsCutoff(x.parents, locked), now)
  {
  }

  /** A parent cancelled between the check and the lock does not keep the commit from being admitted. */
  lemma ParentMayCancelBetween()
    ensures var x := Bind(Root(0), 1);
            var seen: Controllers := map[0 := FRESH, 1 := FRESH];
            var locked: Controllers := map[0 := FRESH.(cancelled := true), 1 := FRESH];
            HookAdmits(x, seen, 5, locked, 5, 5) && Check(x, locked, 5) == Cancelled
  {
    var x := Bind(Root(0), 1);
    var locked: Controllers := map[0 := FRESH.(cancelled := true), 1 := FRESH];
    var seen: Controllers := map[0 := FRESH, 1 := FRESH];
    assert x.parents == [Parent(0, None)] && x.parents[1..] == [];
    assert !ParentCancelled(x.parents, seen) && ParentsCutoff(x.parents, seen) == None;
    assert StateOf(locked, x.parents[0].state).cancelled;
  }
}
