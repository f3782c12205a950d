/**
 Evidence about one scoped store operation (crates/sc-cron/src/sqlite_scope.rs),
 against a database that asks the commit hook before it makes writes durable and
 tells the rollback hook when it undoes them.

 The database may lose the answer to a commit, fail it, or leave the transaction
 open; the commit hook's decision is that of the operation's context.
 */
module Scope {
  import opened Options
  import opened Operation

  /** What a commit the hook admitted comes to. */
  datatype Effect = Reported | Lost | CommitFailed | StillOpen

  /** What happens on the connection while the operation runs. `live`: the context's check passes. */
  datatype Event<D> =
    | Begin
    | Attempt(live: bool)
    | Execute(live: bool, written: D)
    | Commit(admitted: bool, effect: Effect)
    | Rollback

  /** What physically became of the last transaction. */
  datatype Fate = NoTransaction | InTransaction | MadeDurable | Undone

  /**
   The durable content, the open transaction, the evidence the scope keeps, and for
   the statements about it: the content when the scope and when its last
   transaction began, and what became of that transaction.
   */
  datatype Session<D> = Session(durable: D, draft: Option<D>, outcome: Outcome, start: D, base: D, fate: Fate)

  function Opened<D>(durable: D): Session<D> {
    Session(durable, None, NOTHING_ATTEMPTED, durable, durable, NoTransaction)
  }

  // ------------------------------------------------------------------
  // The hooks and the calls that overwrite the evidence
  // ------------------------------------------------------------------

  function Attempted(outcome: Outcome, live: bool): Outcome {
    if live then outcome.(persistence := Indeterminate) else outcome
  }

  function CommitHook(outcome: Outcome, admitted: bool): Outcome {
    outcome.(admission := if admitted then Admitted else Vetoed)
  }

  function RollbackHook(outcome: Outcome): Outcome {
    outcome.(persistence := RolledBack)
  }

  function Committing<D>(s: Session<D>, admitted: bool, effect: Effect): Session<D>
    requires s.draft.Some?
  {
    var asked := s.(outcome := CommitHook(s.outcome, admitted));
    if !admitted || effect.CommitFailed? then
      asked.(draft := None, outcome := RollbackHook(asked.outcome), fate := Undone)
    else
      match effect
      case Reported =>
        asked.(durable := s.draft.value, draft := None, fate := MadeDurable,
               outcome := asked.outcome.(persistence := Committed))
      case Lost => asked.(durable := s.draft.value, draft := None, fate := MadeDurable)
      case _ => asked
  }

  /** A statement outside a transaction, or a transaction inside one, fails without effect on the content. */
  function Next<D>(s: Session<D>, e: Event<D>): Session<D> {
    match e
    case Begin => if s.draft.Some? then s else s.(draft := Some(s.durable), base := s.durable, fate := InTransaction)
    case Attempt(live) => s.(outcome := Attempted(s.outcome, live))
    case Execute(live, written) =>
      var tried := s.(outcome := Attempted(s.outcome, live));
      if live && s.draft.Some? then tried.(draft := Some(written)) else tried
    case Commit(admitted, effect) => if s.draft.None? then s else Committing(s, admitted, effect)
    case Rollback =>
      if s.draft.None? then s else s.(draft := None, outcome := RollbackHook(s.outcome), fate := Undone)
  }

  /**
   What each event makes of the content and of the evidence: a try puts it in doubt; a
   commit that was admitted and reported is known to have been made; one that was vetoed
   or failed, and a rollback, are known to be undone; and a commit whose answer is lost
   leaves the doubt.
   */
  lemma EventExactly<D>(s: Session<D>, e: Event<D>)
    ensures var after := Next(s, e);
            var known := after.outcome.persistence;
            match e
            case Begin =>
              && after.durable == s.durable && after.outcome == s.outcome
              && after.draft == Some(if s.draft.Some? then s.draft.value else s.durable)
            case Attempt(live) =>
              && after.durable == s.durable && after.draft == s.draft
              && after.outcome.admission == s.outcome.admission
              && known == (if live then Indeterminate else s.outcome.persistence)
            case Execute(live, written) =>
              && after.durable == s.durable && after.outcome.admission == s.outcome.admission
              && after.draft == (if live && s.draft.Some? then Some(written) else s.draft)
              && known == (if live then Indeterminate else s.outcome.persistence)
            case Commit(admitted, effect) =>
              if s.draft.None? then after == s
              else
                && after.outcome.admission == (if admitted then Admitted else Vetoed)
                && after.durable == (if admitted && (effect.Reported? || effect.Lost?) then s.draft.value
                                     else s.durable)
                && after.draft == (if admitted && effect.StillOpen? then s.draft else None)
                && known == (if !admitted || effect.CommitFailed? then RolledBack
                             else if effect.Reported? then Committed else s.outcome.persistence)
            case Rollback =>
              if s.draft.None? then after == s
              else
                && after.durable == s.durable && after.draft == None
                && after.outcome.admission == s.outcome.admission && known == RolledBack
  {
  }

  function Run<D>(s: Session<D>, events: seq<Event<D>>): Session<D>
    decreases |events|
  {
    if events == [] then s else Run(Next(s, events[0]), events[1..])
  }

  // ------------------------------------------------------------------
  // The evidence is honest
  // ------------------------------------------------------------------

  /** While a transaction is open, whatever it has written has put the evidence in doubt. */
  predicate Honest<D(==)>(s: Session<D>) {
    && (s.draft.Some? ==> s.durable == s.base)
    && (s.draft.Some? && s.draft.value != s.base ==> s.outcome.persistence == Indeterminate)
    && (s.draft.None? && s.outcome.persistence == Committed ==> s.fate == MadeDurable)
    && (s.draft.None? && s.outcome.persistence == RolledBack ==> s.durable == s.base)
    && (s.outcome.persistence == NoMutationAttempted ==> s.durable == s.start)
    && (s.outcome.persistence == NoMutationAttempted && s.draft.Some? ==> s.draft.value == s.base)
    && (s.outcome.admission == NotAttempted ==> s.durable == s.start)
  }

  lemma OpenedIsHonest<D>(durable: D)
    ensures Honest(Opened(durable))
  {
  }

  lemma NextKeepsHonest<D>(s: Session<D>, e: Event<D>)
    requires Honest(s)
    ensures Honest(Next(s, e)) && Next(s, e).start == s.start
  {
  }

  lemma {:induction false} RunKeepsHonest<D>(s: Session<D>, events: seq<Event<D>>)
    requires Honest(s)
    ensures Honest(Run(s, events)) && Run(s, events).start == s.start
    decreases |events|
  {
    if events != [] {
      NextKeepsHonest(s, events[0]);
      RunKeepsHonest(Next(s, events[0]), events[1..]);
    }
  }

  /** No content becomes durable without an admitted commit. */
  lemma {:induction false} DurableNeedsAdmission<D(!new)>(s: Session<D>, events: seq<Event<D>>)
    requires forall i :: 0 <= i < |events| && events[i].Commit? ==> !events[i].admitted
    ensures Run(s, events).durable == s.durable
    decreases |events|
  {
    if events != [] {
      DurableNeedsAdmission(Next(s, events[0]), events[1..]);
    }
  }

  function Begins<D(==)>(events: seq<Event<D>>): nat {
    if events == [] then 0 else (if events[0] == Begin then 1 else 0) + Begins(events[1..])
  }

  /** With one transaction, the content it began with is the content the scope began with. */
  lemma {:induction false} OneTransaction<D>(s: Session<D>, events: seq<Event<D>>)
    requires Begins(events) == 0 || (Begins(events) == 1 && s.durable == s.start && s.draft.None?)
    requires s.base == s.start
    ensures Run(s, events).base == s.start
    decreases |events|
  {
    if events != [] {
      OneTransaction(Next(s, events[0]), events[1..]);
    }
  }

  // ------------------------------------------------------------------
  // The end of a scope
  // ------------------------------------------------------------------

  /** `with_scope`'s last word on the evidence. */
  function Final(outcome: Outcome, late: bool): Outcome {
    var timed := outcome.(late := late);
    if outcome.admission == Admitted && outcome.persistence == NoMutationAttempted
    then timed.(persistence := Indeterminate)
    else timed
  }

  datatype Kind = KindCancelled | KindDeadlineExceeded | KindIndeterminate | KindBusy | KindCorrupt | KindOther

  /** What the provider's call came to: a store error with its kind, or an error of another sort. */
  datatype Failure = StoreFailure(kind: Kind) | OtherFailure

  /** What the caller of a scope gets; only an attached failure carries evidence. */
  datatype Answer = Succeeded | Attached(kind: Kind, outcome: Outcome) | Bare(kind: Kind) | Unattached

  function Classified(kind: Kind, outcome: Outcome): Kind {
    if outcome.persistence == Indeterminate then KindIndeterminate
    else if outcome.late && outcome.persistence == Committed then KindDeadlineExceeded
    else kind
  }

  /** A scope that was revoked while it ran fails, whatever the provider says. */
  function Answered(result: Option<Failure>, revoked: Option<Kind>, outcome: Outcome): (answer: Answer)
    ensures answer.Succeeded? <==> revoked.None? && result.None?
    ensures answer.Attached? ==>
              answer.outcome == outcome && (outcome.persistence == Indeterminate ==> answer.kind == KindIndeterminate)
    ensures answer.Attached? && outcome.late && outcome.persistence == Committed ==> answer.kind == KindDeadlineExceeded
    ensures answer.Attached? && outcome.persistence != Indeterminate
            && !(outcome.late && outcome.persistence == Committed) ==>
              revoked == Some(answer.kind) || (revoked.None? && result == Some(StoreFailure(answer.kind)))
    ensures answer.Unattached? <==> revoked.None? && result == Some(OtherFailure)
  {
    match (revoked, result)
    case (Some(kind), _) => Attached(Classified(kind, outcome), outcome)
    case (None, Some(StoreFailure(kind))) => Attached(Classified(kind, outcome), outcome)
    case (None, Some(OtherFailure)) => Unattached
    case (None, None) => Succeeded
  }

  /** A store error, with or without evidence attached. */
  predicate Failed(answer: Answer) {
    answer.Bare? || answer.Attached?
  }

  predicate InDoubt(answer: Answer) {
    Failed(answer) && answer.kind == KindIndeterminate
  }

  /** The rule of a worker on a cooperative store: only such a failure may have taken effect. */
  predicate RequiresReconciliation(cooperative: bool, answer: Answer) {
    cooperative && (InDoubt(answer) || (answer.Attached? && MayHaveCommitted(answer.outcome)))
  }

  predicate MayHaveCommitted(outcome: Outcome) {
    outcome.persistence == Committed || outcome.persistence == Indeterminate
  }

  // ------------------------------------------------------------------
  // The connection
  // ------------------------------------------------------------------

  /**
   One try for the connection: whether the context is revoked by then, whether the
   connection's holder has quarantined it by then, and whether it is free.
   */
  datatype Try = Try(revoked: Option<Kind>, spoilt: bool, free: bool)

  const BUSY := Try(None, false, false)

  /** A wait comes to its end. */
  predicate Ends(tries: seq<Try>) {
    exists k :: 0 <= k < |tries| && tries[k] != BUSY
  }

  /** What a wait whose last try this is comes to; `spoilt` and `installed` are looked up once it is free. */
  function RefusalAt(try: Try, spoilt: bool, installed: Option<Kind>): Option<Kind> {
    if try.revoked.Some? then try.revoked
    else if try.spoilt || spoilt then Some(KindIndeterminate)
    else installed
  }

  /** One scoped operation: its way to the connection, what happens there, and how it ends. */
  datatype Request<D> = Request(
    entry: Option<Kind>,
    tries: seq<Try>,
    spoilt: bool,
    installed: Option<Kind>,
    events: seq<Event<D>>,
    result: Option<Failure>,
    revoked: Option<Kind>,
    late: bool)

  /** The connection's holder quarantines it while this request waits. */
  ghost predicate Spoilt<D>(request: Request<D>) {
    request.spoilt || exists k :: 0 <= k < |request.tries| && request.tries[k].spoilt
  }

  class Connection<D(==, !new)> {
    var durable: D
    var draft: Option<D>
    var outcome: Outcome
    /** A scope is installed on this thread. */
    var scoped: bool
    var quarantined: bool
    ghost var start: D
    ghost var base: D
    ghost var fate: Fate

    ghost function Current(): Session<D>
      reads this
    {
      Session(durable, draft, outcome, start, base, fate)
    }

    /** Only a quarantined connection is left with a transaction open. */
    predicate Valid()
      reads this
    {
      draft.Some? ==> quarantined
    }

    constructor (durable: D)
      ensures this.durable == durable && draft.None? && !scoped && !quarantined
    {
      this.durable, start, base, draft := durable, durable, durable, None;
      outcome, scoped, quarantined, fate := NOTHING_ATTEMPTED, false, false, NoTransaction;
    }

    method OnCommit(admitted: bool)
      modifies `outcome
      ensures outcome == CommitHook(old(outcome), admitted)
    {
      outcome := outcome.(admission := if admitted then Admitted else Vetoed);
    }

    method OnRollback()
      modifies `outcome
      ensures outcome == RollbackHook(old(outcome))
    {
      outcome := outcome.(persistence := RolledBack);
    }

    /** `attempted`: refused once the context is revoked. */
    method NoteAttempt(live: bool) returns (ok: bool)
      modifies `outcome
      ensures ok == live && outcome == Attempted(old(outcome), live)
    {
      ok := live;
      if live {
        outcome := outcome.(persistence := Indeterminate);
      }
    }

    method NoteCommitted()
      modifies `outcome
      ensures outcome == old(outcome).(persistence := Committed)
    {
      outcome := outcome.(persistence := Committed);
    }

    method CommitOpen(admitted: bool, effect: Effect)
      requires draft.Some?
      modifies this
      ensures Current() == Committing(old(Current()), admitted, effect)
      ensures scoped == old(scoped) && quarantined == old(quarantined)
    {
      OnCommit(admitted);
      if !admitted || effect == CommitFailed {
        draft, fate := None, Undone;
        OnRollback();
      } else if effect == Reported || effect == Lost {
        durable, draft, fate := draft.value, None, MadeDurable;
        if effect == Reported {
          NoteCommitted();
        }
      }
    }

    method Step(e: Event<D>)
      modifies this
      ensures Current() == Next(old(Current()), e)
      ensures scoped == old(scoped) && quarantined == old(quarantined)
    {
      match e {
        case Begin =>
          if draft.None? {
            draft, base, fate := Some(durable), durable, InTransaction;
          }
        case Attempt(live) =>
          var _ := NoteAttempt(live);
        case Execute(live, written) =>
          var ok := NoteAttempt(live);
          if ok && draft.Some? {
            draft := Some(written);
          }
        case Commit(admitted, effect) =>
          if draft.Some? {
            CommitOpen(admitted, effect);
          }
        case Rollback =>
          if draft.Some? {
            draft, fate := None, Undone;
            OnRollback();
          }
      }
    }

    /**
     Waits for the connection. It is refused when it is quarantined by then, and when
     the context is revoked while it waits or by the time the hooks are installed.
     */
    method Lock(tries: seq<Try>, spoilt: bool, installed: Option<Kind>) returns (refusal: Option<Kind>, waited: nat)
      requires Ends(tries)
      modifies `quarantined
      ensures waited < |tries| && forall i :: 0 <= i < waited ==> tries[i] == BUSY
      ensures old(quarantined) ==> waited == 0 && refusal == Some(KindIndeterminate)
      ensures !old(quarantined) ==> tries[waited] != BUSY && refusal == RefusalAt(tries[waited], spoilt, installed)
      ensures !old(quarantined) ==>
                quarantined == (tries[waited].spoilt || (spoilt && tries[waited] == Try(None, false, true)))
      ensures old(quarantined) ==> quarantined
      ensures !old(quarantined) ==>
                && (tries[waited].revoked.Some? ==> refusal == tries[waited].revoked)
                && (tries[waited].revoked.None? && (tries[waited].spoilt || spoilt) ==>
                      refusal == Some(KindIndeterminate))
                && (tries[waited].revoked.None? && !tries[waited].spoilt && !spoilt ==> refusal == installed)
      ensures refusal.None? ==> !quarantined && tries[waited].free
    {
      waited := 0;
      if quarantined {
        return Some(KindIndeterminate), 0;
      }
      while waited < |tries|
        invariant 0 <= waited <= |tries| && !quarantined
        invariant forall i :: 0 <= i < waited ==> tries[i] == BUSY
      {
        quarantined := tries[waited].spoilt;
        if tries[waited].revoked.Some? {
          return tries[waited].revoked, waited;
        }
        if quarantined {
          return Some(KindIndeterminate), waited;
        }
        if tries[waited].free {
          quarantined := spoilt;
          refusal := if quarantined then Some(KindIndeterminate) else installed;
          return refusal, waited;
        }
        waited := waited + 1;
      }
      assert false;
    }

    /** A guard dropped with a transaction open, or with the evidence in doubt, quarantines the connection. */
    method DropGuard()
      modifies `quarantined
      ensures quarantined == (old(quarantined) || draft.Some? || outcome.persistence == Indeterminate)
    {
      if draft.Some? || outcome.persistence == Indeterminate {
        quarantined := true;
      }
    }

    /**
     One operation in a scope of its own, unless the context is revoked on entry or a
     scope is installed already: the evidence attached to its failure says
     what its last transaction came to. A cleanup scope reports it to its controller.
     */
    method WithScope(request: Request<D>, cleanup: bool, controller: Controller)
      returns (answer: Answer, ghost refusal: Option<Kind>, ghost after: Session<D>)
      requires Valid() && Ends(request.tries)
      modifies this, controller`cleanup
      ensures Valid()
      ensures scoped == old(scoped)
      ensures request.entry.Some? || old(scoped) ==>
                && after == Opened(old(durable)) && durable == old(durable) && quarantined == old(quarantined)
                && controller.View() == old(controller.View())
                && answer == (if request.entry.Some? then Bare(request.entry.value)
                              else Attached(KindOther, NOTHING_ATTEMPTED))
      ensures request.entry.None? && !old(scoped) ==>
                && Honest(after) && after.start == old(durable) && after.durable == durable
                && after == (if refusal.Some? then Opened(old(durable)) else Run(Opened(old(durable)), request.events))
                && answer == Answered(if refusal.Some? then Some(StoreFailure(refusal.value)) else request.result,
                                      request.revoked, Final(after.outcome, request.late))
                && (old(quarantined) ==> quarantined && refusal == Some(KindIndeterminate))
                && (refusal.None? ==> quarantined == (after.draft.Some? || after.outcome.persistence == Indeterminate))
                && (refusal.Some? && quarantined ==> old(quarantined) || Spoilt(request))
                && controller.View() == old(controller.View()).(cleanup :=
                     if cleanup then CleanupRecorded(old(controller.cleanup), Final(after.outcome, request.late))
                     else old(controller.cleanup))
    {
      hide Honest, Answered, Final, Run;
      OpenedIsHonest(durable);
      after, refusal := Opened(durable), request.entry;
      if request.entry.Some? {
        return Bare(request.entry.value), refusal, after;
      }
      if scoped {
        return Attached(KindOther, NOTHING_ATTEMPTED), refusal, after;
      }
      scoped, outcome := true, NOTHING_ATTEMPTED;
      start, base, fate := durable, durable, NoTransaction;
      var result := request.result;
      var refused, _ := Lock(request.tries, request.spoilt, request.installed);
      refusal := refused;
      if refused.Some? {
        result := Some(StoreFailure(refused.value));
      } else {
        RunEvents(request.events);
        after := Current();
        DropGuard();
      }
      var evidence := Final(outcome, request.late);
      if cleanup {
        controller.RecordCleanup(evidence);
      }
      answer := Answered(result, request.revoked, evidence);
      scoped := false;
    }

    /** What the provider's call does on the connection it holds. */
    method RunEvents(events: seq<Event<D>>)
      requires !quarantined && scoped && Current() == Opened(durable)
      modifies this
      ensures Current() == Run(Opened(old(durable)), events) && Honest(Current()) && Current().start == old(durable)
      ensures scoped && !quarantined
    {
      ghost var entered := Current();
      var index := 0;
      while index < |events|
        invariant 0 <= index <= |events| && scoped && !quarantined
        invariant Run(Current(), events[index..]) == Run(entered, events)
      {
        assert events[index..][1..] == events[index + 1..];
        Step(events[index]);
        index := index + 1;
      }
      RunKeepsHonest(entered, events);
    }

    /** `with_operation_context`: an answer in doubt quarantines the connection, whatever the guard saw. */
    method WithOperationContext(request: Request<D>, cleanup: bool, controller: Controller)
      returns (answer: Answer, ghost after: Session<D>)
      requires Valid() && Ends(request.tries)
      modifies this, controller`cleanup
      ensures Valid() && scoped == old(scoped)
      ensures InDoubt(answer) ==> quarantined
      ensures answer.Attached? && answer.outcome.persistence == Indeterminate ==> quarantined
      ensures quarantined ==> || old(quarantined) || InDoubt(answer) || Spoilt(request)
                              || after.draft.Some? || after.outcome.persistence == Indeterminate
      ensures old(quarantined) ==> quarantined && Failed(answer)
      ensures after.start == old(durable) && after.durable == durable && Honest(after)
      ensures old(quarantined) || request.entry.Some? || old(scoped) ==> durable == old(durable)
      ensures answer.Attached? && !old(scoped) ==> answer.outcome == Final(after.outcome, request.late)
      ensures after == Opened(old(durable)) || after == Run(Opened(old(durable)), request.events)
      ensures controller.View() == old(controller.View()).(cleanup :=
                if cleanup && request.entry.None? && !old(scoped)
                then CleanupRecorded(old(controller.cleanup), Final(after.outcome, request.late))
                else old(controller.cleanup))
    {
      ghost var refusal;
      answer, refusal, after := WithScope(request, cleanup, controller);
      if InDoubt(answer) {
        quarantined := true;
      }
    }
  }

  // ------------------------------------------------------------------
  // What the attached evidence means
  // ------------------------------------------------------------------

  /** The evidence a scope attaches, after any events: each outcome means what it says. */
  lemma AttachedEvidenceIsHonest<D>(durable: D, events: seq<Event<D>>, late: bool)
    ensures var s := Run(Opened(durable), events);
            var outcome := Final(s.outcome, late);
            && (s.draft.None? && outcome.persistence == Committed ==> s.fate == MadeDurable)
            && (s.draft.None? && outcome.persistence == RolledBack ==> s.durable == s.base)
            && (outcome.persistence == NoMutationAttempted ==> s.durable == durable)
            && !(outcome.admission == Admitted && outcome.persistence == NoMutationAttempted)
            && (outcome.admission == NotAttempted ==> s.durable == durable)
            && outcome.late == late && outcome.admission == s.outcome.admission
            && outcome.persistence ==
                 (if s.outcome.admission == Admitted && s.outcome.persistence == NoMutationAttempted then Indeterminate
                  else s.outcome.persistence)
  {
    RunKeepsHonest(Opened(durable), events);
  }

  /**
   A failure that the worker of a cooperative store does not have to reconcile left no
   trace: an operation of one transaction whose evidence is neither committed nor in
   doubt, and that left no transaction open, has changed nothing.
   */
  lemma KnownFailureLeftNoTrace<D>(durable: D, events: seq<Event<D>>, result: Option<Failure>, revoked: Option<Kind>,
                                   late: bool, cooperative: bool)
    requires Begins(events) <= 1
    ensures var s := Run(Opened(durable), events);
            var answer := Answered(result, revoked, Final(s.outcome, late));
            cooperative && s.draft.None? && answer.Attached? && !RequiresReconciliation(cooperative, answer) ==>
              s.durable == durable
    ensures var s := Run(Opened(durable), events);
            var outcome := Final(s.outcome, late);
            var answer := Answered(result, revoked, outcome);
            answer.Attached? ==>
              (RequiresReconciliation(cooperative, answer) <==>
                 cooperative && (answer.kind.KindIndeterminate? || outcome.persistence == Committed
                                 || outcome.persistence == Indeterminate))
  {
    RunKeepsHonest(Opened(durable), events);
    OneTransaction(Opened(durable), events);
  }

  /** Scope `j` failed and left the content that scope `i` had left. */
  predicate FailedSince<D(==)>(answers: seq<Answer>, contents: seq<D>, i: nat, j: nat)
    requires i < j < |answers| < |contents|
  {
    Failed(answers[j]) && contents[j + 1] == contents[i + 1]
  }

  predicate FailedFromTheStart<D(==)>(answers: seq<Answer>, contents: seq<D>, j: nat)
    requires j < |answers| < |contents|
  {
    Failed(answers[j]) && contents[j + 1] == contents[0]
  }

  /** Once an answer is in doubt every later scope fails, and the content stays what it was. */
  ghost predicate DoubtIsFinal<D>(answers: seq<Answer>, contents: seq<D>)
    requires |answers| < |contents|
  {
    forall i, j :: 0 <= i < j < |answers| && InDoubt(answers[i]) ==> FailedSince(answers, contents, i, j)
  }

  ghost predicate AllFailed<D>(answers: seq<Answer>, contents: seq<D>)
    requires |answers| < |contents|
  {
    forall j :: 0 <= j < |answers| ==> FailedFromTheStart(answers, contents, j)
  }

  /** Where an answer was in doubt the content is still what that scope left. */
  ghost predicate StillThere<D>(answers: seq<Answer>, contents: seq<D>, durable: D)
    requires |answers| < |contents|
  {
    forall i :: 0 <= i < |answers| && InDoubt(answers[i]) ==> contents[i + 1] == durable
  }

  /** One more scope. */
  lemma OneMoreScope<D>(answers: seq<Answer>, contents: seq<D>, answer: Answer, durable: D, quarantined: bool)
    requires |contents| == |answers| + 1 && DoubtIsFinal(answers, contents)
    requires StillThere(answers, contents, contents[|answers|])
    requires (exists i :: 0 <= i < |answers| && InDoubt(answers[i])) ==> quarantined
    requires quarantined ==> Failed(answer) && durable == contents[|answers|]
    ensures DoubtIsFinal(answers + [answer], contents + [durable])
    ensures StillThere(answers + [answer], contents + [durable], durable)
    ensures AllFailed(answers, contents) && quarantined && contents[|answers|] == contents[0] ==>
              AllFailed(answers + [answer], contents + [durable])
  {
    var more, longer := answers + [answer], contents + [durable];
    forall i, j | 0 <= i < j < |more| && InDoubt(more[i]) ensures FailedSince(more, longer, i, j) {
      assert more[i] == answers[i];
      if j < |answers| {
        assert FailedSince(answers, contents, i, j);
      }
    }
    if AllFailed(answers, contents) && quarantined && contents[|answers|] == contents[0] {
      forall j | 0 <= j < |more| ensures FailedFromTheStart(more, longer, j) {
        if j < |answers| {
          assert FailedFromTheStart(answers, contents, j);
        }
      }
    }
  }

  /**
   Any number of scopes, one after the other: after the first answer in doubt, and on
   a connection that is quarantined to begin with, every scope fails and nothing is
   written any more. `contents[i]` is the durable content before scope `i`.
   */
  method QuarantineIsForever<D(==, !new)>(connection: Connection<D>, requests: seq<Request<D>>,
                                          cleanup: bool, controller: Controller)
    returns (answers: seq<Answer>, ghost contents: seq<D>)
    requires connection.Valid() && !connection.scoped
    requires forall i :: 0 <= i < |requests| ==> Ends(requests[i].tries)
    modifies connection, controller`cleanup
    ensures connection.Valid() && |answers| == |requests| && |contents| == |answers| + 1
    ensures contents[0] == old(connection.durable) && contents[|answers|] == connection.durable
    ensures DoubtIsFinal(answers, contents)
    ensures (exists i :: 0 <= i < |answers| && InDoubt(answers[i])) ==> connection.quarantined
    ensures old(connection.quarantined) ==> connection.quarantined && AllFailed(answers, contents)
  {
    answers, contents := [], [connection.durable];
    for index := 0 to |requests|
      invariant connection.Valid() && !connection.scoped
      invariant |answers| == index && |contents| == index + 1
      invariant contents[0] == old(connection.durable) && contents[index] == connection.durable
      invariant DoubtIsFinal(answers, contents) && StillThere(answers, contents, connection.durable)
      invariant forall i :: 0 <= i < index && InDoubt(answers[i]) ==> connection.quarantined
      invariant old(connection.quarantined) ==> connection.quarantined && connection.durable == contents[0]
      invariant old(connection.quarantined) ==> AllFailed(answers, contents)
    {
      hide DoubtIsFinal, StillThere, AllFailed, Failed;
      ghost var quarantined := connection.quarantined;
      ghost var after;
      var answer;
      answer, after := connection.WithOperationContext(requests[index], cleanup, controller);
      OneMoreScope(answers, contents, answer, connection.durable, quarantined);
      answers, contents := answers + [answer], contents + [connection.durable];
    }
  }
}
