/**
 The world a worker runs in: the store other processes also write, the clocks,
 the operator and the jobs. Each interaction takes the next turn of a script, so
 that every script is one possible behaviour of the world.
 */
module WorkerWorld {
  import opened Options
  import opened Expr
  import opened Types
  import opened ScheduleTable
  import opened StoreHistory
  import StoreReads
  import opened WorkerState

  /** What a run task reports when it is joined. */
  datatype Report =
    | Ran(outcome: RunOutcome)
    | AskedDisable(reason: string)
    | AskedDelete(reason: string)
    | Panicked
    | Aborted

  /** How a store call comes back: answered, or failed with or without having taken effect. */
  datatype Answer = Served | Broken(applied: bool, reconcile: bool)

  datatype Event =
    | Notified
    | ShutdownMessage
    | ReloadSignalled(open: bool)
    | RunFinished(index: nat, report: Report)
    | TimerFired

  /** One interaction with the world; each interaction reads the fields it concerns. */
  datatype Turn = Turn(
    foreign: seq<Command>,
    answer: Answer,
    unreadable: set<nat>,
    wall: int,
    monotonic: int,
    stop: bool,
    admitted: bool,
    held: bool,
    late: Report,
    event: Event)

  ghost predicate ValidTurns(turns: seq<Turn>) {
    forall i :: 0 <= i < |turns| ==> ValidCommands(turns[i].foreign) && MIN_UTC <= turns[i].wall <= MAX_UTC
  }

  /** A guarded call that is not answered with a change leaves the table; one that is has met its row. */
  lemma GuardedChanges(t: Table, cap: Option<nat>, c: Command)
    requires Guarded(c)
    ensures Exec(t, cap, c).1 != Changed(true) ==> Exec(t, cap, c).0 == t
    ensures Exec(t, cap, c).1 == Changed(true) ==> c.id in t.rows
  {
  }

  /** What the world is going to do, one turn for each interaction. */
  type Script = turns: seq<Turn> | ValidTurns(turns)

  /** After the last scripted turn nothing goes wrong any more, and everyone asks the worker to stop. */
  const FINAL_TURN := Turn([], Served, {}, 0, 0, true, true, false, Aborted, ShutdownMessage)

  datatype CallResult = Replied(changed: bool) | CallFailed(reconcile: bool)

  /** A write asked of the store, how it came back, whether it took effect, and the table it met. */
  datatype Attempt = Attempt(call: Command, result: CallResult, took: bool, met: Table)

  /** The table a write left. */
  function TableOf(cap: Option<nat>, w: Attempt): Table {
    if w.took then Exec(w.met, cap, w.call).0 else w.met
  }

  /** Each write met the table the one before it left, the first met `first`, and the last left `last`. */
  ghost predicate Chained(cap: Option<nat>, first: Table, writes: seq<Attempt>, last: Table) {
    if writes == [] then last == first
    else
      && writes[0].met == first
      && (forall i :: 0 < i < |writes| ==> writes[i].met == TableOf(cap, writes[i - 1]))
      && last == TableOf(cap, writes[|writes| - 1])
  }

  lemma OneMoreWrite(cap: Option<nat>, first: Table, writes: seq<Attempt>, last: Table, w: Attempt)
    requires Chained(cap, first, writes, last) && w.met == last
    ensures Chained(cap, first, writes + [w], TableOf(cap, w))
  {
    var more := writes + [w];
    forall i | 0 < i < |more| ensures more[i].met == TableOf(cap, more[i - 1]) {
      assert i < |writes| ==> more[i] == writes[i];
    }
  }

  /** The writes fenced by id and generation. */
  predicate Guarded(c: Command) {
    c.RecordRun? || c.SetNext? || c.Stop? || c.Disable?
  }

  datatype ListResult = Rows(rows: seq<Schedule>) | ListFailed

  class World {
    const cap: Option<nat>
    /** All turns there ever were; `turns` are those still to come. */
    ghost const script: Script
    /** The table there was at first. */
    ghost const origin: Table
    var table: Table
    var turns: Script
    var launches: seq<Launch>
    var completed: set<nat>
    var cancelled: set<nat>
    /** The latest reading of the monotonic clock. */
    var monotonic: int
    /** Generations whose stored next run another process has moved back. */
    ghost var rewound: set<(nat, nat)>
    /** Generations whose ending write was answered, or is known or suspected to have reached the store. */
    ghost var settled: set<(nat, nat)>
    /** The writes workers have asked of the store, in order. */
    ghost var writes: seq<Attempt>

    constructor (cap: Option<nat>, table: Table, turns: Script)
      ensures this.cap == cap && this.table == table && this.turns == turns == this.script && Scripted()
      ensures launches == [] && completed == {} && cancelled == {}
      ensures rewound == {} && settled == {} && writes == []
    {
      this.cap, this.table, this.turns, this.script, this.origin := cap, table, turns, turns, table;
      launches, completed, cancelled, monotonic := [], {}, {}, 0;
      rewound, settled, writes := {}, {}, [];
    }

    ghost function Logged(): Log
      reads `launches, `rewound
    {
      Log(launches, rewound)
    }

    /** What is to come is the rest of the script, and the writes noted account for the table. */
    ghost predicate Scripted()
      reads `turns, `table, `writes
    {
      && |turns| <= |script| && turns == script[|script| - |turns|..]
      && Accounts(writes, table)
    }

    /** The writes came back as they should, and with nobody else writing they account for the table. */
    ghost predicate Accounts(writes: seq<Attempt>, table: Table) {
      && (forall i :: 0 <= i < |writes| ==> Honest(writes[i]))
      && (Undisturbed() ==> Chained(cap, origin, writes, table))
    }

    /** The answer says whether the write took effect on the table it met; calls fail only where the script has it. */
    ghost predicate Honest(w: Attempt) {
      && Guarded(w.call)
      && (w.took ==> Exec(w.met, cap, w.call).1 == Changed(true))
      && (match w.result
          case Replied(changed) => changed == w.took == (Exec(w.met, cap, w.call).1 == Changed(true))
          case CallFailed(_) => MayFail())
    }

    /** Nobody else calls the store. */
    ghost predicate Undisturbed() {
      forall i :: 0 <= i < |script| ==> script[i].foreign == []
    }

    /** How many turns of the script have been taken. */
    ghost function Place(): int
      reads `turns
    {
      |script| - |turns|
    }

    /** The turn taken at this place: the last one for ever, once the script is over. */
    ghost function TurnAt(place: int): Turn {
      if 0 <= place < |script| then script[place] else FINAL_TURN
    }

    /** At some turn a schedule's name is held. */
    ghost predicate MayHold() {
      exists turn :: turn in script && turn.held
    }

    /** At some turn the operation admits no launch. */
    ghost predicate MayRefuse() {
      exists turn :: turn in script && !turn.admitted
    }

    /** At some turn a store call fails. */
    ghost predicate MayFail() {
      exists turn :: turn in script && turn.answer.Broken?
    }

    /** One turn was taken between these places. */
    ghost predicate OneTaken(from: int, to: int) {
      to == if from < |script| then from + 1 else from
    }

    /** The turn of place `p` is one of those taken between these places. */
    ghost predicate Taken(p: int, from: int, to: int) {
      from <= p && (p < to || to == |script|)
    }

    /** A turn taken between these places asks the worker to stop. */
    ghost predicate StopAsked(from: int, to: int) {
      exists p :: Taken(p, from, to) && TurnAt(p).stop
    }

    lemma NextTurns(a: int, b: int, c: int)
      requires a <= |script| && OneTaken(a, b) && OneTaken(b, c)
      ensures TurnAt(b) == TurnAt(a + 1) && TurnAt(c) == TurnAt(a + 2)
    {
    }

    lemma AskedWithin(from: int, mid: int, to: int)
      requires from <= mid <= to <= |script|
      ensures StopAsked(from, mid) || StopAsked(mid, to) ==> StopAsked(from, to)
    {
      if p :| (Taken(p, from, mid) || Taken(p, mid, to)) && TurnAt(p).stop {
        assert Taken(p, from, to);
      }
    }

    /** The turn the next interaction takes. */
    ghost function Ahead(): Turn
      reads `turns
    {
      TurnAt(Place())
    }

    method Take() returns (turn: Turn)
      requires Scripted()
      modifies `turns
      ensures Scripted() && (turn in script || (turn == FINAL_TURN && turns == []))
      ensures turn == old(Ahead()) && OneTaken(old(Place()), Place())
      ensures turns == if old(turns) == [] then [] else old(turns)[1..]
      ensures ValidCommands(turn.foreign) && MIN_UTC <= turn.wall <= MAX_UTC
    {
      if turns == [] {
        return FINAL_TURN;
      }
      turn := turns[0];
      turns := turns[1..];
    }

    /** What other processes do to the store before a call of the worker's. */
    method Interfere(foreign: seq<Command>)
      requires ValidCommands(foreign)
      modifies `table, `rewound
      ensures table == ExecAll(old(table), cap, foreign) && (foreign == [] ==> table == old(table))
      ensures Logged() == Rewinding(old(Logged()), RewoundByAll(old(table), cap, foreign))
    {
      rewound := rewound + RewoundByAll(table, cap, foreign);
      table := ExecAll(table, cap, foreign);
    }

    lemma TurnsOfScript(turn: Turn)
      requires turn in script || turn == FINAL_TURN
      ensures Undisturbed() ==> turn.foreign == []
      ensures turn.answer.Broken? ==> MayFail()
    {
    }

    /** Notes a write that has left the table. */
    ghost method Note(w: Attempt)
      requires table == TableOf(cap, w) && Accounts(writes, w.met) && Honest(w)
      modifies `writes
      ensures writes == old(writes) + [w] && Accounts(writes, table)
    {
      hide Honest, Undisturbed, Chained;
      if Undisturbed() {
        OneMoreWrite(cap, origin, writes, w.met, w);
      }
      writes := writes + [w];
    }

    /** The next turn, and what other processes do to the store in it. */
    method Meet() returns (turn: Turn)
      requires Scripted()
      modifies `turns, `table, `rewound
      ensures Scripted() && ValidCommands(turn.foreign) && (Undisturbed() ==> turn.foreign == [])
      ensures turn == old(Ahead()) && OneTaken(old(Place()), Place()) && |turns| <= |old(turns)|
      ensures turn.answer.Broken? ==> MayFail()
      ensures table == ExecAll(old(table), cap, turn.foreign)
      ensures Logged() == Rewinding(old(Logged()), RewoundByAll(old(table), cap, turn.foreign))
    {
      hide ExecAll, RewoundByAll, Chained, Undisturbed, MayFail, Honest;
      turn := Take();
      TurnsOfScript(turn);
      Interfere(turn.foreign);
    }

    /** The table meets a guarded write: it takes effect unless it is refused or the call fails before it is made. */
    method Apply(c: Command, answer: Answer) returns (result: CallResult, found: Option<Schedule>)
      requires Guarded(c) && (answer.Broken? ==> MayFail())
      modifies `table
      ensures result.Replied? <==> answer.Served?
      ensures result.CallFailed? ==> result.reconcile == answer.reconcile
      ensures found.Some? <==> (answer.Served? || answer.applied) && Exec(old(table), cap, c).1 == Changed(true)
      ensures result.Replied? ==> result.changed == found.Some?
      ensures Honest(Attempt(c, result, found.Some?, old(table)))
      ensures table == TableOf(cap, Attempt(c, result, found.Some?, old(table)))
      ensures if found.Some?
              then c.id in old(table).rows && found.value == old(table).rows[c.id]
                && (table, Changed(true)) == Exec(old(table), cap, c)
              else table == old(table)
    {
      hide Exec, MayFail;
      GuardedChanges(table, cap, c);
      var (after, reply) := Exec(table, cap, c);
      var reached := answer.Served? || answer.applied;
      found := if reached && reply == Changed(true) then Some(table.rows[c.id]) else None;
      table := if reached then after else table;
      result := match answer
        case Served => Replied(reply == Changed(true))
        case Broken(_, reconcile) => CallFailed(reconcile);
    }

    /** A guarded write, with the calls of other processes before it. `met` is the table it found. */
    method Call(c: Command)
      returns (result: CallResult, found: Option<Schedule>, ghost met: Table, ghost foreign: seq<Command>)
      requires Guarded(c) && Scripted()
      modifies `turns, `table, `rewound, `writes
      ensures Scripted() && ValidCommands(foreign)
      ensures met == ExecAll(old(table), cap, foreign)
      ensures Logged() == Rewinding(old(Logged()), RewoundByAll(old(table), cap, foreign))
      ensures result.Replied? <==> old(Ahead()).answer.Served?
      ensures result.CallFailed? ==> result.reconcile == old(Ahead()).answer.reconcile && MayFail()
      ensures writes == old(writes) + [Attempt(c, result, found.Some?, met)]
      ensures |turns| <= |old(turns)|
      ensures result.Replied? ==> result.changed == found.Some? == (Exec(met, cap, c).1 == Changed(true))
      ensures if found.Some?
              then c.id in met.rows && found.value == met.rows[c.id] && (table, Changed(true)) == Exec(met, cap, c)
              else table == met
    {
      hide Exec, ExecAll, RewoundByAll, Chained, TableOf, Undisturbed, MayFail, Honest;
      var turn := Meet();
      foreign, met := turn.foreign, table;
      result, found := Apply(c, turn.answer);
      Note(Attempt(c, result, found.Some?, met));
    }

    /** `list_active`, with the calls of other processes before it. */
    method List() returns (result: ListResult, ghost foreign: seq<Command>, ghost unreadable: set<nat>)
      requires Scripted()
      modifies `turns, `table, `rewound
      ensures Scripted() && ValidCommands(foreign)
      ensures table == ExecAll(old(table), cap, foreign)
      ensures Logged() == Rewinding(old(Logged()), RewoundByAll(old(table), cap, foreign))
      ensures result.Rows? ==> result.rows == StoreReads.ListActive(table, unreadable)
      ensures |turns| <= |old(turns)| && (Undisturbed() ==> foreign == [])
      ensures unreadable == old(Ahead()).unreadable && OneTaken(old(Place()), Place())
      ensures result.Rows? <==> old(Ahead()).answer.Served?
    {
      hide ExecAll, RewoundByAll, Chained, Undisturbed, StoreReads.ListActive;
      var turn := Meet();
      foreign, unreadable := turn.foreign, turn.unreadable;
      match turn.answer {
        case Served => result := Rows(StoreReads.ListActive(table, turn.unreadable));
        case Broken(_, _) => result := ListFailed;
      }
    }
  }
}
