/**
 Schedule identity, stored state and run results (crates/sc-cron/src/types.rs),
 and the microsecond stamp that crosses the store port
 (crates/sc-cron/src/timestamp.rs).
 */
module Types {
  import opened Options
  import opened Expr

  const I64_MAX: int := 0x7FFF_FFFF_FFFF_FFFF
  const U32_MAX: int := 0xFFFF_FFFF
  const MAX_PAYLOAD_BYTES: int := 64 * 1024
  const MICROSECOND: int := 1_000
  const MILLISECOND: int := 1_000_000
  const SECOND: int := 1_000_000_000

  /** Cron occurrences fall on whole seconds, so a jittered run on a whole millisecond. */
  ghost predicate WholeSeconds(expr: CronExpr) {
    forall i, k :: 0 <= i < |expr| && 0 <= k < |expr[i]| ==> expr[i][k] % SECOND == 0
  }

  /** `Timestamp::from_datetime`: precision finer than a microsecond is dropped. */
  function Stamp(at: int): (stamp: int)
    ensures stamp <= at < stamp + 1_000 && stamp % 1_000 == 0
  {
    at - at % MICROSECOND
  }

  /** A run the search finds is stored exactly: the stamp drops nothing of it. */
  lemma RunStampsExactly(expr: CronExpr, jitter: nat, after: int)
    requires WholeSeconds(expr) && jitter % MILLISECOND == 0
    requires NextRun(expr, jitter, after).Some?
    ensures Stamp(NextRun(expr, jitter, after).value) == NextRun(expr, jitter, after).value
  {
    hide First, WholeSeconds;
    FirstIsWhole(expr, after - jitter);
    SumIsWholeMicroseconds(First(AllAfter(expr, after - jitter)).value, jitter);
  }

  lemma FirstIsWhole(expr: CronExpr, base: int)
    requires WholeSeconds(expr) && First(AllAfter(expr, base)).Some?
    ensures First(AllAfter(expr, base)).value % SECOND == 0
  {
    var first := First(AllAfter(expr, base)).value;
    AllAfterInstants(expr, base);
    assert first in Instants(expr);
    var i, k :| 0 <= i < |expr| && 0 <= k < |expr[i]| && expr[i][k] == first;
  }

  lemma SumIsWholeMicroseconds(occurrence: int, jitter: int)
    requires occurrence % SECOND == 0 && jitter % MILLISECOND == 0
    ensures (occurrence + jitter) % MICROSECOND == 0
  {
    var a, b := occurrence / SECOND, jitter / MILLISECOND;
    assert occurrence + jitter == MICROSECOND * (1_000_000 * a + 1_000 * b);
  }

  datatype Spec = Spec(name: string, expr: CronExpr, timeout: nat, payload: string, hook: string)

  /** What a caller asks the store to create; `nextRunAt` is already a stamp. */
  datatype NewSchedule = NewSchedule(spec: Spec, jitter: nat, nextRunAt: int)

  datatype Schedule = Schedule(
    id: nat,
    generation: nat,
    spec: Spec,
    jitter: nat,
    createdAt: int,
    nextRunAt: Option<int>,
    lastRunAt: Option<int>,
    lastOutcome: Option<RunOutcome>,
    endedAt: Option<int>,
    stopReason: Option<string>,
    enabled: bool)
  {
    predicate IsActive() { endedAt.None? }
  }

  /** `Generation::next`: `None` once the 32-bit range is used up. */
  function NextGeneration(generation: nat): Option<nat> {
    if generation < U32_MAX then Some(generation + 1) else None
  }

  // ------------------------------------------------------------------
  // The stored text of a run outcome
  // ------------------------------------------------------------------

  datatype RunOutcome = Done | Refused(message: string) | Failed(message: string) | TimedOut

  const REFUSED := "refused: "
  const FAILED := "failed: "

  function ToStored(outcome: RunOutcome): string {
    match outcome
    case Done => "ok"
    case Refused(message) => REFUSED + message
    case Failed(message) => FAILED + message
    case TimedOut => "timed_out"
  }

  function FromStored(text: string): Option<RunOutcome> {
    if text == "ok" then Some(Done)
    else if text == "timed_out" then Some(TimedOut)
    else if REFUSED <= text then Some(Refused(text[|REFUSED|..]))
    else if FAILED <= text then Some(Failed(text[|FAILED|..]))
    else None
  }

  /** Stored text reads back as the outcome it came from, whatever its message. */
  lemma StoredOutcomeRoundTrips(outcome: RunOutcome)
    ensures FromStored(ToStored(outcome)) == Some(outcome)
  {
    var text := ToStored(outcome);
    match outcome {
      case Done =>
      case TimedOut =>
      case Refused(message) =>
        assert text[0] == 'r' && text[|REFUSED|..] == message;
      case Failed(message) =>
        assert text[0] == 'f' && text[|FAILED|..] == message;
    }
  }

  /** Text that decodes is exactly the text of the outcome it decodes to. */
  lemma DecodedTextIsCanonical(text: string)
    requires FromStored(text).Some?
    ensures ToStored(FromStored(text).value) == text
  {
    match FromStored(text).value {
      case Done =>
      case TimedOut =>
      case Refused(message) => assert text == REFUSED + text[|REFUSED|..];
      case Failed(message) => assert text == FAILED + text[|FAILED|..];
    }
  }
}
