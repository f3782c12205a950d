/**
 Occurrences of a cron expression and the search for the next jittered run
 (crates/sc-cron/src/expr.rs).

 A `cron` schedule is taken as the strictly increasing list of its instants;
 an expression is one such list or, for a crontab line that restricts both the
 day of month and the day of week, two. Instants are nanoseconds since the
 Unix epoch.
 */
module Expr {
  import opened Options

  /** The range of a UTC date-time and of a signed time span, in nanoseconds. */
  const MIN_UTC: int := -8_334_601_228_800 * 1_000_000_000
  const MAX_UTC: int := 8_210_266_876_799 * 1_000_000_000 + 999_999_999
  const MAX_SPAN: int := 0x7FFF_FFFF_FFFF_FFFF * 1_000_000

  ghost predicate Increasing(s: seq<int>) {
    forall i, j :: 0 <= i < j < |s| ==> s[i] < s[j]
  }

  /** The instants of one `cron` schedule. */
  type Timeline = s: seq<int> | Increasing(s)

  type CronExpr = seq<Timeline>

  /** Every instant that some source still holds. */
  ghost function Instants(sources: seq<Timeline>): set<int> {
    set i, k | 0 <= i < |sources| && 0 <= k < |sources[i]| :: sources[i][k]
  }

  lemma InstantsHas(sources: seq<Timeline>, i: nat, k: nat)
    requires i < |sources| && k < |sources[i]|
    ensures sources[i][k] in Instants(sources)
  {
  }

  // ------------------------------------------------------------------
  // One step of the merge
  // ------------------------------------------------------------------

  /** A source after it has been moved past `earliest`, if it was due then. */
  function Advanced(source: Timeline, earliest: int): (rest: Timeline)
  {
    if source != [] && source[0] == earliest then source[1..] else source
  }

  function Size(sources: seq<Timeline>): nat {
    if sources == [] then 0 else |sources[0]| + Size(sources[1..])
  }

  lemma {:induction false} SizeUpdate(sources: seq<Timeline>, i: nat, t: Timeline)
    requires i < |sources|
    ensures Size(sources[i := t]) == Size(sources) - |sources[i]| + |t|
  {
    if i == 0 {
      assert sources[0 := t][1..] == sources[1..];
    } else {
      SizeUpdate(sources[1..], i - 1, t);
      assert sources[i := t][1..] == sources[1..][i - 1 := t];
    }
  }

  ghost predicate IsLeast(x: int, s: set<int>) {
    x in s && forall y :: y in s ==> x <= y
  }

  /** Dropping a least instant from the front of every source that holds it. */
  lemma DropLeast(before: seq<Timeline>, after: seq<Timeline>, x: int)
    requires IsLeast(x, Instants(before))
    requires |after| == |before|
    requires forall i :: 0 <= i < |before| ==> after[i] == Advanced(before[i], x)
    ensures Instants(after) == Instants(before) - {x}
  {
    forall y | y in Instants(after) ensures y in Instants(before) && y != x {
      var i, k :| 0 <= i < |after| && 0 <= k < |after[i]| && after[i][k] == y;
      if after[i] == before[i] {
        InstantsHas(before, i, k);
        InstantsHas(before, i, 0);
      } else {
        assert y == before[i][k + 1];
        InstantsHas(before, i, k + 1);
      }
    }
    forall y | y in Instants(before) && y != x ensures y in Instants(after) {
      var i, k :| 0 <= i < |before| && 0 <= k < |before[i]| && before[i][k] == y;
      if after[i] == before[i] {
        InstantsHas(after, i, k);
      } else {
        assert y == after[i][k - 1];
        InstantsHas(after, i, k - 1);
      }
    }
  }

  // ------------------------------------------------------------------
  // A set of instants in time order
  // ------------------------------------------------------------------

  ghost function Least(s: set<int>): (x: int)
    requires s != {}
    ensures IsLeast(x, s)
  {
    LeastExists(s);
    var x :| IsLeast(x, s); x
  }

  lemma {:induction false} LeastExists(s: set<int>)
    requires s != {}
    ensures exists x :: IsLeast(x, s)
    decreases |s|
  {
    assert (forall y :: y !in s) ==> s == {};
    var y :| y in s;
    var rest := s - {y};
    if rest == {} {
      assert s == {y};
      assert IsLeast(y, s);
    } else {
      LeastExists(rest);
      var x :| IsLeast(x, rest);
      assert forall z :: z in s ==> z == y || z in rest;
      assert IsLeast(if y < x then y else x, s);
    }
  }

  /** The elements of `s`, each once, in time order. */
  ghost function Sorted(s: set<int>): (r: seq<int>)
    ensures Increasing(r)
    ensures forall x :: x in r <==> x in s
    decreases |s|
  {
    if s == {} then []
    else
      var x := Least(s);
      var rest := Sorted(s - {x});
      assert forall k :: 0 <= k < |rest| ==> rest[k] in rest;
      [x] + rest
  }

  /** An increasing list is determined by its elements. */
  lemma {:induction false} SortedUnique(a: seq<int>, b: seq<int>)
    requires Increasing(a) && Increasing(b)
    requires forall x :: x in a <==> x in b
    ensures a == b
  {
    if a == [] {
      assert forall k :: 0 <= k < |b| ==> b[k] in b;
    } else {
      assert a[0] in a;
      assert b != [] by { assert a[0] in b; }
      assert b[0] in b;
      assert a[0] == b[0];
      forall x ensures x in a[1..] <==> x in b[1..] {
        if x in a[1..] { assert x in a && x != a[0]; assert x in b; }
        if x in b[1..] { assert x in b && x != b[0]; assert x in a; }
      }
      SortedUnique(a[1..], b[1..]);
    }
  }

  // ------------------------------------------------------------------
  // The iterator
  // ------------------------------------------------------------------

  /** The merged iterator: one peekable source per `cron` schedule. */
  class Occurrences {
    var sources: seq<Timeline>

    constructor (sources: seq<Timeline>)
      ensures this.sources == sources
    {
      this.sources := sources;
    }

    /** Yields the least instant of all sources and removes it from each of them. */
    method Next() returns (earliest: Option<int>)
      modifies this
      ensures earliest.None? <==> old(Instants(sources)) == {}
      ensures earliest.None? ==> sources == old(sources)
      ensures earliest.Some? ==> IsLeast(earliest.value, old(Instants(sources)))
      ensures earliest.Some? ==> Instants(sources) == old(Instants(sources)) - {earliest.value}
      ensures earliest.Some? ==> Size(sources) < old(Size(sources))
    {
      hide Instants, Size, IsLeast;
      earliest := Peek();
      if earliest.None? {
        return;
      }
      ghost var before := sources;
      var i := 0;
      while i < |sources|
        invariant 0 <= i <= |sources| == |before|
        invariant forall k :: 0 <= k < i ==> sources[k] == Advanced(before[k], earliest.value)
        invariant forall k :: i <= k < |sources| ==> sources[k] == before[k]
        invariant Size(sources) <= Size(before)
        invariant (exists k :: 0 <= k < i && before[k] != [] && before[k][0] == earliest.value)
                  ==> Size(sources) < Size(before)
      {
        if sources[i] != [] && sources[i][0] == earliest.value {
          SizeUpdate(sources, i, sources[i][1..]);
          sources := sources[i := sources[i][1..]];
        }
        i := i + 1;
      }
      DropLeast(before, sources, earliest.value);
      FrontHolds(before, earliest.value);
    }

    /** The least of the instants at the front of the sources. */
    method Peek() returns (earliest: Option<int>)
      ensures earliest.None? <==> Instants(sources) == {}
      ensures earliest.Some? ==> IsLeast(earliest.value, Instants(sources))
    {
      earliest := None;
      var i := 0;
      while i < |sources|
        invariant 0 <= i <= |sources|
        invariant earliest.None? ==> forall k :: 0 <= k < i ==> sources[k] == []
        invariant earliest.Some? ==> exists k :: 0 <= k < i && sources[k] != [] && sources[k][0] == earliest.value
        invariant earliest.Some? ==> forall k :: 0 <= k < i && sources[k] != [] ==> earliest.value <= sources[k][0]
      {
        if sources[i] != [] && (earliest.None? || sources[i][0] < earliest.value) {
          earliest := Some(sources[i][0]);
        }
        i := i + 1;
      }
      if earliest.Some? {
        var k :| 0 <= k < |sources| && sources[k] != [] && sources[k][0] == earliest.value;
        InstantsHas(sources, k, 0);
      }
    }
  }

  /** The least instant stands at the front of some source. */
  lemma FrontHolds(sources: seq<Timeline>, x: int)
    requires IsLeast(x, Instants(sources))
    ensures exists k :: 0 <= k < |sources| && sources[k] != [] && sources[k][0] == x
  {
    var i, k :| 0 <= i < |sources| && 0 <= k < |sources[i]| && sources[i][k] == x;
    InstantsHas(sources, i, 0);
  }

  /** Draining the iterator gives the union of the sources, strictly increasing, each instant once. */
  method Drain(sources: seq<Timeline>) returns (all: seq<int>)
    ensures Increasing(all)
    ensures forall x :: x in all <==> x in Instants(sources)
  {
    hide Instants, Size;
    var occurrences := new Occurrences(sources);
    all := [];
    var next := occurrences.Next();
    while next.Some?
      invariant Increasing(all)
      invariant next.None? ==> Instants(occurrences.sources) == {}
      invariant next.Some? ==> IsLeast(next.value, Instants(occurrences.sources) + {next.value})
      invariant next.Some? ==> next.value !in Instants(occurrences.sources)
      invariant forall x :: x in Instants(sources) <==>
                  x in all || x in Instants(occurrences.sources) || next == Some(x)
      invariant next.Some? ==> forall i :: 0 <= i < |all| ==> all[i] < next.value
      decreases next.Some?, Size(occurrences.sources)
    {
      all := all + [next.value];
      next := occurrences.Next();
    }
  }

  // ------------------------------------------------------------------
  // The next jittered run
  // ------------------------------------------------------------------

  /** The part of a schedule strictly after `after`. */
  function After(source: Timeline, after: int): (rest: Timeline)
    ensures forall x :: x in rest <==> x in source && x > after
    decreases |source|
  {
    if source == [] then []
    else if source[0] > after then
      assert forall x :: x in source ==> x > after;
      source
    else
      After(source[1..], after)
  }

  function AllAfter(expr: CronExpr, after: int): (sources: seq<Timeline>)
    ensures |sources| == |expr|
    ensures forall i :: 0 <= i < |expr| ==> sources[i] == After(expr[i], after)
  {
    seq(|expr|, i requires 0 <= i < |expr| => After(expr[i], after))
  }

  lemma AllAfterInstants(expr: CronExpr, after: int)
    ensures Instants(AllAfter(expr, after)) == set x | x in Instants(expr) && x > after
  {
    var sources := AllAfter(expr, after);
    forall x | x in Instants(sources) ensures x in Instants(expr) && x > after {
      var i, k :| 0 <= i < |sources| && 0 <= k < |sources[i]| && sources[i][k] == x;
      assert x in sources[i];
      assert x in expr[i];
      var m :| 0 <= m < |expr[i]| && expr[i][m] == x;
      InstantsHas(expr, i, m);
    }
    forall x | x in Instants(expr) && x > after ensures x in Instants(sources) {
      var i, k :| 0 <= i < |expr| && 0 <= k < |expr[i]| && expr[i][k] == x;
      assert x in sources[i];
      var m :| 0 <= m < |sources[i]| && sources[i][m] == x;
      InstantsHas(sources, i, m);
    }
  }

  /** Every run the expression has under `jitter`: each occurrence moved by the jitter. */
  ghost function Jittered(expr: CronExpr, jitter: nat): set<int> {
    set o | o in Instants(expr) :: o + jitter
  }

  lemma JitteredHas(expr: CronExpr, jitter: nat, x: int)
    ensures x in Jittered(expr, jitter) <==> x - jitter in Instants(expr)
  {
    if x - jitter in Instants(expr) {
      assert (x - jitter) + jitter in Jittered(expr, jitter);
    }
  }

  /** The runs strictly after `after` that a date-time can hold. */
  ghost function RunsAfter(expr: CronExpr, jitter: nat, after: int): set<int> {
    set x | x in Jittered(expr, jitter) && after < x <= MAX_UTC
  }

  /** The least instant among the sources. */
  function First(sources: seq<Timeline>): (earliest: Option<int>)
    ensures earliest.None? <==> Instants(sources) == {}
    ensures earliest.Some? ==> IsLeast(earliest.value, Instants(sources))
    decreases |sources|
  {
    if sources == [] then None
    else
      assert Instants(sources) == Instants(sources[1..]) + (set x | x in sources[0]) by { InstantsSplit(sources); }
      var rest := First(sources[1..]);
      if sources[0] == [] then rest
      else
        assert sources[0][0] in sources[0] && sources[0][0] in Instants(sources);
        Earliest(Some(sources[0][0]), rest)
  }

  lemma InstantsSplit(sources: seq<Timeline>)
    requires sources != []
    ensures Instants(sources) == Instants(sources[1..]) + (set x | x in sources[0])
  {
    var rest := sources[1..];
    forall x | x in Instants(sources) ensures x in Instants(rest) || x in sources[0] {
      var i, k :| 0 <= i < |sources| && 0 <= k < |sources[i]| && sources[i][k] == x;
      if i > 0 { assert rest[i - 1][k] == x; InstantsHas(rest, i - 1, k); }
    }
    forall x | x in Instants(rest) ensures x in Instants(sources) {
      var i, k :| 0 <= i < |rest| && 0 <= k < |rest[i]| && rest[i][k] == x;
      InstantsHas(sources, i + 1, k);
    }
    forall x | x in sources[0] ensures x in Instants(sources) {
      var k :| 0 <= k < |sources[0]| && sources[0][k] == x;
      InstantsHas(sources, 0, k);
    }
  }

  /** The first jittered run strictly after `after`, with every range check of the source. */
  function NextRun(expr: CronExpr, jitter: nat, after: int): Option<int> {
    if jitter > MAX_SPAN || after - jitter < MIN_UTC then None
    else
      match First(AllAfter(expr, after - jitter))
      case None => None
      case Some(occurrence) =>
        if occurrence + jitter > MAX_UTC then None else Some(occurrence + jitter)
  }

  /** The search as the source runs it, on a fresh iterator. */
  method FindNextRun(expr: CronExpr, jitter: nat, after: int) returns (next: Option<int>)
    ensures next == NextRun(expr, jitter, after)
  {
    if jitter > MAX_SPAN {
      return None;
    }
    var base := after - jitter;
    if base < MIN_UTC {
      return None;
    }
    var occurrences := new Occurrences(AllAfter(expr, base));
    var occurrence := occurrences.Next();
    if occurrence.None? || occurrence.value + jitter > MAX_UTC {
      return None;
    }
    return Some(occurrence.value + jitter);
  }

  /** The search can look back by the jitter: a date-time holds `after - jitter`. */
  predicate Searchable(jitter: nat, after: int) {
    jitter <= MAX_SPAN && MIN_UTC <= after - jitter
  }

  lemma RunsAfterShifted(expr: CronExpr, jitter: nat, after: int)
    ensures forall x :: x in RunsAfter(expr, jitter, after) <==>
                        x - jitter in Instants(AllAfter(expr, after - jitter)) && x <= MAX_UTC
  {
    AllAfterInstants(expr, after - jitter);
    forall x ensures x in RunsAfter(expr, jitter, after) <==>
                     x - jitter in Instants(AllAfter(expr, after - jitter)) && x <= MAX_UTC
    {
      JitteredHas(expr, jitter, x);
    }
  }

  /** The search gives exactly the least run strictly after `after`, or nothing when there is none. */
  lemma NextRunIsLeast(expr: CronExpr, jitter: nat, after: int)
    requires Searchable(jitter, after)
    ensures NextRun(expr, jitter, after).None? <==> RunsAfter(expr, jitter, after) == {}
    ensures NextRun(expr, jitter, after).Some? ==>
              IsLeast(NextRun(expr, jitter, after).value, RunsAfter(expr, jitter, after))
  {
    var base := after - jitter;
    var left := Instants(AllAfter(expr, base));
    var first := First(AllAfter(expr, base));
    RunsAfterShifted(expr, jitter, after);
    if first.Some? && first.value + jitter <= MAX_UTC {
      assert first.value + jitter in RunsAfter(expr, jitter, after);
    } else {
      assert forall x :: x in RunsAfter(expr, jitter, after) ==> x - jitter in left;
    }
  }

  /**
   The documented meaning of the search, "the first jittered run strictly after
   `after`", holds exactly when it can look back by the jitter or nothing lies ahead.
   */
  lemma NextRunExact(expr: CronExpr, jitter: nat, after: int)
    ensures (NextRun(expr, jitter, after).Some? <==> RunsAfter(expr, jitter, after) != {})
            <==> Searchable(jitter, after) || RunsAfter(expr, jitter, after) == {}
  {
    if Searchable(jitter, after) {
      NextRunIsLeast(expr, jitter, after);
    }
  }

  /** Below the range the search finds nothing although a run lies ahead. */
  lemma NextRunMissesAtTheEdge()
    ensures NextRun([[0]], 1, MIN_UTC) == None
    ensures 1 in RunsAfter([[0]], 1, MIN_UTC)
  {
    var expr: CronExpr := [[0]];
    InstantsHas(expr, 0, 0);
    JitteredHas(expr, 1, 1);
  }

  lemma NextRunAdvances(expr: CronExpr, jitter: nat, after: int)
    ensures NextRun(expr, jitter, after).Some? ==> after < NextRun(expr, jitter, after).value <= MAX_UTC
  {
    if Searchable(jitter, after) {
      NextRunIsLeast(expr, jitter, after);
    }
  }

  /** Repeating the search from each run it finds. */
  ghost function Iterated(expr: CronExpr, jitter: nat, after: int): seq<int>
    requires Searchable(jitter, after)
    decreases |RunsAfter(expr, jitter, after)|
  {
    NextRunIsLeast(expr, jitter, after);
    match NextRun(expr, jitter, after)
    case None => []
    case Some(run) =>
      assert RunsAfter(expr, jitter, run) < RunsAfter(expr, jitter, after) by {
        assert run in RunsAfter(expr, jitter, after) && run !in RunsAfter(expr, jitter, run);
      }
      SubsetSmaller(RunsAfter(expr, jitter, run), RunsAfter(expr, jitter, after));
      [run] + Iterated(expr, jitter, run)
  }

  lemma {:induction false} SubsetSmaller<T>(a: set<T>, b: set<T>)
    requires a < b
    ensures |a| < |b|
  {
    assert b == a + (b - a);
    assert a !! (b - a);
    assert b - a != {};
  }

  /** The runs after the first run are the others. */
  lemma RunsAfterFirst(expr: CronExpr, jitter: nat, after: int, run: int)
    requires IsLeast(run, RunsAfter(expr, jitter, after))
    ensures RunsAfter(expr, jitter, run) == RunsAfter(expr, jitter, after) - {run}
  {
  }

  /** Iterating the search enumerates every run after `after`, in order, none skipped or repeated. */
  lemma {:induction false} IterationEnumeratesRuns(expr: CronExpr, jitter: nat, after: int)
    requires Searchable(jitter, after)
    ensures Iterated(expr, jitter, after) == Sorted(RunsAfter(expr, jitter, after))
    decreases |RunsAfter(expr, jitter, after)|
  {
    hide NextRun, RunsAfter;
    NextRunIsLeast(expr, jitter, after);
    var all := RunsAfter(expr, jitter, after);
    match NextRun(expr, jitter, after) {
      case None =>
      case Some(run) =>
        var later := RunsAfter(expr, jitter, run);
        RunsAfterFirst(expr, jitter, after, run);
        NextRunAdvances(expr, jitter, after);
        SubsetSmaller(later, all);
        IterationEnumeratesRuns(expr, jitter, run);
        SortedUnique([run] + Sorted(later), Sorted(all));
    }
  }
}
