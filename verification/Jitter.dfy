/**
 The random offset drawn for a schedule (crates/sc-cron/src/jitter.rs):
 rejection sampling over 64-bit values, the bound on the offset, and when a
 jittered run stays clear of the following occurrence.
 */
module Jitter {
  import opened Options
  import opened Expr

  const TWO_64: int := 0x1_0000_0000_0000_0000

  // ------------------------------------------------------------------
  // Rejection sampling
  // ------------------------------------------------------------------

  /** `upper.wrapping_neg() % upper`: the number of low values dropped. */
  function Threshold(upper: nat): (t: nat)
    requires 0 < upper < TWO_64
    ensures t == TWO_64 % upper
  {
    NegationModulo(upper);
    ((TWO_64 - upper) % TWO_64) % upper
  }

  lemma NegationModulo(upper: nat)
    requires 0 < upper < TWO_64
    ensures (TWO_64 - upper) % TWO_64 == TWO_64 - upper
    ensures (TWO_64 - upper) % upper == TWO_64 % upper
  {
    var q, r := TWO_64 / upper, TWO_64 % upper;
    assert TWO_64 == q * upper + r;
    ModuloOf(TWO_64 - upper, upper, q - 1, r);
  }

  lemma ModuloOf(x: int, m: nat, q: int, r: int)
    requires m > 0 && 0 <= r < m
    requires x == q * m + r
    ensures x % m == r && x / m == q
  {
    assert x == (x / m) * m + x % m;
    SmallMultiple(x / m - q, m);
  }

  /** The only multiple of `m` that is smaller than `m` in size is zero. */
  lemma SmallMultiple(d: int, m: int)
    requires m > 0
    requires -m < d * m < m
    ensures d == 0
  {
    assert d >= 1 ==> d * m >= m;
    assert d <= -1 ==> d * m <= -m;
  }

  /** One answer of the operating system's generator. */
  datatype Draw = Value(value: nat) | Unavailable

  /** The generator: the answers it is going to give, in order. */
  class Entropy {
    var draws: seq<Draw>

    constructor (draws: seq<Draw>)
      ensures this.draws == draws
    {
      this.draws := draws;
    }

    method Take() returns (draw: Draw)
      requires draws != []
      modifies this
      ensures [draw] + draws == old(draws)
    {
      draw := draws[0];
      draws := draws[1..];
    }
  }

  /** A draw that ends the sampling loop. */
  predicate Decides(draw: Draw, upper: nat)
    requires 0 < upper < TWO_64
  {
    draw.Unavailable? || draw.value >= Threshold(upper)
  }

  ghost predicate NoneDecides(draws: seq<Draw>, upper: nat)
    requires 0 < upper < TWO_64
  {
    forall draw :: draw in draws ==> !Decides(draw, upper)
  }

  /** The offset of the deciding draw; without randomness it is zero. */
  function Offset(draw: Draw, upper: nat): nat
    requires 0 < upper
  {
    match draw
    case Unavailable => 0
    case Value(v) => v % upper
  }

  /**
   `SystemJitter::sample` in milliseconds. `None` while no answer the generator
   has given so far ends the loop.
   */
  method Sample(maxMillis: nat, random: Entropy) returns (offset: Option<nat>)
    modifies random
    ensures maxMillis == 0 ==> offset == Some(0) && random.draws == old(random.draws)
    ensures maxMillis > 0 ==>
      var upper := if maxMillis < TWO_64 then maxMillis else TWO_64 - 1;
      var used := |old(random.draws)| - |random.draws|;
      && 0 <= used && random.draws == old(random.draws)[used..]
      && (offset.None? ==> random.draws == [] && NoneDecides(old(random.draws)[..used], upper))
      && (offset.Some? ==> (&& used > 0
                            && NoneDecides(old(random.draws)[..used - 1], upper)
                            && Decides(old(random.draws)[used - 1], upper)
                            && offset.value == Offset(old(random.draws)[used - 1], upper)
                            && offset.value < upper))
  {
    var upper := if maxMillis < TWO_64 then maxMillis else TWO_64 - 1;
    if upper == 0 {
      return Some(0);
    }
    var threshold := Threshold(upper);
    ghost var given := random.draws;
    while random.draws != []
      invariant |random.draws| <= |given|
      invariant random.draws == given[|given| - |random.draws|..]
      invariant NoneDecides(given[..|given| - |random.draws|], upper)
      decreases |random.draws|
    {
      var draw := random.Take();
      ghost var used := |given| - |random.draws|;
      assert given[..used] == given[..used - 1] + [draw];
      match draw {
        case Value(value) =>
          if value >= threshold {
            return Some(value % upper);
          }
        case Unavailable =>
          return Some(0);
      }
    }
    return None;
  }

  /** The 64-bit values the sampler turns into `residue`. */
  ghost function Accepted(upper: nat, residue: nat): set<nat>
    requires 0 < upper < TWO_64
  {
    set v: nat | 0 <= v < TWO_64 && Decides(Value(v), upper) && Offset(Value(v), upper) == residue
  }

  /** The values of `windows` runs of `upper` values from `from` that leave `residue`. */
  ghost function InWindows(from: int, upper: nat, windows: nat, residue: nat): set<int>
    requires upper > 0
  {
    set v: int | from <= v < from + windows * upper && v % upper == residue
  }

  /** The one value of the run of `upper` values from `from` that leaves `residue`. */
  ghost function Representative(from: int, upper: nat, residue: nat): int
    requires upper > 0
  {
    from + (residue - from) % upper
  }

  lemma RepresentativeIsUnique(from: int, upper: nat, residue: nat, v: int)
    requires residue < upper && from <= v < from + upper
    ensures v % upper == residue <==> v == Representative(from, upper, residue)
  {
    var q, rest := (residue - from) / upper, (residue - from) % upper;
    assert residue - from == q * upper + rest;
    var w := from + rest;
    ModuloOf(w, upper, -q, residue);
    if v % upper == residue {
      assert v == (v / upper) * upper + residue;
      assert v - w == (v / upper + q) * upper;
      SmallMultiple(v / upper + q, upper);
    }
  }

  lemma {:induction false} OnePerWindow(from: int, upper: nat, windows: nat, residue: nat)
    requires residue < upper
    ensures |InWindows(from, upper, windows, residue)| == windows
  {
    if windows == 0 {
      assert InWindows(from, upper, 0, residue) == {};
    } else {
      var last := from + (windows - 1) * upper;
      assert last + upper == from + windows * upper;
      var fewer := InWindows(from, upper, windows - 1, residue);
      var w := Representative(last, upper, residue);
      OnePerWindow(from, upper, windows - 1, residue);
      assert (windows - 1) * upper >= 0;
      forall v: int ensures v in InWindows(from, upper, windows, residue) <==> v in fewer || v == w {
        if last <= v < last + upper {
          RepresentativeIsUnique(last, upper, residue, v);
        }
      }
      RepresentativeIsUnique(last, upper, residue, w);
      assert InWindows(from, upper, windows, residue) == fewer + {w};
    }
  }

  /** Every residue has the same number of accepted values: sampling is exactly uniform. */
  lemma SamplingIsUniform(upper: nat, residue: nat)
    requires 0 < upper < TWO_64
    requires residue < upper
    ensures |Accepted(upper, residue)| == TWO_64 / upper
  {
    var t, q := Threshold(upper), TWO_64 / upper;
    assert TWO_64 == t + q * upper;
    OnePerWindow(t, upper, q, residue);
    assert Accepted(upper, residue) == InWindows(t, upper, q, residue);
  }

  /** The rejected values are those below the threshold, and they are fewer than half of all values. */
  lemma FewerThanHalfRejected(upper: nat)
    requires 0 < upper < TWO_64
    ensures Threshold(upper) < upper
    ensures 2 * Threshold(upper) < TWO_64
  {
    if 2 * upper > TWO_64 {
      ModuloOf(TWO_64, upper, 1, TWO_64 - upper);
    } else if 2 * upper == TWO_64 {
      ModuloOf(TWO_64, upper, 2, 0);
    }
  }

  // ------------------------------------------------------------------
  // The bound and the stored offset
  // ------------------------------------------------------------------

  const MILLISECOND: int := 1_000_000
  const MAX_JITTER: int := 30 * 60 * 1_000_000_000

  function Min(a: int, b: int): int { if a <= b then a else b }

  /** Half the gap between the first two of `runs`, capped; zero with fewer than two. */
  function BoundOf(runs: Timeline): (bound: nat)
    ensures bound <= MAX_JITTER
    ensures |runs| >= 2 ==>
              2 * bound <= runs[1] - runs[0] && (bound == MAX_JITTER || runs[1] - runs[0] <= 2 * bound + 1)
    ensures |runs| < 2 ==> bound == 0
  {
    if |runs| < 2 then 0 else Min((runs[1] - runs[0]) / 2, MAX_JITTER)
  }

  /** `bound`: the two occurrences come from the merged iterator. */
  method Bound(expr: CronExpr, now: int) returns (bound: nat)
    ensures bound == BoundOf(Sorted(Instants(AllAfter(expr, now))))
  {
    var occurrences := new Occurrences(AllAfter(expr, now));
    ghost var all := Instants(occurrences.sources);
    var first := occurrences.Next();
    if first.None? {
      assert Sorted(all) == [];
      return 0;
    }
    ghost var rest := Instants(occurrences.sources);
    var second := occurrences.Next();
    FrontOfSorted(all, first.value);
    if second.None? {
      assert Sorted(rest) == [];
      return 0;
    }
    FrontOfSorted(rest, second.value);
    return Min((second.value - first.value) / 2, MAX_JITTER);
  }

  lemma FrontOfSorted(s: set<int>, x: int)
    requires IsLeast(x, s)
    ensures Sorted(s) == [x] + Sorted(s - {x})
  {
    SortedUnique(Sorted(s), [x] + Sorted(s - {x}));
  }

  /** `draw`: the source's answer clamped to the bound and cut to whole milliseconds. */
  function Drawn(bound: nat, answer: nat): (jitter: nat)
    ensures jitter <= bound && jitter <= answer
    ensures jitter % MILLISECOND == 0
    ensures answer < jitter + MILLISECOND || bound < jitter + MILLISECOND
  {
    var j := Min(answer, bound);
    ModuloOf(j - j % MILLISECOND, MILLISECOND, j / MILLISECOND, 0);
    j - j % MILLISECOND
  }

  /** Each jittered run comes before the next occurrence itself. */
  ghost predicate StaysClear(runs: Timeline, jitter: nat) {
    forall k :: 0 <= k < |runs| - 1 ==> runs[k] + jitter < runs[k + 1]
  }

  /** The first run always stays clear of the second occurrence, whatever was drawn. */
  lemma FirstRunStaysClear(runs: Timeline, answer: nat)
    requires |runs| >= 2
    ensures runs[0] + Drawn(BoundOf(runs), answer) < runs[1]
  {
    assert runs[1] - runs[0] > 0;
  }

  /** Over all answers up to some largest one, no run drifts exactly when each gap is longer than the largest draw. */
  lemma NeverDriftsUpTo(runs: Timeline, most: nat)
    ensures (forall answer: nat :: answer <= most ==> StaysClear(runs, Drawn(BoundOf(runs), answer)))
            <==> forall k :: 0 <= k < |runs| - 1 ==> runs[k + 1] - runs[k] > Drawn(BoundOf(runs), most)
  {
    var bound := BoundOf(runs);
    forall answer: nat | answer <= most ensures Drawn(bound, answer) <= Drawn(bound, most) {
      MillisMonotone(Min(answer, bound), Min(most, bound));
    }
    if forall answer: nat :: answer <= most ==> StaysClear(runs, Drawn(bound, answer)) {
      assert StaysClear(runs, Drawn(bound, most));
    }
  }

  /** An answer a source may give by its documentation: below the bound, or zero when that is zero. */
  predicate InRange(answer: nat, bound: nat) {
    answer < bound || answer == 0
  }

  /** The largest draw from such an answer. */
  function LargestInRange(bound: nat): nat {
    if bound == 0 then 0 else Drawn(bound, bound - 1)
  }

  /**
   The documented promise, that a jittered run never drifts into the following
   occurrence, holds for every answer a source may give exactly when each gap of the
   expression is longer than the largest draw below the first gap's bound.
   */
  lemma NeverDriftsInRange(runs: Timeline)
    ensures (forall answer: nat :: InRange(answer, BoundOf(runs)) ==> StaysClear(runs, Drawn(BoundOf(runs), answer)))
            <==> forall k :: 0 <= k < |runs| - 1 ==> runs[k + 1] - runs[k] > LargestInRange(BoundOf(runs))
  {
    var bound := BoundOf(runs);
    NeverDriftsUpTo(runs, if bound == 0 then 0 else bound - 1);
  }

  /** For answers out of that range too, which are clamped: each gap is longer than the bound in whole milliseconds. */
  lemma NeverDriftsExactly(runs: Timeline)
    ensures (forall answer: nat :: StaysClear(runs, Drawn(BoundOf(runs), answer)))
            <==> forall k :: 0 <= k < |runs| - 1 ==>
                   runs[k + 1] - runs[k] > BoundOf(runs) - BoundOf(runs) % MILLISECOND
  {
    var bound := BoundOf(runs);
    NeverDriftsUpTo(runs, bound);
    forall answer: nat ensures exists a: nat :: a <= bound && Drawn(bound, a) == Drawn(bound, answer) {
      assert Drawn(bound, Min(answer, bound)) == Drawn(bound, answer);
    }
  }

  lemma MillisMonotone(a: nat, b: nat)
    requires a <= b
    ensures a - a % MILLISECOND <= b - b % MILLISECOND
  {
    assert a / MILLISECOND <= b / MILLISECOND;
  }

  /** A long gap followed by a short one: the run of the second occurrence passes the third. */
  lemma IrregularExpressionDrifts()
    ensures var minute := 60 * 1_000_000_000;
            var runs := [5 * minute, 60 * minute, 65 * minute];
            && Increasing(runs) && InRange(10 * minute, BoundOf(runs))
            && !StaysClear(runs, Drawn(BoundOf(runs), 10 * minute))
  {
    var minute := 60 * 1_000_000_000;
    var runs: Timeline := [5 * minute, 60 * minute, 65 * minute];
    assert BoundOf(runs) == 55 * minute / 2;
    assert Drawn(BoundOf(runs), 10 * minute) == 10 * minute;
    assert runs[1] + Drawn(BoundOf(runs), 10 * minute) >= runs[1 + 1];
  }
}
