/**
 Five-field crontab expressions (crates/sc-cron/src/expr.rs): which days of the week
 a day-of-week field covers, and the union of the two day fields.

 A field is taken after its parts have been split; a value or step that is no
 number of the right kind is `None`.
 */
module Crontab {
  import opened Options
  import opened Expr

  /** A day of the week as written: 0 to 7, where both ends are Sunday. */
  datatype Range = Star | Day(day: Option<nat>) | Span(from: Option<nat>, until: Option<nat>)

  datatype Part = Part(range: Range, step: Option<Option<nat>>)

  datatype WeekdayError = BadStep | BadValue | StepNeedsRange | Backwards

  datatype Bounds = Bounds(from: nat, until: nat, step: nat) | Wrong(error: WeekdayError)

  predicate IsDay(day: Option<nat>) {
    day.Some? && day.value <= 7
  }

  /** The days a part runs over, or why it is refused. */
  function BoundsOf(part: Part): (bounds: Bounds)
    ensures bounds.Bounds? ==> bounds.from <= bounds.until <= 7 && bounds.step > 0
  {
    if part.step.Some? && (part.step.value.None? || part.step.value.value == 0) then Wrong(BadStep)
    else
      var step := if part.step.Some? then part.step.value.value else 1;
      match part.range
      case Star => Bounds(0, 6, step)
      case Day(day) =>
        if step > 1 then Wrong(StepNeedsRange)
        else if !IsDay(day) then Wrong(BadValue)
        else Bounds(day.value, day.value, step)
      case Span(from, until) =>
        if !IsDay(from) || !IsDay(until) then Wrong(BadValue)
        else if from.value > until.value then Wrong(Backwards)
        else Bounds(from.value, until.value, step)
  }

  /** Stepping from `from` to `to` meets a day that is `weekday`, 7 counted as 0. */
  predicate Meets(from: nat, until: nat, step: nat, weekday: nat)
    requires step > 0
    decreases until + 1 - from
  {
    from <= until && (from % 7 == weekday || Meets(from + step, until, step, weekday))
  }

  /** The `n`-th day of a range is `weekday`. */
  predicate NthIs(from: nat, until: nat, step: nat, n: nat, weekday: nat) {
    from + n * step <= until && (from + n * step) % 7 == weekday
  }

  lemma NthFromNext(from: nat, until: nat, step: nat, n: nat, weekday: nat)
    requires n > 0
    ensures NthIs(from, until, step, n, weekday) <==> NthIs(from + step, until, step, n - 1, weekday)
  {
    assert from + n * step == (from + step) + (n - 1) * step;
  }

  /** Stepping meets exactly the days that lie a multiple of the step after the first. */
  lemma {:induction false} MeetsExactly(from: nat, until: nat, step: nat, weekday: nat)
    requires step > 0
    ensures Meets(from, until, step, weekday) <==> exists n: nat :: NthIs(from, until, step, n, weekday)
    decreases until + 1 - from
  {
    if from <= until {
      var next := from + step;
      MeetsExactly(next, until, step, weekday);
      if from % 7 == weekday {
        assert NthIs(from, until, step, 0, weekday);
      }
      if n: nat :| NthIs(next, until, step, n, weekday) {
        NthFromNext(from, until, step, n + 1, weekday);
      }
      if n: nat :| NthIs(from, until, step, n, weekday) && n > 0 {
        NthFromNext(from, until, step, n, weekday);
      }
    } else {
      forall n: nat ensures !NthIs(from, until, step, n, weekday) {
        assert n * step >= 0;
      }
    }
  }

  /** The part names this day of the week. */
  predicate Names(part: Part, weekday: nat) {
    var b := BoundsOf(part);
    b.Bounds? && Meets(b.from, b.until, b.step, weekday)
  }

  /** The step a part is written with, one if it has none. */
  function StepOf(part: Part): Option<nat> {
    if part.step.None? then Some(1) else part.step.value
  }

  /** Why a part is refused, in this order, and otherwise not. */
  lemma RefusedExactly(part: Part)
    ensures BoundsOf(part) == Wrong(BadStep) <==>
              part.step.Some? && (part.step.value.None? || part.step.value == Some(0))
    ensures BoundsOf(part) == Wrong(StepNeedsRange) <==>
              part.range.Day? && part.step.Some? && part.step.value.Some? && part.step.value.value >= 2
    ensures BoundsOf(part) == Wrong(BadValue) <==>
              && BoundsOf(part) != Wrong(BadStep) && BoundsOf(part) != Wrong(StepNeedsRange)
              && ((part.range.Day? && (part.range.day.None? || part.range.day.value > 7))
                  || (part.range.Span? && (part.range.from.None? || part.range.from.value > 7
                                           || part.range.until.None? || part.range.until.value > 7)))
    ensures BoundsOf(part) == Wrong(Backwards) <==>
              && BoundsOf(part) != Wrong(BadStep) && BoundsOf(part) != Wrong(BadValue)
              && part.range.Span? && part.range.from.value > part.range.until.value
  {
  }

  /**
   What a part that is not refused names: a day is itself, a span every step-th of its
   days from its first, a star every step-th from Sunday to Saturday; 7 is Sunday.
   */
  lemma NamesExactly(part: Part, weekday: nat)
    requires BoundsOf(part).Bounds? && weekday < 7
    ensures StepOf(part).Some?
    ensures part.range.Day? ==>
              (Names(part, weekday) <==> part.range.day == Some(weekday) || (part.range.day == Some(7) && weekday == 0))
    ensures part.range.Span? && part.range.from.Some? && part.range.until.Some? ==>
              (Names(part, weekday) <==>
               exists n: nat :: NthIs(part.range.from.value, part.range.until.value, StepOf(part).value, n, weekday))
    ensures part.range.Star? ==>
              (Names(part, weekday) <==> exists n: nat :: NthIs(0, 6, StepOf(part).value, n, weekday))
  {
    hide Meets;
    var b := BoundsOf(part);
    MeetsExactly(b.from, b.until, b.step, weekday);
    if part.range.Day? {
      assert NthIs(b.from, b.until, b.step, 0, weekday) <==> b.from % 7 == weekday;
      forall n: nat | NthIs(b.from, b.until, b.step, n, weekday) ensures n == 0 {
        assert n * b.step >= n;
      }
    }
  }

  predicate SomeNames(parts: seq<Part>, weekday: nat) {
    exists i :: 0 <= i < |parts| && Names(parts[i], weekday)
  }

  /** Marks the days one part runs over, in place. */
  method MarkPart(days: array<bool>, bounds: Bounds)
    requires days.Length == 7 && bounds.Bounds? && bounds.step > 0
    modifies days
    ensures forall d :: 0 <= d < 7 ==> days[d] == (old(days[d]) || Meets(bounds.from, bounds.until, bounds.step, d))
  {
    var day := bounds.from;
    while day <= bounds.until
      invariant forall d :: 0 <= d < 7 ==>
                  (days[d] || Meets(day, bounds.until, bounds.step, d)) ==
                    (old(days[d]) || Meets(bounds.from, bounds.until, bounds.step, d))
      decreases bounds.until + 1 - day
    {
      days[day % 7] := true;
      day := day + bounds.step;
    }
  }

  /** The days of the week a list of parts covers; the first part that is wrong refuses the field. */
  method Weekdays(parts: seq<Part>) returns (days: array<bool>, error: Option<WeekdayError>)
    ensures fresh(days) && days.Length == 7
    ensures error.None? <==> forall i :: 0 <= i < |parts| ==> BoundsOf(parts[i]).Bounds?
    ensures error.None? ==> forall d :: 0 <= d < 7 ==> (days[d] <==> SomeNames(parts, d))
    ensures error.Some? ==> exists i :: 0 <= i < |parts| && BoundsOf(parts[i]) == Wrong(error.value)
                                      && forall j :: 0 <= j < i ==> BoundsOf(parts[j]).Bounds?
  {
    days := new bool[7](_ => false);
    error := None;
    var i := 0;
    while i < |parts|
      invariant 0 <= i <= |parts| && days.Length == 7 && fresh(days) && error.None?
      invariant forall j :: 0 <= j < i ==> BoundsOf(parts[j]).Bounds?
      invariant forall d :: 0 <= d < 7 ==> (days[d] <==> SomeNames(parts[..i], d))
    {
      var bounds := BoundsOf(parts[i]);
      if bounds.Wrong? {
        return days, Some(bounds.error);
      }
      MarkPart(days, bounds);
      forall d: nat | d < 7 ensures SomeNames(parts[..i + 1], d) <==> SomeNames(parts[..i], d) || Names(parts[i], d) {
        OneMorePart(parts, i, d);
      }
      i := i + 1;
    }
    assert parts[..i] == parts;
  }

  lemma OneMorePart(parts: seq<Part>, i: nat, d: nat)
    requires i < |parts|
    ensures SomeNames(parts[..i + 1], d) <==> SomeNames(parts[..i], d) || Names(parts[i], d)
  {
    var less, more := parts[..i], parts[..i + 1];
    assert more[i] == parts[i] && forall k :: 0 <= k < i ==> more[k] == less[k];
  }

  /** Sunday is both ends of the week: a range up to 7 ends on it, and 0 and 7 name the same day. */
  lemma SevenIsSunday(from: nat, weekday: nat)
    requires 1 <= from <= 7
    ensures Names(Part(Span(Some(from), Some(7)), None), 0)
    ensures Names(Part(Day(Some(0)), None), weekday) <==> Names(Part(Day(Some(7)), None), weekday)
  {
    MeetsExactly(from, 7, 1, 0);
    assert NthIs(from, 7, 1, 7 - from, 0);
  }

  // ------------------------------------------------------------------
  // The two day fields
  // ------------------------------------------------------------------

  /** A day field: whether its text begins with a star or is a question mark, and the days it selects. */
  datatype DayField = DayField(open: bool, days: set<nat>)

  /** Which day of the month and which day of the week an instant falls on. */
  datatype Calendar = Calendar(dayOfMonth: int -> nat, dayOfWeek: int -> nat)

  /** The instants of a timeline that satisfy `p`. */
  function Only(base: Timeline, p: int -> bool): (kept: Timeline)
    ensures forall x :: x in kept <==> x in base && p(x)
  {
    if base == [] then []
    else
      var rest := Only(base[1..], p);
      assert forall x :: x in base[1..] ==> x > base[0];
      assert forall k :: 0 <= k < |rest| ==> rest[k] in rest;
      if p(base[0]) then [base[0]] + rest else rest
  }

  function OnMonthDay(field: DayField, calendar: Calendar): int -> bool {
    x => calendar.dayOfMonth(x) in field.days
  }

  function OnWeekday(field: DayField, calendar: Calendar): int -> bool {
    x => calendar.dayOfWeek(x) in field.days
  }

  /**
   `crontab_schedules`: the schedules of an expression whose minute, hour and month
   fields select the instants of `base`. With both day fields restricted they are
   two, one for each field with the other left open; otherwise it is one.
   */
  function Schedules(base: Timeline, monthDay: DayField, weekday: DayField, calendar: Calendar): CronExpr {
    if monthDay.open || weekday.open
    then [Only(Only(base, OnMonthDay(monthDay, calendar)), OnWeekday(weekday, calendar))]
    else [Only(base, OnMonthDay(monthDay, calendar)), Only(base, OnWeekday(weekday, calendar))]
  }

  /** The instants crontab means: on a day that either restricted field selects, or that both fields select. */
  ghost predicate Selected(x: int, monthDay: DayField, weekday: DayField, calendar: Calendar) {
    var onMonthDay, onWeekday := calendar.dayOfMonth(x) in monthDay.days, calendar.dayOfWeek(x) in weekday.days;
    if monthDay.open || weekday.open then onMonthDay && onWeekday else onMonthDay || onWeekday
  }

  /** The merged iterator gives exactly those instants, in order, each once, though both fields select its day. */
  lemma RestrictedFieldsAreTheUnion(base: Timeline, monthDay: DayField, weekday: DayField, calendar: Calendar)
    ensures var meant := set x | x in base && Selected(x, monthDay, weekday, calendar);
            && Instants(Schedules(base, monthDay, weekday, calendar)) == meant
            && Sorted(Instants(Schedules(base, monthDay, weekday, calendar))) ==
                Only(base, x => Selected(x, monthDay, weekday, calendar))
  {
    var expr := Schedules(base, monthDay, weekday, calendar);
    var meant := set x | x in base && Selected(x, monthDay, weekday, calendar);
    InstantsSplit(expr);
    if |expr| == 2 {
      InstantsSplit(expr[1..]);
      assert Instants(expr[1..][1..]) == {};
    } else {
      assert Instants(expr[1..]) == {};
    }
    assert Instants(expr) == meant;
    SortedUnique(Sorted(meant), Only(base, x => Selected(x, monthDay, weekday, calendar)));
  }
}
