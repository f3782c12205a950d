/**
 What a cfg predicate means, and the three-valued evaluation that stands for it
 while `test` is off (scripts/adr_run_0011_grep.py, `_without_test`).

 A predicate is kept here as it is written, with its values and its layout, so that
 it can be printed as well as evaluated.
 */
module CfgMeaning {
  import opened Options
  import opened CfgPredicate

  /** One character of a quoted value, bare or behind a backslash. */
  datatype RawChar = Bare(c: char) | Escaped(c: char)

  /**
   A predicate as written: `space` is the layout around `=` or before `(`. A group's
   arguments mirror the ways they can be laid out, trailing comma included.
   */
  datatype Written =
    | WIdent(name: string)
    | WMeta(name: string, space: string, more: string, value: seq<RawChar>)
    | WGroup(op: Op, space: string, args: WArgs)

  datatype WArgs = Close(space: string) | Arg(lead: string, node: Written, trail: string, rest: WRest)

  datatype WRest = End | Comma(args: WArgs)

  /** What the parser keeps of it. */
  function Strip(p: Written): Node {
    match p
    case WIdent(name) => Ident(name)
    case WMeta(name, _, _, _) => Meta(name)
    case WGroup(op, _, args) => Group(op, StripArgs(args))
  }

  function StripArgs(args: WArgs): seq<Node> {
    match args
    case Close(_) => []
    case Arg(_, node, _, End) => [Strip(node)]
    case Arg(_, node, _, Comma(more)) => [Strip(node)] + StripArgs(more)
  }

  // ------------------------------------------------------------------
  // Meaning
  // ------------------------------------------------------------------

  /** A configuration option: a name, with a value or without. */
  datatype Atom = Atom(name: string, value: Option<seq<RawChar>>)

  const TEST := Atom("test", None)

  /** Whether the predicate holds with exactly these options set. */
  predicate Eval(p: Written, on: set<Atom>) {
    match p
    case WIdent(name) => Atom(name, None) in on
    case WMeta(name, _, _, value) => Atom(name, Some(value)) in on
    case WGroup(All, _, args) => EvalAll(args, on)
    case WGroup(Any, _, args) => EvalAny(args, on)
    case WGroup(Not, _, args) => !EvalAll(args, on)
  }

  predicate EvalAll(args: WArgs, on: set<Atom>) {
    match args
    case Close(_) => true
    case Arg(_, node, _, End) => Eval(node, on)
    case Arg(_, node, _, Comma(more)) => Eval(node, on) && EvalAll(more, on)
  }

  predicate EvalAny(args: WArgs, on: set<Atom>) {
    match args
    case Close(_) => false
    case Arg(_, node, _, End) => Eval(node, on)
    case Arg(_, node, _, Comma(more)) => Eval(node, on) || EvalAny(more, on)
  }

  function Count(args: WArgs): nat {
    match args
    case Close(_) => 0
    case Arg(_, _, _, End) => 1
    case Arg(_, _, _, Comma(more)) => 1 + Count(more)
  }

  /** Every `not` has exactly one argument. */
  predicate WellFormed(p: Written) {
    match p
    case WIdent(_) => true
    case WMeta(_, _, _, _) => true
    case WGroup(op, _, args) => (op.Not? ==> Count(args) == 1) && AllWellFormed(args)
  }

  predicate AllWellFormed(args: WArgs) {
    match args
    case Close(_) => true
    case Arg(_, node, _, End) => WellFormed(node)
    case Arg(_, node, _, Comma(more)) => WellFormed(node) && AllWellFormed(more)
  }

  // ------------------------------------------------------------------
  // The evaluation with test off
  // ------------------------------------------------------------------

  datatype Verdict = False | True | Maybe

  /** `_without_test`. */
  function WithoutTest(node: Node): Verdict {
    match node
    case Ident(name) => if name == "test" then False else Maybe
    case Meta(_) => Maybe
    case Group(Not, args) =>
      if |args| != 1 then Maybe
      else
        (match WithoutTest(args[0])
         case True => False
         case False => True
         case Maybe => Maybe)
    case Group(All, args) =>
      if exists i :: 0 <= i < |args| && WithoutTest(args[i]) == False then False
      else if exists i :: 0 <= i < |args| && WithoutTest(args[i]) == Maybe then Maybe
      else True
    case Group(Any, args) =>
      if exists i :: 0 <= i < |args| && WithoutTest(args[i]) == True then True
      else if exists i :: 0 <= i < |args| && WithoutTest(args[i]) == Maybe then Maybe
      else False
  }

  /** The verdict on a list, one argument at a time: `bad` decides at once. */
  function Combined(args: WArgs, bad: Verdict, good: Verdict): Verdict {
    match args
    case Close(_) => good
    case Arg(_, node, _, End) => Joined(WithoutTest(Strip(node)), good, bad, good)
    case Arg(_, node, _, Comma(more)) => Joined(WithoutTest(Strip(node)), Combined(more, bad, good), bad, good)
  }

  function Joined(a: Verdict, b: Verdict, bad: Verdict, good: Verdict): Verdict {
    if a == bad || b == bad then bad else if a == Maybe || b == Maybe then Maybe else good
  }

  predicate HasVerdict(args: seq<Node>, verdict: Verdict) {
    exists i :: 0 <= i < |args| && WithoutTest(args[i]) == verdict
  }

  lemma HasVerdictSplits(node: Node, args: seq<Node>, verdict: Verdict)
    ensures HasVerdict([node] + args, verdict) <==> WithoutTest(node) == verdict || HasVerdict(args, verdict)
  {
    var all := [node] + args;
    assert all[0] == node;
    if i :| 0 <= i < |args| && WithoutTest(args[i]) == verdict {
      assert all[i + 1] == args[i];
    }
    if i :| 0 <= i < |all| && WithoutTest(all[i]) == verdict {
      assert i > 0 ==> all[i] == args[i - 1];
    }
  }

  lemma {:induction false} CombinedIsTheVerdict(args: WArgs, bad: Verdict, good: Verdict)
    requires (bad, good) in {(False, True), (True, False)}
    ensures Combined(args, bad, good) ==
              if HasVerdict(StripArgs(args), bad) then bad
              else if HasVerdict(StripArgs(args), Maybe) then Maybe else good
  {
    match args {
      case Close(_) =>
      case Arg(_, node, _, End) =>
        HasVerdictSplits(Strip(node), [], bad);
        HasVerdictSplits(Strip(node), [], Maybe);
        assert [Strip(node)] + [] == [Strip(node)];
      case Arg(_, node, _, Comma(more)) =>
        CombinedIsTheVerdict(more, bad, good);
        HasVerdictSplits(Strip(node), StripArgs(more), bad);
        HasVerdictSplits(Strip(node), StripArgs(more), Maybe);
    }
  }

  /** The verdict on a group, by its arguments in order. */
  lemma GroupVerdict(p: Written)
    requires p.WGroup?
    ensures p.op.All? ==> WithoutTest(Strip(p)) == Combined(p.args, False, True)
    ensures p.op.Any? ==> WithoutTest(Strip(p)) == Combined(p.args, True, False)
    ensures p.op.Not? && Count(p.args) == 1 ==> WithoutTest(Strip(p)) == Negated(Combined(p.args, False, True))
    ensures p.op.Not? && Count(p.args) != 1 ==> WithoutTest(Strip(p)) == Maybe
  {
    CombinedIsTheVerdict(p.args, False, True);
    CombinedIsTheVerdict(p.args, True, False);
    StripCounts(p.args);
  }

  function Negated(v: Verdict): Verdict {
    match v
    case True => False
    case False => True
    case Maybe => Maybe
  }

  lemma {:induction false} StripCounts(args: WArgs)
    ensures |StripArgs(args)| == Count(args)
    ensures Count(args) == 1 ==> Combined(args, False, True) == WithoutTest(StripArgs(args)[0])
  {
    match args {
      case Close(_) =>
      case Arg(_, _, _, End) =>
      case Arg(_, node, _, Comma(more)) =>
        StripCounts(more);
        if Count(more) == 0 { assert more.Close?; }
    }
  }

  // ------------------------------------------------------------------
  // Soundness
  // ------------------------------------------------------------------

  /** A definite verdict is the predicate's value under every assignment with `test` off. */
  lemma {:induction false} VerdictIsSound(p: Written, on: set<Atom>)
    requires TEST !in on
    ensures WithoutTest(Strip(p)) == False ==> !Eval(p, on)
    ensures WithoutTest(Strip(p)) == True ==> Eval(p, on)
    decreases p
  {
    match p {
      case WIdent(_) =>
      case WMeta(_, _, _, _) =>
      case WGroup(op, _, args) =>
        GroupVerdict(p);
        CombinedIsSound(args, on);
    }
  }

  lemma {:induction false} CombinedIsSound(args: WArgs, on: set<Atom>)
    requires TEST !in on
    ensures Combined(args, False, True) == False ==> !EvalAll(args, on)
    ensures Combined(args, False, True) == True ==> EvalAll(args, on)
    ensures Combined(args, True, False) == False ==> !EvalAny(args, on)
    ensures Combined(args, True, False) == True ==> EvalAny(args, on)
    decreases args
  {
    match args {
      case Close(_) =>
      case Arg(_, node, _, End) => VerdictIsSound(node, on);
      case Arg(_, node, _, Comma(more)) =>
        VerdictIsSound(node, on);
        CombinedIsSound(more, on);
    }
  }

  // ------------------------------------------------------------------
  // Exactness
  // ------------------------------------------------------------------

  /** The options other than `test` that a predicate mentions. */
  function Atoms(p: Written): set<Atom> {
    match p
    case WIdent(name) => {Atom(name, None)} - {TEST}
    case WMeta(name, _, _, value) => {Atom(name, Some(value))}
    case WGroup(_, _, args) => AtomsOf(args)
  }

  function AtomsOf(args: WArgs): set<Atom> {
    match args
    case Close(_) => {}
    case Arg(_, node, _, End) => Atoms(node)
    case Arg(_, node, _, Comma(more)) => Atoms(node) + AtomsOf(more)
  }

  /** Every option other than `test` is mentioned at most once. */
  predicate Linear(p: Written) {
    match p
    case WIdent(_) => true
    case WMeta(_, _, _, _) => true
    case WGroup(_, _, args) => LinearArgs(args)
  }

  predicate LinearArgs(args: WArgs) {
    match args
    case Close(_) => true
    case Arg(_, node, _, End) => Linear(node)
    case Arg(_, node, _, Comma(more)) => Linear(node) && LinearArgs(more) && Atoms(node) !! AtomsOf(more)
  }

  /** Only the options mentioned, and `test`, matter. */
  lemma {:induction false} EvalByAtoms(p: Written, on: set<Atom>, other: set<Atom>)
    requires TEST !in on && TEST !in other && on * Atoms(p) == other * Atoms(p)
    ensures Eval(p, on) == Eval(p, other)
    decreases p
  {
    match p {
      case WIdent(name) =>
        assert Atom(name, None) in Atoms(p) ==>
          (Atom(name, None) in on * Atoms(p) <==> Atom(name, None) in other * Atoms(p));
      case WMeta(name, _, _, value) =>
        assert Atom(name, Some(value)) in on * Atoms(p) <==> Atom(name, Some(value)) in other * Atoms(p);
      case WGroup(_, _, args) => EvalArgsByAtoms(args, on, other);
    }
  }

  lemma {:induction false} EvalArgsByAtoms(args: WArgs, on: set<Atom>, other: set<Atom>)
    requires TEST !in on && TEST !in other && on * AtomsOf(args) == other * AtomsOf(args)
    ensures EvalAll(args, on) == EvalAll(args, other) && EvalAny(args, on) == EvalAny(args, other)
    decreases args
  {
    match args {
      case Close(_) =>
      case Arg(_, node, _, End) => EvalByAtoms(node, on, other);
      case Arg(_, node, _, Comma(more)) =>
        SameOn(on, other, AtomsOf(args), Atoms(node));
        SameOn(on, other, AtomsOf(args), AtomsOf(more));
        EvalByAtoms(node, on, other);
        EvalArgsByAtoms(more, on, other);
    }
  }

  lemma SameOn(on: set<Atom>, other: set<Atom>, all: set<Atom>, some: set<Atom>)
    requires on * all == other * all && some <= all
    ensures on * some == other * some
  {
    forall a ensures a in on * some <==> a in other * some {
      assert a in some ==> (a in on * all <==> a in on) && (a in other * all <==> a in other);
    }
  }

  /** An assignment with `test` off, of mentioned options only, that gives the predicate the wanted value. */
  lemma {:induction false} Witness(p: Written, wanted: bool) returns (on: set<Atom>)
    requires WellFormed(p) && Linear(p) && WithoutTest(Strip(p)) != (if wanted then False else True)
    ensures on <= Atoms(p) && TEST !in on && Eval(p, on) == wanted
    decreases p
  {
    match p {
      case WIdent(name) => on := if wanted then {Atom(name, None)} else {};
      case WMeta(name, _, _, value) => on := if wanted then {Atom(name, Some(value))} else {};
      case WGroup(op, _, args) =>
        GroupVerdict(p);
        match op {
          case All => if wanted { on := WitnessAll(args, true); } else { on := WitnessSome(args, false); }
          case Any => if wanted { on := WitnessSome(args, true); } else { on := WitnessAll(args, false); }
          case Not =>
            OneArgument(args);
            on := Witness(args.node, !wanted);
        }
    }
  }

  /** Gives every argument the wanted value; no verdict rules it out. */
  lemma {:induction false} WitnessAll(args: WArgs, wanted: bool) returns (on: set<Atom>)
    requires AllWellFormed(args) && LinearArgs(args)
    requires if wanted then Combined(args, False, True) != False else Combined(args, True, False) != True
    ensures on <= AtomsOf(args) && TEST !in on
    ensures if wanted then EvalAll(args, on) else !EvalAny(args, on)
    decreases args
  {
    match args {
      case Close(_) => on := {};
      case Arg(_, node, _, End) => on := Witness(node, wanted);
      case Arg(_, node, _, Comma(more)) =>
        var first := Witness(node, wanted);
        var rest := WitnessAll(more, wanted);
        on := first + rest;
        assert on * Atoms(node) == first * Atoms(node);
        assert on * AtomsOf(more) == rest * AtomsOf(more);
        EvalByAtoms(node, on, first);
        EvalArgsByAtoms(more, on, rest);
    }
  }

  /** Gives one argument the wanted value; some verdict does not rule it out. */
  lemma {:induction false} WitnessSome(args: WArgs, wanted: bool) returns (on: set<Atom>)
    requires AllWellFormed(args) && LinearArgs(args)
    requires if wanted then Combined(args, True, False) != False else Combined(args, False, True) != True
    ensures on <= AtomsOf(args) && TEST !in on
    ensures if wanted then EvalAny(args, on) else !EvalAll(args, on)
    decreases args
  {
    match args {
      case Arg(_, node, _, End) => on := Witness(node, wanted);
      case Arg(_, node, _, Comma(more)) =>
        if WithoutTest(Strip(node)) != (if wanted then False else True) {
          on := Witness(node, wanted);
        } else {
          on := WitnessSome(more, wanted);
        }
    }
  }

  /** A group of one argument means that argument. */
  lemma OneArgument(args: WArgs)
    requires Count(args) == 1 && AllWellFormed(args) && LinearArgs(args)
    ensures args.Arg? && WellFormed(args.node) && Linear(args.node) && Atoms(args.node) <= AtomsOf(args)
    ensures Combined(args, False, True) == WithoutTest(Strip(args.node))
    ensures forall on :: EvalAll(args, on) == Eval(args.node, on)
  {
    if args.rest.Comma? {
      assert Count(args.rest.args) == 0;
    }
  }

  /** The predicate cannot hold while `test` is off. */
  ghost predicate RequiresTest(p: Written) {
    forall on: set<Atom> :: TEST !in on ==> !Eval(p, on)
  }

  /** The predicate holds whenever `test` is off. */
  ghost predicate HoldsWithoutTest(p: Written) {
    forall on: set<Atom> :: TEST !in on ==> Eval(p, on)
  }

  /**
   Where every other option is mentioned once, the verdict is exact: "false" says
   that the predicate requires `test`, "true" that it holds without it, and "maybe"
   that it depends on the other options.
   */
  lemma VerdictIsExact(p: Written)
    requires WellFormed(p) && Linear(p)
    ensures WithoutTest(Strip(p)) == False <==> RequiresTest(p)
    ensures WithoutTest(Strip(p)) == True <==> HoldsWithoutTest(p)
  {
    forall on: set<Atom> | TEST !in on
      ensures WithoutTest(Strip(p)) == False ==> !Eval(p, on)
      ensures WithoutTest(Strip(p)) == True ==> Eval(p, on)
    {
      VerdictIsSound(p, on);
    }
    if WithoutTest(Strip(p)) != False {
      var on := Witness(p, true);
      assert !RequiresTest(p);
    }
    if WithoutTest(Strip(p)) != True {
      var on := Witness(p, false);
      assert !HoldsWithoutTest(p);
    }
  }

  /** An option mentioned twice can make a verdict inexact: this predicate never holds, and the verdict is "maybe". */
  lemma RepeatedOptionIsInexact()
    ensures var a := WIdent("a");
            var both := WGroup(All, "", Arg("", a, "", Comma(Arg("", WGroup(Not, "", Arg("", a, "", End)), "", End))));
            WellFormed(both) && RequiresTest(both) && WithoutTest(Strip(both)) == Maybe
  {
    var a := WIdent("a");
    var one := Arg("", a, "", End);
    var never := WGroup(Not, "", one);
    var last := Arg("", never, "", End);
    var both := WGroup(All, "", Arg("", a, "", Comma(last)));
    GroupVerdict(never);
    GroupVerdict(both);
    forall on: set<Atom> | TEST !in on ensures !Eval(both, on) {
      assert EvalAll(one, on) == Eval(a, on);
      assert EvalAll(last, on) == Eval(never, on) == !Eval(a, on);
    }
  }
}
