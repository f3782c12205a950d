/**
 Environment overrides (crates/sc-config/src/load.rs): variables whose name begins
 with the application's prefix are written into the document in the byte order of
 their names.

 A name is taken as its bytes, one character each; the key path is computed on
 ASCII bytes only, so this is what the code sees.
 */
module ConfigOverrides {
  import opened Options
  import opened ConfigValue

  /** One environment variable, and whether its name and value are valid Unicode. */
  datatype Variable = Variable(name: string, value: string, unicode: bool)

  // ------------------------------------------------------------------
  // Key paths
  // ------------------------------------------------------------------

  /** The position of the first `__`, or the length. */
  function Separator(s: string): (n: nat)
    ensures n <= |s|
    ensures n < |s| ==> n + 1 < |s| && s[n] == '_' && s[n + 1] == '_'
    ensures forall k :: 0 <= k < n && k + 1 < |s| ==> !(s[k] == '_' && s[k + 1] == '_')
  {
    if |s| < 2 then |s|
    else if s[0] == '_' && s[1] == '_' then 0
    else 1 + Separator(s[1..])
  }

  /** `str::split("__")`. */
  function Split(s: string): (segments: seq<string>)
    ensures segments != []
    decreases |s|
  {
    var n := Separator(s);
    if n == |s| then [s] else [s[..n]] + Split(s[n + 2..])
  }

  function Join(segments: seq<string>): string
    requires segments != []
  {
    if |segments| == 1 then segments[0] else segments[0] + "__" + Join(segments[1..])
  }

  lemma {:induction false} JoinOfSplit(s: string)
    ensures Join(Split(s)) == s
    decreases |s|
  {
    hide Separator;
    var n := Separator(s);
    if n < |s| {
      JoinOfSplit(s[n + 2..]);
      JoinOfTwo(s[..n], Split(s[n + 2..]));
      assert s == s[..n] + "__" + s[n + 2..];
    }
  }

  lemma JoinOfTwo(first: string, rest: seq<string>)
    requires rest != []
    ensures Join([first] + rest) == first + "__" + Join(rest)
  {
    assert ([first] + rest)[1..] == rest;
  }

  /** No `__` inside any segment, and none across a segment's end. */
  predicate Separable(segments: seq<string>) {
    && segments != []
    && Separator(segments[0]) == |segments[0]|
    && (|segments| > 1 ==>
          && (segments[0] != "" ==> segments[0][|segments[0]| - 1] != '_')
          && Separable(segments[1..]))
  }

  lemma SeparatorOfJoined(segment: string, rest: string)
    requires Separator(segment) == |segment|
    requires segment != "" ==> segment[|segment| - 1] != '_'
    ensures Separator(segment + "__" + rest) == |segment|
  {
    var s := segment + "__" + rest;
    var n := Separator(s);
    assert s[|segment|] == '_' && s[|segment| + 1] == '_';
    assert forall k :: 0 <= k < |segment| ==> s[k] == segment[k];
  }

  lemma SplitOfTwo(first: string, rest: string)
    requires Separator(first) == |first|
    requires first != "" ==> first[|first| - 1] != '_'
    ensures Split(first + "__" + rest) == [first] + Split(rest)
  {
    hide Separator;
    SeparatorOfJoined(first, rest);
    var s := first + "__" + rest;
    assert s[|first| + 2..] == rest && s[..|first|] == first;
  }

  /** Segments are read back from their joined name exactly when no separator arises inside or across them. */
  lemma {:induction false} SplitOfJoinExactly(segments: seq<string>)
    requires segments != []
    ensures Split(Join(segments)) == segments <==> Separable(segments)
    decreases |segments|
  {
    if Separable(segments) {
      SplitOfSeparable(segments);
    } else {
      SplitIsSeparable(Join(segments));
    }
  }

  lemma {:induction false} SplitOfSeparable(segments: seq<string>)
    requires Separable(segments)
    ensures Split(Join(segments)) == segments
    decreases |segments|
  {
    hide Separator;
    if |segments| == 1 {
    } else {
      hide Split, Join;
      SplitOfSeparable(segments[1..]);
      assert segments == [segments[0]] + segments[1..];
      JoinOfTwo(segments[0], segments[1..]);
      SplitOfTwo(segments[0], Join(segments[1..]));
    }
  }

  lemma {:induction false} SplitIsSeparable(s: string)
    ensures Separable(Split(s))
    decreases |s|
  {
    var n := Separator(s);
    if n < |s| {
      SplitIsSeparable(s[n + 2..]);
      assert Split(s)[1..] == Split(s[n + 2..]);
      var first := s[..n];
      assert forall k :: 0 <= k < n ==> first[k] == s[k];
    }
  }

  function LowerChar(c: char): char {
    if 'A' <= c <= 'Z' then c - 'A' + 'a' else c
  }

  function Lower(s: string): (lower: string)
    ensures |lower| == |s| && forall i :: 0 <= i < |s| ==> lower[i] == LowerChar(s[i])
  {
    if s == "" then "" else [LowerChar(s[0])] + Lower(s[1..])
  }

  function LowerAll(segments: seq<string>): (lower: seq<string>)
    ensures |lower| == |segments| && forall i :: 0 <= i < |segments| ==> lower[i] == Lower(segments[i])
  {
    seq(|segments|, i requires 0 <= i < |segments| => Lower(segments[i]))
  }

  /** The key path of a name; an empty segment is refused. */
  function KeyPath(name: string, prefix: string): (path: Option<Path>)
    ensures path.Some? ==> path.value != [] && forall i :: 0 <= i < |path.value| ==> path.value[i] != ""
  {
    var rest := if |prefix| <= |name| then name[|prefix|..] else "";
    var segments := LowerAll(Split(rest));
    if exists i :: 0 <= i < |segments| && segments[i] == "" then None else Some(segments)
  }

  // ------------------------------------------------------------------
  // The order of names
  // ------------------------------------------------------------------

  /** Byte order. */
  predicate AtMost(a: string, b: string) {
    a == "" || (b != "" && (a[0] < b[0] || (a[0] == b[0] && AtMost(a[1..], b[1..]))))
  }

  lemma {:induction false} AtMostTotal(a: string, b: string)
    ensures AtMost(a, b) || AtMost(b, a)
  {
    if a != "" && b != "" && a[0] == b[0] { AtMostTotal(a[1..], b[1..]); }
  }

  lemma {:induction false} AtMostAntisymmetric(a: string, b: string)
    requires AtMost(a, b) && AtMost(b, a)
    ensures a == b
  {
    if a != "" && b != "" {
      AtMostAntisymmetric(a[1..], b[1..]);
      assert a == [a[0]] + a[1..] && b == [b[0]] + b[1..];
    }
  }

  lemma {:induction false} AtMostTransitive(a: string, b: string, c: string)
    requires AtMost(a, b) && AtMost(b, c)
    ensures AtMost(a, c)
  {
    if a != "" && b != "" && c != "" && a[0] == b[0] == c[0] { AtMostTransitive(a[1..], b[1..], c[1..]); }
  }

  /** A name comes before every name that extends it. */
  lemma {:induction false} PrefixAtMost(a: string, b: string)
    requires a <= b
    ensures AtMost(a, b)
  {
    if a != "" {
      assert a[1..] <= b[1..];
      PrefixAtMost(a[1..], b[1..]);
    }
  }

  predicate InOrder(list: seq<Variable>) {
    forall i, j :: 0 <= i < j < |list| ==> AtMost(list[i].name, list[j].name)
  }

  predicate NamesDistinct(list: seq<Variable>) {
    forall i, j :: 0 <= i < j < |list| ==> list[i].name != list[j].name
  }

  /** A stable sort by name. */
  function SortedByName(list: seq<Variable>): (sorted: seq<Variable>)
    ensures multiset(sorted) == multiset(list)
    ensures InOrder(sorted)
  {
    if list == [] then []
    else
      assert list == [list[0]] + list[1..];
      Inserted(list[0], SortedByName(list[1..]))
  }

  function Inserted(v: Variable, list: seq<Variable>): (more: seq<Variable>)
    requires InOrder(list)
    ensures multiset(more) == multiset([v] + list)
    ensures InOrder(more)
  {
    if list == [] then [v]
    else if AtMost(v.name, list[0].name) then
      FirstAtMost(v, list);
      [v] + list
    else
      AtMostTotal(v.name, list[0].name);
      InsertedAfter(v, list, Inserted(v, list[1..]));
      [list[0]] + Inserted(v, list[1..])
  }

  lemma FirstAtMost(v: Variable, list: seq<Variable>)
    requires InOrder(list) && list != [] && AtMost(v.name, list[0].name)
    ensures InOrder([v] + list)
  {
    hide AtMost;
    forall j | 0 <= j < |list| ensures AtMost(v.name, list[j].name) {
      if j > 0 { AtMostTransitive(v.name, list[0].name, list[j].name); }
    }
  }

  lemma InsertedAfter(v: Variable, list: seq<Variable>, rest: seq<Variable>)
    requires InOrder(list) && list != [] && AtMost(list[0].name, v.name)
    requires InOrder(rest) && multiset(rest) == multiset([v] + list[1..])
    ensures InOrder([list[0]] + rest) && multiset([list[0]] + rest) == multiset([v] + list)
  {
    hide AtMost;
    forall j | 0 <= j < |rest| ensures AtMost(list[0].name, rest[j].name) {
      assert rest[j] in multiset(rest);
      assert rest[j] in [v] + list[1..];
      if rest[j] != v {
        var k :| 0 <= k < |list| - 1 && list[1..][k] == rest[j];
      }
    }
    assert [v] + list == [v] + [list[0]] + list[1..];
  }

  lemma SameFirst(a: seq<Variable>, b: seq<Variable>)
    requires multiset(a) == multiset(b) && InOrder(a) && InOrder(b) && NamesDistinct(a)
    requires a != [] && b != []
    ensures a[0] == b[0]
  {
    assert a[0] in multiset(b) && b[0] in multiset(a);
    var i :| 0 <= i < |a| && a[i] == b[0];
    var j :| 0 <= j < |b| && b[j] == a[0];
    if i > 0 && j > 0 {
      AtMostAntisymmetric(a[0].name, b[0].name);
    }
  }

  lemma RestOfMultiset(a: seq<Variable>)
    requires a != []
    ensures multiset(a[1..]) == multiset(a) - multiset{a[0]}
  {
    assert a == [a[0]] + a[1..];
  }

  /** Two sorted lists of the same variables, with distinct names, are the same list. */
  lemma {:induction false} OneOrder(a: seq<Variable>, b: seq<Variable>)
    requires multiset(a) == multiset(b) && InOrder(a) && InOrder(b) && NamesDistinct(a)
    ensures a == b
    decreases |a|
  {
    assert |a| == |multiset(a)| == |multiset(b)| == |b|;
    if a != [] {
      SameFirst(a, b);
      RestOfMultiset(a);
      RestOfMultiset(b);
      OneOrder(a[1..], b[1..]);
      assert a == [a[0]] + a[1..] && b == [b[0]] + b[1..];
    }
  }

  /** Whatever order the environment lists its variables in, they are applied in the same one. */
  lemma OrderOfTheEnvironmentIsIrrelevant(a: seq<Variable>, b: seq<Variable>)
    requires multiset(a) == multiset(b) && NamesDistinct(a)
    ensures SortedByName(a) == SortedByName(b)
  {
    SortedNamesDistinct(a);
    OneOrder(SortedByName(a), SortedByName(b));
  }

  /** Sorting keeps names distinct. */
  lemma SortedNamesDistinct(list: seq<Variable>)
    requires NamesDistinct(list)
    ensures NamesDistinct(SortedByName(list))
  {
    PermutedNamesDistinct(list, SortedByName(list));
  }

  lemma {:induction false} PermutedNamesDistinct(a: seq<Variable>, b: seq<Variable>)
    requires multiset(a) == multiset(b) && NamesDistinct(a)
    ensures NamesDistinct(b)
  {
    forall i, j | 0 <= i < j < |b| ensures b[i].name != b[j].name {
      DistinctCounts(a, b[i], b[j]);
      TwoPlaces(b, i, j);
    }
  }

  /** Variables of one name stand in a list of distinct names at most once between them. */
  lemma {:induction false} DistinctCounts(a: seq<Variable>, x: Variable, y: Variable)
    requires NamesDistinct(a)
    ensures x.name == y.name ==> if x == y then multiset(a)[x] <= 1 else multiset(a)[x] + multiset(a)[y] <= 1
  {
    if a != [] {
      DistinctCounts(a[1..], x, y);
      assert a == [a[0]] + a[1..];
      assert a[0].name == x.name == y.name ==> x !in a[1..] && y !in a[1..];
    }
  }

  lemma TwoPlaces(b: seq<Variable>, i: nat, j: nat)
    requires i < j < |b|
    ensures if b[i] == b[j] then multiset(b)[b[i]] >= 2 else multiset(b)[b[i]] >= 1 && multiset(b)[b[j]] >= 1
  {
    assert b == b[..i] + [b[i]] + b[i + 1..j] + [b[j]] + b[j + 1..];
  }

  // ------------------------------------------------------------------
  // Applying overrides
  // ------------------------------------------------------------------

  datatype Failure = NonUnicode(name: string) | BadOverride(name: string)

  /** What applying a list comes to: the document so far, the names applied, and the first failure. */
  datatype Application = Application(document: Value, applied: seq<string>, failure: Option<Failure>)

  /** An override's value is the JSON it parses as, or else its text; `parse` stands for the JSON parser. */
  function Parsed(raw: string, parse: string -> Option<Value>): Value {
    match parse(raw)
    case Some(value) => value
    case None => Text(raw)
  }

  function ApplyOne(doc: Value, v: Variable, prefix: string, parse: string -> Option<Value>): Application {
    if !v.unicode then Application(doc, [], Some(NonUnicode(v.name)))
    else
      match KeyPath(v.name, prefix)
      case None => Application(doc, [], Some(BadOverride(v.name)))
      case Some(path) =>
        match Write(doc, path, Parsed(v.value, parse))
        case None => Application(doc, [], Some(BadOverride(v.name)))
        case Some(written) => Application(written, [v.name], None)
  }

  function Applied(doc: Value, list: seq<Variable>, prefix: string, parse: string -> Option<Value>): Application
    decreases |list|
  {
    if list == [] then Application(doc, [], None)
    else
      var first := ApplyOne(doc, list[0], prefix, parse);
      if first.failure.Some? then first
      else
        var rest := Applied(first.document, list[1..], prefix, parse);
        rest.(applied := first.applied + rest.applied)
  }

  /** The variables whose name begins with the prefix, in the order they are listed. */
  function Matching(environment: seq<Variable>, prefix: string): seq<Variable> {
    if environment == [] then []
    else (if prefix <= environment[0].name then [environment[0]] else []) + Matching(environment[1..], prefix)
  }

  function Overridden(doc: Value, environment: seq<Variable>, prefix: string,
                      parse: string -> Option<Value>): Application
  {
    Applied(doc, SortedByName(Matching(environment, prefix)), prefix, parse)
  }

  /** Collects the variables whose name begins with the prefix. */
  method Match(environment: seq<Variable>, prefix: string) returns (matched: seq<Variable>)
    ensures matched == Matching(environment, prefix)
  {
    matched := [];
    var i := 0;
    while i < |environment|
      invariant 0 <= i <= |environment|
      invariant matched + Matching(environment[i..], prefix) == Matching(environment, prefix)
    {
      assert environment[i..][1..] == environment[i + 1..];
      if prefix <= environment[i].name {
        matched := matched + [environment[i]];
      }
      i := i + 1;
    }
    assert matched + [] == matched;
  }

  /** Writes one override in place. */
  method ApplyVariable(document: Document, v: Variable, prefix: string, parse: string -> Option<Value>)
    returns (failure: Option<Failure>)
    modifies document
    ensures ApplyOne(old(document.value), v, prefix, parse) ==
              Application(document.value, if failure.None? then [v.name] else [], failure)
  {
    if !v.unicode {
      return Some(NonUnicode(v.name));
    }
    var path := KeyPath(v.name, prefix);
    if path.None? {
      return Some(BadOverride(v.name));
    }
    var ok := document.SetPath(path.value, Parsed(v.value, parse));
    failure := if ok then None else Some(BadOverride(v.name));
  }

  /** `apply_overrides`: applies in place and stops at the first failure, keeping what it has applied. */
  method ApplyOverrides(document: Document, environment: seq<Variable>, prefix: string, parse: string -> Option<Value>)
    returns (applied: seq<string>, failure: Option<Failure>)
    modifies document
    ensures Application(document.value, applied, failure) == Overridden(old(document.value), environment, prefix, parse)
  {
    hide Applied, ApplyOne, SortedByName, Matching, Whole;
    var matched := Match(environment, prefix);
    matched := SortedByName(matched);
    applied, failure := [], None;
    var i := 0;
    ghost var whole := Applied(document.value, matched, prefix, parse);
    WholeOfNothing(whole);
    assert matched[0..] == matched;
    while i < |matched|
      invariant 0 <= i <= |matched| && failure.None?
      invariant Whole(applied, Applied(document.value, matched[i..], prefix, parse)) == whole
    {
      ghost var doc := document.value;
      AppliedStep(doc, matched, i, prefix, parse);
      failure := ApplyVariable(document, matched[i], prefix, parse);
      if failure.Some? {
        WholeOfOne(applied, ApplyOne(doc, matched[i], prefix, parse));
        return;
      }
      WholeOfMore(applied, matched[i].name, Applied(document.value, matched[i + 1..], prefix, parse));
      applied := applied + [matched[i].name];
      i := i + 1;
    }
    assert matched[i..] == [];
    NothingApplied(document.value, prefix, parse);
    WholeOfOne(applied, Application(document.value, [], None));
  }

  lemma WholeOfNothing(rest: Application)
    ensures Whole([], rest) == rest
  {
    assert [] + rest.applied == rest.applied;
  }

  lemma WholeOfOne(applied: seq<string>, last: Application)
    requires last.applied == []
    ensures Whole(applied, last) == last.(applied := applied)
  {
    assert applied + [] == applied;
  }

  lemma WholeOfMore(applied: seq<string>, name: string, rest: Application)
    ensures Whole(applied, Whole([name], rest)) == Whole(applied + [name], rest)
  {
    assert applied + ([name] + rest.applied) == applied + [name] + rest.applied;
  }

  lemma NothingApplied(doc: Value, prefix: string, parse: string -> Option<Value>)
    ensures Applied(doc, [], prefix, parse) == Application(doc, [], None)
  {
  }

  lemma AppliedStep(doc: Value, list: seq<Variable>, i: nat, prefix: string, parse: string -> Option<Value>)
    requires i < |list|
    ensures var first := ApplyOne(doc, list[i], prefix, parse);
            Applied(doc, list[i..], prefix, parse) ==
              if first.failure.Some? then first
              else Whole(first.applied, Applied(first.document, list[i + 1..], prefix, parse))
  {
    assert list[i..][1..] == list[i + 1..];
  }

  /** What was applied before, in front. */
  function Whole(applied: seq<string>, rest: Application): Application {
    rest.(applied := applied + rest.applied)
  }

  lemma {:induction false} MatchingKeepsMultisets(a: seq<Variable>, prefix: string, v: Variable)
    ensures multiset(Matching(a, prefix))[v] == if prefix <= v.name then multiset(a)[v] else 0
  {
    if a != [] {
      MatchingKeepsMultisets(a[1..], prefix, v);
      assert a == [a[0]] + a[1..];
    }
  }

  /** The outcome, document and failure included, does not depend on the order of the environment. */
  lemma OutcomeIgnoresTheOrder(doc: Value, a: seq<Variable>, b: seq<Variable>, prefix: string,
                               parse: string -> Option<Value>)
    requires multiset(a) == multiset(b) && NamesDistinct(a)
    ensures Overridden(doc, a, prefix, parse) == Overridden(doc, b, prefix, parse)
  {
    forall v ensures multiset(Matching(a, prefix))[v] == multiset(Matching(b, prefix))[v] {
      MatchingKeepsMultisets(a, prefix, v);
      MatchingKeepsMultisets(b, prefix, v);
    }
    MatchingNamesDistinct(a, prefix);
    OrderOfTheEnvironmentIsIrrelevant(Matching(a, prefix), Matching(b, prefix));
  }

  lemma {:induction false} MatchingNamesDistinct(a: seq<Variable>, prefix: string)
    requires NamesDistinct(a)
    ensures NamesDistinct(Matching(a, prefix))
    ensures forall v :: v in Matching(a, prefix) ==> v in a
  {
    if a != [] {
      MatchingNamesDistinct(a[1..], prefix);
      assert forall v :: v in a[1..] ==> v in a && v.name != a[0].name;
    }
  }

  /** A name that extends another is applied after it. */
  lemma ExtensionIsAppliedLater(list: seq<Variable>, i: nat, j: nat)
    requires InOrder(list) && i < |list| && j < |list|
    requires list[i].name < list[j].name
    ensures i < j
  {
    if j < i {
      PrefixAtMost(list[i].name, list[j].name);
      AtMostAntisymmetric(list[i].name, list[j].name);
    }
  }

  /** What a path reads as after the overrides of a list, if it read as `reading` before them. */
  function ReadingThrough(reading: Option<Value>, path: Path, list: seq<Variable>, prefix: string,
                          parse: string -> Option<Value>): Option<Value>
    decreases |list|
  {
    if list == [] then reading
    else
      match KeyPath(list[0].name, prefix)
      case None => reading
      case Some(written) =>
        ReadingThrough(ReadingAfter(reading, path, written, Parsed(list[0].value, parse)), path, list[1..], prefix,
                       parse)
  }

  /** On success any path reads as the document and the overrides at related paths make it. */
  lemma {:induction false} FinalReading(doc: Value, list: seq<Variable>, path: Path, prefix: string,
                                        parse: string -> Option<Value>)
    requires Applied(doc, list, prefix, parse).failure.None?
    ensures Get(Applied(doc, list, prefix, parse).document, path) ==
            ReadingThrough(Get(doc, path), path, list, prefix, parse)
    decreases |list|
  {
    if list != [] {
      WriteChangesReadings(doc, KeyPath(list[0].name, prefix).value, Parsed(list[0].value, parse), path);
      FinalReading(ApplyOne(doc, list[0], prefix, parse).document, list[1..], path, prefix, parse);
    }
  }

  /**
   On success an override reads back at its path exactly when the later overrides, by
   themselves, leave its value there: whatever the document was.
   */
  lemma {:induction false} OverrideReadsBackExactly(doc: Value, list: seq<Variable>, i: nat, prefix: string,
                                                    parse: string -> Option<Value>)
    requires i < |list| && Applied(doc, list, prefix, parse).failure.None?
    ensures KeyPath(list[i].name, prefix).Some?
    ensures var path, value := KeyPath(list[i].name, prefix).value, Parsed(list[i].value, parse);
            Get(Applied(doc, list, prefix, parse).document, path) ==
              ReadingThrough(Some(value), path, list[i + 1..], prefix, parse)
    decreases |list|
  {
    var written := ApplyOne(doc, list[0], prefix, parse).document;
    if i > 0 {
      OverrideReadsBackExactly(written, list[1..], i - 1, prefix, parse);
      assert list[1..][i..] == list[i + 1..];
    } else {
      var path := KeyPath(list[0].name, prefix).value;
      WriteReadsBack(doc, path, Parsed(list[0].value, parse));
      FinalReading(written, list[1..], path, prefix, parse);
    }
  }

  /** Override `j` leaves a reading as it is. */
  predicate Spares(reading: Value, path: Path, v: Variable, prefix: string, parse: string -> Option<Value>) {
    KeyPath(v.name, prefix).Some? ==> KeepsReading(reading, path, KeyPath(v.name, prefix).value, Parsed(v.value, parse))
  }

  lemma {:induction false} SparedReading(reading: Value, path: Path, list: seq<Variable>, prefix: string,
                                         parse: string -> Option<Value>)
    requires forall j :: 0 <= j < |list| ==> Spares(reading, path, list[j], prefix, parse)
    ensures ReadingThrough(Some(reading), path, list, prefix, parse) == Some(reading)
    decreases |list|
  {
    if list != [] {
      assert Spares(reading, path, list[0], prefix, parse);
      if KeyPath(list[0].name, prefix).Some? {
        KeepsReadingExactly(reading, path, KeyPath(list[0].name, prefix).value, Parsed(list[0].value, parse));
        SparedReading(reading, path, list[1..], prefix, parse);
      }
    }
  }

  /** An override that every later one spares reads back at its path in the final document. */
  lemma OverrideReadsBack(doc: Value, list: seq<Variable>, i: nat, prefix: string, parse: string -> Option<Value>)
    requires i < |list| && Applied(doc, list, prefix, parse).failure.None? && KeyPath(list[i].name, prefix).Some?
    requires forall j :: i < j < |list| ==>
               Spares(Parsed(list[i].value, parse), KeyPath(list[i].name, prefix).value, list[j], prefix, parse)
    ensures Get(Applied(doc, list, prefix, parse).document, KeyPath(list[i].name, prefix).value) ==
              Some(if parse(list[i].value).Some? then parse(list[i].value).value else Text(list[i].value))
  {
    OverrideReadsBackExactly(doc, list, i, prefix, parse);
    SparedReading(Parsed(list[i].value, parse), KeyPath(list[i].name, prefix).value, list[i + 1..], prefix, parse);
  }

  /** With one later override at a related path, the earlier one reads back if and only if that one spares it. */
  lemma OneLaterOverride(doc: Value, list: seq<Variable>, i: nat, j: nat, prefix: string,
                         parse: string -> Option<Value>)
    requires i < j < |list| && Applied(doc, list, prefix, parse).failure.None?
    requires KeyPath(list[i].name, prefix).Some? && KeyPath(list[j].name, prefix).Some?
    requires forall k :: i < k < |list| && k != j && KeyPath(list[k].name, prefix).Some? ==>
               !Related(KeyPath(list[k].name, prefix).value, KeyPath(list[i].name, prefix).value)
    ensures var path, value := KeyPath(list[i].name, prefix).value, Parsed(list[i].value, parse);
            Get(Applied(doc, list, prefix, parse).document, path) == Some(value)
            <==> KeepsReading(value, path, KeyPath(list[j].name, prefix).value, Parsed(list[j].value, parse))
  {
    hide KeyPath, Parsed, Applied, ReadingThrough, ReadingAfter, KeepsReading, Related;
    var path, value := KeyPath(list[i].name, prefix).value, Parsed(list[i].value, parse);
    OverrideReadsBackExactly(doc, list, i, prefix, parse);
    AllHavePaths(doc, list, prefix, parse);
    assert list[i + 1..] == list[i + 1..j] + ([list[j]] + list[j + 1..]);
    OthersPass(Some(value), path, list[i + 1..j], [list[j]] + list[j + 1..], prefix, parse);
    OneDisturbs(Some(value), path, list[j], list[j + 1..], prefix, parse);
    KeepsReadingExactly(value, path, KeyPath(list[j].name, prefix).value, Parsed(list[j].value, parse));
  }

  lemma OneDisturbs(reading: Option<Value>, path: Path, v: Variable, others: seq<Variable>, prefix: string,
                    parse: string -> Option<Value>)
    requires KeyPath(v.name, prefix).Some?
    requires forall k :: 0 <= k < |others| ==> KeyPath(others[k].name, prefix).Some?
                                               && !Related(KeyPath(others[k].name, prefix).value, path)
    ensures ReadingThrough(reading, path, [v] + others, prefix, parse) ==
              ReadingAfter(reading, path, KeyPath(v.name, prefix).value, Parsed(v.value, parse))
  {
    hide KeyPath, Parsed, ReadingAfter, Related;
    assert ([v] + others)[1..] == others && others + [] == others;
    OthersPass(ReadingAfter(reading, path, KeyPath(v.name, prefix).value, Parsed(v.value, parse)), path, others, [],
               prefix, parse);
  }

  lemma {:induction false} AllHavePaths(doc: Value, list: seq<Variable>, prefix: string, parse: string -> Option<Value>)
    requires Applied(doc, list, prefix, parse).failure.None?
    ensures forall k :: 0 <= k < |list| ==> KeyPath(list[k].name, prefix).Some?
    decreases |list|
  {
    if list != [] {
      AllHavePaths(ApplyOne(doc, list[0], prefix, parse).document, list[1..], prefix, parse);
      assert forall k :: 1 <= k < |list| ==> list[k] == list[1..][k - 1];
    }
  }

  /** Overrides at unrelated paths pass a reading on as it is. */
  lemma {:induction false} OthersPass(reading: Option<Value>, path: Path, others: seq<Variable>, rest: seq<Variable>,
                                      prefix: string, parse: string -> Option<Value>)
    requires forall k :: 0 <= k < |others| ==> KeyPath(others[k].name, prefix).Some?
                                               && !Related(KeyPath(others[k].name, prefix).value, path)
    ensures ReadingThrough(reading, path, others + rest, prefix, parse) ==
            ReadingThrough(reading, path, rest, prefix, parse)
    decreases |others|
  {
    if others == [] {
      assert others + rest == rest;
    } else {
      assert (others + rest)[0] == others[0] && (others + rest)[1..] == others[1..] + rest;
      OthersPass(reading, path, others[1..], rest, prefix, parse);
    }
  }

  /** On success every matching name has been applied, in byte order. */
  lemma {:induction false} SuccessAppliesAll(doc: Value, list: seq<Variable>, prefix: string,
                                             parse: string -> Option<Value>)
    requires Applied(doc, list, prefix, parse).failure.None?
    ensures |Applied(doc, list, prefix, parse).applied| == |list|
    ensures forall i :: 0 <= i < |list| ==> Applied(doc, list, prefix, parse).applied[i] == list[i].name
    decreases |list|
  {
    if list != [] {
      SuccessAppliesAll(ApplyOne(doc, list[0], prefix, parse).document, list[1..], prefix, parse);
    }
  }

  /**
   The order is that of the names, not of the paths: with names that differ in case a
   longer path can be written first. The shorter one then loses it exactly when its
   value reads otherwise there.
   */
  lemma LongerPathMayComeFirst(doc: Value, x: Value, y: Value)
    requires Write(doc, ["a", "b"], x).Some?
    ensures AtMost("P__A__B", "P__a")
    ensures KeyPath("P__A__B", "P__") == Some(["a", "b"]) && KeyPath("P__a", "P__") == Some(["a"])
    ensures var longer := Write(doc, ["a", "b"], x).value;
            && Write(longer, ["a"], y).Some?
            && (Get(Write(longer, ["a"], y).value, ["a", "b"]) == Some(x) <==> Get(y, ["b"]) == Some(x))
  {
    hide KeyPath, AtMost;
    NamesDifferInCase();
    assert ["a", "b"][1..] == ["b"];
  }

  lemma NamesDifferInCase()
    ensures AtMost("P__A__B", "P__a")
    ensures KeyPath("P__A__B", "P__") == Some(["a", "b"]) && KeyPath("P__a", "P__") == Some(["a"])
  {
    hide Split, LowerAll;
    var short, long := "P__a", "P__A__B";
    assert long[1..] == "__A__B" && long[1..][1..] == "_A__B" && long[1..][1..][1..] == "A__B";
    assert short[1..] == "__a" && short[1..][1..] == "_a" && short[1..][1..][1..] == "a";
    assert long[3..] == "A__B" && short[3..] == "a";
    PathOfLong();
    PathOfShort();
  }

  lemma PathOfShort()
    ensures LowerAll(Split("a")) == ["a"]
  {
    assert Separator("a") == 1;
    assert Lower("a") == "a";
  }

  lemma PathOfLong()
    ensures LowerAll(Split("A__B")) == ["a", "b"]
  {
    var s := "A__B";
    assert s[1..] == "__B" && Separator("__B") == 0;
    assert Separator(s) == 1;
    assert s[3..] == "B" && s[..1] == "A" && Separator("B") == 1;
    assert Split(s) == ["A", "B"];
    assert Lower("A") == "a" && Lower("B") == "b";
  }
}
