/**
 What the names of the environment mean for the document
 (crates/sc-config/src/load.rs): key paths from names, and whole environments.
 */
module ConfigNames {
  import opened Options
  import opened ConfigValue
  import opened ConfigOverrides

  // ------------------------------------------------------------------
  // Names and key paths
  // ------------------------------------------------------------------

  /** ASCII capitals are lowered, and no other character is changed. */
  predicate Lowered(path: Path, segments: seq<string>) {
    |path| == |segments| && forall i :: 0 <= i < |segments| ==> LoweredName(path[i], segments[i])
  }

  predicate LoweredName(lower: string, s: string) {
    && |lower| == |s|
    && forall j :: 0 <= j < |s| ==> lower[j] == if 'A' <= s[j] <= 'Z' then s[j] + ' ' else s[j]
  }

  /**
   The name made of a prefix and separable segments has those segments, lowered, as its
   key path; it has none exactly if a segment is empty.
   */
  lemma KeyPathOfJoined(prefix: string, segments: seq<string>)
    requires segments != [] && Separable(segments)
    ensures KeyPath(prefix + Join(segments), prefix).None? <==> exists i :: 0 <= i < |segments| && segments[i] == ""
    ensures KeyPath(prefix + Join(segments), prefix).Some? ==>
              Lowered(KeyPath(prefix + Join(segments), prefix).value, segments)
  {
    SeparableIsSome(segments);
    hide Separable, Split, Join, LowerAll, KeyPath, Lowered;
    SplitOfSeparable(segments);
    LowerAllLowers(segments);
    KeyPathOfRest(prefix, Join(segments));
  }

  lemma KeyPathOfRest(prefix: string, rest: string)
    ensures var segments := LowerAll(Split(rest));
            && (KeyPath(prefix + rest, prefix).None? <==> exists i :: 0 <= i < |segments| && segments[i] == "")
            && (KeyPath(prefix + rest, prefix).Some? ==> KeyPath(prefix + rest, prefix).value == segments)
  {
    hide Split, LowerAll;
    assert (prefix + rest)[|prefix|..] == rest;
  }

  lemma SeparableIsSome(segments: seq<string>)
    requires Separable(segments)
    ensures segments != []
  {
  }

  lemma LowerAllLowers(segments: seq<string>)
    ensures Lowered(LowerAll(segments), segments)
    ensures (exists i :: 0 <= i < |segments| && segments[i] == "")
            <==> exists i :: 0 <= i < |segments| && LowerAll(segments)[i] == ""
  {
    var lower := LowerAll(segments);
    forall i | 0 <= i < |segments| ensures lower[i] == Lower(segments[i]) && LoweredName(lower[i], segments[i]) {
    }
    if i :| 0 <= i < |segments| && segments[i] == "" {
      assert lower[i] == "";
    }
    if i :| 0 <= i < |segments| && lower[i] == "" {
      assert segments[i] == "";
    }
  }

  /** Every name that begins with the prefix is made that way, in one way only. */
  lemma EveryNameIsJoined(name: string, prefix: string)
    requires prefix <= name
    ensures exists segments :: Makes(prefix, segments, name)
    ensures forall a, b :: Makes(prefix, a, name) && Makes(prefix, b, name) ==> a == b
  {
    hide Separable, Split, Join;
    var rest := name[|prefix|..];
    JoinOfSplit(rest);
    SplitIsSeparable(rest);
    assert Makes(prefix, Split(rest), name);
    forall a | Makes(prefix, a, name) ensures a == Split(rest) {
      assert (prefix + Join(a))[|prefix|..] == Join(a);
      SplitOfSeparable(a);
    }
  }

  /** The name is the prefix and these separable segments. */
  predicate Makes(prefix: string, segments: seq<string>, name: string) {
    segments != [] && Separable(segments) && name == prefix + Join(segments)
  }

  /** A name with nothing after the prefix has no key path. */
  lemma NothingAfterThePrefix(prefix: string)
    ensures KeyPath(prefix, prefix).None?
  {
    assert Separable([""]) && Join([""]) == "";
    assert prefix + "" == prefix;
    KeyPathOfJoined(prefix, [""]);
    assert [""][0] == "";
  }

  // ------------------------------------------------------------------
  // Byte order
  // ------------------------------------------------------------------

  /** The first byte in which two names differ decides their order. */
  lemma {:induction false} FirstDifferenceDecides(common: string, x: char, a: string, y: char, b: string)
    requires x < y
    ensures AtMost(common + [x] + a, common + [y] + b) && !AtMost(common + [y] + b, common + [x] + a)
    decreases |common|
  {
    var left, right := common + [x] + a, common + [y] + b;
    if common == "" {
      assert left[0] == x && right[0] == y;
    } else {
      assert left[1..] == common[1..] + [x] + a && right[1..] == common[1..] + [y] + b;
      FirstDifferenceDecides(common[1..], x, a, y, b);
    }
  }

  // ------------------------------------------------------------------
  // Whole environments
  // ------------------------------------------------------------------

  function NamesOf(list: seq<Variable>): (names: seq<string>)
    ensures |names| == |list| && forall i :: 0 <= i < |list| ==> names[i] == list[i].name
  {
    seq(|list|, i requires 0 <= i < |list| => list[i].name)
  }

  /** Why a variable cannot be applied to a document, if it cannot. */
  function Reason(doc: Value, v: Variable, prefix: string, parse: string -> Option<Value>): Option<Failure> {
    if !v.unicode then Some(NonUnicode(v.name))
    else if KeyPath(v.name, prefix).None?
            || Write(doc, KeyPath(v.name, prefix).value, Parsed(v.value, parse)).None?
    then Some(BadOverride(v.name))
    else None
  }

  /**
   A list is applied up to its first variable that cannot be: the document and the
   names are those of the ones before it, and it is what is reported.
   */
  lemma {:induction false} StopsAtTheFirstFailure(doc: Value, list: seq<Variable>, prefix: string,
                                                  parse: string -> Option<Value>) returns (n: nat)
    ensures n <= |list|
    ensures var all, some := Applied(doc, list, prefix, parse), Applied(doc, list[..n], prefix, parse);
            && some.failure.None? && all.document == some.document
            && all.applied == some.applied == NamesOf(list[..n])
            && (if n == |list| then all.failure.None?
                else all.failure.Some? && all.failure == Reason(some.document, list[n], prefix, parse))
    decreases |list|
  {
    if list == [] {
      n := 0;
      assert list[..0] == [];
    } else if ApplyOne(doc, list[0], prefix, parse).failure.Some? {
      n := 0;
      assert list[..0] == [];
    } else {
      var next := ApplyOne(doc, list[0], prefix, parse).document;
      var m := StopsAtTheFirstFailure(next, list[1..], prefix, parse);
      n := m + 1;
      assert list[..n][0] == list[0] && list[..n][1..] == list[1..][..m];
      assert [list[0].name] + NamesOf(list[1..][..m]) == NamesOf(list[..n]);
    }
  }

  /**
   Of a whole environment: exactly the variables that begin with the prefix are taken,
   in the byte order of their names, up to the first that cannot be applied.
   */
  lemma EnvironmentIsApplied(doc: Value, environment: seq<Variable>, prefix: string, parse: string -> Option<Value>)
    returns (list: seq<Variable>, n: nat)
    ensures InOrder(list) && n <= |list|
    ensures forall v :: multiset(list)[v] == if prefix <= v.name then multiset(environment)[v] else 0
    ensures var all, some := Overridden(doc, environment, prefix, parse), Applied(doc, list[..n], prefix, parse);
            && some.failure.None? && all.document == some.document && all.applied == NamesOf(list[..n])
            && (if n == |list| then all.failure.None?
                else all.failure.Some? && all.failure == Reason(some.document, list[n], prefix, parse))
  {
    hide Applied, AtMost, Reason;
    list := SortedByName(Matching(environment, prefix));
    n := StopsAtTheFirstFailure(doc, list, prefix, parse);
    forall v: Variable ensures multiset(list)[v] == if prefix <= v.name then multiset(environment)[v] else 0 {
      MatchingKeepsMultisets(environment, prefix, v);
    }
  }

  /**
   In an environment whose one variable of the prefix is made of these segments, on
   success the override reads back at the path of the segments, lowered.
   */
  lemma NamedOverrideReadsBack(doc: Value, environment: seq<Variable>, k: nat, prefix: string, segments: seq<string>,
                               path: Path, parse: string -> Option<Value>)
    requires k < |environment| && Makes(prefix, segments, environment[k].name)
    requires forall i :: 0 <= i < |environment| && prefix <= environment[i].name ==> i == k
    requires Lowered(path, segments)
    requires Overridden(doc, environment, prefix, parse).failure.None?
    ensures Get(Overridden(doc, environment, prefix, parse).document, path) ==
              Some(if parse(environment[k].value).Some? then parse(environment[k].value).value
                   else Text(environment[k].value))
  {
    hide Separable, Join, AtMost, Write;
    var v := environment[k];
    OnlyMatch(environment, prefix, k);
    KeyPathOfJoined(prefix, segments);
    assert SortedByName([v]) == [v];
    var found := KeyPath(v.name, prefix);
    assert found.Some?;
    SameLowered(path, found.value, segments);
    assert [v][1..] == [];
    OverrideReadsBack(doc, [v], 0, prefix, parse);
  }

  lemma SameLowered(a: Path, b: Path, segments: seq<string>)
    requires Lowered(a, segments) && Lowered(b, segments)
    ensures a == b
  {
    forall i | 0 <= i < |segments| ensures a[i] == b[i] {
      assert LoweredName(a[i], segments[i]) && LoweredName(b[i], segments[i]);
    }
  }

  lemma {:induction false} OnlyMatch(environment: seq<Variable>, prefix: string, k: nat)
    requires k < |environment| && prefix <= environment[k].name
    requires forall i :: 0 <= i < |environment| && prefix <= environment[i].name ==> i == k
    ensures Matching(environment, prefix) == [environment[k]]
    decreases |environment|
  {
    if k == 0 {
      NoMatch(environment[1..], prefix);
    } else {
      OnlyMatch(environment[1..], prefix, k - 1);
    }
  }

  lemma {:induction false} NoMatch(environment: seq<Variable>, prefix: string)
    requires forall i :: 0 <= i < |environment| ==> !(prefix <= environment[i].name)
    ensures Matching(environment, prefix) == []
  {
    if environment != [] {
      NoMatch(environment[1..], prefix);
    }
  }
}
