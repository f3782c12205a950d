/**
 Configuration documents (crates/sc-config/src/load.rs): the deep merge of two
 documents, and the write of one value at a key path, done in place with a stack
 of the maps it has taken apart.
 */
module ConfigValue {
  import opened Options

  datatype Value =
    | Null
    | Bool(b: bool)
    | Number(text: string)
    | Text(s: string)
    | Array(items: seq<Value>)
    | Object(fields: map<string, Value>)

  type Path = seq<string>

  const EMPTY: Value := Object(map[])

  /** What a path reads as; an absent key or a key of something that is no object reads as nothing. */
  function Get(doc: Value, path: Path): Option<Value>
    decreases |path|
  {
    if path == [] then Some(doc)
    else if doc.Object? && path[0] in doc.fields then Get(doc.fields[path[0]], path[1..])
    else None
  }

  // ------------------------------------------------------------------
  // Merge
  // ------------------------------------------------------------------

  /** Objects merge key by key; anything else is replaced by the overlay. */
  function Merge(base: Value, overlay: Value): Value
    decreases overlay, 1
  {
    if base.Object? && overlay.Object? then
      Object(map k | k in base.fields.Keys + overlay.fields.Keys :: MergedAt(base, overlay, k))
    else overlay
  }

  function MergedAt(base: Value, overlay: Value, key: string): Value
    requires base.Object? && overlay.Object? && (key in base.fields || key in overlay.fields)
    decreases overlay, 0
  {
    if key !in overlay.fields then base.fields[key]
    else if key in base.fields then Merge(base.fields[key], overlay.fields[key])
    else overlay.fields[key]
  }

  /** The merge as the source runs it: the overlay's keys one by one into the base's map. */
  method MergeInto(base: Value, overlay: Value) returns (merged: Value)
    ensures merged == Merge(base, overlay)
    decreases overlay
  {
    if !(base.Object? && overlay.Object?) {
      return overlay;
    }
    var fields, left := base.fields, overlay.fields.Keys;
    while left != {}
      invariant left <= overlay.fields.Keys && MergedBut(base, overlay, fields, left)
      decreases |left|
    {
      hide MergedBut, Merge;
      assert (forall k :: k !in left) ==> left == {};
      var key :| key in left;
      MergedButOne(base, overlay, fields, left, key);
      var child := overlay.fields[key];
      if key in fields {
        child := MergeInto(fields[key], overlay.fields[key]);
      }
      fields := fields[key := child];
      left := left - {key};
    }
    merged := Object(fields);
  }

  /** The base's fields with all of the overlay's keys merged in but those left. */
  ghost predicate MergedBut(base: Value, overlay: Value, fields: map<string, Value>, left: set<string>)
    requires base.Object? && overlay.Object? && left <= overlay.fields.Keys
  {
    && (forall k :: k in fields <==> k in base.fields || k in overlay.fields.Keys - left)
    && forall k :: k in fields ==> fields[k] == if k in left then base.fields[k] else MergedAt(base, overlay, k)
  }

  /** Merging in one more key. */
  lemma MergedButOne(base: Value, overlay: Value, fields: map<string, Value>, left: set<string>, key: string)
    requires base.Object? && overlay.Object? && left <= overlay.fields.Keys && key in left
    requires MergedBut(base, overlay, fields, left)
    ensures var child := if key in fields then Merge(fields[key], overlay.fields[key]) else overlay.fields[key];
            MergedBut(base, overlay, fields[key := child], left - {key})
  {
    hide Merge;
  }

  /** Some proper prefix of the path, or the path itself, reads as something that is no object. */
  predicate Shadowed(doc: Value, path: Path) {
    exists n :: 0 <= n <= |path| && Get(doc, path[..n]).Some? && !Get(doc, path[..n]).value.Object?
  }

  lemma ShadowedStep(doc: Value, path: Path)
    requires path != [] && doc.Object?
    ensures Shadowed(doc, path) <==> path[0] in doc.fields && Shadowed(doc.fields[path[0]], path[1..])
  {
    if path[0] in doc.fields {
      var child := doc.fields[path[0]];
      if n :| 0 <= n <= |path| && Get(doc, path[..n]).Some? && !Get(doc, path[..n]).value.Object? {
        assert path[..n][1..] == path[1..][..n - 1];
      }
      if n :| 0 <= n <= |path| - 1 && Get(child, path[1..][..n]).Some? && !Get(child, path[1..][..n]).value.Object? {
        assert path[..n + 1][1..] == path[1..][..n];
      }
    }
  }

  /** What the overlay says that is no object is what the merge says. */
  lemma {:induction false} OverlayWins(base: Value, overlay: Value, path: Path)
    requires Get(overlay, path).Some? && !Get(overlay, path).value.Object?
    ensures Get(Merge(base, overlay), path) == Get(overlay, path)
    decreases |path|
  {
    if path != [] && base.Object? && path[0] in base.fields {
      OverlayWins(base.fields[path[0]], overlay.fields[path[0]], path[1..]);
    }
  }

  /** Where the overlay says nothing, and hides nothing, the base shows through. */
  lemma {:induction false} BaseShowsThrough(base: Value, overlay: Value, path: Path)
    requires Get(overlay, path).None? && !Shadowed(overlay, path)
    ensures Get(Merge(base, overlay), path) == Get(base, path)
    decreases |path|
  {
    assert path[..0] == [];
    assert overlay.Object?;
    if base.Object? && path[0] in overlay.fields {
      ShadowedStep(overlay, path);
      if path[0] in base.fields {
        BaseShowsThrough(base.fields[path[0]], overlay.fields[path[0]], path[1..]);
      }
    }
  }

  // ------------------------------------------------------------------
  // Three documents
  // ------------------------------------------------------------------

  /** Where both are objects every key of `a` is one of `c`, all the way down. */
  predicate KeysWithin(a: Value, c: Value)
    decreases c
  {
    a.Object? && c.Object? ==>
      forall k :: k in a.fields ==> k in c.fields && KeysWithin(a.fields[k], c.fields[k])
  }

  /** Merged under a document, another one adds nothing exactly when it has no key of its own. */
  lemma {:induction false} AddsNothingExactly(a: Value, c: Value)
    ensures Merge(a, c) == c <==> KeysWithin(a, c)
    decreases c
  {
    if a.Object? && c.Object? {
      var merged := Merge(a, c);
      forall k | k in merged.fields
        ensures merged.fields[k] == MergedAt(a, c, k)
        ensures k in a.fields && k in c.fields ==>
                  (merged.fields[k] == c.fields[k] <==> KeysWithin(a.fields[k], c.fields[k]))
      {
        if k in a.fields && k in c.fields {
          AddsNothingExactly(a.fields[k], c.fields[k]);
        }
      }
      if KeysWithin(a, c) {
        assert merged.fields == c.fields;
      } else {
        var k :| k in a.fields && !(k in c.fields && KeysWithin(a.fields[k], c.fields[k]));
        assert k in merged.fields;
      }
    }
  }

  /** Somewhere the middle document replaces an object of the first that has keys the third has not. */
  predicate Hides(a: Value, b: Value, c: Value)
    decreases c
  {
    && a.Object? && c.Object?
    && (if b.Object? then
          exists k :: k in a.fields && k in b.fields && k in c.fields && Hides(a.fields[k], b.fields[k], c.fields[k])
        else !KeysWithin(a, c))
  }

  /** Merging is associative exactly where nothing is hidden in this way. */
  lemma {:induction false} MergeAssociatesExactly(a: Value, b: Value, c: Value)
    ensures Merge(Merge(a, b), c) == Merge(a, Merge(b, c)) <==> !Hides(a, b, c)
    decreases c
  {
    if a.Object? && b.Object? && c.Object? {
      var left, right := Merge(Merge(a, b), c), Merge(a, Merge(b, c));
      assert left.fields.Keys == right.fields.Keys;
      forall k | k in left.fields
        ensures left.fields[k] == right.fields[k] <==>
                  !(k in a.fields && k in b.fields && k in c.fields && Hides(a.fields[k], b.fields[k], c.fields[k]))
      {
        MergesAt(a, b, c, k);
        if k in a.fields && k in b.fields && k in c.fields {
          MergeAssociatesExactly(a.fields[k], b.fields[k], c.fields[k]);
        }
      }
      assert !Hides(a, b, c) ==> left.fields == right.fields;
    } else if a.Object? && c.Object? {
      AddsNothingExactly(a, c);
    }
  }

  /** Either way of merging three objects, at one key. */
  lemma MergesAt(a: Value, b: Value, c: Value, k: string)
    requires a.Object? && b.Object? && c.Object?
    requires k in a.fields || k in b.fields || k in c.fields
    ensures k in Merge(Merge(a, b), c).fields && k in Merge(a, Merge(b, c)).fields
    ensures if k in a.fields && k in b.fields && k in c.fields
            then && Merge(Merge(a, b), c).fields[k] == Merge(Merge(a.fields[k], b.fields[k]), c.fields[k])
                 && Merge(a, Merge(b, c)).fields[k] == Merge(a.fields[k], Merge(b.fields[k], c.fields[k]))
            else Merge(Merge(a, b), c).fields[k] == Merge(a, Merge(b, c)).fields[k]
  {
    var ab, bc := Merge(a, b), Merge(b, c);
    assert k in ab.fields ==> ab.fields[k] == MergedAt(a, b, k);
    assert k in bc.fields ==> bc.fields[k] == MergedAt(b, c, k);
    assert Merge(ab, c).fields[k] == MergedAt(ab, c, k);
    assert Merge(a, bc).fields[k] == MergedAt(a, bc, k);
  }

  /** An intermediate scalar hides the base. */
  lemma MergeDoesNotAssociate()
    ensures var base, scalar := Object(map["a" := Null]), Number("1");
            Merge(Merge(base, scalar), EMPTY) == EMPTY && Merge(base, Merge(scalar, EMPTY)) == base
  {
    var base := Object(map["a" := Null]);
    assert Merge(base, EMPTY).fields == base.fields;
  }

  // ------------------------------------------------------------------
  // Writing one value
  // ------------------------------------------------------------------

  /** The plain recursive write: nothing when the path is empty or leads through something that is no object. */
  function Write(doc: Value, path: Path, value: Value): Option<Value>
    decreases |path|
  {
    if path == [] || !doc.Object? then None
    else if |path| == 1 then Some(Object(doc.fields[path[0] := value]))
    else
      match Write(Child(doc, path[0]), path[1..], value)
      case None => None
      case Some(child) => Some(Object(doc.fields[path[0] := child]))
  }

  function Child(doc: Value, key: string): Value
    requires doc.Object?
  {
    if key in doc.fields then doc.fields[key] else EMPTY
  }

  /** A map taken apart: `others` are its fields without `key`, which was there if it `existed`. */
  datatype Frame = Frame(key: string, others: map<string, Value>, existed: bool)

  /** Puts the frames back around `current`, innermost last; new keys are kept only when committing. */
  function Rebuilt(stack: seq<Frame>, current: Value, commitNew: bool): Value
    decreases |stack|
  {
    if stack == [] then current
    else
      var frame := stack[|stack| - 1];
      Rebuilt(stack[..|stack| - 1],
              Object(if frame.existed || commitNew then frame.others[frame.key := current] else frame.others),
              commitNew)
  }

  lemma Pushed(stack: seq<Frame>, frame: Frame, current: Value, commitNew: bool)
    ensures Rebuilt(stack + [frame], current, commitNew) ==
              Rebuilt(stack,
                      Object(if frame.existed || commitNew then frame.others[frame.key := current] else frame.others),
                      commitNew)
  {
    assert (stack + [frame])[..|stack|] == stack;
  }

  class Document {
    var value: Value

    constructor (value: Value)
      ensures this.value == value
    {
      this.value := value;
    }

    /** Puts the frames back, innermost first. */
    method Reassemble(stack: seq<Frame>, innermost: Value, commitNew: bool)
      modifies this
      ensures value == Rebuilt(stack, innermost, commitNew)
    {
      var current, n := innermost, |stack|;
      assert stack[..n] == stack;
      while n > 0
        invariant 0 <= n <= |stack|
        invariant Rebuilt(stack[..n], current, commitNew) == Rebuilt(stack, innermost, commitNew)
      {
        n := n - 1;
        var fields := stack[n].others;
        if stack[n].existed || commitNew {
          fields := fields[stack[n].key := current];
        }
        assert stack[..n + 1][..n] == stack[..n];
        current := Object(fields);
      }
      value := current;
    }

    /**
     Writes in place. The document becomes what the recursive write makes of it; on
     failure the frames rebuild exactly the document that was taken apart.
     */
    method SetPath(path: Path, value: Value) returns (ok: bool)
      modifies this
      ensures ok <==> Write(old(this.value), path, value).Some?
      ensures this.value == if ok then Write(old(this.value), path, value).value else old(this.value)
    {
      if path == [] || !this.value.Object? {
        return false;
      }
      ghost var doc := this.value;
      var stack: seq<Frame> := [];
      var current := this.value;
      this.value := Null;
      var n := 0;
      while n < |path| - 1
        invariant 0 <= n <= |path| - 1
        invariant Rebuilt(stack, current, false) == doc
        invariant Inside(doc, path, value, stack, n, current)
      {
        if !current.Object? {
          Reassemble(stack, current, false);
          return false;
        }
        var existed := path[n] in current.fields;
        var child := if existed then current.fields[path[n]] else EMPTY;
        var frame := Frame(path[n], current.fields - {path[n]}, existed);
        Descended(doc, path, value, stack, n, current, frame, child);
        stack, current, n := stack + [frame], child, n + 1;
      }
      if !current.Object? {
        Reassemble(stack, current, false);
        return false;
      }
      assert path[n..] == [path[n]];
      Reassemble(stack, Object(current.fields[path[n] := value]), true);
      ok := true;
    }
  }

  /** Writing the rest of the path in `current` and putting the frames back writes the whole path. */
  ghost predicate Inside(doc: Value, path: Path, value: Value, stack: seq<Frame>, n: nat, current: Value)
    requires n < |path|
  {
    match Write(current, path[n..], value)
    case None => Write(doc, path, value).None?
    case Some(written) => Write(doc, path, value) == Some(Rebuilt(stack, written, true))
  }

  lemma Descended(doc: Value, path: Path, value: Value, stack: seq<Frame>, n: nat, current: Value, frame: Frame,
                  child: Value)
    requires n < |path| - 1 && current.Object? && Inside(doc, path, value, stack, n, current)
    requires Rebuilt(stack, current, false) == doc
    requires child == Child(current, path[n])
    requires frame == Frame(path[n], current.fields - {path[n]}, path[n] in current.fields)
    ensures Inside(doc, path, value, stack + [frame], n + 1, child)
    ensures Rebuilt(stack + [frame], child, false) == doc
  {
    hide Rebuilt, Write;
    Pushed(stack, frame, child, false);
    assert path[n] in current.fields ==> frame.others[path[n] := child] == current.fields;
    assert path[n] !in current.fields ==> frame.others == current.fields;
    WriteSteps(current, path[n..], value);
    assert path[n..][1..] == path[n + 1..];
    var rest := Write(child, path[n + 1..], value);
    if rest.Some? {
      Pushed(stack, frame, rest.value, true);
      assert frame.others[path[n] := rest.value] == current.fields[path[n] := rest.value];
    }
  }

  lemma WriteSteps(doc: Value, path: Path, value: Value)
    requires |path| > 1 && doc.Object?
    ensures var rest := Write(Child(doc, path[0]), path[1..], value);
            Write(doc, path, value) == if rest.None? then None else Some(Object(doc.fields[path[0] := rest.value]))
  {
  }

  // ------------------------------------------------------------------
  // What a write does to the readings
  // ------------------------------------------------------------------

  predicate Related(a: Path, b: Path) {
    a <= b || b <= a
  }

  /** A write fails exactly when the path has no leaf or leads through something that is no object. */
  lemma {:induction false} WriteFailsExactly(doc: Value, path: Path, value: Value)
    ensures Write(doc, path, value).None? <==> path == [] || Shadowed(doc, path[..|path| - 1])
    decreases |path|
  {
    if path != [] {
      var parents := path[..|path| - 1];
      assert parents[..0] == [];
      if |path| > 1 && doc.Object? {
        ShadowedStep(doc, parents);
        assert parents[1..] == path[1..][..|path| - 2];
        WriteFailsExactly(Child(doc, path[0]), path[1..], value);
        if path[0] !in doc.fields {
          NothingShadows(parents[1..]);
        }
      }
    }
  }

  lemma NothingShadows(path: Path)
    ensures !Shadowed(EMPTY, path)
  {
    forall n | 0 <= n <= |path| ensures Get(EMPTY, path[..n]).None? || Get(EMPTY, path[..n]) == Some(EMPTY) {
    }
  }

  /** The written path reads as the value. */
  lemma {:induction false} WriteReadsBack(doc: Value, path: Path, value: Value)
    requires Write(doc, path, value).Some?
    ensures Get(Write(doc, path, value).value, path) == Some(value)
    decreases |path|
  {
    if |path| > 1 {
      WriteReadsBack(Child(doc, path[0]), path[1..], value);
    }
  }

  /** Every path that is no prefix of the written one, nor the other way round, reads as before. */
  lemma {:induction false} WriteKeepsOthers(doc: Value, path: Path, value: Value, other: Path)
    requires Write(doc, path, value).Some? && !Related(path, other)
    ensures Get(Write(doc, path, value).value, other) == Get(doc, other)
    decreases |path|
  {
    if other[0] == path[0] {
      assert |path| > 1 by {
        assert |path| == 1 ==> path <= other;
      }
      assert !Related(path[1..], other[1..]) by {
        assert path[1..] <= other[1..] ==> path <= other;
        assert other[1..] <= path[1..] ==> other <= path;
      }
      WriteKeepsOthers(Child(doc, path[0]), path[1..], value, other[1..]);
    }
  }

  /** What a path reads as after a write of `value` at `written`, if it read as `reading` before. */
  function ReadingAfter(reading: Option<Value>, path: Path, written: Path, value: Value): Option<Value> {
    if written <= path then Get(value, path[|written|..])
    else if path <= written then Write(if reading.Some? then reading.value else EMPTY, written[|path|..], value)
    else reading
  }

  lemma ReadingBelow(reading: Option<Value>, path: Path, written: Path, value: Value)
    requires path != [] && written != [] && path[0] == written[0]
    ensures written[1..] != [] ==>
              ReadingAfter(reading, path, written, value) == ReadingAfter(reading, path[1..], written[1..], value)
    ensures written[1..] == [] ==> ReadingAfter(reading, path, written, value) == Get(value, path[1..])
    ensures Related(path[1..], written[1..]) <==> Related(path, written)
  {
    assert path == [path[0]] + path[1..] && written == [path[0]] + written[1..];
    if written <= path {
      assert path[1..][|written[1..]|..] == path[|written|..];
    } else if path <= written {
      assert written[1..][|path[1..]|..] == written[|path|..];
    }
  }

  /** A write changes each reading as the written path is before it, behind it or beside it. */
  lemma {:induction false} WriteChangesReadings(doc: Value, written: Path, value: Value, path: Path)
    requires Write(doc, written, value).Some?
    ensures Get(Write(doc, written, value).value, path) == ReadingAfter(Get(doc, path), path, written, value)
    decreases |written|
  {
    if path == [] {
      assert written[0..] == written;
    } else if path[0] != written[0] {
    } else {
      hide ReadingAfter;
      ReadingBelow(Get(doc, path), path, written, value);
      if |written| > 1 {
        WriteChangesReadings(Child(doc, path[0]), written[1..], value, path[1..]);
        if path[0] !in doc.fields {
          EmptyReads(path[1..]);
          if Related(path[1..], written[1..]) {
            EmptyReadsAsNothing(path[1..], written[1..], value);
          }
        }
      }
    }
  }

  /** An empty document in place of nothing makes no difference. */
  lemma EmptyReadsAsNothing(path: Path, written: Path, value: Value)
    requires Related(path, written)
    ensures ReadingAfter(Get(EMPTY, path), path, written, value) == ReadingAfter(None, path, written, value)
  {
  }

  lemma EmptyReads(path: Path)
    ensures Get(EMPTY, path) == if path == [] then Some(EMPTY) else None
  {
  }

  /** A write changes nothing exactly when the path reads as the value already. */
  lemma {:induction false} WriteBackExactly(doc: Value, path: Path, value: Value)
    requires path != []
    ensures Write(doc, path, value) == Some(doc) <==> Get(doc, path) == Some(value)
    decreases |path|
  {
    if doc.Object? {
      if |path| > 1 {
        WriteBackExactly(Child(doc, path[0]), path[1..], value);
        if path[0] !in doc.fields {
          EmptyReads(path[1..]);
        }
      } else {
        assert path[1..] == [];
      }
      assert path[0] in doc.fields ==> doc.fields[path[0] := doc.fields[path[0]]] == doc.fields;
    }
  }

  /** A later write keeps a reading: its value reads the same where it lies before, and was there already behind. */
  predicate KeepsReading(reading: Value, path: Path, written: Path, value: Value) {
    if written <= path then Get(value, path[|written|..]) == Some(reading)
    else if path <= written then Get(reading, written[|path|..]) == Some(value)
    else true
  }

  lemma KeepsReadingExactly(reading: Value, path: Path, written: Path, value: Value)
    ensures ReadingAfter(Some(reading), path, written, value) == Some(reading) <==>
              KeepsReading(reading, path, written, value)
  {
    if path < written {
      WriteBackExactly(reading, written[|path|..], value);
    }
  }

  /** The document that holds the value at the path and nothing else. */
  function Nested(path: Path, value: Value): Value {
    if path == [] then value else Object(map[path[0] := Nested(path[1..], value)])
  }

  /** A write agrees with merging the nested value exactly when the old value has no key the new one has not. */
  lemma {:induction false} WriteIsMergeExactly(doc: Value, path: Path, value: Value)
    requires Write(doc, path, value).Some?
    ensures Merge(doc, Nested(path, value)) == Write(doc, path, value).value
            <==> Get(doc, path).None? || KeysWithin(Get(doc, path).value, value)
    decreases |path|
  {
    var nested := Nested(path, value);
    var merged, written := Merge(doc, nested), Write(doc, path, value).value;
    assert nested.fields.Keys == {path[0]};
    assert merged.fields.Keys == written.fields.Keys;
    forall k | k in doc.fields && k != path[0] ensures merged.fields[k] == doc.fields[k] {
      assert k !in nested.fields.Keys && merged.fields[k] == MergedAt(doc, nested, k);
    }
    assert merged.fields[path[0]] == MergedAt(doc, nested, path[0]);
    if |path| > 1 {
      WriteIsMergeExactly(Child(doc, path[0]), path[1..], value);
      if path[0] !in doc.fields {
        MergeIntoEmpty(path[1..], value);
      }
    } else {
      assert path[1..] == [];
      if path[0] in doc.fields {
        AddsNothingExactly(doc.fields[path[0]], value);
      }
    }
    assert merged.fields[path[0]] == written.fields[path[0]] ==> merged.fields == written.fields;
  }

  lemma MergeIntoEmpty(path: Path, value: Value)
    requires path != []
    ensures Merge(EMPTY, Nested(path, value)) == Nested(path, value)
  {
    assert Merge(EMPTY, Nested(path, value)).fields == Nested(path, value).fields;
  }

  /** A value that is no object: writing it is merging it. */
  lemma WriteOfScalarIsMerge(doc: Value, path: Path, value: Value)
    requires Write(doc, path, value).Some? && !value.Object?
    ensures Write(doc, path, value).value == Merge(doc, Nested(path, value))
  {
    WriteIsMergeExactly(doc, path, value);
  }
}
