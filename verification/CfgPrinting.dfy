/**
 Printing a cfg predicate and parsing it back, and the test the scanner makes of a
 whole `#[cfg(...)]` attribute (scripts/adr_run_0011_grep.py,
 `_parse_predicate` and `_cfg_requires_test_at`).
 */
module CfgPrinting {
  import opened Options
  import opened CfgPredicate
  import opened CfgMeaning

  // ------------------------------------------------------------------
  // Printing
  // ------------------------------------------------------------------

  function ShowRaw(value: seq<RawChar>): string {
    if value == [] then ""
    else
      (match value[0]
       case Bare(c) => [c]
       case Escaped(c) => ['\\', c])
      + ShowRaw(value[1..])
  }

  function Show(p: Written): string {
    match p
    case WIdent(name) => name
    case WMeta(name, space, more, value) => name + space + "=" + more + "\"" + ShowRaw(value) + "\""
    case WGroup(op, space, args) => NameOf(op) + space + "(" + ShowArgs(args)
  }

  function ShowArgs(args: WArgs): string {
    match args
    case Close(space) => space + ")"
    case Arg(lead, node, trail, End) => lead + Show(node) + trail + ")"
    case Arg(lead, node, trail, Comma(more)) => lead + Show(node) + trail + "," + ShowArgs(more)
  }

  predicate AllSpace(s: string) {
    forall i :: 0 <= i < |s| ==> IsSpace(s[i])
  }

  predicate IsIdent(name: string) {
    name != "" && StartsIdent(name[0]) && forall i :: 0 <= i < |name| ==> IsWord(name[i])
  }

  predicate AllBare(value: seq<RawChar>) {
    forall i :: 0 <= i < |value| && value[i].Bare? ==> value[i].c != '"' && value[i].c != '\\'
  }

  /** Names are identifiers, layout is whitespace, and a value holds no bare quote or backslash. */
  predicate Printable(p: Written) {
    match p
    case WIdent(name) => IsIdent(name)
    case WMeta(name, space, more, value) => IsIdent(name) && AllSpace(space) && AllSpace(more) && AllBare(value)
    case WGroup(_, space, args) => AllSpace(space) && PrintableArgs(args)
  }

  predicate PrintableArgs(args: WArgs) {
    match args
    case Close(space) => AllSpace(space)
    case Arg(lead, node, trail, End) => AllSpace(lead) && Printable(node) && AllSpace(trail)
    case Arg(lead, node, trail, Comma(more)) =>
      AllSpace(lead) && Printable(node) && AllSpace(trail) && PrintableArgs(more)
  }

  // ------------------------------------------------------------------
  // Reading at an index
  // ------------------------------------------------------------------

  lemma ReadsSplits(text: string, i: nat, a: string, b: string)
    ensures Reads(text, i, a + b) <==> Reads(text, i, a) && Reads(text, i + |a|, b)
  {
    if i + |a| + |b| <= |text| {
      assert text[i..i + |a + b|] == text[i..i + |a|] + text[i + |a|..i + |a| + |b|];
      assert (a + b)[..|a|] == a && (a + b)[|a|..] == b;
    }
  }

  lemma ReadsChar(text: string, i: nat, c: char)
    ensures Reads(text, i, [c]) <==> Holds(text, i, c)
  {
    if i < |text| {
      assert text[i..i + 1] == [text[i]];
    }
  }

  lemma ReadsAt(text: string, i: nat, s: string, k: nat)
    requires Reads(text, i, s) && k < |s|
    ensures text[i + k] == s[k]
  {
    assert text[i..i + |s|][k] == text[i + k];
  }

  /** Whitespace up to a character that is none is skipped as a whole. */
  lemma SkipsTo(text: string, i: nat, space: string)
    requires Reads(text, i, space) && AllSpace(space)
    requires i + |space| < |text| ==> !IsSpace(text[i + |space|])
    ensures Skip(text, i) == i + |space|
  {
    forall k | i <= k < i + |space| ensures IsSpace(text[k]) {
      ReadsAt(text, i, space, k - i);
    }
  }

  lemma WordEndsAt(text: string, i: nat, name: string)
    requires Reads(text, i, name) && forall k :: 0 <= k < |name| ==> IsWord(name[k])
    requires i + |name| < |text| ==> !IsWord(text[i + |name|])
    ensures WordEnd(text, i) == i + |name|
  {
    forall k | i <= k < i + |name| ensures IsWord(text[k]) {
      ReadsAt(text, i, name, k - i);
    }
  }

  /** A group opens exactly at its own whole name, before a parenthesis. */
  lemma GroupOpensExactly(text: string, i: nat, name: string, op: Op)
    requires IsIdent(name) && Reads(text, i, name)
    requires i + |name| < |text| ==> !IsWord(text[i + |name|])
    ensures GroupOpen(text, i, NameOf(op)) ==
              if name == NameOf(op) && Holds(text, Skip(text, i + |name|), '(')
              then Some(Skip(text, i + |name|) + 1) else None
  {
    var word := NameOf(op);
    WordEndsAt(text, i, name);
    if Reads(text, i, word) && !(i + |word| < |text| && IsWord(text[i + |word|])) {
      WordEndsAt(text, i, word);
      assert name == word;
    }
  }

  lemma {:induction false} QuoteEndsAt(text: string, i: nat, value: seq<RawChar>)
    requires AllBare(value) && Reads(text, i, ShowRaw(value)) && Holds(text, i + |ShowRaw(value)|, '"')
    ensures QuoteEnd(text, i) == Some(i + |ShowRaw(value)|)
    decreases |value|
  {
    if value != [] {
      var first := match value[0] case Bare(c) => [c] case Escaped(c) => ['\\', c];
      ReadsSplits(text, i, first, ShowRaw(value[1..]));
      ReadsAt(text, i, first, 0);
      assert value[0].Bare? ==> value[0].c != '"' && value[0].c != '\\';
      QuoteEndsAt(text, i + |first|, value[1..]);
    }
  }

  // ------------------------------------------------------------------
  // The round trip
  // ------------------------------------------------------------------

  /** After any whitespace comes a comma or a closing parenthesis. */
  predicate Followed(text: string, i: nat) {
    i <= |text| && (Holds(text, Skip(text, i), ',') || Holds(text, Skip(text, i), ')'))
  }

  lemma FollowedIsNoWord(text: string, i: nat)
    requires Followed(text, i)
    ensures i < |text| && !IsWord(text[i])
  {
  }

  lemma ShowsFirst(p: Written)
    requires Printable(p)
    ensures Show(p) != "" && !IsSpace(Show(p)[0]) && Show(p)[0] != ')'
  {
  }

  /** A whole name that no parenthesis follows opens no group, and reads as itself. */
  lemma NameReads(text: string, i: nat, name: string)
    requires IsIdent(name) && Reads(text, i, name)
    requires i + |name| < |text| ==> !IsWord(text[i + |name|])
    requires !Holds(text, Skip(text, i + |name|), '(')
    ensures Skip(text, i) == i && OpenedBy(text, i) == None
    ensures StartsIdent(text[i]) && WordEnd(text, i) == i + |name| && text[i..i + |name|] == name
  {
    ReadsAt(text, i, name, 0);
    WordEndsAt(text, i, name);
    GroupsOpenExactly(text, i, name);
    SkipsTo(text, i, "");
  }

  lemma GroupsOpenExactly(text: string, i: nat, name: string)
    requires IsIdent(name) && Reads(text, i, name)
    requires i + |name| < |text| ==> !IsWord(text[i + |name|])
    ensures forall op: Op :: GroupOpen(text, i, NameOf(op)) ==
              if name == NameOf(op) && Holds(text, Skip(text, i + |name|), '(')
              then Some(Skip(text, i + |name|) + 1) else None
    ensures OpenedBy(text, i).Some? <==> name in {"all", "any", "not"} && Holds(text, Skip(text, i + |name|), '(')
    ensures forall op: Op :: name == NameOf(op) && Holds(text, Skip(text, i + |name|), '(') ==>
              OpenedBy(text, i) == Some(Token(op, Skip(text, i + |name|) + 1))
  {
    hide GroupOpen, Reads, Skip;
    GroupOpensExactly(text, i, name, All);
    GroupOpensExactly(text, i, name, Any);
    GroupOpensExactly(text, i, name, Not);
  }

  lemma IdentParsesBack(text: string, i: nat, name: string)
    requires IsIdent(name) && Reads(text, i, name) && Followed(text, i + |name|)
    ensures Parse(text, i) == Some(Token(Ident(name), i + |name|))
  {
    hide OpenedBy, WordEnd, IsIdent, StartsIdent, Skip, ParseArgs;
    FollowedIsNoWord(text, i + |name|);
    NameReads(text, i, name);
  }

  /** The pieces of a printed `name = "value"`, where they stand. */
  lemma MetaReads(text: string, i: nat, p: Written)
    requires p.WMeta? && Printable(p) && Reads(text, i, Show(p))
    ensures Reads(text, i, p.name)
    ensures var end := i + |p.name|;
            && Reads(text, end, p.space) && Holds(text, end + |p.space|, '=')
            && Reads(text, end + |p.space| + 1, p.more)
            && var quote := end + |p.space| + 1 + |p.more|;
               && Holds(text, quote, '"')
               && Reads(text, quote + 1, ShowRaw(p.value))
               && Holds(text, quote + 1 + |ShowRaw(p.value)|, '"')
               && i + |Show(p)| == quote + 1 + |ShowRaw(p.value)| + 1
  {
    hide Reads, Holds, ShowRaw;
    var value := ShowRaw(p.value);
    var tail := "\"" + (value + "\"");
    var rest := p.space + ("=" + (p.more + tail));
    assert Show(p) == p.name + rest;
    var end := i + |p.name|;
    var quote := end + |p.space| + 1 + |p.more|;
    ReadsSplits(text, i, p.name, rest);
    ReadsSplits(text, end, p.space, "=" + (p.more + tail));
    ReadsSplits(text, end + |p.space|, "=", p.more + tail);
    ReadsChar(text, end + |p.space|, '=');
    ReadsSplits(text, end + |p.space| + 1, p.more, tail);
    ReadsSplits(text, quote, "\"", value + "\"");
    ReadsChar(text, quote, '"');
    ReadsSplits(text, quote + 1, value, "\"");
    ReadsChar(text, quote + 1 + |value|, '"');
  }

  /** What follows a name is whitespace or the given character, so the name ends there. */
  lemma NameEnds(text: string, end: nat, space: string, c: char)
    requires AllSpace(space) && Reads(text, end, space) && Holds(text, end + |space|, c) && !IsSpace(c) && !IsWord(c)
    ensures Skip(text, end) == end + |space| && end < |text| && !IsWord(text[end])
  {
    SkipsTo(text, end, space);
    if space != "" { ReadsAt(text, end, space, 0); }
  }

  lemma MetaParsesBack(text: string, i: nat, p: Written)
    requires p.WMeta? && Printable(p) && Reads(text, i, Show(p))
    ensures Parse(text, i) == Some(Token(Meta(p.name), i + |Show(p)|))
  {
    hide OpenedBy, WordEnd, IsIdent, StartsIdent, Skip, ParseArgs, Reads, Show, AllSpace, QuoteEnd, AllBare;
    MetaReads(text, i, p);
    var end := i + |p.name|;
    NameEnds(text, end, p.space, '=');
    NameEnds(text, end + |p.space| + 1, p.more, '"');
    QuoteEndsAt(text, end + |p.space| + 1 + |p.more| + 1, p.value);
    NameReads(text, i, p.name);
  }

  lemma GroupOpens(text: string, i: nat, op: Op, space: string)
    requires AllSpace(space) && Reads(text, i, NameOf(op) + space + "(")
    ensures Skip(text, i) == i
    ensures OpenedBy(text, i) == Some(Token(op, i + |NameOf(op)| + |space| + 1))
  {
    hide OpenedBy, Skip, AllSpace, GroupOpen;
    var name := NameOf(op);
    assert name + space + "(" == name + (space + "(");
    ReadsSplits(text, i, name, space + "(");
    ReadsSplits(text, i + |name|, space, "(");
    ReadsChar(text, i + |name| + |space|, '(');
    NameEnds(text, i + |name|, space, '(');
    GroupsOpenExactly(text, i, name);
    NotSpaceAt(text, i, name);
  }

  lemma NotSpaceAt(text: string, i: nat, s: string)
    requires s != "" && !IsSpace(s[0]) && Reads(text, i, s)
    ensures Skip(text, i) == i
  {
    ReadsAt(text, i, s, 0);
    SkipsTo(text, i, "");
  }

  /** A printed predicate, with a comma or parenthesis to follow, parses back to its tree and its exact end. */
  lemma {:induction false} ParsesBack(text: string, i: nat, p: Written)
    requires Printable(p) && Reads(text, i, Show(p)) && Followed(text, i + |Show(p)|)
    ensures Parse(text, i) == Some(Token(Strip(p), i + |Show(p)|))
    decreases p
  {
    hide Parse, ParseArgs, OpenedBy, Skip, Reads, AllSpace, IsIdent;
    match p {
      case WIdent(name) => IdentParsesBack(text, i, name);
      case WMeta(_, _, _, _) => MetaParsesBack(text, i, p);
      case WGroup(op, space, args) =>
        var head := NameOf(op) + space + "(";
        ReadsSplits(text, i, head, ShowArgs(args));
        GroupOpens(text, i, op, space);
        ArgsParseBack(text, i + |head|, args);
        ParseOfGroup(text, i, op, i + |head|);
    }
  }

  lemma ParseOfGroup(text: string, i: nat, op: Op, at: nat)
    requires i <= |text| && at <= |text| && Skip(text, i) == i && OpenedBy(text, i) == Some(Token(op, at))
    ensures ParseArgs(text, at).Some? ==>
              Parse(text, i) == Some(Token(Group(op, ParseArgs(text, at).value.read), ParseArgs(text, at).value.end))
  {
    hide ParseArgs;
  }

  /** Parsing from before the whitespace that leads to a predicate is parsing the predicate. */
  lemma ParsesFromBefore(text: string, i: nat, space: string, p: Written)
    requires AllSpace(space) && Printable(p) && Reads(text, i, space) && Reads(text, i + |space|, Show(p))
    ensures Skip(text, i) == i + |space| && Parse(text, i) == Parse(text, i + |space|)
    ensures i + |space| < |text| && text[i + |space|] != ')'
  {
    hide ParseArgs, OpenedBy, ParseAtom, Show;
    ShowsFirst(p);
    ReadsAt(text, i + |space|, Show(p), 0);
    SkipsTo(text, i, space);
    SkipsTo(text, i + |space|, "");
  }

  function Last(rest: WRest): string {
    match rest
    case End => ")"
    case Comma(more) => "," + ShowArgs(more)
  }

  /** The pieces of one printed argument, where they stand. */
  lemma ArgReads(text: string, i: nat, args: WArgs)
    requires args.Arg? && PrintableArgs(args) && Reads(text, i, ShowArgs(args))
    ensures var at := i + |args.lead|;
            var end := at + |Show(args.node)|;
            var after := end + |args.trail|;
            && Reads(text, i, args.lead) && Reads(text, at, Show(args.node)) && Reads(text, end, args.trail)
            && Reads(text, after, Last(args.rest))
            && i + |ShowArgs(args)| == after + |Last(args.rest)|
            && Skip(text, end) == after
            && Holds(text, after, if args.rest.End? then ')' else ',')
  {
    hide Show, Reads, Holds, Skip;
    var lead, node, trail, last := args.lead, Show(args.node), args.trail, Last(args.rest);
    assert ShowArgs(args) == lead + (node + (trail + last));
    ReadsSplits(text, i, lead, node + (trail + last));
    ReadsSplits(text, i + |lead|, node, trail + last);
    var end := i + |lead| + |node|;
    ReadsSplits(text, end, trail, last);
    var first := if args.rest.End? then ')' else ',';
    assert last == [first] + last[1..];
    ReadsSplits(text, end + |trail|, [first], last[1..]);
    ReadsChar(text, end + |trail|, first);
    NameEnds(text, end, trail, first);
  }

  lemma {:induction false} ArgsParseBack(text: string, i: nat, args: WArgs)
    requires PrintableArgs(args) && Reads(text, i, ShowArgs(args))
    ensures ParseArgs(text, i) == Some(Token(StripArgs(args), i + |ShowArgs(args)|))
    decreases args
  {
    hide Reads, Skip, Parse, ParseArgs, AllSpace, Show, ShowArgs;
    match args {
      case Close(space) => CloseParsesBack(text, i, args);
      case Arg(lead, node, trail, rest) =>
        ArgReads(text, i, args);
        var after := i + |lead| + |Show(node)| + |trail|;
        ParsesFromBefore(text, i, lead, node);
        ParsesBack(text, i + |lead|, node);
        ArgsStep(text, i);
        match rest {
          case End =>
          case Comma(more) =>
            ReadsSplits(text, after, ",", ShowArgs(more));
            ArgsParseBack(text, after + 1, more);
        }
    }
  }

  lemma CloseParsesBack(text: string, i: nat, args: WArgs)
    requires args.Close? && AllSpace(args.space) && Reads(text, i, ShowArgs(args))
    ensures ParseArgs(text, i) == Some(Token([], i + |ShowArgs(args)|))
  {
    hide Parse, Reads;
    ReadsSplits(text, i, args.space, ")");
    ReadsChar(text, i + |args.space|, ')');
    SkipsTo(text, i, args.space);
  }

  // ------------------------------------------------------------------
  // The way back
  // ------------------------------------------------------------------

  lemma SliceOn(text: string, i: nat, j: nat, k: nat)
    requires i <= j <= k <= |text|
    ensures text[i..k] == text[i..j] + text[j..k]
  {
  }

  lemma SliceChar(text: string, i: nat, k: nat, c: char)
    requires i <= k && Holds(text, k, c)
    ensures text[i..k + 1] == text[i..k] + [c]
  {
  }

  lemma ReadsSlice(text: string, i: nat, j: nat)
    requires i <= j <= |text|
    ensures Reads(text, i, text[i..j])
  {
  }

  lemma SkippedIsSpace(text: string, i: nat)
    requires i <= |text|
    ensures AllSpace(text[i..Skip(text, i)])
  {
    var space := text[i..Skip(text, i)];
    assert forall k :: 0 <= k < |space| ==> space[k] == text[i + k];
  }

  /** The characters up to the quote that ends a value, as bare and escaped ones. */
  lemma {:induction false} RawIsWritten(text: string, cursor: nat) returns (value: seq<RawChar>)
    requires QuoteEnd(text, cursor).Some?
    ensures AllBare(value) && ShowRaw(value) == text[cursor..QuoteEnd(text, cursor).value]
    decreases |text| - cursor
  {
    var close := QuoteEnd(text, cursor).value;
    if text[cursor] == '"' {
      value := [];
    } else {
      var size := if text[cursor] == '\\' then 2 else 1;
      var rest := RawIsWritten(text, cursor + size);
      var first := if text[cursor] == '\\' then Escaped(text[cursor + 1]) else Bare(text[cursor]);
      value := [first] + rest;
      assert value[1..] == rest;
      assert text[cursor..close] == text[cursor..cursor + size] + text[cursor + size..close];
    }
  }

  lemma AtomIsWritten(text: string, i: nat) returns (p: Written)
    requires i <= |text| && ParseAtom(text, i).Some?
    ensures Printable(p) && Strip(p) == ParseAtom(text, i).value.read
    ensures Show(p) == text[i..ParseAtom(text, i).value.end]
  {
    hide Skip, WordEnd, QuoteEnd, AllSpace, AllBare, IsIdent, ShowRaw;
    var end := WordEnd(text, i);
    var name := text[i..end];
    WordIsIdent(text, i);
    var after := Skip(text, end);
    if !Holds(text, after, '=') {
      p := WIdent(name);
    } else {
      var quote := Skip(text, after + 1);
      var close := QuoteEnd(text, quote + 1).value;
      var value := RawIsWritten(text, quote + 1);
      var space, more := text[end..after], text[after + 1..quote];
      SkippedIsSpace(text, end);
      SkippedIsSpace(text, after + 1);
      p := WMeta(name, space, more, value);
      Pieces(text, i, end, after, quote, close);
    }
  }

  lemma WordIsIdent(text: string, i: nat)
    requires i < |text| && StartsIdent(text[i])
    ensures IsIdent(text[i..WordEnd(text, i)])
  {
    var name := text[i..WordEnd(text, i)];
    assert forall k :: 0 <= k < |name| ==> name[k] == text[i + k];
  }

  lemma Pieces(text: string, i: nat, end: nat, after: nat, quote: nat, close: nat)
    requires i <= end <= after < quote < close < |text| && text[after] == '='
             && text[quote] == '"' && text[close] == '"'
    ensures text[i..close + 1] ==
              text[i..end] + text[end..after] + "=" + text[after + 1..quote] + "\"" + text[quote + 1..close] + "\""
  {
    SliceOn(text, i, end, after);
    SliceChar(text, i, after, '=');
    SliceOn(text, i, after + 1, quote);
    SliceChar(text, i, quote, '"');
    SliceOn(text, i, quote + 1, close);
    SliceChar(text, i, close, '"');
  }

  /** Whatever parses is a printed predicate: the parser accepts nothing else. */
  lemma {:induction false} ParsedIsWritten(text: string, start: nat) returns (p: Written)
    requires start <= |text| && Parse(text, start).Some?
    ensures Printable(p) && Strip(p) == Parse(text, start).value.read
    ensures Skip(text, start) <= Parse(text, start).value.end
    ensures Show(p) == text[Skip(text, start)..Parse(text, start).value.end]
    decreases |text| - start, 0
  {
    hide Parse, ParseArgs, Skip, PrintableArgs, AllSpace, ShowArgs, OpenedBy;
    ParseCases(text, start);
    var i := Skip(text, start);
    match OpenedBy(text, i) {
      case None => p := AtomIsWritten(text, i);
      case Some(Token(op, at)) =>
        var space := HeadIsWritten(text, i, op, at);
        var args := ArgsAreWritten(text, at);
        p := WGroup(op, space, args);
        var end := ParseArgs(text, at).value.end;
        assert text[i..end] == text[i..at] + text[at..end];
    }
  }

  lemma ParseCases(text: string, start: nat)
    requires start <= |text|
    ensures var i := Skip(text, start);
            Parse(text, start) ==
              match OpenedBy(text, i)
              case None => ParseAtom(text, i)
              case Some(Token(op, at)) =>
                match ParseArgs(text, at)
                case None => None
                case Some(Token(args, end)) => Some(Token(Group(op, args), end))
  {
    hide ParseArgs, ParseAtom, OpenedBy;
  }

  lemma HeadIsWritten(text: string, i: nat, op: Op, at: nat) returns (space: string)
    requires i <= |text| && OpenedBy(text, i) == Some(Token(op, at))
    ensures AllSpace(space) && i <= at <= |text| && text[i..at] == NameOf(op) + space + "("
  {
    var end := i + |NameOf(op)|;
    assert GroupOpen(text, i, NameOf(op)) == Some(at);
    space := text[end..Skip(text, end)];
    SkippedIsSpace(text, end);
    assert text[i..at] == text[i..end] + space + [text[at - 1]];
  }

  lemma {:induction false} ArgsAreWritten(text: string, start: nat) returns (args: WArgs)
    requires start <= |text| && ParseArgs(text, start).Some?
    ensures PrintableArgs(args) && StripArgs(args) == ParseArgs(text, start).value.read
    ensures ShowArgs(args) == text[start..ParseArgs(text, start).value.end]
    decreases |text| - start, 1
  {
    hide Parse, ParseArgs, Skip, Printable, AllSpace, Show;
    ArgsStep(text, start);
    var i := Skip(text, start);
    SkippedIsSpace(text, start);
    var lead := text[start..i];
    if Holds(text, i, ')') {
      args := Close(lead);
      SliceChar(text, start, i, ')');
    } else {
      var node := ParsedIsWritten(text, i);
      SkipAgain(text, start);
      var end := Parse(text, i).value.end;
      var after := Skip(text, end);
      SkippedIsSpace(text, end);
      var trail := text[end..after];
      SliceOn(text, start, i, end);
      SliceOn(text, start, end, after);
      if Holds(text, after, ')') {
        args := Arg(lead, node, trail, End);
        SliceChar(text, start, after, ')');
      } else {
        var more := ArgsAreWritten(text, after + 1);
        args := Arg(lead, node, trail, Comma(more));
        var last := ParseArgs(text, after + 1).value.end;
        SliceChar(text, start, after, ',');
        SliceOn(text, start, after + 1, last);
      }
    }
  }

  lemma SkipAgain(text: string, start: nat)
    requires start <= |text|
    ensures Skip(text, Skip(text, start)) == Skip(text, start)
  {
  }

  // ------------------------------------------------------------------
  // A whole attribute
  // ------------------------------------------------------------------

  /** `#[cfg(`, with whitespace between the tokens: the index after it. */
  function CfgOpen(text: string, index: nat): (after: Option<nat>)
    ensures after.Some? ==> after.value <= |text|
  {
    if !Holds(text, index, '#') || !Holds(text, Skip(text, index + 1), '[') then None
    else
      var name := Skip(text, Skip(text, index + 1) + 1);
      if !Reads(text, name, "cfg") || !Holds(text, Skip(text, name + 3), '(') then None
      else Some(Skip(text, name + 3) + 1)
  }

  /** `_cfg_requires_test_at`. */
  predicate CfgRequiresTestAt(text: string, index: nat) {
    match CfgOpen(text, index)
    case None => false
    case Some(start) =>
      match Parse(text, start)
      case None => false
      case Some(Token(node, end)) =>
        && Holds(text, Skip(text, end), ')')
        && Holds(text, Skip(text, Skip(text, end) + 1), ']')
        && WithoutTest(node) == False
  }

  /** An attribute as written, with the whitespace between its tokens. */
  datatype Attribute = Attribute(hash: string, bracket: string, name: string, lead: string, p: Written, trail: string,
                                 last: string)

  predicate PrintableAttribute(a: Attribute) {
    && AllSpace(a.hash) && AllSpace(a.bracket) && AllSpace(a.name) && AllSpace(a.lead)
    && Printable(a.p) && AllSpace(a.trail) && AllSpace(a.last)
  }

  function ShowHead(a: Attribute): string {
    "#" + (a.hash + ("[" + (a.bracket + ("cfg" + (a.name + "(")))))
  }

  function ShowTail(a: Attribute): string {
    a.trail + (")" + (a.last + "]"))
  }

  function ShowAttribute(a: Attribute): string {
    ShowHead(a) + (a.lead + (Show(a.p) + ShowTail(a)))
  }

  lemma HeadOpens(text: string, i: nat, a: Attribute)
    requires PrintableAttribute(a) && Reads(text, i, ShowHead(a))
    ensures CfgOpen(text, i) == Some(i + |ShowHead(a)|)
  {
    hide Skip, AllSpace, Reads;
    var afterHash := i + 1;
    ReadsSplits(text, i, "#", a.hash + ("[" + (a.bracket + ("cfg" + (a.name + "(")))));
    ReadsChar(text, i, '#');
    ReadsSplits(text, afterHash, a.hash, "[" + (a.bracket + ("cfg" + (a.name + "("))));
    var open := afterHash + |a.hash|;
    ReadsSplits(text, open, "[", a.bracket + ("cfg" + (a.name + "(")));
    ReadsChar(text, open, '[');
    NameEnds(text, afterHash, a.hash, '[');
    ReadsSplits(text, open + 1, a.bracket, "cfg" + (a.name + "("));
    var name := open + 1 + |a.bracket|;
    ReadsSplits(text, name, "cfg", a.name + "(");
    SkipsToText(text, open + 1, a.bracket, "cfg");
    ReadsSplits(text, name + 3, a.name, "(");
    ReadsChar(text, name + 3 + |a.name|, '(');
    NameEnds(text, name + 3, a.name, '(');
  }

  lemma SkipsToText(text: string, i: nat, space: string, s: string)
    requires AllSpace(space) && Reads(text, i, space) && Reads(text, i + |space|, s) && s != "" && !IsSpace(s[0])
    ensures Skip(text, i) == i + |space|
  {
    ReadsAt(text, i + |space|, s, 0);
    SkipsTo(text, i, space);
  }

  lemma TailCloses(text: string, i: nat, a: Attribute)
    requires PrintableAttribute(a) && Reads(text, i, ShowTail(a))
    ensures Skip(text, i) == i + |a.trail| && Holds(text, i + |a.trail|, ')')
    ensures Skip(text, i + |a.trail| + 1) == i + |a.trail| + 1 + |a.last|
    ensures Holds(text, i + |a.trail| + 1 + |a.last|, ']')
  {
    hide Skip, AllSpace, Reads;
    ReadsSplits(text, i, a.trail, ")" + (a.last + "]"));
    var close := i + |a.trail|;
    ReadsSplits(text, close, ")", a.last + "]");
    ReadsChar(text, close, ')');
    NameEnds(text, i, a.trail, ')');
    ReadsSplits(text, close + 1, a.last, "]");
    ReadsChar(text, close + 1 + |a.last|, ']');
    NameEnds(text, close + 1, a.last, ']');
  }

  /** On a whole attribute, however it is laid out, the test is the verdict on its predicate. */
  lemma AttributeTestIsTheVerdict(text: string, i: nat, a: Attribute)
    requires PrintableAttribute(a) && Reads(text, i, ShowAttribute(a))
    ensures CfgRequiresTestAt(text, i) <==> WithoutTest(Strip(a.p)) == False
  {
    hide Skip, AllSpace, Reads, Parse, CfgOpen, Show, ShowHead, ShowTail;
    ReadsSplits(text, i, ShowHead(a), a.lead + (Show(a.p) + ShowTail(a)));
    HeadOpens(text, i, a);
    var start := i + |ShowHead(a)|;
    ReadsSplits(text, start, a.lead, Show(a.p) + ShowTail(a));
    var at := start + |a.lead|;
    ReadsSplits(text, at, Show(a.p), ShowTail(a));
    TailCloses(text, at + |Show(a.p)|, a);
    ParsesFromBefore(text, start, a.lead, a.p);
    ParsesBack(text, at, a.p);
  }

  /**
   Code the scanner exempts is never compiled without `test`; and where the
   predicate mentions each other option once, exactly such code is exempted.
   */
  lemma ExemptionMeansTest(text: string, i: nat, a: Attribute)
    requires PrintableAttribute(a) && Reads(text, i, ShowAttribute(a))
    ensures CfgRequiresTestAt(text, i) ==> RequiresTest(a.p)
    ensures WellFormed(a.p) && Linear(a.p) ==> (CfgRequiresTestAt(text, i) <==> RequiresTest(a.p))
  {
    AttributeTestIsTheVerdict(text, i, a);
    forall on: set<Atom> | TEST !in on && WithoutTest(Strip(a.p)) == False ensures !Eval(a.p, on) {
      VerdictIsSound(a.p, on);
    }
    if WellFormed(a.p) && Linear(a.p) {
      VerdictIsExact(a.p);
    }
  }

  /** An opening that is recognised is a printed one. */
  lemma HeadIsPrinted(text: string, i: nat) returns (hash: string, bracket: string, name: string)
    requires CfgOpen(text, i).Some?
    ensures AllSpace(hash) && AllSpace(bracket) && AllSpace(name)
    ensures i <= CfgOpen(text, i).value
    ensures text[i..CfgOpen(text, i).value] == "#" + hash + "[" + bracket + "cfg" + name + "("
  {
    hide AllSpace, Reads, Skip;
    var open := Skip(text, i + 1);
    var word := Skip(text, open + 1);
    var paren := Skip(text, word + 3);
    CfgOpens(text, i);
    SkippedIsSpace(text, i + 1);
    SkippedIsSpace(text, open + 1);
    SkippedIsSpace(text, word + 3);
    hash, bracket, name := text[i + 1..open], text[open + 1..word], text[word + 3..paren];
    HeadSlices(text, i, open, word, paren);
  }

  /** What an opening that is recognised holds, and where. */
  lemma CfgOpens(text: string, i: nat)
    requires CfgOpen(text, i).Some?
    ensures i < |text|
    ensures var open := Skip(text, i + 1);
            && i < open < |text| && Holds(text, i, '#') && Holds(text, open, '[')
            && var word := Skip(text, open + 1);
               && open < word && word + 3 <= |text| && Reads(text, word, "cfg")
               && var paren := Skip(text, word + 3);
                  && word + 3 <= paren < |text| && Holds(text, paren, '(') && CfgOpen(text, i) == Some(paren + 1)
  {
  }

  lemma HeadSlices(text: string, i: nat, open: nat, word: nat, paren: nat)
    requires i < open < word && word + 3 <= paren < |text|
    requires Holds(text, i, '#') && Holds(text, open, '[') && Reads(text, word, "cfg") && Holds(text, paren, '(')
    ensures text[i..paren + 1] ==
              "#" + text[i + 1..open] + "[" + text[open + 1..word] + "cfg" + text[word + 3..paren] + "("
  {
    assert text[i..i + 1] == "#";
    SliceOn(text, i, i + 1, open);
    SliceChar(text, i, open, '[');
    SliceOn(text, i, open + 1, word);
    SliceOn(text, i, word, word + 3);
    SliceOn(text, i, word + 3, paren);
    SliceChar(text, i, paren, '(');
  }

  /** Whatever the text, what is exempted is a whole attribute whose predicate requires `test`. */
  lemma ExemptedTextRequiresTest(text: string, i: nat) returns (a: Attribute)
    requires CfgRequiresTestAt(text, i)
    ensures PrintableAttribute(a) && RequiresTest(a.p) && Reads(text, i, ShowAttribute(a))
  {
    hide Skip, AllSpace, Printable, Show, CfgOpen, Parse;
    var start := CfgOpen(text, i).value;
    var hash, bracket, name := HeadIsPrinted(text, i);
    var p := ParsedIsWritten(text, start);
    var end := Parse(text, start).value.end;
    var at, close := Skip(text, start), Skip(text, end);
    var last := Skip(text, close + 1);
    SkippedIsSpace(text, start);
    SkippedIsSpace(text, end);
    SkippedIsSpace(text, close + 1);
    a := Attribute(hash, bracket, name, text[start..at], p, text[end..close], text[close + 1..last]);
    AttributePieces(text, i, start, at, end, close, last, a);
    forall on: set<Atom> | TEST !in on ensures !Eval(p, on) {
      VerdictIsSound(p, on);
    }
  }

  lemma AttributePieces(text: string, i: nat, start: nat, at: nat, end: nat, close: nat, last: nat, a: Attribute)
    requires i <= start <= at <= end <= close < last < |text| && Holds(text, close, ')') && Holds(text, last, ']')
    requires text[i..start] == "#" + a.hash + "[" + a.bracket + "cfg" + a.name + "("
    requires a.lead == text[start..at] && Show(a.p) == text[at..end] && a.trail == text[end..close]
             && a.last == text[close + 1..last]
    ensures Reads(text, i, ShowAttribute(a))
  {
    hide Show;
    SliceOn(text, i, start, at);
    SliceOn(text, i, at, end);
    SliceOn(text, i, end, close);
    SliceChar(text, i, close, ')');
    SliceOn(text, i, close + 1, last);
    SliceChar(text, i, last, ']');
    AttributeText(a);
    ReadsSlice(text, i, last + 1);
  }

  /** The text of an attribute, token by token. */
  lemma AttributeText(a: Attribute)
    ensures ShowAttribute(a) ==
            "#" + a.hash + "[" + a.bracket + "cfg" + a.name + "(" + a.lead + Show(a.p) + a.trail + ")" + a.last + "]"
  {
    var p := Show(a.p);
    assert ShowHead(a) == "#" + a.hash + "[" + a.bracket + "cfg" + a.name + "(";
    assert ShowTail(a) == a.trail + ")" + a.last + "]";
    assert ShowAttribute(a) == ShowHead(a) + a.lead + p + ShowTail(a);
  }
}
