/**
 The cfg predicate scanner (scripts/adr_run_0011_grep.py): a recursive-descent
 parser of `cfg(...)` predicates, and a three-valued evaluation of what a
 predicate can be while `test` is off.

 Letters, digits and spaces are those of ASCII.
 */
module CfgPredicate {
  import opened Options

  datatype Op = All | Any | Not

  /** A parsed predicate. The value of `name = "value"` is dropped. */
  datatype Node = Ident(name: string) | Meta(name: string) | Group(op: Op, args: seq<Node>)

  /** What was read, and the index after it. */
  datatype Token<T> = Token(read: T, end: nat)

  // ------------------------------------------------------------------
  // Characters and tokens
  // ------------------------------------------------------------------

  predicate IsSpace(c: char) {
    var code := c as int;
    9 <= code <= 13 || 28 <= code <= 32
  }

  predicate IsLetter(c: char) {
    'A' <= c <= 'Z' || 'a' <= c <= 'z'
  }

  predicate IsWord(c: char) {
    IsLetter(c) || '0' <= c <= '9' || c == '_'
  }

  predicate StartsIdent(c: char) {
    IsLetter(c) || c == '_'
  }

  /** By their codes: digits, capitals, the underscore and small letters make words; digits begin none. */
  lemma WordCharacters(c: char)
    ensures IsWord(c) <==> 48 <= c as int <= 57 || 65 <= c as int <= 90 || c as int == 95 || 97 <= c as int <= 122
    ensures StartsIdent(c) <==> 65 <= c as int <= 90 || c as int == 95 || 97 <= c as int <= 122
  {
  }

  /** Tab, line feed, vertical tab, form feed, carriage return, the four separators, and the space. */
  lemma SpaceCharacters(c: char)
    ensures IsSpace(c) <==> c as int in {9, 10, 11, 12, 13, 28, 29, 30, 31, 32}
  {
  }

  function Skip(text: string, index: nat): (after: nat)
    requires index <= |text|
    ensures index <= after <= |text|
    ensures forall k :: index <= k < after ==> IsSpace(text[k])
    ensures after < |text| ==> !IsSpace(text[after])
    decreases |text| - index
  {
    if index < |text| && IsSpace(text[index]) then Skip(text, index + 1) else index
  }

  /** `text` holds `s` at `index`. */
  predicate Reads(text: string, index: nat, s: string) {
    index + |s| <= |text| && text[index..index + |s|] == s
  }

  function NameOf(op: Op): string {
    match op
    case All => "all"
    case Any => "any"
    case Not => "not"
  }

  predicate Holds(text: string, index: nat, c: char) {
    index < |text| && text[index] == c
  }

  /** `_group_open`: the index after `name (`, when the name ends there. */
  function GroupOpen(text: string, index: nat, name: string): (after: Option<nat>)
    requires index <= |text|
    ensures after.Some? ==> index + |name| < after.value <= |text|
  {
    var end := index + |name|;
    if !Reads(text, index, name) || (end < |text| && IsWord(text[end])) then None
    else
      var cursor := Skip(text, end);
      if Holds(text, cursor, '(') then Some(cursor + 1) else None
  }

  function OpenedBy(text: string, index: nat): (group: Option<Token<Op>>)
    requires index <= |text|
    ensures group.Some? ==> index < group.value.end <= |text|
  {
    if GroupOpen(text, index, "all").Some? then Some(Token(All, GroupOpen(text, index, "all").value))
    else if GroupOpen(text, index, "any").Some? then Some(Token(Any, GroupOpen(text, index, "any").value))
    else if GroupOpen(text, index, "not").Some? then Some(Token(Not, GroupOpen(text, index, "not").value))
    else None
  }

  function WordEnd(text: string, index: nat): (end: nat)
    requires index <= |text|
    ensures index <= end <= |text|
    ensures forall k :: index <= k < end ==> IsWord(text[k])
    ensures end < |text| ==> !IsWord(text[end])
    decreases |text| - index
  {
    if index < |text| && IsWord(text[index]) then WordEnd(text, index + 1) else index
  }

  /** The index of the quote that ends a string; a backslash takes the next character with it. */
  function QuoteEnd(text: string, cursor: nat): (end: Option<nat>)
    ensures end.Some? ==> cursor <= end.value < |text| && text[end.value] == '"'
    decreases |text| - cursor
  {
    if cursor >= |text| then None
    else if text[cursor] == '"' then Some(cursor)
    else if text[cursor] == '\\' then QuoteEnd(text, cursor + 2)
    else QuoteEnd(text, cursor + 1)
  }

  // ------------------------------------------------------------------
  // The parser
  // ------------------------------------------------------------------

  /** An identifier, or `name = "value"`, at an index that is no space. */
  function ParseAtom(text: string, index: nat): (parsed: Option<Token<Node>>)
    requires index <= |text|
    ensures parsed.Some? ==> index < parsed.value.end <= |text|
  {
    if !(index < |text| && StartsIdent(text[index])) then None
    else
      var end := WordEnd(text, index);
      var name := text[index..end];
      var after := Skip(text, end);
      if !Holds(text, after, '=') then Some(Token(Ident(name), end))
      else
        var quote := Skip(text, after + 1);
        if !Holds(text, quote, '"') then None
        else
          match QuoteEnd(text, quote + 1)
          case None => None
          case Some(close) => Some(Token(Meta(name), close + 1))
  }

  /** Arguments already read, in front of those still to come. */
  function After(args: seq<Node>, rest: Option<Token<seq<Node>>>): Option<Token<seq<Node>>> {
    match rest
    case None => None
    case Some(Token(more, end)) => Some(Token(args + more, end))
  }

  /** Every recursive call has consumed text, so the parser ends on every input. */
  function Parse(text: string, start: nat): (parsed: Option<Token<Node>>)
    requires start <= |text|
    ensures parsed.Some? ==> start < parsed.value.end <= |text|
    decreases |text| - start, 0
  {
    var index := Skip(text, start);
    match OpenedBy(text, index)
    case None => ParseAtom(text, index)
    case Some(Token(op, at)) =>
      match ParseArgs(text, at)
      case None => None
      case Some(Token(args, end)) => Some(Token(Group(op, args), end))
  }

  /** The arguments of a group, up to and including its closing parenthesis. */
  function ParseArgs(text: string, start: nat): (parsed: Option<Token<seq<Node>>>)
    requires start <= |text|
    ensures parsed.Some? ==> start < parsed.value.end <= |text|
    decreases |text| - start, 1
  {
    var index := Skip(text, start);
    if Holds(text, index, ')') then Some(Token([], index + 1))
    else
      match Parse(text, index)
      case None => None
      case Some(Token(node, end)) =>
        var after := Skip(text, end);
        if Holds(text, after, ')') then Some(Token([node], after + 1))
        else if Holds(text, after, ',') then After([node], ParseArgs(text, after + 1))
        else None
  }

  /** The parser as the source runs it: a loop that appends to the arguments, and recursion for each of them. */
  method ParsePredicate(text: string, start: nat) returns (parsed: Option<Token<Node>>)
    requires start <= |text|
    ensures parsed == Parse(text, start)
    decreases |text| - start, 0
  {
    var index := Skip(text, start);
    var group := OpenedBy(text, index);
    if group.None? {
      return ParseAtom(text, index);
    }
    var args := ParseGroup(text, group.value.end);
    if args.None? {
      return None;
    }
    return Some(Token(Group(group.value.read, args.value.read), args.value.end));
  }

  method ParseGroup(text: string, start: nat) returns (parsed: Option<Token<seq<Node>>>)
    requires start <= |text|
    ensures parsed == ParseArgs(text, start)
    decreases |text| - start, 1
  {
    hide Parse, ParseArgs, After;
    var args: seq<Node> := [];
    var index := start;
    AfterNothing(ParseArgs(text, start));
    while true
      invariant start <= index <= |text|
      invariant After(args, ParseArgs(text, index)) == ParseArgs(text, start)
      decreases |text| - index
    {
      ArgsStep(text, index);
      index := Skip(text, index);
      if Holds(text, index, ')') {
        AfterRead(args, [], index + 1);
        assert args + [] == args;
        return Some(Token(args, index + 1));
      }
      AfterFailed(args);
      var node := ParsePredicate(text, index);
      if node.None? {
        return None;
      }
      index := Skip(text, node.value.end);
      if Holds(text, index, ',') {
        AfterOne(args, node.value.read, ParseArgs(text, index + 1));
        args := args + [node.value.read];
        index := index + 1;
        continue;
      }
      if Holds(text, index, ')') {
        AfterRead(args, [node.value.read], index + 1);
        return Some(Token(args + [node.value.read], index + 1));
      }
      return None;
    }
  }

  /** One turn of the loop, seen from the specification. */
  lemma ArgsStep(text: string, start: nat)
    requires start <= |text|
    ensures var index := Skip(text, start);
            ParseArgs(text, start) ==
              if Holds(text, index, ')') then Some(Token([], index + 1))
              else
                match Parse(text, index)
                case None => None
                case Some(Token(node, end)) =>
                  var after := Skip(text, end);
                  if Holds(text, after, ')') then Some(Token([node], after + 1))
                  else if Holds(text, after, ',') then After([node], ParseArgs(text, after + 1))
                  else None
  {
    hide Parse, After, Skip, Holds;
  }

  lemma AfterRead(args: seq<Node>, more: seq<Node>, end: nat)
    ensures After(args, Some(Token(more, end))) == Some(Token(args + more, end))
  {
  }

  lemma AfterFailed(args: seq<Node>)
    ensures After(args, None) == None
  {
  }

  lemma AfterNothing(rest: Option<Token<seq<Node>>>)
    ensures After([], rest) == rest
  {
    if rest.Some? {
      assert [] + rest.value.read == rest.value.read;
    }
  }

  lemma AfterOne(args: seq<Node>, node: Node, rest: Option<Token<seq<Node>>>)
    ensures After(args + [node], rest) == After(args, After([node], rest))
  {
    if rest.Some? {
      assert args + [node] + rest.value.read == args + ([node] + rest.value.read);
    }
  }
}
