/**
 What the parser of Message.dfy accepts, said without it: a grammar for lines,
 a printer for messages, and the theorems that tie both to `Parse`.
 */
module Grammar {
  import opened Text
  import opened Message
  import opened Source

  function TagPart(tags: string): string {
    if tags == "" then "" else "@" + tags + " "
  }

  /** A source mark ':' may stand in front of an empty source. */
  function SourcePart(marked: bool, source: string): string {
    if marked then ":" + source + " " else ""
  }

  function Body(command: string, rest: string): string {
    if command == "" then rest else command + " " + rest
  }

  ghost predicate TagsOk(m: IRCMessage) {
    && (m.tags == "" || ('=' in m.tags && ' ' !in m.tags))
    && m.tagKv == TagKv(m.tags)
  }

  /** A command has no space; it is empty only in front of an embedded NUL. */
  ghost predicate CommandOk(command: string, rest: string) {
    && rest != "" && rest[0] != ' '
    && (command == "" ==> rest[0] == '\0')
    && (command != "" ==> ' ' !in command && command[0] != '\0')
  }

  ghost predicate DerivesVia(line: string, m: IRCMessage, marked: bool, rest: string) {
    var body := Body(m.command, rest);
    var afterTags := SourcePart(marked, m.source) + body;
    && line == TagPart(m.tags) + afterTags
    && TagsOk(m)
    && ' ' !in m.source && (!marked ==> m.source == "")
    && CommandOk(m.command, rest)
    && m.params == Fields(rest, SPACE)
    && (m.tags == "" ==> afterTags[0] != '@')
    && (!marked ==> body[0] != ':')
  }

  /** `line` is a derivation of `m`: tags, source and command are slices of the
      line between single delimiters, in this order, and the parameters are the
      maximal space-free runs of the rest. */
  ghost predicate Derives(line: string, m: IRCMessage) {
    exists marked, rest :: DerivesVia(line, m, marked, rest)
  }

  // ------------------------------------------------- each part, in both directions

  lemma {:induction false} FindAfter(a: string, c: char, b: string, from: nat)
    requires from <= |a| && forall j :: from <= j < |a| ==> a[j] != c
    ensures Find(a + [c] + b, {c}, from) == |a|
  {
    var s := a + [c] + b;
    assert forall j :: from <= j < |a| ==> s[j] == a[j];
    assert IsFirst(s, {c}, from, |a|);
  }

  lemma {:induction false} StripTagsIff(line: string, tags: string, rest: string)
    ensures StripTags(line) == Ok((tags, rest)) <==>
            && line == TagPart(tags) + rest
            && (tags == "" ==> rest == "" || rest[0] != '@')
            && (tags != "" ==> '=' in tags && ' ' !in tags)
  {
    assert !HasPair("");
    assert HasPair(tags) <==> '=' in tags;
    assert tags == "" ==> TagPart(tags) + rest == rest;
    if StripTags(line) == Ok((tags, rest)) && line != "" && line[0] == '@' {
      var sp := Find(line, SPACE, 1);
      assert forall j :: 0 <= j < |tags| ==> tags[j] == line[j + 1];
      assert line == "@" + line[1..sp] + " " + line[sp + 1..];
    }
    if tags != "" && line == TagPart(tags) + rest && ' ' !in tags {
      var a := "@" + tags;
      assert line == a + [' '] + rest;
      FindAfter(a, ' ', rest, 1);
      assert line[1..|a|] == tags && line[|a| + 1..] == rest;
    }
  }

  lemma {:induction false} StripSourceIff(line: string, source: string, rest: string)
    ensures StripSource(line) == Ok((source, rest)) <==>
            || (' ' !in source && line == SourcePart(true, source) + rest)
            || (source == "" && line == rest && (line == "" || line[0] != ':'))
  {
    if StripSource(line) == Ok((source, rest)) && line != "" && line[0] == ':' {
      var sp := Find(line, SPACE, 1);
      assert forall j :: 0 <= j < |source| ==> source[j] == line[j + 1];
      assert line == ":" + line[1..sp] + " " + line[sp + 1..];
    }
    if ' ' !in source && line == SourcePart(true, source) + rest {
      var a := ":" + source;
      assert line == a + [' '] + rest;
      FindAfter(a, ' ', rest, 1);
      assert line[1..|a|] == source && line[|a| + 1..] == rest;
    }
  }

  lemma {:induction false} StripCommandIff(line: string, command: string, rest: string)
    requires rest != ""
    ensures StripCommand(line) == Ok((command, rest)) <==>
            && line == Body(command, rest)
            && (command == "" ==> rest[0] == '\0')
            && (command != "" ==> ' ' !in command && command[0] != '\0')
  {
    if StripCommand(line) == Ok((command, rest)) && command != "" {
      var sp := Find(line, SPACE, 0);
      assert line == line[..sp] + " " + line[sp + 1..];
    }
    if command != "" && ' ' !in command && line == Body(command, rest) {
      assert line == command + [' '] + rest;
      FindAfter(command, ' ', rest, 0);
      assert line[..|command|] == command && line[|command| + 1..] == rest;
    }
  }

  /** The one extra refusal: a source that is not a user's, when the caller has
      already announced a PRIVMSG. */
  predicate Refused(m: IRCMessage, t: MessageType) {
    m.source != "" && !IsUserMessage(m.source) && t == PRIVMSG
  }

  lemma {:induction false} ParsedDerives(line: string, m: IRCMessage, t: MessageType)
    requires Parse(line, t) == Ok(m)
    ensures Derives(line, m) && !Refused(m, t)
  {
    var (tags, a) := StripTags(line).value;
    var (source, b) := StripSource(a).value;
    var (command, rest) := StripCommand(b).value;
    StripTagsIff(line, tags, a);
    StripSourceIff(a, source, b);
    StripCommandIff(b, command, rest);
    var marked := a != "" && a[0] == ':';
    assert a == SourcePart(marked, source) + b;
    assert DerivesVia(line, m, marked, rest);
  }

  lemma {:induction false} DerivedParses(line: string, m: IRCMessage, t: MessageType, marked: bool, rest: string)
    requires DerivesVia(line, m, marked, rest) && !Refused(m, t)
    ensures Parse(line, t) == Ok(m)
  {
    var body := Body(m.command, rest);
    var afterTags := SourcePart(marked, m.source) + body;
    StripTagsIff(line, m.tags, afterTags);
    assert !marked ==> afterTags == body;
    StripSourceIff(afterTags, m.source, body);
    StripCommandIff(body, m.command, rest);
  }

  /** The parser accepts exactly the lines of the grammar, and returns the
      message that the line derives. */
  lemma ParseIffDerives(line: string, m: IRCMessage, t: MessageType)
    ensures Parse(line, t) == Ok(m) <==> Derives(line, m) && !Refused(m, t)
  {
    if Parse(line, t) == Ok(m) {
      ParsedDerives(line, m, t);
    }
    if Derives(line, m) && !Refused(m, t) {
      var marked, rest :| DerivesVia(line, m, marked, rest);
      DerivedParses(line, m, t, marked, rest);
    }
  }

  lemma AvoidsPart(a: string, s: string, b: string, ds: set<char>)
    requires Avoids(a + s + b, ds)
    ensures Avoids(s, ds)
  {
    assert forall j :: 0 <= j < |s| ==> s[j] == (a + s + b)[|a| + j];
  }

  lemma AvoidsBoth(a: string, b: string, ds: set<char>)
    requires Avoids(a + b, ds)
    ensures Avoids(a, ds) && Avoids(b, ds)
  {
    assert forall j :: 0 <= j < |a| ==> a[j] == (a + b)[j];
    assert forall j :: 0 <= j < |b| ==> b[j] == (a + b)[|a| + j];
  }

  lemma {:induction false} FieldsAvoid(s: string, seps: set<char>, ds: set<char>)
    requires Avoids(s, ds)
    ensures forall k :: 0 <= k < |Fields(s, seps)| ==> Avoids(Fields(s, seps)[k], ds)
    decreases |s|
  {
    if s != "" {
      if s[0] in seps {
        FieldsAvoid(s[1..], seps, ds);
      } else {
        FieldsAvoid(s[Find(s, seps, 0)..], seps, ds);
      }
    }
  }

  /** The text from the first parameter on. */
  lemma RestOf(line: string, m: IRCMessage, t: MessageType) returns (front: string, rest: string)
    requires Parse(line, t) == Ok(m)
    ensures line == front + rest && rest != "" && rest[0] != ' ' && m.params == Fields(rest, SPACE)
  {
    hide Parse, Fields, TagsOk, TagPart, SourcePart;
    ParsedDerives(line, m, t);
    var marked, r :| DerivesVia(line, m, marked, r);
    var p, q := TagPart(m.tags), SourcePart(marked, m.source);
    rest := r;
    if m.command == "" {
      front := p + q;
      ThreeParts(p, q, rest);
    } else {
      front := p + (q + (m.command + " "));
      ThreeParts(q, m.command + " ", rest);
      ThreeParts(p, q + (m.command + " "), rest);
    }
  }

  lemma ThreeParts(a: string, b: string, c: string)
    ensures a + (b + c) == (a + b) + c
  {
  }

  lemma SourceAndCommandAvoid(line: string, m: IRCMessage, t: MessageType, ds: set<char>)
    requires Parse(line, t) == Ok(m) && Avoids(line, ds)
    ensures Avoids(m.source, ds) && Avoids(m.command, ds)
  {
    hide Parse, Fields, TagsOk, CommandOk, TagPart, Avoids;
    ParsedDerives(line, m, t);
    var marked, rest :| DerivesVia(line, m, marked, rest);
    var source, body := SourcePart(marked, m.source), Body(m.command, rest);
    AvoidsBoth(TagPart(m.tags), source + body, ds);
    AvoidsBoth(source, body, ds);
    NothingToAvoid(ds);
    if marked {
      AvoidsPart(":", m.source, " ", ds);
    }
    if m.command != "" {
      AvoidsBoth(m.command + " ", rest, ds);
      AvoidsBoth(m.command, " ", ds);
    }
  }

  /** The parts of a message have no character that the line has not. */
  lemma ParsedAvoids(line: string, m: IRCMessage, t: MessageType, ds: set<char>)
    requires Parse(line, t) == Ok(m) && Avoids(line, ds)
    ensures Avoids(m.source, ds) && Avoids(m.command, ds)
    ensures forall k :: 0 <= k < |m.params| ==> Avoids(m.params[k], ds)
  {
    hide Parse, Fields, Avoids;
    SourceAndCommandAvoid(line, m, t, ds);
    var front, rest := RestOf(line, m, t);
    AvoidsBoth(front, rest, ds);
    FieldsAvoid(rest, SPACE, ds);
  }

  lemma NothingToAvoid(ds: set<char>)
    ensures Avoids("", ds)
  {
  }

  /** Behind the last parameter of a line there are only spaces. */
  lemma BehindLastParameter(line: string, m: IRCMessage, t: MessageType)
    requires Parse(line, t) == Ok(m)
    ensures m.params != [] && EndsWith(line, m.params[|m.params| - 1] + TrailingSpaces(line))
  {
    hide Parse, Fields;
    var front, rest := RestOf(line, m, t);
    FieldsOfRest(rest);
    LastFieldTail(rest);
    TailOfSuffix(front, rest);
  }

  lemma {:induction false} TailOfSuffix(a: string, s: string)
    requires s != "" && s[0] != ' '
    ensures TrailingSpaces(a + s) == TrailingSpaces(s)
    decreases |s|
  {
    var n := |s| - 1;
    if s[n] == ' ' {
      assert (a + s)[..|a + s| - 1] == a + s[..n];
      TailOfSuffix(a, s[..n]);
    }
  }

  // ---------------------------------------------------------------- why a line is refused

  /** Tags and source are in order, and `after` is what is left of the line. */
  ghost predicate Head(line: string, tags: string, marked: bool, source: string, after: string) {
    && line == TagPart(tags) + (SourcePart(marked, source) + after)
    && (tags != "" ==> '=' in tags && ' ' !in tags)
    && (tags == "" ==> line == "" || line[0] != '@')
    && ' ' !in source && (!marked ==> source == "" && (after == "" || after[0] != ':'))
  }

  lemma HeadStrips(line: string, tags: string, marked: bool, source: string, after: string)
    requires Head(line, tags, marked, source, after)
    ensures StripTags(line) == Ok((tags, SourcePart(marked, source) + after))
    ensures StripSource(SourcePart(marked, source) + after) == Ok((source, after))
  {
    hide StripTags, StripSource;
    var rest := SourcePart(marked, source) + after;
    StripTagsIff(line, tags, rest);
    assert tags == "" ==> line == rest;
    StripSourceIff(rest, source, after);
    assert !marked ==> rest == after;
  }

  lemma StrippedHead(line: string, tags: string, rest: string, source: string, after: string)
    requires StripTags(line) == Ok((tags, rest)) && StripSource(rest) == Ok((source, after))
    ensures exists marked :: Head(line, tags, marked, source, after)
  {
    hide StripTags, StripSource;
    StripTagsIff(line, tags, rest);
    StripSourceIff(rest, source, after);
    assert tags == "" ==> line == rest;
    if ' ' !in source && rest == SourcePart(true, source) + after {
      assert Head(line, tags, true, source, after);
    } else {
      assert rest == SourcePart(false, source) + after;
      assert Head(line, tags, false, source, after);
    }
  }

  /** The rest of a line has a command but no parameter. */
  ghost predicate LacksParameter(after: string) { after != "" && after[0] != '\0' && ' ' !in after }

  /** It has a command, but its parameters are empty or begin with a space. */
  ghost predicate BadVia(after: string, command: string, rest: string) {
    && after == command + " " + rest && command != "" && ' ' !in command && command[0] != '\0'
    && (rest == "" || rest[0] == ' ')
  }

  ghost predicate BadParameters(after: string) { after == "" || exists command, rest :: BadVia(after, command, rest) }

  lemma CommandSplits(after: string, command: string, rest: string)
    requires after == command + " " + rest && command != "" && ' ' !in command && command[0] != '\0'
    ensures StripCommand(after) == Ok((command, rest))
  {
    FindAfter(command, ' ', rest, 0);
    assert after[..|command|] == command && after[|command| + 1..] == rest;
  }

  lemma AfterFails(after: string)
    ensures StripCommand(after) == Err(NoParameter) <==> LacksParameter(after)
    ensures StripCommand(after) == Err(NoCommand) <==> after != "" && after[0] == ' '
    ensures StripCommand(after).Ok? && Parameters(StripCommand(after).value.1) == Err(BadParameter) <==> BadParameters(after)
    ensures StripCommand(after).Err? ==> StripCommand(after).error in {NoParameter, NoCommand}
  {
    var sp := Find(after, SPACE, 0);
    if after != "" && after[0] != '\0' && 0 < sp < |after| {
      var command, rest := after[..sp], after[sp + 1..];
      assert after == command + " " + rest;
      NotInSlice(after, ' ', 0, sp);
      assert after[0..sp] == command;
      assert BadVia(after, command, rest) <==> rest == "" || rest[0] == ' ';
    }
    if command, rest :| BadVia(after, command, rest) {
      CommandSplits(after, command, rest);
    }
  }

  /** Why a line is refused, said of its text: exactly which lines have a tag text without '=',
      a server's source where a user's is wanted, no parameter, or a bad one. What remains is a
      line without a command. */
  lemma RefusedFor(line: string, t: MessageType)
    ensures Parse(line, t) == Err(MalformedTag) <==>
            exists tags, rest :: line == "@" + tags + " " + rest && ' ' !in tags && '=' !in tags
    ensures Parse(line, t) == Err(ServerMessage) <==>
            exists tags, marked, source, after ::
              Head(line, tags, marked, source, after) && source != "" && '!' !in source && t == PRIVMSG
    ensures Parse(line, t) == Err(NoParameter) <==>
            exists tags, marked, source, after ::
              && Head(line, tags, marked, source, after) && !(source != "" && '!' !in source && t == PRIVMSG)
              && LacksParameter(after)
    ensures Parse(line, t) == Err(BadParameter) <==>
            exists tags, marked, source, after ::
              && Head(line, tags, marked, source, after) && !(source != "" && '!' !in source && t == PRIVMSG)
              && BadParameters(after)
  {
    hide StripTags, StripSource, StripCommand, Parameters, IsUserMessage, Head, LacksParameter, BadParameters, TagKv;
    MalformedIff(line);
    forall tags, marked, source, after | Head(line, tags, marked, source, after)
      ensures StripTags(line) == Ok((tags, SourcePart(marked, source) + after))
      ensures StripSource(SourcePart(marked, source) + after) == Ok((source, after))
    {
      HeadStrips(line, tags, marked, source, after);
    }
    StripErrors(line);
    if StripTags(line).Ok? {
      var (tags, rest) := StripTags(line).value;
      StripErrors(rest);
      if StripSource(rest).Ok? {
        var (source, after) := StripSource(rest).value;
        StrippedHead(line, tags, rest, source, after);
        AfterFails(after);
        SourceHasBang(source);
        if StripCommand(after).Ok? {
          StripErrors(StripCommand(after).value.1);
        }
      }
    }
  }

  lemma SourceHasBang(source: string)
    ensures IsUserMessage(source) <==> '!' in source
  {
  }

  lemma StripErrors(line: string)
    ensures StripTags(line).Err? ==> StripTags(line).error in {NoCommand, MalformedTag}
    ensures StripSource(line).Err? ==> StripSource(line).error == NoCommand
    ensures Parameters(line).Err? ==> Parameters(line).error == BadParameter
  {
  }

  lemma MalformedIff(line: string)
    ensures StripTags(line) == Err(MalformedTag) <==>
            exists tags, rest :: line == "@" + tags + " " + rest && ' ' !in tags && '=' !in tags
  {
    if line != "" && line[0] == '@' {
      var sp := Find(line, SPACE, 1);
      if sp < |line| {
        var tags, rest := line[1..sp], line[sp + 1..];
        assert line == "@" + tags + " " + rest;
        NotInSlice(line, ' ', 1, sp);
        assert HasPair(tags) <==> '=' in tags;
      }
    }
    if tags, rest :| line == "@" + tags + " " + rest && ' ' !in tags && '=' !in tags {
      FindAfter("@" + tags, ' ', rest, 1);
      assert line == ("@" + tags) + [' '] + rest;
      assert line[1..|tags| + 1] == tags;
    }
  }

  // ------------------------------------------------------------ printing and back

  function Print(m: IRCMessage): string {
    TagPart(m.tags) + SourcePart(m.source != "", m.source) + m.command + " " + Join(m.params, ' ')
  }

  /** The first printed field cannot be taken for tags or a source. */
  ghost predicate Unambiguous(m: IRCMessage)
    requires m.command != ""
  {
    m.source != "" || (m.command[0] != ':' && (m.tags != "" || m.command[0] != '@'))
  }

  ghost predicate WellFormed(m: IRCMessage) {
    && TagsOk(m)
    && ' ' !in m.source
    && m.command != "" && ' ' !in m.command && m.command[0] != '\0'
    && m.params != [] && Tokens(m.params, SPACE)
    && Unambiguous(m)
  }

  lemma {:induction false} JoinStart(ws: seq<string>, sep: char)
    requires ws != [] && ws[0] != ""
    ensures Join(ws, sep) != "" && Join(ws, sep)[0] == ws[0][0]
  {
  }

  lemma {:induction false} WellFormedPrints(m: IRCMessage)
    requires WellFormed(m)
    ensures DerivesVia(Print(m), m, m.source != "", Join(m.params, ' '))
  {
    var rest := Join(m.params, ' ');
    assert Token(m.params[0], SPACE);
    JoinStart(m.params, ' ');
    FieldsOfJoin(m.params, ' ', SPACE);
    var marked := m.source != "";
    assert Print(m) == TagPart(m.tags) + (SourcePart(marked, m.source) + Body(m.command, rest));
  }

  /** The printed line of `m` is read back as `m` exactly when `m` is well formed. */
  lemma PrintParseRoundTrip(m: IRCMessage)
    ensures Parse(Print(m), DEFAULT) == Ok(m) <==> WellFormed(m)
  {
    if WellFormed(m) {
      WellFormedPrints(m);
      DerivedParses(Print(m), m, DEFAULT, m.source != "", Join(m.params, ' '));
    }
    if Parse(Print(m), DEFAULT) == Ok(m) {
      ParsedDerives(Print(m), m, DEFAULT);
      var marked, rest :| DerivesVia(Print(m), m, marked, rest);
      PrintedIsWellFormed(m, marked, rest);
    }
  }

  lemma {:induction false} PrintedIsWellFormed(m: IRCMessage, marked: bool, rest: string)
    requires DerivesVia(Print(m), m, marked, rest)
    ensures WellFormed(m)
  {
    hide Fields, TagKv, Join;
    var joined, body, q := Join(m.params, ' '), Body(m.command, rest), SourcePart(marked, m.source);
    var q' := SourcePart(m.source != "", m.source);
    var printed := m.command + " " + joined;
    assert Print(m) == TagPart(m.tags) + (q' + printed);
    SamePrefix(TagPart(m.tags), q' + printed, q + body);
    JoinOfFieldsShrinks(rest, ' ', SPACE);
    assert |joined| <= |rest|;
    assert |q'| + |printed| == |q' + printed| == |q| + |body|;
    assert marked == (m.source != "");
    SamePrefix(q, printed, body);
    FieldsOfRest(rest);
  }

  lemma NotInSuffix(p: string, s: string, c: char)
    requires c !in p + s
    ensures c !in s
  {
    assert forall j :: 0 <= j < |s| ==> s[j] == (p + s)[|p| + j];
  }

  lemma {:induction false} FieldsOfRest(rest: string)
    requires rest != "" && rest[0] != ' '
    ensures Fields(rest, SPACE) != [] && Tokens(Fields(rest, SPACE), SPACE)
  {
    FieldsAreTokens(rest, SPACE);
  }

  /** For an accepted line without NUL, printing the message and parsing again is
      a fixpoint exactly when the first printed field is unambiguous. */
  lemma ReparseFixpoint(line: string, m: IRCMessage, t: MessageType)
    requires '\0' !in line && Parse(line, t) == Ok(m)
    ensures m.command != ""
    ensures Parse(Print(m), DEFAULT) == Ok(m) <==> Unambiguous(m)
  {
    hide Parse, Fields, TagKv;
    ParsedDerives(line, m, t);
    var marked, rest :| DerivesVia(line, m, marked, rest);
    assert '\0' !in Body(m.command, rest) by {
      var p := TagPart(m.tags) + SourcePart(marked, m.source);
      assert line == p + Body(m.command, rest);
      NotInSuffix(p, Body(m.command, rest), '\0');
    }
    FieldsOfRest(rest);
    PrintParseRoundTrip(m);
  }

  /** The condition is needed: an empty source is not printed, and what was the command is
      then read as a source. */
  lemma EmptySourceIsLost()
    ensures var m := IRCMessage("", [], "", ":x", ["p"]);
            Parse(": :x p", DEFAULT) == Ok(m) && Print(m) == ":x p" && Parse(Print(m), DEFAULT) != Ok(m)
  {
    hide Parse;
    var m := IRCMessage("", [], "", ":x", ["p"]);
    FieldsOfToken("p", SPACE);
    assert Find("", EQUALS, 0) == 0;
    assert Body(":x", "p") == ":x p";
    assert ": :x p" == TagPart("") + (SourcePart(true, "") + Body(":x", "p"));
    assert DerivesVia(": :x p", m, true, "p");
    DerivedParses(": :x p", m, DEFAULT, true, "p");
    assert !Unambiguous(m);
    PrintParseRoundTrip(m);
  }
}
