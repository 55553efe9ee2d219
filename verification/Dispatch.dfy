/**
 From a line to its handler: GetIRCMessageVariantFrom of src/IRC.cc, the predicates of
 src/IRC.hh and ProcessMessageLine of src/Manager.cc.
 */
module Dispatch {
  import opened Text
  import opened Message
  import opened Grammar
  import opened Command
  import opened Source
  import opened Framing
  import opened Server
  import opened UserCommand
  import opened Upstream
  import Outgoing

  datatype Variant =
    | Plain | PingMessage | NickMessage | JoinMessage | PartMessage | PrivMessage | QuitMessage
    | AssertionFails

  /** For a PRIVMSG: from a user, by the capable user, and either `:,quit` or without a
      second parameter at all. */
  predicate IsQuitMessage(m: IRCMessage) {
    && IsUserMessage(m.source)
    && !(|m.params| > 1 && m.params[1] != ":,quit")
    && ParseUser(m.source).User? && IsUserCapable(ParseUser(m.source).user)
  }

  function VariantOf(m: IRCMessage): Variant {
    match GetMessageType(m.command)
    case PING => PingMessage
    case NICK => if IsUserMessage(m.source) then NickMessage else AssertionFails
    case JOIN => JoinMessage
    case PART => PartMessage
    case PRIVMSG =>
      if !IsUserMessage(m.source) then AssertionFails
      else if IsQuitMessage(m) then QuitMessage
      else if |m.params| < 2 then AssertionFails
      else PrivMessage
    case QUIT => QuitMessage
    case LOGIN => Plain
    case DEFAULT => Plain
  }

  datatype Verdict = Continue | Stop | Abort

  /** A malformed line is skipped, a quit asks the worker to stop, and a failed assertion
      ends the program. */
  function VerdictOf(line: string): Verdict {
    var r := Parse(line, DEFAULT);
    if r.Err? then Continue
    else
      match VariantOf(r.value)
      case QuitMessage => Stop
      case AssertionFails => Abort
      case _ => Continue
  }

  lemma ParsedHasParameter(line: string, t: MessageType)
    ensures Parse(line, t).Ok? ==> Parse(line, t).value.params != [] && Parse(line, t).value.params[0] != ""
  {
    if Parse(line, t).Ok? {
      var rest := StripCommand(StripSource(StripTags(line).value.1).value.1).value.1;
      assert Parse(line, t).value.params == Fields(rest, SPACE);
      assert rest != "" && rest[0] != ' ';
      FieldsAreTokens(rest, SPACE);
      assert Fields(rest, SPACE) != [];
      assert Token(Fields(rest, SPACE)[0], SPACE);
    }
  }

  /** Who a line is from: the nickname of a user, or else the whole source. */
  function AuthorOf(source: string): string {
    if ParseUser(source).User? then ParseUser(source).user.nickname else source
  }

  /** The line of the protocol that a text is handled as: the new nickname loses its first
      character, a ':'. */
  function LineOf(text: string): Line {
    var r := Parse(text, DEFAULT);
    if r.Err? then Other(text)
    else
      ParsedHasParameter(text, DEFAULT);
      var m := r.value;
      match VariantOf(m)
      case JoinMessage => JoinLine(AuthorOf(m.source), m.params[0])
      case PartMessage => PartLine(AuthorOf(m.source), m.params[0])
      case NickMessage => NickLine(AuthorOf(m.source), m.params[0][1..])
      case _ => Other(text)
  }

  lemma PrivMessageHasText(m: IRCMessage)
    ensures VariantOf(m).PrivMessage? ==> HasText(m)
  {
    hide GetMessageType;
  }

  /** The request that a message makes: that of a user command in a PRIVMSG. */
  function AskOfMessage(m: IRCMessage, behind: string): Asking {
    PrivMessageHasText(m);
    if VariantOf(m).PrivMessage? then Permitted(m, behind) else NoRequest
  }

  function AskOf(text: string): Asking {
    var r := Parse(text, DEFAULT);
    if r.Ok? then AskOfMessage(r.value, TrailingSpaces(text)) else NoRequest
  }

  /** What a line does: to the bot, and on the wire. */
  function Process(b: Bot, line: string, env: Env): Effect {
    hide Parse, GetMessageType, IsQuitMessage, LineOf;
    var r := Parse(line, DEFAULT);
    if r.Err? then Effect(b, [])
    else
      ParsedHasParameter(line, DEFAULT);
      match VariantOf(r.value)
      case PingMessage => Effect(b, SentIf(Outgoing.Pong(r.value.params[0][1..]), env.reply))
      case PrivMessage =>
        PrivMessageHasText(r.value);
        Invoke(b, r.value, TrailingSpaces(line), env)
      case _ => Effect(Deliver(b, LineOf(line)), [])
  }

  method ProcessMessageLine(server: IRCServer, line: string, env: Env) returns (v: Verdict)
    modifies server
    ensures server.View() == Process(old(server.View()), line, env).bot
    ensures server.outbox == old(server.outbox) + Process(old(server.View()), line, env).sent
    ensures v == VerdictOf(line)
  {
    hide Parse, GetMessageType, ParseUser, IsQuitMessage, Invoke;
    var r := ParseLine(line, DEFAULT);
    ParsedHasParameter(line, DEFAULT);
    if r.Err? {
      return Continue;
    }
    var m := r.value;
    match VariantOf(m) {
      case QuitMessage => return Stop;
      case AssertionFails => return Abort;
      case PingMessage =>
        var _ := server.SendMsg(Outgoing.Pong(m.params[0][1..]), env.reply);
      case NickMessage =>
        var u := ParseSourceUser(m.source);
        UsersAreUsers(m.source);
        server.UpdateNickname(u.user.nickname, m.params[0][1..]);
      case JoinMessage =>
        server.UpdateJoinChannel(m.params[0]);
        assert server.View() == Deliver(old(server.View()), LineOf(line));
      case PartMessage =>
        server.UpdatePartChannel(m.params[0]);
        assert server.View() == Deliver(old(server.View()), LineOf(line));
      case PrivMessage =>
        BuiltinPrivMsg(server, m, TrailingSpaces(line), env);
      case Plain =>
    }
    return Continue;
  }

  lemma UsersAreUsers(source: string)
    ensures IsUserMessage(source) <==> ParseUser(source).User?
  {
  }

  // -------------------------------------------------------------- what lines amount to

  /** Every line acts as a line of the protocol followed by the request it makes, if any:
      on the channels and the nickname, and on the requests that go out. */
  lemma ProcessIsLineThenRequest(b: Bot, text: string, env: Env)
    requires RequestsAmong(env.plugin) == []
    ensures Process(b, text, env).bot == AfterAsking(Deliver(b, LineOf(text)), AskOf(text), env.request)
    ensures RequestsAmong(Process(b, text, env).sent) == SendsAsking(Deliver(b, LineOf(text)), AskOf(text), env.request)
  {
    hide Parse, GetMessageType, ParseUser, IsQuitMessage, Invoke, RequestsAmong, Permitted, Deliver;
    NoRequests();
    DeliverOther(b, text);
    var r := Parse(text, DEFAULT);
    if r.Ok? {
      ParsedHasParameter(text, DEFAULT);
      if VariantOf(r.value) == PrivMessage {
        InvokeIsRequest(b, r.value, TrailingSpaces(text), env);
      } else if VariantOf(r.value) == PingMessage {
        RequestsOfOne(Outgoing.Pong(r.value.params[0][1..]));
      }
    }
  }

  lemma DeliverOther(b: Bot, text: string)
    ensures Deliver(b, Other(text)) == b
  {
  }

  /** Only lines that change nothing end the worker, and only such lines make requests. */
  lemma StoppingIsOther(text: string)
    ensures VerdictOf(text) != Continue || AskOf(text).Asks? ==> LineOf(text) == Other(text)
    ensures VerdictOf(text) == Continue || AskOf(text).NoRequest?
  {
    hide Parse, GetMessageType, ParseUser, IsQuitMessage, Permitted;
    ParsedHasParameter(text, DEFAULT);
  }

  // ------------------------------------------------------------------ who gets his way

  lemma BytesInMiddle(a: string, s: string, b: string)
    requires IsBytes(a + s + b)
    ensures IsBytes(s)
  {
    assert forall j :: 0 <= j < |s| ==> s[j] == (a + s + b)[|a| + j];
  }

  /** In a line without NUL, and strtok_r delivers no other, the packed switch is string
      comparison. */
  lemma SwitchIsStringComparison(line: string, m: IRCMessage)
    requires '\0' !in line && IsBytes(line) && Parse(line, DEFAULT) == Ok(m)
    ensures GetMessageType(m.command) == TypeByName(m.command)
  {
    hide Parse, GetMessageType, TypeByName, Fields, TagKv;
    ParsedAvoids(line, m, DEFAULT, NUL);
    ParsedDerives(line, m, DEFAULT);
    var marked, rest :| DerivesVia(line, m, marked, rest);
    if m.command != "" {
      var a, b := TagPart(m.tags) + SourcePart(marked, m.source), " " + rest;
      assert line == a + m.command + b;
      BytesInMiddle(a, m.command, b);
    }
    ClassifierIsStringComparison(m.command);
  }

  /** The one source whose commands count. */
  predicate FromOwner(source: string) { source == "kkd" + "!" + "~memxor" + "@" + "unaffiliated/kartikeya" }

  lemma OwnerMask(source: string)
    ensures FromOwner(source) <==> source == Source.Render(OWNER)
    ensures FromOwner(source) ==> '!' in source
  {
    assert Source.Render(OWNER)[3] == '!';
  }

  function CommandName(r: Request): string {
    match r
    case JoinReq(_) => ":,join"
    case PartReq(_) => ":,part"
    case NickReq(_) => ":,nick"
  }

  /** The message of the owner that asks for `r`; a new name takes along what is behind it. */
  predicate OwnerAsks(m: IRCMessage, behind: string, r: Request) {
    && FromOwner(m.source) && m.command == "PRIVMSG"
    && |m.params| == 3 && m.params[1] == CommandName(r)
    && Argument(r) == m.params[2] + if r.NickReq? then behind else ""
  }

  lemma OwnerSource(source: string)
    ensures ParseUser(source) == User(OWNER) <==> source == Source.Render(OWNER)
  {
    hide ParseUser;
    SourceRebuilt(source);
    PrintedUserParses(OWNER);
  }

  lemma PermittedIff(m: IRCMessage, behind: string, r: Request)
    requires HasText(m) && (|m.params| == 3 ==> CString(m.params[2] + behind) == m.params[2] + behind)
    ensures Permitted(m, behind) == Asks(r) <==>
            && ParseUser(m.source) == User(OWNER)
            && |m.params| == 3 && m.params[1] == CommandName(r)
            && Argument(r) == m.params[2] + if r.NickReq? then behind else ""
  {
    hide ParseUser, CString;
    UsersAreUsers(m.source);
    if |m.params| == 3 {
      assert m.params[2] + "" == m.params[2];
    }
  }

  lemma NoNulNoCut(a: string, b: string)
    requires Avoids(a, NUL) && Avoids(b, NUL)
    ensures CString(a + b) == a + b
  {
    assert IsFirst(a + b, NUL, 0, |a + b|);
    assert (a + b)[..|a + b|] == a + b;
  }

  /** A line makes a request exactly when it is the owner's command for it: nobody else, and
      no other line, makes the bot join, part or rename. */
  lemma OnlyTheOwnerIsObeyed(text: string, r: Request)
    requires '\0' !in text && IsBytes(text)
    ensures AskOf(text) == Asks(r) <==>
            Parse(text, DEFAULT).Ok? && OwnerAsks(Parse(text, DEFAULT).value, TrailingSpaces(text), r)
  {
    hide Parse, GetMessageType, ParseUser, IsUserMessage, Permitted, Source.Render, CString, TrailingSpaces, FromOwner;
    var p := Parse(text, DEFAULT);
    if p.Ok? {
      var m, behind := p.value, TrailingSpaces(text);
      SwitchIsStringComparison(text, m);
      OwnerSource(m.source);
      OwnerMask(m.source);
      UsersAreUsers(m.source);
      ParsedAvoids(text, m, DEFAULT, NUL);
      if HasText(m) {
        if |m.params| == 3 {
          NoNulNoCut(m.params[2], behind);
        }
        PermittedIff(m, behind, r);
      }
      PrivMessageHasText(m);
    }
  }

  /** The owner's command for `r`, given in `buffer`. */
  function OwnerText(buffer: string, r: Request): string {
    ":" + Source.Render(OWNER) + " PRIVMSG " + buffer + " " + CommandName(r) + " " + Argument(r)
  }

  lemma JoinThree(a: string, b: string, c: string)
    ensures Join([a, b, c], ' ') == a + " " + (b + " " + c)
  {
    var three, two, one := [a, b, c], [b, c], [c];
    assert three[1..] == two && two[1..] == one;
    assert Join(two, ' ') == b + " " + Join(one, ' ');
  }

  lemma OwnerHasNoSpace()
    ensures ' ' !in Source.Render(OWNER)
  {
  }

  lemma OwnerTextParses(buffer: string, r: Request)
    requires Token(buffer, SPACE) && Token(Argument(r), SPACE)
    ensures Parse(OwnerText(buffer, r), DEFAULT)
         == Ok(IRCMessage("", [], Source.Render(OWNER), "PRIVMSG", [buffer, CommandName(r), Argument(r)]))
  {
    hide Parse, Fields, Join, Source.Render;
    OwnerHasNoSpace();
    var src, ps := Source.Render(OWNER), [buffer, CommandName(r), Argument(r)];
    var rest := buffer + " " + (CommandName(r) + " " + Argument(r));
    JoinThree(buffer, CommandName(r), Argument(r));
    assert Token(CommandName(r), SPACE);
    FieldsOfJoin(ps, ' ', SPACE);
    var m := IRCMessage("", [], src, "PRIVMSG", ps);
    assert Find("", EQUALS, 0) == 0;
    assert Body("PRIVMSG", rest) == "PRIVMSG " + rest;
    assert OwnerText(buffer, r) == TagPart("") + (SourcePart(true, src) + Body("PRIVMSG", rest));
    assert DerivesVia(OwnerText(buffer, r), m, true, rest);
    DerivedParses(OwnerText(buffer, r), m, DEFAULT, true, rest);
  }

  lemma NoTrailingSpaces(a: string, w: string)
    requires w != "" && w[|w| - 1] != ' '
    ensures TrailingSpaces(a + w) == ""
  {
    assert (a + w)[|a + w| - 1] == w[|w| - 1];
  }

  /** Conversely, every command of the owner's has its way. */
  lemma TheOwnerIsObeyed(buffer: string, r: Request)
    requires Token(buffer, SPACE) && Token(Argument(r), SPACE + NUL)
    ensures AskOf(OwnerText(buffer, r)) == Asks(r)
  {
    hide Parse, GetMessageType, ParseUser, IsUserMessage, Permitted, CString, TrailingSpaces;
    var m := IRCMessage("", [], Source.Render(OWNER), "PRIVMSG", [buffer, CommandName(r), Argument(r)]);
    assert Token(Argument(r), SPACE);
    OwnerTextParses(buffer, r);
    NoTrailingSpaces(":" + Source.Render(OWNER) + " PRIVMSG " + buffer + " " + CommandName(r) + " ", Argument(r));
    Names();
    ClassifierIsStringComparison("PRIVMSG");
    OwnerSource(m.source);
    UsersAreUsers(m.source);
    NoNulNoCut(Argument(r), "");
    PermittedIff(m, "", r);
    assert Argument(r) + "" == Argument(r);
  }

  /** Also one that the server will read otherwise. */
  lemma ColonCommand()
    ensures AskOf(OwnerText("#k", JoinReq(":#x"))) == Asks(JoinReq(":#x"))
  {
    hide AskOf, OwnerText;
    TheOwnerIsObeyed("#k", JoinReq(":#x"));
  }

  /** Also for a line with a NUL, the new name is passed on up to it and no further. */
  lemma RenamingHasNoNul(text: string, n: string)
    requires AskOf(text) == Asks(NickReq(n))
    ensures '\0' !in n
    ensures var m := Parse(text, DEFAULT).value;
            && |m.params| == 3 && n <= m.params[2] + TrailingSpaces(text)
            && (|n| < |m.params[2] + TrailingSpaces(text)| ==> (m.params[2] + TrailingSpaces(text))[|n|] == '\0')
  {
    hide Parse, GetMessageType, ParseUser, IsQuitMessage;
    PrivMessageHasText(Parse(text, DEFAULT).value);
  }

  // ------------------------------------------------------ which lines do what, by their text

  lemma QuitMessageIff(m: IRCMessage)
    requires m.params != []
    ensures IsQuitMessage(m) <==> FromOwner(m.source) && (|m.params| == 1 || m.params[1] == ":,quit")
  {
    hide ParseUser, Source.Render, FromOwner;
    OwnerSource(m.source);
    UsersAreUsers(m.source);
    OwnerMask(m.source);
  }

  lemma UsersHaveBang(source: string)
    ensures IsUserMessage(source) <==> '!' in source
  {
    hide ParseUser;
    SourceRebuilt(source);
    UsersAreUsers(source);
  }

  lemma TypesByName(command: string)
    ensures TypeByName(command) == PING <==> command == "PING"
    ensures TypeByName(command) == NICK <==> command == "NICK"
    ensures TypeByName(command) == JOIN <==> command == "JOIN"
    ensures TypeByName(command) == PART <==> command == "PART"
    ensures TypeByName(command) == PRIVMSG <==> command == "PRIVMSG"
    ensures TypeByName(command) == QUIT <==> command == "QUIT" || command == "KILL"
  {
  }

  /** How a message is classified, by its command. */
  lemma TypeIs(text: string, m: IRCMessage)
    requires '\0' !in text && IsBytes(text) && Parse(text, DEFAULT) == Ok(m)
    ensures m.params != [] && m.params[0] != ""
    ensures var t := GetMessageType(m.command);
            && (t == PING <==> m.command == "PING") && (t == NICK <==> m.command == "NICK")
            && (t == JOIN <==> m.command == "JOIN") && (t == PART <==> m.command == "PART")
            && (t == PRIVMSG <==> m.command == "PRIVMSG") && (t == QUIT <==> m.command == "QUIT" || m.command == "KILL")
  {
    hide Parse, GetMessageType, TypeByName;
    SwitchIsStringComparison(text, m);
    TypesByName(m.command);
    ParsedHasParameter(text, DEFAULT);
  }

  /** Which lines ask the worker to stop: a QUIT or KILL, whoever sends it, and the owner's
      `,quit`, or a PRIVMSG of his without a text. */
  lemma StopsIff(text: string, m: IRCMessage)
    requires '\0' !in text && IsBytes(text) && Parse(text, DEFAULT) == Ok(m)
    ensures VerdictOf(text) == Stop <==>
            || m.command == "QUIT" || m.command == "KILL"
            || (m.command == "PRIVMSG" && FromOwner(m.source) && (|m.params| == 1 || m.params[1] == ":,quit"))
  {
    hide Parse, GetMessageType, IsQuitMessage, IsUserMessage, FromOwner;
    TypeIs(text, m);
    QuitMessageIff(m);
    OwnerMask(m.source);
    UsersHaveBang(m.source);
  }

  /** Which lines fail an assertion: a NICK or PRIVMSG that is not from a user, and anybody
      else's PRIVMSG without a text. */
  lemma AbortsIff(text: string, m: IRCMessage)
    requires '\0' !in text && IsBytes(text) && Parse(text, DEFAULT) == Ok(m)
    ensures VerdictOf(text) == Abort <==>
            || (m.command == "NICK" && '!' !in m.source)
            || (m.command == "PRIVMSG" && ('!' !in m.source || (|m.params| == 1 && !FromOwner(m.source))))
  {
    hide Parse, GetMessageType, IsQuitMessage, IsUserMessage, FromOwner;
    TypeIs(text, m);
    QuitMessageIff(m);
    OwnerMask(m.source);
    UsersHaveBang(m.source);
  }

  /** `who` is the author of a line: the nickname of a user, or else the whole source. */
  predicate IsAuthor(who: string, source: string) {
    if '!' in source then '!' !in who && who + "!" <= source else who == source
  }

  lemma AuthorIs(source: string)
    ensures IsAuthor(AuthorOf(source), source)
  {
    hide ParseUser;
    SourceRebuilt(source);
    if ParseUser(source).User? {
      var u := ParseUser(source).user;
      assert Source.Render(u) == (u.nickname + "!") + (u.username + "@" + u.hostname);
      var n := |u.nickname| + 1;
      assert Source.Render(u)[..n] == u.nickname + "!";
      assert source + "@" == Source.Render(u) ==> source[..n] == (source + "@")[..n];
    }
  }

  /** Which lines change the bot: JOIN, PART and a user's NICK, each with its first parameter,
      of which a new nickname loses the first character. */
  lemma LineIff(text: string, m: IRCMessage, l: Line)
    requires '\0' !in text && IsBytes(text) && Parse(text, DEFAULT) == Ok(m)
    ensures m.params != [] && m.params[0] != ""
    ensures l == LineOf(text) ==>
            match l
            case JoinLine(who, c) => m.command == "JOIN" && IsAuthor(who, m.source) && c == m.params[0]
            case PartLine(who, c) => m.command == "PART" && IsAuthor(who, m.source) && c == m.params[0]
            case NickLine(o, n) => m.command == "NICK" && '!' in m.source && IsAuthor(o, m.source) && n == m.params[0][1..]
            case Other(t) => t == text && m.command != "JOIN" && m.command != "PART" && (m.command == "NICK" ==> '!' !in m.source)
  {
    hide Parse, GetMessageType, IsQuitMessage, IsUserMessage, AuthorOf, IsAuthor;
    TypeIs(text, m);
    UsersHaveBang(m.source);
    AuthorIs(m.source);
  }

  /** Only a PING or a message is ever answered. */
  lemma OnlyTheseAreAnswered(b: Bot, text: string, m: IRCMessage, env: Env)
    requires '\0' !in text && IsBytes(text) && Parse(text, DEFAULT) == Ok(m)
    ensures (m.command != "PING" && m.command != "PRIVMSG") || VerdictOf(text) != Continue ==>
              Process(b, text, env).sent == []
  {
    hide Parse, GetMessageType, IsQuitMessage, IsUserMessage, Invoke;
    TypeIs(text, m);
    PrivMessageHasText(m);
  }

  /** A line that the grammar does not derive is skipped. */
  lemma RefusedIsSkipped(b: Bot, text: string, env: Env)
    requires forall m :: !Derives(text, m)
    ensures VerdictOf(text) == Continue && Process(b, text, env) == Effect(b, [])
    ensures LineOf(text) == Other(text) && AskOf(text) == NoRequest
  {
    hide Parse, VariantOf, Derives;
    var p := Parse(text, DEFAULT);
    if p.Ok? {
      ParsedDerives(text, p.value, DEFAULT);
      assert false;
    }
  }

  /** Somebody else's `,quit` is not obeyed. */
  lemma OthersCannotQuit(text: string, m: IRCMessage)
    requires '\0' !in text && IsBytes(text) && Parse(text, DEFAULT) == Ok(m)
    requires m.command == "PRIVMSG" && m.source == "eve!u@h" && m.params == ["#k", ":,quit"]
    ensures VerdictOf(text) == Continue
  {
    hide VerdictOf, Parse;
    StopsIff(text, m);
    AbortsIff(text, m);
    assert m.source[0] == 'e' && m.source[3] == '!';
  }

  // ---------------------------------------------------------------- what goes out is lines

  lemma ProcessSendsLines(b: Bot, text: string, env: Env)
    requires Avoids(text, EOL) && Outgoing.AllOneLine(env.plugin)
    ensures Outgoing.AllOneLine(Process(b, text, env).sent)
  {
    hide Parse, GetMessageType, ParseUser, IsQuitMessage, Invoke, Outgoing.OneLine, TrailingSpaces;
    var p := Parse(text, DEFAULT);
    if p.Ok? {
      var m := p.value;
      ParsedHasParameter(text, DEFAULT);
      ParsedAvoids(text, m, DEFAULT, EOL);
      PrivMessageHasText(m);
      if VariantOf(m) == PrivMessage {
        InvokeSendsLines(b, m, TrailingSpaces(text), env);
      } else if VariantOf(m) == PingMessage {
        PongIsOneLine(m.params[0][1..]);
      }
    }
  }

  lemma PongIsOneLine(p: string)
    requires Avoids(p, EOL)
    ensures Outgoing.OneLine(Outgoing.Pong(p))
  {
    AvoidsConcat("PONG :", p, EOL);
  }

  /** A channel in a command is a word. */
  lemma AskedIsWord(text: string, r: Request)
    requires AskOf(text) == Asks(r) && !r.NickReq?
    ensures Token(Argument(r), SPACE)
  {
    hide Parse, GetMessageType, ParseUser, IsQuitMessage, Fields;
    var m := Parse(text, DEFAULT).value;
    PrivMessageHasText(m);
    var front, rest := RestOf(text, m, DEFAULT);
    FieldsAreTokens(rest, SPACE);
    assert Token(m.params[2], SPACE);
  }

  // ------------------------------------------------------------------ keeping alive

  /** What a parameter says: a ':' in front of it does not count. */
  function Content(p: string): string
    requires p != ""
  {
    if p[0] == ':' then p[1..] else p
  }

  /** Every PING is answered, and changes nothing; but the first character of its parameter is
      dropped whatever it is, so the answer is right exactly when that is a ':'. */
  lemma PingIsAnswered(b: Bot, text: string, m: IRCMessage, env: Env)
    requires Parse(text, DEFAULT) == Ok(m) && VariantOf(m) == PingMessage
    ensures m.params != [] && m.params[0] != "" && VerdictOf(text) == Continue
    ensures Process(b, text, env) == Effect(b, SentIf(Outgoing.Pong(m.params[0][1..]), env.reply))
    ensures m.params[0][1..] == Content(m.params[0]) <==> m.params[0][0] == ':'
  {
    hide Parse, VariantOf;
    ParsedHasParameter(text, DEFAULT);
  }

  lemma PingParses(marked: bool, source: string, rest: string)
    requires ' ' !in source && (!marked ==> source == "") && rest != "" && rest[0] != ' '
    ensures Parse(SourcePart(marked, source) + "PING " + rest, DEFAULT)
         == Ok(IRCMessage("", [], source, "PING", Fields(rest, SPACE)))
  {
    hide Parse, Fields;
    var line := SourcePart(marked, source) + "PING " + rest;
    var m := IRCMessage("", [], source, "PING", Fields(rest, SPACE));
    assert Find("", EQUALS, 0) == 0;
    assert Body("PING", rest) == "PING " + rest;
    assert TagPart("") + (SourcePart(marked, source) + Body("PING", rest)) == line;
    assert DerivesVia(line, m, marked, rest);
    DerivedParses(line, m, DEFAULT, marked, rest);
  }

  lemma PingIsPing(m: IRCMessage)
    requires m.command == "PING"
    ensures VariantOf(m) == PingMessage
  {
    hide GetMessageType;
    Names();
    ClassifierIsStringComparison("PING");
  }

  lemma FirstOfRest(rest: string)
    requires rest != "" && rest[0] != ' '
    ensures Fields(rest, SPACE) != [] && Fields(rest, SPACE)[0] == rest[..Find(rest, SPACE, 0)]
  {
  }

  /** By the grammar of section 2.3.1 of RFC 2812, a PING, with or without a source, is answered
      with its first parameter exactly when that is written with a ':' and without a space. */
  lemma PingIsEchoed(b: Bot, marked: bool, source: string, rest: string, env: Env)
    requires ' ' !in source && (!marked ==> source == "") && rest != "" && rest[0] != ' '
    ensures ParamsOf(rest) != []
    ensures Process(b, SourcePart(marked, source) + "PING " + rest, env)
         == Effect(b, SentIf(Outgoing.Pong(rest[1..Find(rest, SPACE, 0)]), env.reply))
    ensures rest[1..Find(rest, SPACE, 0)] == ParamsOf(rest)[0] <==> rest[0] == ':' && ' ' !in rest
  {
    hide Parse, VariantOf, Fields, Process, SourcePart;
    PingParses(marked, source, rest);
    var e, m := Find(rest, SPACE, 0), IRCMessage("", [], source, "PING", Fields(rest, SPACE));
    PingIsPing(m);
    FirstOfRest(rest);
    PingIsAnswered(b, SourcePart(marked, source) + "PING " + rest, m, env);
    assert rest[..e][1..] == rest[1..e];
    if ' ' !in rest {
      assert rest[1..e] == rest[1..];
    }
  }

  /** A server's name comes back without its first letter. */
  lemma PingLosesALetter(b: Bot, env: Env)
    ensures Process(b, "PING irc.net", env) == Effect(b, SentIf(Outgoing.Pong("rc.net"), env.reply))
  {
    hide Process, ParamsOf;
    var rest := "irc.net";
    PingIsEchoed(b, false, "", rest, env);
    assert SourcePart(false, "") + "PING " + rest == "PING irc.net";
    assert Find(rest, SPACE, 0) == 7;
    assert rest[1..7] == "rc.net";
  }

  // ------------------------------------------------------------- other users' farewells

  /** What the server tells the channels of a user who leaves. */
  function QuitText(who: IRCUser, reason: string): string {
    ":" + Source.Render(who) + " QUIT :" + reason
  }

  lemma QuitTextParses(who: IRCUser, reason: string)
    requires ' ' !in Source.Render(who)
    ensures Parse(QuitText(who, reason), DEFAULT)
         == Ok(IRCMessage("", [], Source.Render(who), "QUIT", Fields(":" + reason, SPACE)))
  {
    hide Parse, Fields, Source.Render;
    var src, rest := Source.Render(who), ":" + reason;
    var m := IRCMessage("", [], src, "QUIT", Fields(rest, SPACE));
    assert Find("", EQUALS, 0) == 0;
    assert Body("QUIT", rest) == "QUIT " + rest;
    assert QuitText(who, reason) == TagPart("") + (SourcePart(true, src) + Body("QUIT", rest));
    assert DerivesVia(QuitText(who, reason), m, true, rest);
    DerivedParses(QuitText(who, reason), m, DEFAULT, true, rest);
  }

  /** The QUIT of any user is taken for an order to stop. */
  lemma QuitTextStops(who: IRCUser, reason: string)
    requires ' ' !in Source.Render(who)
    ensures VerdictOf(QuitText(who, reason)) == Stop && LineOf(QuitText(who, reason)) == Other(QuitText(who, reason))
  {
    hide Parse, GetMessageType, QuitText, Fields;
    QuitTextParses(who, reason);
    Names();
    ClassifierIsStringComparison("QUIT");
    StoppingIsOther(QuitText(who, reason));
  }
}
