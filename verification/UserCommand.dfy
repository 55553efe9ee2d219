/**
 The user commands of src/UserCommand.cc: what a PRIVMSG whose text is a command makes the bot
 do, who may ask for it, and what is answered.
 */
module UserCommand {
  import opened Text
  import opened Framing
  import opened Message
  import opened Source
  import opened Server
  import opened Upstream
  import Outgoing

  /** The one user with capabilities has all of them. */
  const OWNER := IRCUser("kkd", "~memxor", "unaffiliated/kartikeya")

  predicate IsUserCapable(u: IRCUser) { u == OWNER }

  /** Whether the sends of a request and of an answer succeed, and what the bodies of load,
      unload and help, or a plugin's callback, send. */
  datatype Env = Env(request: bool, reply: bool, plugin: seq<Outgoing.Command>)

  datatype Effect = Effect(bot: Bot, sent: seq<Outgoing.Command>)

  /** A message from a user with a text behind the channel or nickname it is sent to. */
  predicate HasText(m: IRCMessage) { IsUserMessage(m.source) && |m.params| >= 2 }

  function Invoker(m: IRCMessage): IRCUser
    requires HasText(m)
  {
    ParseUser(m.source).user
  }

  /** An answer goes to the channel, or to the user if the message was sent to the bot. */
  function Reply(b: Bot, m: IRCMessage, text: string): Outgoing.Command
    requires HasText(m)
  {
    Outgoing.PrivMsg(if m.params[0] == b.nick then Invoker(m).nickname else m.params[0],
                     Invoker(m).nickname + ": " + text)
  }

  const WRONG_COUNT := "Incorrect number of arguments" + " passed to command, see ,help"
  const DENIED := "Error: Permission denied."
  const NO_CHANNEL := "Error: No such channel exists."
  const HELLO := "Hello!"

  /** A command takes between `min` and `max` words. */
  predicate ExpectArgsRange(m: IRCMessage, min: nat, max: nat) { min + 2 <= |m.params| <= max + 2 }

  datatype Asking = NoRequest | Asks(request: Request)

  /** The request that a command names, whoever sends it. A new name is followed by what
      stands behind it in the line. */
  function Named(m: IRCMessage, behind: string): Asking
    requires HasText(m)
  {
    if |m.params| != 3 then NoRequest
    else if m.params[1] == ":,nick" then Asks(NickReq(CString(m.params[2] + behind)))
    else if m.params[1] == ":,join" then Asks(JoinReq(m.params[2]))
    else if m.params[1] == ":,part" then Asks(PartReq(m.params[2]))
    else NoRequest
  }

  /** The request that a command makes. */
  function Permitted(m: IRCMessage, behind: string): Asking
    requires HasText(m)
  {
    if IsUserCapable(Invoker(m)) then Named(m, behind) else NoRequest
  }

  /** What a PRIVMSG does: to the bot, and on the wire. `behind` is what stands behind its last
      word. */
  function Invoke(b: Bot, m: IRCMessage, behind: string, env: Env): Effect
    requires HasText(m)
  {
    var name := m.params[1];
    if name == ":,hi" then
      Effect(b, SentIf(Reply(b, m, if |m.params| == 2 then HELLO else WRONG_COUNT), env.reply))
    else if name in {":,nick", ":,join", ":,part"} then
      if |m.params| != 3 then Effect(b, SentIf(Reply(b, m, WRONG_COUNT), env.reply))
      else if Permitted(m, behind).NoRequest? then Effect(b, SentIf(Reply(b, m, DENIED), env.reply))
      else
        var r := Permitted(m, behind).request;
        var gone := Sends(b, r, env.request);
        var answer := if r.PartReq? && gone == [] then SentIf(Reply(b, m, NO_CHANNEL), env.reply) else [];
        Effect(AfterRequest(b, r, env.request), CommandsFor(gone) + answer)
    else if name in {":,load", ":,unload"} && |m.params| != 3 then
      Effect(b, SentIf(Reply(b, m, WRONG_COUNT), env.reply))
    else if name == ":,help" && |m.params| > 3 then
      Effect(b, SentIf(Reply(b, m, WRONG_COUNT), env.reply))
    else Effect(b, env.plugin)
  }

  method SendInvokerReply(server: IRCServer, m: IRCMessage, text: string, ok: bool)
    requires HasText(m)
    modifies server`outbox
    ensures server.outbox == old(server.outbox) + SentIf(Reply(old(server.View()), m, text), ok)
  {
    var u := ParseSourceUser(m.source);
    var recv := m.params[0];
    if recv == server.nickname {
      recv := u.user.nickname;
    }
    var _ := server.SendMsg(Outgoing.PrivMsg(recv, u.user.nickname + ": " + text), ok);
  }

  method InvokerPermissionCheck(server: IRCServer, m: IRCMessage, ok: bool) returns (capable: bool)
    requires HasText(m)
    modifies server`outbox
    ensures capable <==> IsUserCapable(Invoker(m))
    ensures capable ==> server.outbox == old(server.outbox)
    ensures !capable ==> server.outbox == old(server.outbox) + SentIf(Reply(old(server.View()), m, DENIED), ok)
  {
    var u := ParseSourceUser(m.source);
    if IsUserCapable(u.user) {
      return true;
    }
    SendInvokerReply(server, m, DENIED, ok);
    return false;
  }

  method BuiltinCommandNick(server: IRCServer, m: IRCMessage, behind: string, env: Env)
    requires HasText(m) && |m.params| == 3 && m.params[1] == ":,nick"
    modifies server
    ensures server.View() == Invoke(old(server.View()), m, behind, env).bot
    ensures server.outbox == old(server.outbox) + Invoke(old(server.View()), m, behind, env).sent
  {
    hide ParseUser;
    var capable := InvokerPermissionCheck(server, m, env.reply);
    if capable {
      server.SetNickname(m.params[2], behind, env.request);
    }
  }

  method BuiltinCommandJoin(server: IRCServer, m: IRCMessage, behind: string, env: Env)
    requires HasText(m) && |m.params| == 3 && m.params[1] == ":,join"
    modifies server
    ensures server.View() == Invoke(old(server.View()), m, behind, env).bot
    ensures server.outbox == old(server.outbox) + Invoke(old(server.View()), m, behind, env).sent
  {
    hide ParseUser;
    var capable := InvokerPermissionCheck(server, m, env.reply);
    if capable {
      server.JoinChannel(m.params[2], env.request);
    }
  }

  method BuiltinCommandPart(server: IRCServer, m: IRCMessage, behind: string, env: Env)
    requires HasText(m) && |m.params| == 3 && m.params[1] == ":,part"
    modifies server
    ensures server.View() == Invoke(old(server.View()), m, behind, env).bot
    ensures server.outbox == old(server.outbox) + Invoke(old(server.View()), m, behind, env).sent
  {
    hide ParseUser;
    var capable := InvokerPermissionCheck(server, m, env.reply);
    if capable {
      var gone := server.PartChannel(m.params[2], env.request);
      if !gone {
        SendInvokerReply(server, m, NO_CHANNEL, env.reply);
      }
    }
  }

  /** BuiltinPrivMsg: the built-in command of that name behind its argument count, or else
      what the plugins have. */
  method BuiltinPrivMsg(server: IRCServer, m: IRCMessage, behind: string, env: Env)
    requires HasText(m)
    modifies server
    ensures server.View() == Invoke(old(server.View()), m, behind, env).bot
    ensures server.outbox == old(server.outbox) + Invoke(old(server.View()), m, behind, env).sent
  {
    hide ParseUser, IsUserMessage;
    var name := m.params[1];
    var fits :=
      if name == ":,hi" then ExpectArgsRange(m, 0, 0)
      else if name in {":,nick", ":,join", ":,part", ":,load", ":,unload"} then ExpectArgsRange(m, 1, 1)
      else if name == ":,help" then ExpectArgsRange(m, 0, 1)
      else true;
    if !fits {
      SendInvokerReply(server, m, WRONG_COUNT, env.reply);
    } else if name == ":,hi" {
      SendInvokerReply(server, m, HELLO, env.reply);
    } else if name == ":,nick" {
      BuiltinCommandNick(server, m, behind, env);
    } else if name == ":,join" {
      BuiltinCommandJoin(server, m, behind, env);
    } else if name == ":,part" {
      BuiltinCommandPart(server, m, behind, env);
    } else {
      server.outbox := server.outbox + env.plugin;
    }
  }

  // ------------------------------------------------------------- what commands amount to

  function AfterAsking(b: Bot, a: Asking, ok: bool): Bot {
    if a.Asks? then AfterRequest(b, a.request, ok) else b
  }

  function SendsAsking(b: Bot, a: Asking, ok: bool): seq<Request> {
    if a.Asks? then Sends(b, a.request, ok) else []
  }

  /** A command changes channels and sends requests exactly as the request that its sender
      is permitted; everything else it sends is an answer. */
  lemma InvokeIsRequest(b: Bot, m: IRCMessage, behind: string, env: Env)
    requires HasText(m) && RequestsAmong(env.plugin) == []
    ensures Invoke(b, m, behind, env).bot == AfterAsking(b, Permitted(m, behind), env.request)
    ensures RequestsAmong(Invoke(b, m, behind, env).sent) == SendsAsking(b, Permitted(m, behind), env.request)
  {
    hide RequestsAmong, ParseUser, CommandsFor, Reply;
    RepliesAreNoRequests(b, m, env.reply);
    if m.params[1] in {":,nick", ":,join", ":,part"} && |m.params| == 3 && Permitted(m, behind).Asks? {
      var r := Permitted(m, behind).request;
      var gone := Sends(b, r, env.request);
      RequestsOfCommands(gone);
      var answer := if r.PartReq? && gone == [] then SentIf(Reply(b, m, NO_CHANNEL), env.reply) else [];
      RequestsAmongAppend(CommandsFor(gone), answer);
      NoRequests();
    }
  }

  lemma NoRequests()
    ensures RequestsAmong([]) == []
  {
  }

  lemma RepliesAreNoRequests(b: Bot, m: IRCMessage, ok: bool)
    requires HasText(m)
    ensures forall text :: RequestsAmong(SentIf(Reply(b, m, text), ok)) == []
  {
    forall text ensures RequestsAmong(SentIf(Reply(b, m, text), ok)) == [] {
      RequestsOfOne(Reply(b, m, text));
    }
  }

  // --------------------------------------------------------------- what is answered

  /** One message is sent: it names its invoker, who is written in front of the '!' of the
      source, and goes where the command was given, or to him if that was the bot itself. */
  ghost predicate AnsweredWith(sent: seq<Outgoing.Command>, b: Bot, m: IRCMessage, text: string) {
    && |sent| == 1 && sent[0].PrivMsg? && m.params != []
    && exists nick :: && '!' !in nick && nick + "!" <= m.source
                      && sent[0].msg == nick + ": " + text
                      && sent[0].recipient == if m.params[0] == b.nick then nick else m.params[0]
  }

  lemma ReplyAnswers(b: Bot, m: IRCMessage, text: string)
    requires HasText(m)
    ensures AnsweredWith([Reply(b, m, text)], b, m, text)
  {
    var k := Find(m.source, BANG, 0);
    var nick := m.source[..k];
    NotInSlice(m.source, '!', 0, k);
    assert m.source[0..k] == nick;
    assert nick + "!" == m.source[..k + 1];
  }

  predicate TakesOneWord(name: string) { name in {":,nick", ":,join", ":,part", ":,load", ":,unload"} }

  /** What every built-in command answers, when the answer can be sent. */
  lemma CommandsAreAnswered(b: Bot, m: IRCMessage, behind: string, env: Env)
    requires HasText(m) && env.reply
    ensures var sent, name, n := Invoke(b, m, behind, env).sent, m.params[1], |m.params| - 2;
            && (name == ":,hi" && n == 0 ==> AnsweredWith(sent, b, m, "Hello!"))
            && ((name == ":,hi" && n != 0) || (TakesOneWord(name) && n != 1) || (name == ":,help" && n > 1) ==>
                  AnsweredWith(sent, b, m, "Incorrect number of arguments" + " passed to command, see ,help"))
            && (name in {":,nick", ":,join", ":,part"} && n == 1 && Invoker(m) != OWNER ==>
                  AnsweredWith(sent, b, m, "Error: Permission denied."))
            && (name == ":,part" && n == 1 && Invoker(m) == OWNER && (!env.request || m.params[2] !in b.chans) ==>
                  AnsweredWith(sent, b, m, "Error: No such channel exists."))
  {
    hide Reply, AnsweredWith, ParseUser, CString;
    ReplyAnswers(b, m, HELLO);
    ReplyAnswers(b, m, WRONG_COUNT);
    ReplyAnswers(b, m, DENIED);
    ReplyAnswers(b, m, NO_CHANNEL);
    NothingGoes();
    assert [] + [Reply(b, m, NO_CHANNEL)] == [Reply(b, m, NO_CHANNEL)];
  }

  lemma NothingGoes()
    ensures CommandsFor([]) == []
  {
  }

  /** A load or unload of one plugin, a help on at most one, and every other text are left to
      what the plugins have: exactly that goes out. */
  lemma PluginsSpeak(b: Bot, m: IRCMessage, behind: string, env: Env)
    requires HasText(m)
    requires var name, n := m.params[1], |m.params| - 2;
             || (name in {":,load", ":,unload"} && n == 1)
             || (name == ":,help" && n <= 1)
             || name !in {":,hi", ":,nick", ":,join", ":,part", ":,load", ":,unload", ":,help"}
    ensures Invoke(b, m, behind, env) == Effect(b, env.plugin)
  {
  }

  /** The owner's command is carried out. */
  predicate Obeyed(b: Bot, m: IRCMessage, env: Env)
    requires HasText(m)
  {
    && Invoker(m) == OWNER && |m.params| == 3 && m.params[1] in {":,nick", ":,join", ":,part"}
    && (m.params[1] == ":,part" ==> env.request && m.params[2] in b.chans)
  }

  /** Where nothing is to be answered, nothing is. */
  lemma NothingIsAnswered(b: Bot, m: IRCMessage, behind: string, env: Env)
    requires HasText(m) && env.plugin == []
    ensures !env.reply || Obeyed(b, m, env) ==>
              forall k :: 0 <= k < |Invoke(b, m, behind, env).sent| ==> !Invoke(b, m, behind, env).sent[k].PrivMsg?
    ensures m.params[1] !in {":,hi", ":,nick", ":,join", ":,part", ":,load", ":,unload", ":,help"} ==>
              Invoke(b, m, behind, env).sent == []
  {
    hide Reply, ParseUser, CString;
  }

  // ---------------------------------------------------------------- what goes out is lines

  /** No line ends in a message, as in all that come out of a line. */
  ghost predicate OneLineMessage(m: IRCMessage) {
    Avoids(m.source, EOL) && forall k :: 0 <= k < |m.params| ==> Avoids(m.params[k], EOL)
  }

  lemma ReplyIsOneLine(b: Bot, m: IRCMessage, text: string)
    requires HasText(m) && OneLineMessage(m) && Avoids(text, EOL)
    ensures Outgoing.OneLine(Reply(b, m, text))
  {
    var u := Invoker(m).nickname;
    assert Avoids(u, EOL);
    var to := if m.params[0] == b.nick then u else m.params[0];
    AvoidsConcat(u, ": ", EOL);
    AvoidsConcat(u + ": ", text, EOL);
    AvoidsConcat("PRIVMSG ", to, EOL);
    AvoidsConcat("PRIVMSG " + to, " :", EOL);
    AvoidsConcat("PRIVMSG " + to + " :", u + ": " + text, EOL);
  }

  lemma AnswersAreOneLine()
    ensures Avoids(WRONG_COUNT, EOL) && Avoids(DENIED, EOL) && Avoids(NO_CHANNEL, EOL) && Avoids(HELLO, EOL)
  {
    var a, b := "Incorrect number of arguments", " passed to command, see ,help";
    assert Avoids(a, EOL);
    assert Avoids(b, EOL);
    AvoidsConcat(a, b, EOL);
    assert Avoids(DENIED, EOL);
    assert Avoids(NO_CHANNEL, EOL);
  }

  lemma RepliesAreOneLine(b: Bot, m: IRCMessage)
    requires HasText(m) && OneLineMessage(m)
    ensures forall text :: text in {WRONG_COUNT, DENIED, NO_CHANNEL, HELLO} ==> Outgoing.OneLine(Reply(b, m, text))
  {
    hide Reply, Outgoing.OneLine, OneLineMessage;
    AnswersAreOneLine();
    ReplyIsOneLine(b, m, WRONG_COUNT);
    ReplyIsOneLine(b, m, DENIED);
    ReplyIsOneLine(b, m, NO_CHANNEL);
    ReplyIsOneLine(b, m, HELLO);
  }

  lemma PermittedIsOneLine(m: IRCMessage, behind: string)
    requires HasText(m) && OneLineMessage(m) && Avoids(behind, EOL)
    ensures Permitted(m, behind).Asks? ==> Outgoing.OneLine(CommandFor(Permitted(m, behind).request))
  {
    hide ParseUser, Outgoing.OneLine, EOL;
    if Permitted(m, behind).Asks? {
      AvoidsConcat(m.params[2], behind, EOL);
      RequestIsOneLine(Permitted(m, behind).request);
    }
  }

  lemma InvokeSendsLines(b: Bot, m: IRCMessage, behind: string, env: Env)
    requires HasText(m) && OneLineMessage(m) && Avoids(behind, EOL) && Outgoing.AllOneLine(env.plugin)
    ensures Outgoing.AllOneLine(Invoke(b, m, behind, env).sent)
  {
    hide Reply, Outgoing.OneLine, OneLineMessage, Permitted, CommandFor;
    RepliesAreOneLine(b, m);
    PermittedIsOneLine(m, behind);
  }
}
