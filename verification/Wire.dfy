/**
 The whole path of the server's lines to the bot: text, cut into reads, split, parsed,
 classified and handled on the server object; and what the protocol's promises come to there.
 */
module Wire {
  import opened Text
  import opened Message
  import opened Grammar
  import opened Command
  import opened Source
  import opened Server
  import opened UserCommand
  import opened Upstream
  import opened Protocol
  import opened Dispatch
  import opened Receive
  import opened Framing
  import opened Worker
  import Outgoing

  // ------------------------------------------------------ the lines that change the bot

  /** A JOIN, PART or NICK line as the server sends it: with the user and host of its author. */
  datatype SentLine = SentLine(line: Line, user: string, host: string) {
    predicate Changes() { !line.Other? }
  }

  function Author(s: SentLine): string
    requires s.Changes()
  {
    match s.line
    case JoinLine(who, _) => who
    case PartLine(who, _) => who
    case NickLine(o, _) => o
  }

  function CommandOf(s: SentLine): string
    requires s.Changes()
  {
    match s.line
    case JoinLine(_, _) => "JOIN"
    case PartLine(_, _) => "PART"
    case NickLine(_, _) => "NICK"
  }

  /** A NICK echo carries the new name behind a ':'. */
  function ParameterOf(s: SentLine): string
    requires s.Changes()
  {
    match s.line
    case JoinLine(_, c) => c
    case PartLine(_, c) => c
    case NickLine(_, n) => ":" + n
  }

  function UserOf(s: SentLine): IRCUser
    requires s.Changes()
  {
    IRCUser(Author(s), s.user, s.host)
  }

  function MessageOf(s: SentLine): IRCMessage
    requires s.Changes()
  {
    IRCMessage("", [], Source.Render(UserOf(s)), CommandOf(s), [ParameterOf(s)])
  }

  function TextOf(s: SentLine): string
    requires s.Changes()
  {
    Print(MessageOf(s))
  }

  const LINE_ENDS: set<char> := EOL + NUL

  /** No name contains a space or a line end, a nickname no '!', a user name no '@'. */
  ghost predicate WellNamed(s: SentLine) {
    && s.Changes()
    && Avoids(Author(s), LINE_ENDS + {' ', '!'})
    && Avoids(s.user, LINE_ENDS + {' ', '@'})
    && Avoids(s.host, LINE_ENDS + {' '})
    && Avoids(ParameterOf(s), LINE_ENDS + {' '}) && ParameterOf(s) != ""
  }

  lemma SourceAvoids(s: SentLine)
    requires WellNamed(s)
    ensures Avoids(Source.Render(UserOf(s)), LINE_ENDS + {' '})
  {
    var ds := LINE_ENDS + {' '};
    AvoidsConcat(Author(s), "!", ds);
    AvoidsConcat(Author(s) + "!", s.user, ds);
    AvoidsConcat(Author(s) + "!" + s.user, "@", ds);
    AvoidsConcat(Author(s) + "!" + s.user + "@", s.host, ds);
  }

  lemma RenderedParses(s: SentLine)
    requires WellNamed(s)
    ensures Parse(TextOf(s), DEFAULT) == Ok(MessageOf(s))
  {
    hide Parse;
    SourceAvoids(s);
    var m := MessageOf(s);
    assert Find("", EQUALS, 0) == 0;
    assert TagsOk(m);
    assert Token(m.params[0], SPACE);
    assert WellFormed(m);
    PrintParseRoundTrip(m);
  }

  lemma TypeOfRendered(s: SentLine)
    requires s.Changes()
    ensures GetMessageType(CommandOf(s)) == TypeByName(CommandOf(s))
  {
    hide GetMessageType;
    Names();
    ClassifierIsStringComparison(CommandOf(s));
  }

  /** The text of a JOIN, PART or NICK line is one line, is read back as that line, asks for
      nothing and does not end the worker. */
  lemma RenderedIsRead(s: SentLine)
    requires WellNamed(s)
    ensures Token(TextOf(s), LINE_ENDS)
    ensures LineOf(TextOf(s)) == s.line && AskOf(TextOf(s)) == NoRequest && VerdictOf(TextOf(s)) == Continue
  {
    hide Parse, GetMessageType, ParseUser, TextOf;
    TextIsOneLine(s);
    RenderedParses(s);
    TypeOfRendered(s);
    PrintedUserParses(UserOf(s));
    UsersAreUsers(Source.Render(UserOf(s)));
    hide Source.Render, IsUserMessage;
    assert s.line.NickLine? ==> (":" + s.line.newNick)[1..] == s.line.newNick;
  }

  lemma TextIsOneLine(s: SentLine)
    requires WellNamed(s)
    ensures Token(TextOf(s), LINE_ENDS)
  {
    SourceAvoids(s);
    var m := MessageOf(s);
    var a := ":" + m.source + " ";
    assert TextOf(s) == a + m.command + " " + m.params[0];
    AvoidsConcat(":", m.source, LINE_ENDS);
    AvoidsConcat(":" + m.source, " ", LINE_ENDS);
    AvoidsConcat(a, m.command, LINE_ENDS);
    AvoidsConcat(a + m.command, " ", LINE_ENDS);
    AvoidsConcat(a + m.command + " ", m.params[0], LINE_ENDS);
  }

  // -------------------------------------------------------------------- the stream

  /** What the server sends: each line ended by CR LF. */
  function StreamOf(texts: seq<string>): string {
    if |texts| == 0 then "" else texts[0] + "\r\n" + StreamOf(texts[1..])
  }

  /** What the lines of a stream are to the protocol. */
  function LinesOf(texts: seq<string>): seq<Line> {
    seq(|texts|, i requires 0 <= i < |texts| => LineOf(texts[i]))
  }

  lemma {:induction false} StreamSplits(texts: seq<string>)
    requires Tokens(texts, LINE_ENDS)
    ensures Avoids(StreamOf(texts), NUL) && (texts == [] || EndsLine(StreamOf(texts)))
    ensures Fields(StreamOf(texts), EOL) == texts
  {
    hide Fields;
    if |texts| == 0 {
      NoFieldsOfNothing(EOL);
    } else {
      var t, more := texts[0], StreamOf(texts[1..]);
      StreamSplits(texts[1..]);
      assert Token(t, LINE_ENDS);
      FieldsOfTerminated(t, more);
      assert Avoids(t, NUL);
      AvoidsConcat(t, "\r\n", NUL);
      AvoidsConcat(t + "\r\n", more, NUL);
    }
  }

  lemma StreamLines(texts: seq<string>)
    requires Tokens(texts, LINE_ENDS)
    ensures '\0' !in StreamOf(texts) && (StreamOf(texts) == "" || EndsLine(StreamOf(texts)))
    ensures Lines(StreamOf(texts)) == texts
  {
    hide Fields;
    StreamSplits(texts);
    LinesWithoutNul(StreamOf(texts));
  }

  lemma {:induction false} StreamAppend(a: seq<string>, b: seq<string>)
    ensures StreamOf(a + b) == StreamOf(a) + StreamOf(b)
  {
    if |a| == 0 {
      assert a + b == b;
    } else {
      assert (a + b)[1..] == a[1..] + b;
      StreamAppend(a[1..], b);
    }
  }

  /** The worker can be through with the stream after `m` lines: with all of them, or at a
      line that can end it, with no failed assertion before. */
  ghost predicate MayEndAt(texts: seq<string>, m: nat) {
    && m <= |texts| && NoAbort(texts, m - 1)
    && (m == |texts| || (m > 0 && VerdictOf(texts[m - 1]) != Continue))
  }

  /** In a stream of lines ended by CR LF, a read can end with any line. */
  lemma StopPoints(texts: seq<string>, m: nat)
    requires Tokens(texts, LINE_ENDS)
    ensures CanStopAt(StreamOf(texts), m) <==> MayEndAt(texts, m)
  {
    hide VerdictOf, Lines, NoAbort, StreamOf;
    StreamLines(texts);
    if 0 < m <= |texts| {
      StreamAppend(texts[..m], texts[m..]);
      assert texts == texts[..m] + texts[m..];
      StreamLines(texts[..m]);
      NonemptyStream(texts[..m]);
      var s, n := StreamOf(texts), |StreamOf(texts[..m])|;
      assert s[..n] == StreamOf(texts[..m]);
      assert ReadEndsAfter(s, m);
    }
  }

  lemma NonemptyStream(texts: seq<string>)
    requires texts != []
    ensures StreamOf(texts) != ""
  {
  }

  /** Over all lossless ways to cut a stream of arbitrary lines into reads, the lines handled
      are exactly its beginnings up to a line at which the worker may end. */
  lemma StreamOutcomes(texts: seq<string>, handled: seq<string>)
    requires Tokens(texts, LINE_ENDS)
    ensures (exists chunks :: Cuts(chunks, StreamOf(texts)) && Handled(chunks) == handled)
       <==> (exists m: nat :: MayEndAt(texts, m) && handled == texts[..m])
  {
    hide VerdictOf, Lines, NoAbort, StreamOf, Handled, ReadEndsAfter, Cuts;
    var s := StreamOf(texts);
    StreamLines(texts);
    HandledOutcomes(s, handled);
    if m: nat :| CanStopAt(s, m) && handled == Lines(s)[..m] {
      StopPoints(texts, m);
    }
    if m: nat :| MayEndAt(texts, m) && handled == texts[..m] {
      StopPoints(texts, m);
    }
  }

  lemma HandledIsPrefix(texts: seq<string>, chunks: seq<string>) returns (m: nat)
    requires Tokens(texts, LINE_ENDS) && Cuts(chunks, StreamOf(texts))
    ensures MayEndAt(texts, m) && m <= |texts| && Handled(chunks) == texts[..m]
  {
    hide Handled, VerdictOf, NoAbort, StreamOf, Cuts;
    StreamOutcomes(texts, Handled(chunks));
    m :| MayEndAt(texts, m) && Handled(chunks) == texts[..m];
  }

  // ----------------------------------------------- the worker as a run of the protocol

  /** A handled line, as events: it is received, and then the request it makes is asked for. */
  function StepOf(text: string, endsRead: bool, env: Env): seq<Event> {
    [Receive(endsRead)] + match AskOf(text) case Asks(r) => [Ask(r, env.request)] case NoRequest => []
  }

  function StepsOf(texts: seq<string>, env: nat -> Env): seq<Event>
    decreases |texts|
  {
    if |texts| == 0 then []
    else
      var n := |texts| - 1;
      StepsOf(texts[..n], env) + StepOf(texts[n], false, env(n))
  }

  /** All the lines the worker handles; the last one ends its read. */
  function EventsOf(texts: seq<string>, env: nat -> Env): seq<Event> {
    if |texts| == 0 then []
    else
      var n := |texts| - 1;
      StepsOf(texts[..n], env) + StepOf(texts[n], true, env(n))
  }

  /** Plugins answer, in whole lines; they do not join, part or rename. */
  ghost predicate PluginsOnlyAnswer(env: nat -> Env) {
    forall k :: RequestsAmong(env(k).plugin) == [] && Outgoing.AllOneLine(env(k).plugin)
  }

  lemma {:induction false} RunAppend(w: World, a: seq<Event>, b: seq<Event>)
    ensures Run(w, a + b) == Run(Run(w, a), b)
    decreases |a|
  {
    hide Next;
    if |a| == 0 {
      assert a + b == b;
    } else {
      assert (a + b)[1..] == a[1..] + b;
      RunAppend(Next(w, a[0]), a[1..], b);
    }
  }

  lemma VerdictOfLine(text: string)
    ensures LineVerdict(LineOf(text)) == VerdictOf(text)
    ensures AskOf(text).Asks? ==> VerdictOf(text) == Continue
  {
    hide VerdictOf, LineOf, AskOf;
    StoppingIsOther(text);
    StoppedOther(text);
  }

  lemma StoppedOther(text: string)
    ensures LineOf(text).Other? ==> LineOf(text).text == text
  {
    hide Parse, VariantOf, AuthorOf;
    ParsedHasParameter(text, DEFAULT);
  }

  /** The state of the world, where the worker has come to after `n` lines. */
  ghost predicate Tracks(w': World, w: World, e: Effect, n: nat) {
    && w'.bot == e.bot
    && w'.up == w.up + ArrivingAll(RequestsAmong(e.sent)) && w'.sent == w.sent + RequestsAmong(e.sent)
    && n <= |w.down| && w'.down == w.down[n..]
    && w'.host == w.host
  }

  lemma StepTracks(w: World, text: string, endsRead: bool, env: Env)
    requires w.running && w.down != [] && w.down[0] == LineOf(text) && RequestsAmong(env.plugin) == []
    ensures var w' := Run(w, StepOf(text, endsRead, env));
            Tracks(w', w, Process(w.bot, text, env), 1) && w'.running == !Ends(VerdictOf(text), endsRead)
  {
    hide Process, VerdictOf, LineOf, AskOf, Deliver, LineVerdict, RequestsAmong, AfterRequest, Sends, ArrivingAll;
    ProcessIsLineThenRequest(w.bot, text, env);
    VerdictOfLine(text);
    var w1 := Next(w, Receive(endsRead));
    match AskOf(text) {
      case Asks(r) =>
        RunCons(w, Receive(endsRead), [Ask(r, env.request)]);
        RunCons(w1, Ask(r, env.request), []);
      case NoRequest =>
        RunCons(w, Receive(endsRead), []);
        NothingArrives();
        assert w.up + [] == w.up && w.sent + [] == w.sent;
    }
  }

  lemma TracksThen(w: World, w1: World, w2: World, e: Effect, f: Effect, n: nat)
    requires Tracks(w1, w, e, n) && w1.down != [] && Tracks(w2, w1, f, 1)
    ensures Tracks(w2, w, Effect(f.bot, e.sent + f.sent), n + 1)
  {
    hide RequestsAmong, ArrivingAll;
    var a, b := RequestsAmong(e.sent), RequestsAmong(f.sent);
    RequestsAmongAppend(e.sent, f.sent);
    ArrivingAppend(a, b);
    assert w.down[n..][1..] == w.down[n + 1..];
    assert (w.up + ArrivingAll(a)) + ArrivingAll(b) == w.up + (ArrivingAll(a) + ArrivingAll(b));
    assert (w.sent + a) + b == w.sent + (a + b);
  }

  /** One more line behind those that have been handled. */
  lemma LineTracks(w: World, w1: World, texts: seq<string>, n: nat, endsRead: bool, env: nat -> Env)
    requires n < |texts| && LinesOf(texts) == w.down && PluginsOnlyAnswer(env)
    requires w1.running && Tracks(w1, w, ProcessAll(w.bot, texts[..n], env), n)
    ensures var w2 := Run(w1, StepOf(texts[n], endsRead, env(n)));
            && Tracks(w2, w, ProcessAll(w.bot, texts[..n + 1], env), n + 1)
            && w2.running == !Ends(VerdictOf(texts[n]), endsRead)
  {
    hide Process, VerdictOf, LineOf, StepOf, ProcessAll, Run, RequestsAmong, ArrivingAll;
    assert w1.down[0] == w.down[n] == LineOf(texts[n]);
    StepTracks(w1, texts[n], endsRead, env(n));
    var e, w2 := ProcessAll(w.bot, texts[..n], env), Run(w1, StepOf(texts[n], endsRead, env(n)));
    TracksThen(w, w1, w2, e, Process(e.bot, texts[n], env(n)), n);
    ProcessOneMore(w.bot, texts[..n], texts[n], env);
    assert texts[..n + 1] == texts[..n] + [texts[n]];
  }

  lemma {:induction false} StepsTrack(w: World, texts: seq<string>, n: nat, env: nat -> Env)
    requires w.running && n <= |texts| && LinesOf(texts) == w.down && PluginsOnlyAnswer(env)
    requires NoAbort(texts, n)
    ensures var w' := Run(w, StepsOf(texts[..n], env));
            w'.running && Tracks(w', w, ProcessAll(w.bot, texts[..n], env), n)
    decreases n
  {
    hide Process, VerdictOf, LineOf, StepOf, RequestsAmong, ArrivingAll, Next;
    if n == 0 {
      NoRequests();
      NothingArrives();
      assert w.up + [] == w.up && w.sent + [] == w.sent && w.down[0..] == w.down;
    } else {
      var k := n - 1;
      StepsTrack(w, texts, k, env);
      var w1 := Run(w, StepsOf(texts[..k], env));
      assert texts[..n][..k] == texts[..k];
      RunAppend(w, StepsOf(texts[..k], env), StepOf(texts[k], false, env(k)));
      LineTracks(w, w1, texts, k, false, env);
    }
  }

  /** Where the worker takes the world by handling `texts`. */
  function After(w: World, texts: seq<string>, env: nat -> Env): World { Run(w, EventsOf(texts, env)) }

  lemma StepsTrackAll(w: World, texts: seq<string>, m: nat, env: nat -> Env)
    requires w.running && LinesOf(texts) == w.down && PluginsOnlyAnswer(env) && MayEndAt(texts, m)
    ensures var w' := After(w, texts[..m], env);
            && Tracks(w', w, ProcessAll(w.bot, texts[..m], env), m)
            && (w'.running <==> m == 0 || VerdictOf(texts[m - 1]) == Continue)
  {
    hide VerdictOf, NoAbort, LineOf, StepOf, ProcessAll, Tracks;
    if m == 0 {
      NoAbortIn(texts);
      StepsTrack(w, texts, 0, env);
      assert texts[..0] == [];
    } else {
      var k := m - 1;
      StepsTrack(w, texts, k, env);
      var w1 := Run(w, StepsOf(texts[..k], env));
      assert texts[..m][..k] == texts[..k];
      RunAppend(w, StepsOf(texts[..k], env), StepOf(texts[k], true, env(k)));
      LineTracks(w, w1, texts, k, true, env);
    }
  }

  lemma NoAbortIn(texts: seq<string>)
    ensures NoAbort(texts, 0)
  {
  }

  lemma {:induction false} WorkerSendsLines(b: Bot, texts: seq<string>, env: nat -> Env)
    requires Tokens(texts, LINE_ENDS) && PluginsOnlyAnswer(env)
    ensures Outgoing.AllOneLine(ProcessAll(b, texts, env).sent)
    decreases |texts|
  {
    hide Process, Outgoing.OneLine, RequestsAmong;
    if |texts| > 0 {
      var n := |texts| - 1;
      WorkerSendsLines(b, texts[..n], env);
      assert Token(texts[n], LINE_ENDS);
      assert Avoids(texts[n], EOL);
      ProcessSendsLines(ProcessAll(b, texts[..n], env).bot, texts[n], env(n));
    }
  }

  /** Whatever lines the server sends, and however they are cut into reads, the worker is a run
      of the protocol, in which it receives those lines and asks for what they ask: it does to
      the bot what the run does, it ends as the run does, and the requests that the server
      reads in the bytes it sends are those that the run puts on the queue. */
  lemma WorkerIsRun(w: World, texts: seq<string>, chunks: seq<string>, env: nat -> Env)
    requires w.running && LinesOf(texts) == w.down && Tokens(texts, LINE_ENDS) && PluginsOnlyAnswer(env)
    requires Cuts(chunks, StreamOf(texts))
    ensures var handled := Handled(chunks);
            var e := ProcessAll(w.bot, handled, env);
            var w' := After(w, handled, env);
            && handled <= texts && Tracks(w', w, e, |handled|)
            && w'.up == w.up + ReadAll(Fields(Outgoing.Stream(e.sent), EOL))
            && (w'.running <==> handled == [] || VerdictOf(handled[|handled| - 1]) == Continue)
  {
    hide VerdictOf, Lines, NoAbort, StreamOf, Handled, LineOf, ProcessAll, After, Cuts, Fields, ReadAll, RequestsAmong, ArrivingAll;
    var m := HandledIsPrefix(texts, chunks);
    StepsTrackAll(w, texts, m, env);
    WorkerSendsLines(w.bot, texts[..m], env);
    StreamIsRead(ProcessAll(w.bot, texts[..m], env).sent);
  }

  // ---------------------------------------------------------------------- agreement

  lemma AfterInv(nick: string, others: set<string>, es: seq<Event>, texts: seq<string>, env: nat -> Env)
    ensures Inv(After(Run(Start(nick, others), es), texts, env))
  {
    hide Run, Inv, EventsOf;
    RunAppend(Start(nick, others), es, EventsOf(texts, env));
    ReachableInv(nick, others, es + EventsOf(texts, env));
  }

  /** The worker may end at line number `m`, counted from 1. */
  ghost predicate WorkerMayEndAt(texts: seq<string>, m: nat) {
    MayEndAt(texts, m) && m > 0 && VerdictOf(texts[m - 1]) != Continue
  }

  ghost predicate EndsInAgreement(w: World) { Agreement(Aftermath(w), w.sent) }

  lemma PointAgrees(nick: string, others: set<string>, es: seq<Event>, texts: seq<string>, m: nat, env: nat -> Env)
    requires Run(Start(nick, others), es).running && PluginsOnlyAnswer(env) && MayEndAt(texts, m)
    requires LinesOf(texts) == Run(Start(nick, others), es).down
    ensures var w' := After(Run(Start(nick, others), es), texts[..m], env);
            EndsInAgreement(w') <==> (WorkerMayEndAt(texts, m) ==> Told(w'))
  {
    hide Run, VerdictOf, NoAbort, LineOf, After, Inv, Agreement, Aftermath, Told, Tracks, ProcessAll;
    StepsTrackAll(Run(Start(nick, others), es), texts, m, env);
    AfterInv(nick, others, es, texts[..m], env);
    AftermathAgrees(After(Run(Start(nick, others), es), texts[..m], env));
  }

  /** The promise to the user, over the whole path. Take any reachable state with a worker, and
      any lines in flight: echoes, PINGs, messages, owner's commands, other users' QUITs. After
      every way of cutting their text into reads without loss, the two sides end up in
      agreement, if and only if at every line at which the worker may end it has been told of
      the partings and renamings. */
  lemma EndToEndAgreement(nick: string, others: set<string>, es: seq<Event>, texts: seq<string>, env: nat -> Env)
    requires Run(Start(nick, others), es).running && PluginsOnlyAnswer(env) && Tokens(texts, LINE_ENDS)
    requires LinesOf(texts) == Run(Start(nick, others), es).down
    ensures var w := Run(Start(nick, others), es);
            (forall chunks :: Cuts(chunks, StreamOf(texts)) ==> EndsInAgreement(After(w, Handled(chunks), env)))
            <==> (forall m: nat :: WorkerMayEndAt(texts, m) ==> Told(After(w, texts[..m], env)))
  {
    hide Run, Handled, StreamOf, Cuts, After, Told, NoAbort, VerdictOf, LineOf, EndsInAgreement;
    var w := Run(Start(nick, others), es);
    if forall m: nat :: WorkerMayEndAt(texts, m) ==> Told(After(w, texts[..m], env)) {
      forall chunks | Cuts(chunks, StreamOf(texts)) ensures EndsInAgreement(After(w, Handled(chunks), env)) {
        var m := HandledIsPrefix(texts, chunks);
        PointAgrees(nick, others, es, texts, m, env);
      }
    }
    if m: nat :| WorkerMayEndAt(texts, m) && !Told(After(w, texts[..m], env)) {
      StreamOutcomes(texts, texts[..m]);
      var chunks :| Cuts(chunks, StreamOf(texts)) && Handled(chunks) == texts[..m];
      PointAgrees(nick, others, es, texts, m, env);
    }
  }

  // ------------------------------------------------- the same, said of the lines alone

  /** No command of the owner's is among the lines. */
  ghost predicate NothingAsked(texts: seq<string>) {
    forall k :: 0 <= k < |texts| ==> AskOf(texts[k]) == NoRequest
  }

  lemma {:induction false} DeliverAllMore(b: Bot, lines: seq<Line>, l: Line)
    ensures DeliverAll(b, lines + [l]) == Deliver(DeliverAll(b, lines), l)
    decreases |lines|
  {
    hide Deliver;
    if |lines| == 0 {
      assert (lines + [l])[1..] == [];
    } else {
      assert (lines + [l])[1..] == lines[1..] + [l];
      DeliverAllMore(Deliver(b, lines[0]), lines[1..], l);
    }
  }

  lemma {:induction false} LinesAreDelivered(b: Bot, texts: seq<string>, m: nat, env: nat -> Env)
    requires m <= |texts| && NothingAsked(texts) && PluginsOnlyAnswer(env)
    ensures ProcessAll(b, texts[..m], env).bot == DeliverAll(b, LinesOf(texts)[..m])
    ensures RequestsAmong(ProcessAll(b, texts[..m], env).sent) == []
    decreases m
  {
    hide Process, LineOf, AskOf, Deliver, DeliverAll, RequestsAmong;
    if m == 0 {
      NothingDelivered(b);
      NoRequests();
    } else {
      var k := m - 1;
      LinesAreDelivered(b, texts, k, env);
      var before := ProcessAll(b, texts[..k], env);
      assert texts[..m] == texts[..k] + [texts[k]];
      ProcessOneMore(b, texts[..k], texts[k], env);
      ProcessIsLineThenRequest(before.bot, texts[k], env(k));
      RequestsAmongAppend(before.sent, Process(before.bot, texts[k], env(k)).sent);
      assert LinesOf(texts)[..m] == LinesOf(texts)[..k] + [LineOf(texts[k])];
      DeliverAllMore(b, LinesOf(texts)[..k], LineOf(texts[k]));
    }
  }

  lemma NothingDelivered(b: Bot)
    ensures DeliverAll(b, []) == b
  {
  }

  /** The first `m` lines to come tell the bot enough: the PART of every channel it is leaving
      is among them, and the lines behind them leave the name reached as it is. */
  ghost predicate LinesTell(w: World, m: nat)
    requires m <= |w.down|
  {
    var lines, name := w.down[..m], Replay(w.bot.nick, w.down[..m]);
    && (forall c :: AllUndisturbed(w.sent, c) && Parting(w.bot, c) ==> HasPart(lines, c))
    && Replay(name, Coming(w)[m..]) == name
  }

  lemma PartingAfter(b: Bot, lines: seq<Line>, c: string)
    ensures Parting(DeliverAll(b, lines), c) <==> Parting(b, c) && !HasPart(lines, c)
  {
    hide HasPart, HasJoin;
    DeliverAllChannel(b, lines, c);
  }

  lemma ToldByLines(w: World, texts: seq<string>, m: nat, env: nat -> Env)
    requires w.running && LinesOf(texts) == w.down && PluginsOnlyAnswer(env) && MayEndAt(texts, m) && NothingAsked(texts)
    ensures Told(After(w, texts[..m], env)) <==> LinesTell(w, m)
  {
    hide VerdictOf, NoAbort, LineOf, After, ProcessAll, NothingAsked, RequestsAmong, ArrivingAll, DeliverAll, HasPart, Replay, AllUndisturbed, ServeAll, Parting;
    var w', lines := After(w, texts[..m], env), w.down[..m];
    StepsTrackAll(w, texts, m, env);
    LinesAreDelivered(w.bot, texts, m, env);
    NothingArrives();
    assert w'.up == w.up && w'.sent == w.sent && w'.host == w.host && w'.bot == DeliverAll(w.bot, lines);
    DeliverAllNick(w.bot, lines);
    assert Coming(w)[m..] == Coming(w');
    forall c ensures Parting(w'.bot, c) <==> Parting(w.bot, c) && !HasPart(lines, c) {
      PartingAfter(w.bot, lines, c);
    }
  }

  /** Without an owner's command among the lines, the condition can be read off them. */
  lemma EndToEndByLines(nick: string, others: set<string>, es: seq<Event>, texts: seq<string>, env: nat -> Env)
    requires Run(Start(nick, others), es).running && PluginsOnlyAnswer(env) && Tokens(texts, LINE_ENDS)
    requires LinesOf(texts) == Run(Start(nick, others), es).down && NothingAsked(texts)
    ensures var w := Run(Start(nick, others), es);
            (forall chunks :: Cuts(chunks, StreamOf(texts)) ==> EndsInAgreement(After(w, Handled(chunks), env)))
            <==> (forall m: nat :: m <= |w.down| && WorkerMayEndAt(texts, m) ==> LinesTell(w, m))
  {
    hide Run, Handled, StreamOf, Cuts, After, Told, NoAbort, VerdictOf, LineOf, EndsInAgreement, NothingAsked, LinesTell;
    var w := Run(Start(nick, others), es);
    EndToEndAgreement(nick, others, es, texts, env);
    forall m: nat | WorkerMayEndAt(texts, m) ensures Told(After(w, texts[..m], env)) <==> LinesTell(w, m) {
      ToldByLines(w, texts, m, env);
    }
  }

  /** If no line in front of others can end the worker, all lines are handled. If the last one
      cannot end it either, it is at work, and the two sides settle to agreement; and if
      nothing was asked for meanwhile, they agree at once. */
  lemma EndToEndWithoutQuit(nick: string, others: set<string>, es: seq<Event>, texts: seq<string>, env: nat -> Env,
                            chunks: seq<string>)
    requires Run(Start(nick, others), es).running && PluginsOnlyAnswer(env) && Tokens(texts, LINE_ENDS)
    requires LinesOf(texts) == Run(Start(nick, others), es).down
    requires forall k :: 0 <= k < |texts| - 1 ==> VerdictOf(texts[k]) == Continue
    requires Cuts(chunks, StreamOf(texts))
    ensures var w := Run(Start(nick, others), es);
            var w' := After(w, texts, env);
            && Handled(chunks) == texts && w'.down == []
            && (texts == [] || VerdictOf(texts[|texts| - 1]) == Continue ==>
                  w'.running && Agreement(Settled(w'), w'.sent))
            && (w.up == [] && NothingAsked(texts) ==> Agreement(Outcome(w'.bot, w'.host), w'.sent))
  {
    hide Run, Handled, ProcessAll, StreamOf, Cuts, Inv, NothingAsked, NoAbort, VerdictOf, LineOf, After, Agreement, Settled, RequestsAmong, ArrivingAll;
    var w := Run(Start(nick, others), es);
    var m := HandledIsPrefix(texts, chunks);
    assert m == |texts| && texts[..m] == texts;
    var w' := After(w, texts, env);
    StepsTrackAll(w, texts, m, env);
    AfterInv(nick, others, es, texts, env);
    InvAgrees(w');
    if w.up == [] && NothingAsked(texts) {
      LinesAreDelivered(w.bot, texts, m, env);
      NothingArrives();
      SettledAlready(w');
    }
  }

  lemma SettledAlready(w: World)
    requires Quiet(w)
    ensures Settled(w) == Outcome(w.bot, w.host)
  {
    assert w.down + [] == [];
  }

  // ---------------------------------------------------- with commands of the owner's

  /** No channel in an owner's command begins with a ':' or has a comma. */
  ghost predicate WellAsked(texts: seq<string>) {
    forall k :: 0 <= k < |texts| ==> AsksWell(AskOf(texts[k]))
  }

  predicate AsksWell(a: Asking) {
    a.Asks? && !a.request.NickReq? && Argument(a.request) != "" ==>
      Argument(a.request)[0] != ':' && ',' !in Argument(a.request)
  }

  ghost predicate ChannelsWritable(rs: seq<Request>) {
    forall k :: 0 <= k < |rs| ==> rs[k].NickReq? || Writable(rs[k])
  }

  /** For a channel in a command, that is all that can be wrong with it. */
  lemma AskedIsWritable(text: string, r: Request)
    requires AskOf(text) == Asks(r) && !r.NickReq?
    ensures Writable(r) <==> AsksWell(Asks(r))
  {
    hide AskOf;
    AskedIsWord(text, r);
  }

  lemma {:induction false} SentAreWritable(b: Bot, texts: seq<string>, m: nat, env: nat -> Env)
    requires m <= |texts| && WellAsked(texts) && PluginsOnlyAnswer(env)
    ensures ChannelsWritable(RequestsAmong(ProcessAll(b, texts[..m], env).sent))
    decreases m
  {
    hide Process, AskOf, RequestsAmong, Writable, AsksWell, LineOf;
    if m == 0 {
      NoRequests();
    } else {
      var k := m - 1;
      SentAreWritable(b, texts, k, env);
      var before := ProcessAll(b, texts[..k], env);
      assert texts[..m] == texts[..k] + [texts[k]];
      ProcessOneMore(b, texts[..k], texts[k], env);
      ProcessIsLineThenRequest(before.bot, texts[k], env(k));
      RequestsAmongAppend(before.sent, Process(before.bot, texts[k], env(k)).sent);
      assert AsksWell(AskOf(texts[k]));
      match AskOf(texts[k])
      case NoRequest =>
      case Asks(r) => if !r.NickReq? { AskedIsWritable(texts[k], r); }
    }
  }

  lemma WritableMeansFull(w: World)
    requires Agreement(Settled(w), w.sent) && ChannelsWritable(w.sent)
    ensures FullAgreement(Settled(w))
  {
    hide Settled, Writable, AgreeOn, Undisturbed;
    forall c ensures AgreeOn(Settled(w), c) {
      forall k | 0 <= k < |w.sent| ensures Undisturbed(w.sent[k], c) {
        WritableDisturbsNothing(w.sent[k], c);
      }
    }
    AgreeOnAll(Settled(w));
  }

  /** With any commands of the owner's among the lines, the state that the worker comes to,
      with the requests that the server reads in the bytes it sent, is again one that settles
      to agreement; to full agreement, if all channels asked for, now and before, can be
      written down. */
  lemma EndToEndSettles(nick: string, others: set<string>, es: seq<Event>, texts: seq<string>, env: nat -> Env,
                        chunks: seq<string>)
    requires Run(Start(nick, others), es).running && PluginsOnlyAnswer(env) && Tokens(texts, LINE_ENDS)
    requires LinesOf(texts) == Run(Start(nick, others), es).down
    requires Cuts(chunks, StreamOf(texts))
    ensures var w := Run(Start(nick, others), es);
            var e := ProcessAll(w.bot, Handled(chunks), env);
            var w' := After(w, Handled(chunks), env);
            && Tracks(w', w, e, |Handled(chunks)|)
            && w'.up == w.up + ReadAll(Fields(Outgoing.Stream(e.sent), EOL))
            && Agreement(Settled(w'), w'.sent)
            && (ChannelsWritable(w.sent) && WellAsked(texts) ==> FullAgreement(Settled(w')))
  {
    hide Run, Handled, ProcessAll, StreamOf, Cuts, LineOf, After, VerdictOf, Settled, Inv, Agreement, RequestsAmong, ArrivingAll, ReadAll,
         Fields, WellAsked, Writable, FullAgreement, NoAbort;
    var w := Run(Start(nick, others), es);
    var w' := After(w, Handled(chunks), env);
    WorkerIsRun(w, texts, chunks, env);
    AfterInv(nick, others, es, Handled(chunks), env);
    InvAgrees(w');
    if ChannelsWritable(w.sent) && WellAsked(texts) {
      var m := HandledIsPrefix(texts, chunks);
      SentAreWritable(w.bot, texts, m, env);
      WritableMeansFull(w');
    }
  }

  // ------------------------------------------------------------ every queue has a text

  /** A line as it is sent: rendered, or as it stands. */
  function SentText(s: SentLine): string { if s.line.Other? then s.line.text else TextOf(s) }

  function SentTexts(ss: seq<SentLine>): seq<string> {
    seq(|ss|, i requires 0 <= i < |ss| => SentText(ss[i]))
  }

  function QueueOf(ss: seq<SentLine>): seq<Line> {
    seq(|ss|, i requires 0 <= i < |ss| => ss[i].line)
  }

  ghost predicate Sendable(s: SentLine) {
    if s.line.Other? then Token(s.line.text, LINE_ENDS) && LineOf(s.line.text) == s.line else WellNamed(s)
  }

  /** For every queue of well-named JOIN, PART and NICK lines and of other lines, in any order,
      there are texts as the theorems above speak of. */
  lemma QueueHasTexts(ss: seq<SentLine>)
    requires forall k :: 0 <= k < |ss| ==> Sendable(ss[k])
    ensures Tokens(SentTexts(ss), LINE_ENDS) && LinesOf(SentTexts(ss)) == QueueOf(ss)
  {
    hide LineOf, TextOf, AskOf, VerdictOf, WellNamed;
    forall k | 0 <= k < |ss|
      ensures Token(SentTexts(ss)[k], LINE_ENDS) && LineOf(SentTexts(ss)[k]) == ss[k].line
    {
      assert Sendable(ss[k]);
      if !ss[k].line.Other? {
        RenderedIsRead(ss[k]);
      }
    }
  }

  // ------------------------------------------------------------ when somebody leaves

  lemma TwoLines(q: string, next: string)
    requires Token(q, LINE_ENDS) && Token(next, LINE_ENDS)
    ensures Lines(q + "\r\n") == [q] && Lines(q + "\r\n" + next + "\r\n") == [q, next]
  {
    hide Lines;
    var one, two := [q], [q, next];
    StreamLines(one);
    StreamLines(two);
    assert one[1..] == [] && two[1..] == [next] && two[1..][1..] == [];
    assert StreamOf([next]) == next + "\r\n" + "";
    assert StreamOf(one) == q + "\r\n" + "" == q + "\r\n";
    assert StreamOf(two) == q + "\r\n" + (next + "\r\n" + "") == q + "\r\n" + next + "\r\n";
  }

  /** When a read ends with anybody's QUIT, nothing behind it is ever handled; when the next
      line comes with the same read, it is. */
  lemma QuitEndsTheWorker(who: IRCUser, reason: string, next: string, rest: seq<string>)
    requires ' ' !in Source.Render(who) && Token(QuitText(who, reason), LINE_ENDS)
    requires Token(next, LINE_ENDS)
    ensures var q := QuitText(who, reason);
            Handled([q + "\r\n"] + rest) == [q] && Handled([q + "\r\n" + next + "\r\n"]) == [q, next]
  {
    hide VerdictOf, Lines, QuitText, Source.Render, LineOf;
    var q := QuitText(who, reason);
    QuitTextStops(who, reason);
    TwoLines(q, next);
    ReachedIs([q], 1);
    ReachedIs([q, next], 2);
    var chunks := [q + "\r\n"] + rest;
    assert chunks[0] == q + "\r\n";
    StopsFirst(chunks);
    OnlyRead(q + "\r\n" + next + "\r\n");
  }

  lemma OnlyRead(chunk: string)
    ensures Handled([chunk]) == Lines(chunk)[..Reached(Lines(chunk))]
  {
    hide Lines, VerdictOf, Reached, ReadVerdict;
    var chunks := [chunk];
    assert chunks[1..] == [];
    NothingHandled();
    if ReadVerdict(Lines(chunk)) == Continue {
      ContinuesAtEnd(Lines(chunk));
    }
  }

  /** For example bob. */
  lemma BobEndsTheWorker(rest: seq<string>)
    ensures Handled([":bob!u@h QUIT :bye\r\n"] + rest) == [":bob!u@h QUIT :bye"]
    ensures Handled([":bob!u@h QUIT :bye\r\nPING :x\r\n"]) == [":bob!u@h QUIT :bye", "PING :x"]
  {
    hide Handled;
    var bob := IRCUser("bob", "u", "h");
    assert Source.Render(bob) == "bob!u@h";
    var q := ":bob!u@h QUIT :bye";
    assert QuitText(bob, "bye") == q;
    assert q + "\r\n" == ":bob!u@h QUIT :bye\r\n";
    assert q + "\r\n" + "PING :x" + "\r\n" == ":bob!u@h QUIT :bye\r\nPING :x\r\n";
    QuitEndsTheWorker(bob, "bye", "PING :x", rest);
  }
}
