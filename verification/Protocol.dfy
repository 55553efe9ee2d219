/**
 The bot and an IRC server joined by two FIFO queues. The server follows sections
 3.1.2, 3.2.1 and 3.2.2 of RFC 2812: a JOIN or PART is echoed when it changes
 membership, a NICK when the new name is free. It takes the bot's requests as it reads them,
 which need not be as they are meant (Upstream.dfy). Other users' lines, and lines of any other
 kind, may appear anywhere in the stream; some of them end the worker. Joins are not refused,
 nobody is kicked, and no line is lost.
 */
module Protocol {
  import opened Source
  import opened Server
  import opened Dispatch
  import opened Upstream

  /** The server's side: the channels the bot is in, its name there, and the names
      of all other users. */
  datatype Host = Host(members: set<string>, nick: string, others: set<string>)

  /** `sent` is the history of all requests that went out; `running` is false once the worker
      has left its loop. */
  datatype World =
    World(bot: Bot, up: seq<Request>, down: seq<Line>, host: Host, sent: seq<Request>, running: bool)

  datatype Event =
    | Ask(request: Request, ok: bool)         // the bot calls Join-/PartChannel or SetNickname
    | Serve                                   // the server takes the oldest request
    | Receive(endsRead: bool)                 // the worker handles the oldest line
    | OtherJoins(user: string, channel: string)
    | OtherParts(user: string, channel: string)
    | OtherRenames(oldNick: string, newNick: string)
    | OtherArrives(user: string)
    | OtherLeaves(who: IRCUser, seen: bool, reason: string) // seen: in a channel of the bot's
    | OtherSays(text: string)                 // a PING, a numeric, a message, ...

  // ------------------------------------------------------------------- the server

  function ServeOne(h: Host, r: Request): (Host, seq<Line>) {
    match r
    case JoinReq(c) =>
      if c in h.members then (h, []) else (h.(members := h.members + {c}), [JoinLine(h.nick, c)])
    case PartReq(c) =>
      if c in h.members then (h.(members := h.members - {c}), [PartLine(h.nick, c)]) else (h, [])
    case NickReq(n) =>
      if n == h.nick || n in h.others then (h, []) else (h.(nick := n), [NickLine(h.nick, n)])
  }

  /** All requests of a queue, oldest first. */
  function ServeAll(h: Host, up: seq<Request>): (Host, seq<Line>)
    decreases |up|
  {
    if |up| == 0 then (h, [])
    else
      var (h1, l1) := ServeOne(h, up[0]);
      var (h2, l2) := ServeAll(h1, up[1..]);
      (h2, l1 + l2)
  }

  function DeliverAll(b: Bot, lines: seq<Line>): Bot
    decreases |lines|
  {
    if |lines| == 0 then b else DeliverAll(Deliver(b, lines[0]), lines[1..])
  }

  // -------------------------------------------------------------------- the worker

  /** What a line tells the worker: only lines that change nothing can end it. */
  function LineVerdict(l: Line): Verdict { if l.Other? then VerdictOf(l.text) else Continue }

  /** A failed assertion ends the worker, and so does a quit at the end of a read. */
  predicate Ends(v: Verdict, endsRead: bool) { v == Abort || (v == Stop && endsRead) }

  // ------------------------------------------------------------------------- runs

  predicate Free(h: Host, n: string) { n != h.nick && n !in h.others }

  /** One event; an event that cannot happen changes nothing. A line with a user command is
      received without effect here: the request it makes is an event of its own. */
  function Next(w: World, e: Event): World {
    match e
    case Ask(r, ok) =>
      if !w.running then w
      else
        var s := Sends(w.bot, r, ok);
        w.(bot := AfterRequest(w.bot, r, ok), up := w.up + ArrivingAll(s), sent := w.sent + s)
    case Serve =>
      if w.up == [] then w
      else
        var (h, lines) := ServeOne(w.host, w.up[0]);
        w.(host := h, up := w.up[1..], down := w.down + lines)
    case Receive(endsRead) =>
      if w.down == [] || !w.running then w
      else
        w.(bot := Deliver(w.bot, w.down[0]), down := w.down[1..],
           running := !Ends(LineVerdict(w.down[0]), endsRead))
    case OtherJoins(u, c) =>
      if u in w.host.others then w.(down := w.down + [JoinLine(u, c)]) else w
    case OtherParts(u, c) =>
      if u in w.host.others then w.(down := w.down + [PartLine(u, c)]) else w
    case OtherRenames(o, n) =>
      if o in w.host.others && Free(w.host, n) then
        w.(host := w.host.(others := w.host.others - {o} + {n}), down := w.down + [NickLine(o, n)])
      else w
    case OtherArrives(u) =>
      if Free(w.host, u) then w.(host := w.host.(others := w.host.others + {u})) else w
    case OtherLeaves(u, seen, reason) =>
      if u.nickname in w.host.others then
        w.(host := w.host.(others := w.host.others - {u.nickname}),
           down := if seen then w.down + [Other(QuitText(u, reason))] else w.down)
      else w
    case OtherSays(text) => w.(down := w.down + [Other(text)])
  }

  function Run(w: World, es: seq<Event>): World
    decreases |es|
  {
    if |es| == 0 then w else Run(Next(w, es[0]), es[1..])
  }

  /** The bot has just logged in under `nick`, among the `others`. */
  function Start(nick: string, others: set<string>): World {
    World(Bot(map[], nick), [], [], Host({}, nick, others - {nick}), [], true)
  }

  predicate Quiet(w: World) { w.up == [] && w.down == [] }

  // --------------------------------------------------------- one channel at a time

  /** Whether the last request for `c` in the queue is a join; `before` when there
      is none. */
  function LastIsJoin(before: bool, up: seq<Request>, c: string): bool
    decreases |up|
  {
    if |up| == 0 then before
    else
      var r := up[|up| - 1];
      if r == JoinReq(c) then true
      else if r == PartReq(c) then false
      else LastIsJoin(before, up[..|up| - 1], c)
  }

  /** Serving the queue echoes a PART for `c`. */
  predicate PartEchoed(member: bool, up: seq<Request>, c: string)
    decreases |up|
  {
    |up| > 0 &&
    if up[0] == JoinReq(c) then PartEchoed(true, up[1..], c)
    else if up[0] == PartReq(c) then member || PartEchoed(false, up[1..], c)
    else PartEchoed(member, up[1..], c)
  }

  /** Serving the queue echoes a JOIN for `c`. */
  predicate JoinEchoed(member: bool, up: seq<Request>, c: string)
    decreases |up|
  {
    |up| > 0 &&
    if up[0] == JoinReq(c) then !member || JoinEchoed(true, up[1..], c)
    else if up[0] == PartReq(c) then JoinEchoed(false, up[1..], c)
    else JoinEchoed(member, up[1..], c)
  }

  predicate IsPart(l: Line, c: string) { l.PartLine? && l.channel == c }
  predicate IsJoin(l: Line, c: string) { l.JoinLine? && l.channel == c }

  ghost predicate HasPart(lines: seq<Line>, c: string) {
    exists k :: 0 <= k < |lines| && IsPart(lines[k], c)
  }

  ghost predicate HasJoin(lines: seq<Line>, c: string) {
    exists k :: 0 <= k < |lines| && IsJoin(lines[k], c)
  }

  predicate Wanted(b: Bot, c: string) { c in b.chans && b.chans[c] != PartRequested }

  predicate Parting(b: Bot, c: string) { c in b.chans && b.chans[c] == PartRequested }

  /** The NICK lines of a stream replayed over a name. */
  function Replay(nick: string, lines: seq<Line>): string
    decreases |lines|
  {
    if |lines| == 0 then nick
    else
      var l := lines[|lines| - 1];
      var n := Replay(nick, lines[..|lines| - 1]);
      if l.NickLine? && l.oldNick == n then l.newNick else n
  }

  // ------------------------------------------------- requests that go astray on the way

  predicate Concerns(r: Request, c: string) { r == JoinReq(c) || r == PartReq(c) }

  /** The requests for channel `c`. */
  function About(rs: seq<Request>, c: string): seq<Request>
    decreases |rs|
  {
    if |rs| == 0 then []
    else
      var n := |rs| - 1;
      About(rs[..n], c) + if Concerns(rs[n], c) then [rs[n]] else []
  }

  /** What arrives of the request does to channel `c` what the request is meant to do. */
  predicate Undisturbed(r: Request, c: string) { About(Arriving(r), c) == About([r], c) }

  ghost predicate AllUndisturbed(rs: seq<Request>, c: string) {
    forall k :: 0 <= k < |rs| ==> Undisturbed(rs[k], c)
  }

  /** Only the requests for `c` matter to `c`. */
  lemma {:induction false} OnlyAbout(member: bool, up: seq<Request>, rs: seq<Request>, c: string)
    ensures LastIsJoin(member, up + rs, c) == LastIsJoin(member, up + About(rs, c), c)
    ensures PartEchoed(member, up + rs, c) == PartEchoed(member, up + About(rs, c), c)
    ensures JoinEchoed(member, up + rs, c) == JoinEchoed(member, up + About(rs, c), c)
    decreases |rs|
  {
    hide LastIsJoin, PartEchoed, JoinEchoed;
    if |rs| > 0 {
      var n, r := |rs| - 1, rs[|rs| - 1];
      var a, b := up + rs[..n], up + About(rs[..n], c);
      OnlyAbout(member, up, rs[..n], c);
      assert up + rs == a + [r];
      AppendOne(member, a, r, c);
      AppendOne(member, b, r, c);
      if Concerns(r, c) {
        assert up + About(rs, c) == b + [r];
      } else {
        assert up + About(rs, c) == b;
      }
    }
  }

  lemma AppendOne(member: bool, up: seq<Request>, r: Request, c: string)
    ensures LastIsJoin(member, up + [r], c) ==
            if r == JoinReq(c) then true else if r == PartReq(c) then false else LastIsJoin(member, up, c)
    ensures PartEchoed(member, up + [r], c) <==>
            PartEchoed(member, up, c) || (r == PartReq(c) && LastIsJoin(member, up, c))
    ensures JoinEchoed(member, up + [r], c) <==>
            JoinEchoed(member, up, c) || (r == JoinReq(c) && !LastIsJoin(member, up, c))
  {
    hide PartEchoed, JoinEchoed;
    assert (up + [r])[..|up|] == up;
    PartEchoedAppend(member, up, r, c);
    JoinEchoedAppend(member, up, r, c);
  }

  /** An undisturbed request arrives, for `c`, as if it were itself on the queue. */
  lemma ArrivesAsMeant(member: bool, up: seq<Request>, r: Request, c: string)
    requires Undisturbed(r, c)
    ensures LastIsJoin(member, up + ArrivingAll([r]), c) == LastIsJoin(member, up + [r], c)
    ensures PartEchoed(member, up + ArrivingAll([r]), c) == PartEchoed(member, up + [r], c)
  {
    hide LastIsJoin, PartEchoed, JoinEchoed, Arriving, ArrivingAll;
    ArrivingOne(r);
    OnlyAbout(member, up, Arriving(r), c);
    OnlyAbout(member, up, [r], c);
  }

  lemma AboutOne(r: Request, c: string)
    ensures About([r], c) == if Concerns(r, c) then [r] else []
  {
    assert [r][..0] == [];
  }

  lemma {:induction false} AboutNothing(rs: seq<Request>, c: string)
    requires forall k :: 0 <= k < |rs| ==> !Concerns(rs[k], c)
    ensures About(rs, c) == []
    decreases |rs|
  {
    if |rs| > 0 {
      AboutNothing(rs[..|rs| - 1], c);
    }
  }

  /** A request that can be written down disturbs no channel, and neither does a renaming. */
  lemma WritableDisturbsNothing(r: Request, c: string)
    requires r.NickReq? || Writable(r)
    ensures Undisturbed(r, c)
  {
    hide Arriving, Writable, HasComma;
    ArrivesIffWritable(r);
    if r.NickReq? {
      ArrivalsAre(r);
      AboutNothing(Arriving(r), c);
      AboutOne(r, c);
    }
  }

  /** Any other request never reaches the channel it is for. */
  lemma UnwritableIsLost(r: Request, c: string)
    requires Concerns(r, c) && !Writable(r)
    ensures About(Arriving(r), c) == []
  {
    hide Arriving, Writable;
    ArrivesIffWritable(r);
    ArrivalsAre(r);
    var rs := Arriving(r);
    forall k | 0 <= k < |rs| ensures !Concerns(rs[k], c) {
      assert !HasComma(rs[k]) && SameKind(rs[k], r);
      if !HasComma(r) {
        assert rs == [rs[k]];
      }
    }
    AboutNothing(rs, c);
  }

  // --------------------------------------------------------------- the invariant

  /** What holds of channel `c` in every reachable state, as long as no request sent has
      disturbed it. */
  ghost predicate ChannelInv(w: World, c: string) { AllUndisturbed(w.sent, c) ==> InStep(w, c) }

  ghost predicate InStep(w: World, c: string) {
    && (Wanted(w.bot, c) <==> LastIsJoin(false, w.sent, c))
    && (LastIsJoin(c in w.host.members, w.up, c) <==> LastIsJoin(false, w.sent, c))
    && (Parting(w.bot, c) ==> HasPart(w.down, c) || PartEchoed(c in w.host.members, w.up, c))
  }

  ghost predicate NickInv(w: World) {
    w.host.nick !in w.host.others && Replay(w.bot.nick, w.down) == w.host.nick
  }

  lemma {:induction false} LastIsJoinTail(before: bool, up: seq<Request>, c: string)
    requires |up| > 0
    ensures LastIsJoin(before, up, c) ==
            LastIsJoin(if up[0] == JoinReq(c) then true else if up[0] == PartReq(c) then false else before, up[1..], c)
    decreases |up|
  {
    if |up| > 1 {
      assert up[1..][..|up| - 2] == up[..|up| - 1][1..];
      LastIsJoinTail(before, up[..|up| - 1], c);
    }
  }

  lemma {:induction false} PartEchoedAppend(member: bool, up: seq<Request>, r: Request, c: string)
    ensures PartEchoed(member, up + [r], c) <==>
            PartEchoed(member, up, c) || (r == PartReq(c) && LastIsJoin(member, up, c))
    decreases |up|
  {
    if |up| == 0 {
      assert (up + [r])[1..] == [];
    } else {
      assert (up + [r])[1..] == up[1..] + [r];
      var m := if up[0] == JoinReq(c) then true else if up[0] == PartReq(c) then false else member;
      PartEchoedAppend(m, up[1..], r, c);
      LastIsJoinTail(member, up, c);
    }
  }

  lemma {:induction false} JoinEchoedAppend(member: bool, up: seq<Request>, r: Request, c: string)
    ensures JoinEchoed(member, up + [r], c) <==>
            JoinEchoed(member, up, c) || (r == JoinReq(c) && !LastIsJoin(member, up, c))
    decreases |up|
  {
    if |up| == 0 {
      assert (up + [r])[1..] == [];
    } else {
      assert (up + [r])[1..] == up[1..] + [r];
      var m := if up[0] == JoinReq(c) then true else if up[0] == PartReq(c) then false else member;
      JoinEchoedAppend(m, up[1..], r, c);
      LastIsJoinTail(member, up, c);
    }
  }

  lemma HasPartAppend(lines: seq<Line>, more: seq<Line>, c: string)
    ensures HasPart(lines + more, c) <==> HasPart(lines, c) || HasPart(more, c)
  {
    var s := lines + more;
    if HasPart(lines, c) {
      var k :| 0 <= k < |lines| && IsPart(lines[k], c);
      assert IsPart(s[k], c);
    }
    if HasPart(more, c) {
      var k :| 0 <= k < |more| && IsPart(more[k], c);
      assert IsPart(s[|lines| + k], c);
    }
  }

  lemma AskKeepsChannel(w: World, r: Request, ok: bool, c: string)
    requires InStep(w, c) && Undisturbed(r, c)
    ensures InStep(Next(w, Ask(r, ok)), c)
  {
    hide HasPart, PartEchoed, LastIsJoin, JoinEchoed, Undisturbed, ArrivingAll;
    if w.running && Sends(w.bot, r, ok) == [r] {
      ArrivesAsMeant(c in w.host.members, w.up, r, c);
      AppendOne(c in w.host.members, w.up, r, c);
      AppendOne(false, w.sent, r, c);
    } else {
      NothingArrives();
      assert w.up + [] == w.up && w.sent + [] == w.sent;
    }
  }

  lemma UndisturbedBefore(sent: seq<Request>, more: seq<Request>, c: string)
    requires AllUndisturbed(sent + more, c)
    ensures AllUndisturbed(sent, c) && AllUndisturbed(more, c)
  {
    hide Undisturbed;
    var all := sent + more;
    assert forall k :: 0 <= k < |sent| ==> all[k] == sent[k];
    assert forall k :: 0 <= k < |more| ==> all[|sent| + k] == more[k];
  }

  lemma AskKeepsChannelInv(w: World, r: Request, ok: bool, c: string)
    requires ChannelInv(w, c)
    ensures ChannelInv(Next(w, Ask(r, ok)), c)
  {
    hide InStep, Undisturbed, ArrivingAll;
    var w' := Next(w, Ask(r, ok));
    if w.running && AllUndisturbed(w'.sent, c) {
      UndisturbedBefore(w.sent, Sends(w.bot, r, ok), c);
      if Sends(w.bot, r, ok) == [r] {
        assert Undisturbed([r][0], c);
        AskKeepsChannel(w, r, ok, c);
      } else {
        NothingArrives();
        assert w.up + [] == w.up && w.sent + [] == w.sent;
      }
    }
  }

  lemma ServeKeepsChannel(w: World, c: string)
    requires InStep(w, c) && w.up != []
    ensures InStep(Next(w, Serve), c)
  {
    var m, lines := c in w.host.members, ServeOne(w.host, w.up[0]).1;
    LastIsJoinTail(m, w.up, c);
    HasPartAppend(w.down, lines, c);
    if w.up[0] == PartReq(c) && m {
      assert IsPart(lines[0], c);
    }
    hide HasPart, LastIsJoin;
  }

  lemma ReceiveKeepsChannel(w: World, endsRead: bool, c: string)
    requires InStep(w, c) && w.down != [] && w.running
    ensures InStep(Next(w, Receive(endsRead)), c)
  {
    var l := w.down[0];
    assert w.down == [l] + w.down[1..];
    HasPartAppend([l], w.down[1..], c);
    assert HasPart([l], c) <==> IsPart([l][0], c);
    hide HasPart, LastIsJoin, PartEchoed, LineVerdict;
  }

  /** A line of somebody else's, behind the others. */
  lemma LineKeepsChannel(w: World, w': World, l: Line, c: string)
    requires InStep(w, c)
    requires w'.bot == w.bot && w'.up == w.up && w'.sent == w.sent && w'.host.members == w.host.members
    requires w'.down == w.down + [l] || w'.down == w.down
    ensures InStep(w', c)
  {
    HasPartAppend(w.down, [l], c);
  }

  lemma SameSent(w: World, e: Event)
    requires !e.Ask?
    ensures Next(w, e).sent == w.sent
  {
    hide LineVerdict;
  }

  lemma ChannelInvNext(w: World, e: Event, c: string)
    requires ChannelInv(w, c)
    ensures ChannelInv(Next(w, e), c)
  {
    hide InStep, LineVerdict, AllUndisturbed;
    if !AllUndisturbed(w.sent, c) && !e.Ask? {
      SameSent(w, e);
      return;
    }
    match e
    case Ask(r, ok) => AskKeepsChannelInv(w, r, ok, c);
    case Serve => if w.up != [] { ServeKeepsChannel(w, c); }
    case Receive(endsRead) => if w.down != [] && w.running { ReceiveKeepsChannel(w, endsRead, c); }
    case OtherJoins(u, d) => LineKeepsChannel(w, Next(w, e), JoinLine(u, d), c);
    case OtherParts(u, d) => LineKeepsChannel(w, Next(w, e), PartLine(u, d), c);
    case OtherRenames(o, n) => LineKeepsChannel(w, Next(w, e), NickLine(o, n), c);
    case OtherArrives(u) => LineKeepsChannel(w, Next(w, e), NickLine(u, u), c);
    case OtherLeaves(u, _, reason) => LineKeepsChannel(w, Next(w, e), Other(QuitText(u, reason)), c);
    case OtherSays(text) => LineKeepsChannel(w, Next(w, e), Other(text), c);
  }

  lemma {:induction false} ReplayAppend(nick: string, a: seq<Line>, b: seq<Line>)
    ensures Replay(nick, a + b) == Replay(Replay(nick, a), b)
    decreases |b|
  {
    if |b| == 0 {
      assert a + b == a;
    } else {
      assert (a + b)[..|a + b| - 1] == a + b[..|b| - 1];
      ReplayAppend(nick, a, b[..|b| - 1]);
    }
  }

  lemma ReplayOne(nick: string, l: Line)
    ensures Replay(nick, [l]) == if l.NickLine? && l.oldNick == nick then l.newNick else nick
  {
    assert [l][..0] == [];
  }

  /** Handling lines changes the nickname as replaying them does. */
  lemma {:induction false} DeliverAllNick(b: Bot, lines: seq<Line>)
    ensures DeliverAll(b, lines).nick == Replay(b.nick, lines)
    decreases |lines|
  {
    if |lines| > 0 {
      DeliverAllNick(Deliver(b, lines[0]), lines[1..]);
      ReplayOne(b.nick, lines[0]);
      assert lines == [lines[0]] + lines[1..];
      ReplayAppend(b.nick, [lines[0]], lines[1..]);
    }
  }

  /** A line that does not rename the bot, behind the others. */
  lemma LineKeepsNick(w: World, w': World, l: Line)
    requires NickInv(w) && !(l.NickLine? && l.oldNick == w.host.nick)
    requires w'.bot == w.bot && (w'.down == w.down + [l] || w'.down == w.down)
    requires w'.host.nick == w.host.nick && w'.host.nick !in w'.host.others
    ensures NickInv(w')
  {
    ReplayAppend(w.bot.nick, w.down, [l]);
    ReplayOne(w.host.nick, l);
  }

  lemma ServeKeepsNick(w: World)
    requires NickInv(w) && w.up != []
    ensures NickInv(Next(w, Serve))
  {
    var lines := ServeOne(w.host, w.up[0]).1;
    ReplayAppend(w.bot.nick, w.down, lines);
    if |lines| == 1 {
      assert lines == [lines[0]];
      ReplayOne(w.host.nick, lines[0]);
    }
  }

  lemma ReceiveKeepsNick(w: World, endsRead: bool)
    requires NickInv(w) && w.down != [] && w.running
    ensures NickInv(Next(w, Receive(endsRead)))
  {
    hide LineVerdict;
    ReplayOne(w.bot.nick, w.down[0]);
    assert w.down == [w.down[0]] + w.down[1..];
    ReplayAppend(w.bot.nick, [w.down[0]], w.down[1..]);
  }

  lemma NickInvNext(w: World, e: Event)
    requires NickInv(w)
    ensures NickInv(Next(w, e))
  {
    hide LineVerdict, Replay;
    match e
    case Ask(_, _) =>
    case Serve => if w.up != [] { ServeKeepsNick(w); }
    case Receive(endsRead) => if w.down != [] && w.running { ReceiveKeepsNick(w, endsRead); }
    case OtherJoins(u, c) => LineKeepsNick(w, Next(w, e), JoinLine(u, c));
    case OtherParts(u, c) => LineKeepsNick(w, Next(w, e), PartLine(u, c));
    case OtherRenames(o, n) => if o in w.host.others { LineKeepsNick(w, Next(w, e), NickLine(o, n)); }
    case OtherArrives(_) =>
    case OtherLeaves(u, _, reason) => LineKeepsNick(w, Next(w, e), Other(QuitText(u, reason)));
    case OtherSays(text) => LineKeepsNick(w, Next(w, e), Other(text));
  }

  ghost predicate Inv(w: World) {
    NickInv(w) && forall c :: ChannelInv(w, c)
  }

  lemma {:induction false} RunKeepsInv(w: World, es: seq<Event>)
    requires Inv(w)
    ensures Inv(Run(w, es))
    decreases |es|
  {
    if |es| > 0 {
      NickInvNext(w, es[0]);
      forall c ensures ChannelInv(Next(w, es[0]), c) {
        ChannelInvNext(w, es[0], c);
      }
      RunKeepsInv(Next(w, es[0]), es[1..]);
    }
  }

  /** In every reachable state, unless a request has disturbed it: a channel is JoinRequested
      or Joined exactly when the last request sent for it was a join, which is also what the server will
      make of it; a PartRequested channel has a PART echo in flight or still to be
      produced by the queued requests; and replaying the NICK lines in flight over
      the bot's nickname gives its name on the server. */
  lemma ReachableInv(nick: string, others: set<string>, es: seq<Event>)
    ensures Inv(Run(Start(nick, others), es))
  {
    RunKeepsInv(Start(nick, others), es);
  }

  // ------------------------------------------------------- what the queues lead to

  datatype Outcome = Outcome(bot: Bot, host: Host)

  /** Where the two sides stand once both queues are drained and nobody asks for
      anything more. */
  function Settled(w: World): Outcome {
    var (h, lines) := ServeAll(w.host, w.up);
    Outcome(DeliverAll(w.bot, w.down + lines), h)
  }

  /** All the lines that are still to come. */
  function Coming(w: World): seq<Line> { w.down + ServeAll(w.host, w.up).1 }

  /** Only the queues move. */
  ghost predicate Draining(es: seq<Event>) {
    forall k :: 0 <= k < |es| ==> es[k].Serve? || es[k].Receive?
  }

  lemma ServeComing(w: World)
    requires w.up != []
    ensures Coming(Next(w, Serve)) == Coming(w) && Next(w, Serve).running == w.running
  {
    var (h1, l1) := ServeOne(w.host, w.up[0]);
    var l2 := ServeAll(h1, w.up[1..]).1;
    assert w.down + (l1 + l2) == (w.down + l1) + l2;
  }

  lemma ReceiveComing(w: World, endsRead: bool)
    requires w.down != [] && w.running
    ensures Coming(w) == [w.down[0]] + Coming(Next(w, Receive(endsRead)))
    ensures Next(w, Receive(endsRead)).running == !Ends(LineVerdict(w.down[0]), endsRead)
  {
    hide LineVerdict;
    var lines := ServeAll(w.host, w.up).1;
    assert w.down + lines == [w.down[0]] + (w.down[1..] + lines);
  }

  /** The order in which the queues are drained does not matter. */
  lemma {:induction false} DrainingSettles(w: World, es: seq<Event>)
    requires Draining(es)
    ensures Settled(Run(w, es)) == Settled(w)
    ensures Quiet(Run(w, es)) ==> Settled(w) == Outcome(Run(w, es).bot, Run(w, es).host)
    decreases |es|
  {
    hide LineVerdict;
    if |es| == 0 {
      assert Quiet(w) ==> w.down + [] == [];
    } else {
      var w' := Next(w, es[0]);
      DrainingSettles(w', es[1..]);
      if es[0].Serve? && w.up != [] {
        ServeComing(w);
      } else if es[0].Receive? && w.down != [] && w.running {
        var lines := ServeAll(w.host, w.up).1;
        assert (w.down + lines)[1..] == w.down[1..] + lines;
      }
    }
  }

  // ------------------------------------------------------- lines that end the worker

  /** No line in front of others fails an assertion. */
  ghost predicate NoneAborts(lines: seq<Line>) {
    forall k :: 0 <= k < |lines| - 1 ==> LineVerdict(lines[k]) != Abort
  }

  /** No line in front of others can end the worker. */
  ghost predicate NoneEnds(lines: seq<Line>) {
    forall k :: 0 <= k < |lines| - 1 ==> LineVerdict(lines[k]) == Continue
  }

  lemma NoneCons(l: Line, more: seq<Line>)
    ensures NoneAborts([l] + more) <==> more == [] || (LineVerdict(l) != Abort && NoneAborts(more))
    ensures NoneEnds([l] + more) <==> more == [] || (LineVerdict(l) == Continue && NoneEnds(more))
  {
    hide LineVerdict;
    var ls := [l] + more;
    assert forall k :: 0 <= k < |more| ==> ls[k + 1] == more[k];
    assert ls[0] == l;
  }

  /** A run of the queues alone that empties both. */
  ghost predicate Drains(w: World, es: seq<Event>) { Draining(es) && Quiet(Run(w, es)) }

  ghost predicate CanDrain(w: World) { if w.running then NoneAborts(Coming(w)) else Coming(w) == [] }

  lemma {:induction false} DrainFrom(w: World) returns (es: seq<Event>)
    requires CanDrain(w)
    ensures Drains(w, es)
    decreases 2 * |w.up| + |w.down|
  {
    hide LineVerdict, NoneAborts;
    if Quiet(w) {
      return [];
    }
    var e := if w.up != [] then Serve else Receive(false);
    if w.up != [] {
      ServeComing(w);
    } else {
      assert w.down + [] == w.down;
      ReceiveComing(w, false);
      NoneCons(w.down[0], Coming(Next(w, e)));
      NoneOfNothing();
    }
    var more := DrainFrom(Next(w, e));
    es := [e] + more;
    assert es[1..] == more;
  }

  lemma {:induction false} DrainedCould(w: World, es: seq<Event>)
    requires Drains(w, es)
    ensures CanDrain(w)
    decreases |es|
  {
    hide LineVerdict, NoneAborts;
    if |es| == 0 {
      assert Coming(w) == [];
      NoneOfNothing();
    } else {
      DrainedCould(Next(w, es[0]), es[1..]);
      if es[0].Serve? && w.up != [] {
        ServeComing(w);
      } else if es[0].Receive? && w.down != [] && w.running {
        ReceiveComing(w, es[0].endsRead);
        NoneCons(w.down[0], Coming(Next(w, es[0])));
      }
    }
  }

  lemma NoneOfNothing()
    ensures NoneAborts([]) && NoneEnds([])
  {
  }

  /** The queues can be drained exactly when no line that is still to come fails an assertion
      in front of others; once the worker has ended, exactly when nothing is to come. */
  lemma DrainExists(w: World)
    ensures (exists es :: Drains(w, es)) <==> CanDrain(w)
  {
    hide CanDrain, Drains;
    if CanDrain(w) {
      var es := DrainFrom(w);
    }
    if es :| Drains(w, es) {
      DrainedCould(w, es);
    }
  }

  /** Nothing more can move. */
  predicate Exhausted(w: World) { w.up == [] && (w.down == [] || !w.running) }

  ghost predicate Clear(w: World) { if w.running then NoneEnds(Coming(w)) else Coming(w) == [] }

  lemma {:induction false} ClearDrainsToQuiet(w: World, es: seq<Event>)
    requires Clear(w) && Draining(es) && Exhausted(Run(w, es))
    ensures Quiet(Run(w, es))
    decreases |es|
  {
    hide LineVerdict, NoneEnds;
    if |es| == 0 {
      assert w.down + [] == w.down;
    } else {
      if es[0].Serve? && w.up != [] {
        ServeComing(w);
      } else if es[0].Receive? && w.down != [] && w.running {
        ReceiveComing(w, es[0].endsRead);
        NoneCons(w.down[0], Coming(Next(w, es[0])));
        NoneOfNothing();
      }
      ClearDrainsToQuiet(Next(w, es[0]), es[1..]);
    }
  }

  lemma {:induction false} StrandedDrain(w: World) returns (es: seq<Event>)
    requires w.running && !NoneEnds(Coming(w))
    ensures Draining(es) && Exhausted(Run(w, es)) && !Quiet(Run(w, es))
    decreases 2 * |w.up| + |w.down|
  {
    hide LineVerdict, NoneEnds;
    var e := if w.up != [] then Serve else Receive(true);
    var more: seq<Event> := [];
    if w.up != [] {
      ServeComing(w);
      more := StrandedDrain(Next(w, e));
    } else {
      assert w.down + [] == w.down;
      NoneOfNothing();
      ReceiveComing(w, true);
      NoneCons(w.down[0], Coming(Next(w, e)));
      if LineVerdict(w.down[0]) == Continue {
        more := StrandedDrain(Next(w, e));
      } else {
        assert Next(w, e).down + [] == Next(w, e).down;
      }
    }
    es := [e] + more;
    assert es[1..] == more;
  }

  /** Every way of moving the queues until nothing moves any more empties both, exactly when
      no line that is still to come can end the worker in front of others. */
  lemma EveryDrainIsQuiet(w: World)
    requires w.running
    ensures (forall es :: Draining(es) && Exhausted(Run(w, es)) ==> Quiet(Run(w, es))) <==> NoneEnds(Coming(w))
  {
    hide NoneEnds, Draining, Exhausted, Quiet;
    if NoneEnds(Coming(w)) {
      forall es | Draining(es) && Exhausted(Run(w, es)) ensures Quiet(Run(w, es)) {
        ClearDrainsToQuiet(w, es);
      }
    } else {
      var es := StrandedDrain(w);
    }
  }

  // ---------------------------------------------------------------------- agreement

  lemma {:induction false} ServeAllChannel(h: Host, up: seq<Request>, c: string)
    ensures c in ServeAll(h, up).0.members <==> LastIsJoin(c in h.members, up, c)
    ensures HasPart(ServeAll(h, up).1, c) <==> PartEchoed(c in h.members, up, c)
    ensures HasJoin(ServeAll(h, up).1, c) <==> JoinEchoed(c in h.members, up, c)
    decreases |up|
  {
    if |up| > 0 {
      var (h1, l1) := ServeOne(h, up[0]);
      ServeAllChannel(h1, up[1..], c);
      LastIsJoinTail(c in h.members, up, c);
      HasPartAppend(l1, ServeAll(h1, up[1..]).1, c);
      HasJoinAppend(l1, ServeAll(h1, up[1..]).1, c);
      if up[0] == PartReq(c) && c in h.members {
        assert IsPart(l1[0], c);
      }
      if up[0] == JoinReq(c) && c !in h.members {
        assert IsJoin(l1[0], c);
      }
    }
  }

  lemma {:induction false} ServeAllNick(h: Host, up: seq<Request>)
    requires h.nick !in h.others
    ensures Replay(h.nick, ServeAll(h, up).1) == ServeAll(h, up).0.nick
    decreases |up|
  {
    if |up| > 0 {
      var (h1, l1) := ServeOne(h, up[0]);
      ServeAllNick(h1, up[1..]);
      ReplayAppend(h.nick, l1, ServeAll(h1, up[1..]).1);
      if |l1| == 1 {
        assert l1 == [l1[0]];
        ReplayOne(h.nick, l1[0]);
      }
    }
  }

  /** What a stream of lines makes of one channel. */
  lemma {:induction false} DeliverAllChannel(b: Bot, lines: seq<Line>, c: string)
    ensures Wanted(b, c) ==>
              && Wanted(DeliverAll(b, lines), c)
              && (DeliverAll(b, lines).chans[c] == Joined <==> b.chans[c] == Joined || HasJoin(lines, c))
    ensures c !in b.chans ==> c !in DeliverAll(b, lines).chans
    ensures Parting(b, c) ==>
              && (c in DeliverAll(b, lines).chans <==> !HasPart(lines, c))
              && !Wanted(DeliverAll(b, lines), c)
    decreases |lines|
  {
    if |lines| > 0 {
      DeliverAllChannel(Deliver(b, lines[0]), lines[1..], c);
      assert lines == [lines[0]] + lines[1..];
      HasPartAppend([lines[0]], lines[1..], c);
      HasJoinAppend([lines[0]], lines[1..], c);
      assert IsPart([lines[0]][0], c) == HasPart([lines[0]], c);
      assert IsJoin([lines[0]][0], c) == HasJoin([lines[0]], c);
    }
  }

  lemma HasJoinAppend(lines: seq<Line>, more: seq<Line>, c: string)
    ensures HasJoin(lines + more, c) <==> HasJoin(lines, c) || HasJoin(more, c)
  {
    var s := lines + more;
    if HasJoin(lines, c) {
      var k :| 0 <= k < |lines| && IsJoin(lines[k], c);
      assert IsJoin(s[k], c);
    }
    if HasJoin(more, c) {
      var k :| 0 <= k < |more| && IsJoin(more[k], c);
      assert IsJoin(s[|lines| + k], c);
    }
  }

  lemma SettledChannel(w: World, c: string)
    requires InStep(w, c)
    ensures c in Settled(w).bot.chans <==> c in Settled(w).host.members
    ensures !Parting(Settled(w).bot, c)
  {
    var lines := ServeAll(w.host, w.up).1;
    ServeAllChannel(w.host, w.up, c);
    HasPartAppend(w.down, lines, c);
    DeliverAllChannel(w.bot, w.down + lines, c);
  }

  lemma SettledNick(w: World)
    requires NickInv(w)
    ensures Settled(w).bot.nick == Settled(w).host.nick
  {
    var lines := ServeAll(w.host, w.up).1;
    DeliverAllNick(w.bot, w.down + lines);
    ReplayAppend(w.bot.nick, w.down, lines);
    ServeAllNick(w.host, w.up);
  }

  /** The two sides agree on channel `c`. */
  predicate AgreeOn(o: Outcome, c: string) {
    (c in o.bot.chans <==> c in o.host.members) && !Parting(o.bot, c)
  }

  /** They agree on the nickname, and on every channel that no request has disturbed. */
  ghost predicate Agreement(o: Outcome, sent: seq<Request>) {
    && o.bot.nick == o.host.nick
    && forall c :: AllUndisturbed(sent, c) ==> AgreeOn(o, c)
  }

  /** From every reachable state, the lines still to come bring the two sides to agreement:
      the nicknames are equal, and every undisturbed channel is tracked exactly if the bot is
      in it, and is not left parting. */
  lemma EventualAgreement(nick: string, others: set<string>, es: seq<Event>)
    ensures var w := Run(Start(nick, others), es);
            Agreement(Settled(w), w.sent)
  {
    ReachableInv(nick, others, es);
    InvAgrees(Run(Start(nick, others), es));
  }

  lemma InvAgrees(w: World)
    requires Inv(w)
    ensures Agreement(Settled(w), w.sent)
  {
    hide Settled, InStep, AllUndisturbed, NickInv, AgreeOn;
    SettledNick(w);
    forall c | AllUndisturbed(w.sent, c) ensures AgreeOn(Settled(w), c) {
      assert ChannelInv(w, c);
      SettledAgree(w, c);
    }
  }

  lemma SettledAgree(w: World, c: string)
    requires InStep(w, c)
    ensures AgreeOn(Settled(w), c)
  {
    hide Settled, InStep;
    SettledChannel(w, c);
  }

  /** So whenever both queues are empty, the bot and the server agree. */
  lemma QuietAgreement(nick: string, others: set<string>, es: seq<Event>)
    requires Quiet(Run(Start(nick, others), es))
    ensures var w := Run(Start(nick, others), es);
            Agreement(Outcome(w.bot, w.host), w.sent)
  {
    hide Agreement, Settled;
    EventualAgreement(nick, others, es);
    DrainingSettles(Run(Start(nick, others), es), []);
  }

  lemma {:induction false} DrainingSendsNothing(w: World, es: seq<Event>)
    requires Draining(es)
    ensures Run(w, es).sent == w.sent
    decreases |es|
  {
    hide LineVerdict;
    if |es| > 0 {
      DrainingSendsNothing(Next(w, es[0]), es[1..]);
    }
  }

  /** And they agree after every way of moving the queues until nothing moves any more, unless
      a line in front of others can end the worker. */
  lemma EveryDrainAgrees(nick: string, others: set<string>, es: seq<Event>, ds: seq<Event>)
    requires Run(Start(nick, others), es).running && NoneEnds(Coming(Run(Start(nick, others), es)))
    requires Draining(ds) && Exhausted(Run(Run(Start(nick, others), es), ds))
    ensures var w := Run(Run(Start(nick, others), es), ds);
            Agreement(Outcome(w.bot, w.host), w.sent)
  {
    hide Run, Draining, NoneEnds, Settled, Agreement;
    var w := Run(Start(nick, others), es);
    EveryDrainIsQuiet(w);
    EventualAgreement(nick, others, es);
    DrainingSettles(w, ds);
    DrainingSendsNothing(w, ds);
  }

  // ------------------------------------------------------- when the worker has ended

  /** Where the two sides end up: the server takes the requests in any case, but a worker that
      has ended handles no further line. */
  function Aftermath(w: World): Outcome {
    if w.running then Settled(w) else Outcome(w.bot, ServeAll(w.host, w.up).0)
  }

  /** The bot has been told enough: no undisturbed channel is left parting, and the lines that
      it will not see leave its name as it is. */
  ghost predicate Told(w: World) {
    && (forall c :: AllUndisturbed(w.sent, c) ==> !Parting(w.bot, c))
    && Replay(w.bot.nick, Coming(w)) == w.bot.nick
  }

  lemma EndedChannel(w: World, c: string)
    requires InStep(w, c)
    ensures AgreeOn(Outcome(w.bot, ServeAll(w.host, w.up).0), c) <==> !Parting(w.bot, c)
  {
    hide HasPart, HasJoin, LastIsJoin, PartEchoed, JoinEchoed, ServeAll;
    ServeAllChannel(w.host, w.up, c);
  }

  lemma ComingNick(w: World)
    requires NickInv(w)
    ensures Replay(w.bot.nick, Coming(w)) == ServeAll(w.host, w.up).0.nick
  {
    ReplayAppend(w.bot.nick, w.down, ServeAll(w.host, w.up).1);
    ServeAllNick(w.host, w.up);
  }

  /** In every reachable state the two sides end up in agreement exactly when the worker is at
      work, or has been told enough. */
  lemma AftermathAgrees(w: World)
    requires Inv(w)
    ensures Agreement(Aftermath(w), w.sent) <==> w.running || Told(w)
  {
    hide InStep, AllUndisturbed, AgreeOn, Replay, Coming, Settled, Parting, NickInv, ServeAll;
    ComingNick(w);
    InvAgrees(w);
    forall c | AllUndisturbed(w.sent, c)
      ensures AgreeOn(Outcome(w.bot, ServeAll(w.host, w.up).0), c) <==> !Parting(w.bot, c)
    {
      assert ChannelInv(w, c);
      EndedChannel(w, c);
    }
  }

  // -------------------------------------------------- which channels can be asked for

  /** The tracked channels are the channels the bot is in. */
  ghost predicate FullAgreement(o: Outcome) {
    && o.bot.nick == o.host.nick && o.bot.chans.Keys == o.host.members
    && forall c :: !Parting(o.bot, c)
  }

  predicate Within(r: Request, names: set<string>) { r.NickReq? || Argument(r) in names }

  /** Only these channels are asked for. */
  ghost predicate AsksWithin(es: seq<Event>, names: set<string>) {
    forall k :: 0 <= k < |es| && es[k].Ask? ==> Within(es[k].request, names)
  }

  lemma {:induction false} SentWithin(w: World, es: seq<Event>, names: set<string>)
    requires AsksWithin(es, names) && forall k :: 0 <= k < |w.sent| ==> Within(w.sent[k], names)
    ensures forall k :: 0 <= k < |Run(w, es).sent| ==> Within(Run(w, es).sent[k], names)
    decreases |es|
  {
    hide LineVerdict, ArrivingAll, Within;
    if |es| > 0 {
      assert AsksWithin(es[1..], names);
      if es[0].Ask? {
        var s := Sends(w.bot, es[0].request, es[0].ok);
        assert s == [] || s == [es[0].request];
      } else {
        SameSent(w, es[0]);
      }
      SentWithin(Next(w, es[0]), es[1..], names);
    }
  }

  predicate ChannelName(n: string) { Middle(n) && ',' !in n }

  lemma WithinDisturbsNothing(sent: seq<Request>, names: set<string>, c: string)
    requires forall k :: 0 <= k < |sent| ==> Within(sent[k], names)
    requires forall n :: n in names ==> ChannelName(n)
    ensures AllUndisturbed(sent, c)
  {
    hide Undisturbed, Middle;
    forall k | 0 <= k < |sent| ensures Undisturbed(sent[k], c) {
      assert Within(sent[k], names);
      WritableDisturbsNothing(sent[k], c);
    }
  }

  /** One join of a name that cannot be written down is enough. */
  lemma UnwritableJoin(nick: string, others: set<string>, n: string)
    requires !ChannelName(n)
    ensures var w := Run(Start(nick, others), [Ask(JoinReq(n), true)]);
            n in Settled(w).bot.chans && n !in Settled(w).host.members
  {
    hide Arriving, Middle, ArrivingAll, JoinEchoed, PartEchoed, HasPart, HasJoin, About;
    var w0, r := Start(nick, others), JoinReq(n);
    RunCons(w0, Ask(r, true), []);
    var w := Next(w0, Ask(r, true));
    ArrivingOne(r);
    assert w.up == [] + Arriving(r);
    UnwritableIsLost(r, n);
    OnlyAbout(false, [], Arriving(r), n);
    assert LastIsJoin(false, [] + [], n) == false;
    ServeAllChannel(w.host, w.up, n);
    DeliverAllChannel(w.bot, Coming(w), n);
  }

  /** Every run in which only these channels are asked for settles to full agreement, exactly
      when each of them is a word that does not begin with ':' and has no comma. */
  lemma AgreementIffNames(names: set<string>)
    ensures (forall nick, others, es :: AsksWithin(es, names) ==> FullAgreement(Settled(Run(Start(nick, others), es))))
            <==> (forall n :: n in names ==> ChannelName(n))
  {
    hide ChannelName, Settled, Run, AllUndisturbed, AsksWithin, Within;
    if forall n :: n in names ==> ChannelName(n) {
      forall nick, others, es | AsksWithin(es, names)
        ensures FullAgreement(Settled(Run(Start(nick, others), es)))
      {
        var w := Run(Start(nick, others), es);
        EventualAgreement(nick, others, es);
        SentWithin(Start(nick, others), es, names);
        forall c ensures AgreeOn(Settled(w), c) {
          WithinDisturbsNothing(w.sent, names, c);
        }
        AgreeOnAll(Settled(w));
      }
    }
    if n :| n in names && !ChannelName(n) {
      var es := [Ask(JoinReq(n), true)];
      OneAskWithin(n, names);
      UnwritableJoin("", {}, n);
      assert !FullAgreement(Settled(Run(Start("", {}), es)));
    }
  }

  lemma AgreeOnAll(o: Outcome)
    requires o.bot.nick == o.host.nick && forall c :: AgreeOn(o, c)
    ensures FullAgreement(o)
  {
    forall c ensures c in o.bot.chans <==> c in o.host.members {
      assert AgreeOn(o, c);
    }
    forall c ensures !Parting(o.bot, c) {
      assert AgreeOn(o, c);
    }
  }

  lemma OneAskWithin(n: string, names: set<string>)
    requires n in names
    ensures AsksWithin([Ask(JoinReq(n), true)], names)
  {
  }

  /** The bot asks for ":#x" and is put into "#x". */
  lemma ColonJoinDisagrees(nick: string, others: set<string>)
    ensures var o := Settled(Next(Start(nick, others), Ask(JoinReq(":#x"), true)));
            o.bot.chans == map[":#x" := JoinRequested] && o.host.members == {"#x"}
  {
    hide Arriving;
    var w := Next(Start(nick, others), Ask(JoinReq(":#x"), true));
    ArrivingOne(JoinReq(":#x"));
    ColonIsDropped();
    assert w.up == [JoinReq("#x")] && w.up[1..] == [];
    assert ServeAll(w.host, w.up).1 == [JoinLine(nick, "#x")] + [];
    assert Coming(w) == [JoinLine(nick, "#x")] && Coming(w)[1..] == [];
    assert DeliverAll(w.bot, Coming(w)) == Deliver(w.bot, JoinLine(nick, "#x"));
    assert "#x" != ":#x";
  }

  // ------------------------------------------------------------- when a join completes

  /** Being Joined is not part of the agreement: a channel settles to Joined exactly when it
      is wanted and is Joined already, or a JOIN line for it is in flight or still to be
      produced by the queued requests. */
  lemma SettledJoined(w: World, c: string)
    ensures c in Settled(w).bot.chans && Settled(w).bot.chans[c] == Joined <==>
            && Wanted(w.bot, c)
            && (w.bot.chans[c] == Joined || HasJoin(w.down, c) || JoinEchoed(c in w.host.members, w.up, c))
  {
    hide HasJoin, HasPart, JoinEchoed, PartEchoed;
    var lines := ServeAll(w.host, w.up).1;
    ServeAllChannel(w.host, w.up, c);
    HasJoinAppend(w.down, lines, c);
    DeliverAllChannel(w.bot, w.down + lines, c);
  }

  /** So a join that is asked for in a reachable state settles to Joined exactly when a JOIN
      line from before is still to come, or the name can be written down and the server will
      not have the bot in the channel by then; in an undisturbed channel, that is when it was
      not wanted before. A second join of a channel is not echoed, and the channel stays
      JoinRequested until somebody else joins it. */
  lemma JoinCompletes(nick: string, others: set<string>, es: seq<Event>, c: string)
    requires Run(Start(nick, others), es).running
    ensures var w := Run(Start(nick, others), es);
            var o := Settled(Next(w, Ask(JoinReq(c), true)));
            var there := LastIsJoin(c in w.host.members, w.up, c);
            && c in o.bot.chans
            && (o.bot.chans[c] == Joined <==>
                || HasJoin(w.down, c) || JoinEchoed(c in w.host.members, w.up, c)
                || (ChannelName(c) && !there))
            && (AllUndisturbed(w.sent, c) ==> (there <==> Wanted(w.bot, c)))
  {
    hide HasJoin, JoinEchoed, DeliverAll, ServeAll, Run, LastIsJoin, HasPart, PartEchoed, Arriving, ArrivingAll, About,
         AllUndisturbed, Middle;
    ReachableInv(nick, others, es);
    var w, r := Run(Start(nick, others), es), JoinReq(c);
    assert ChannelInv(w, c);
    var w' := Next(w, Ask(r, true));
    assert w'.up == w.up + ArrivingAll([r]);
    JoinArrives(c in w.host.members, w.up, c);
    SettledJoined(w', c);
    SettledWanted(w', c);
  }

  lemma SettledWanted(w: World, c: string)
    requires Wanted(w.bot, c)
    ensures c in Settled(w).bot.chans
  {
    hide HasJoin, HasPart;
    DeliverAllChannel(w.bot, w.down + ServeAll(w.host, w.up).1, c);
  }

  lemma JoinArrives(member: bool, up: seq<Request>, c: string)
    ensures JoinEchoed(member, up + ArrivingAll([JoinReq(c)]), c) <==>
            JoinEchoed(member, up, c) || (ChannelName(c) && !LastIsJoin(member, up, c))
  {
    hide LastIsJoin, PartEchoed, JoinEchoed, Arriving, ArrivingAll, Middle, About;
    var r := JoinReq(c);
    ArrivingOne(r);
    if ChannelName(c) {
      ArrivesIffWritable(r);
      AppendOne(member, up, r, c);
    } else {
      UnwritableIsLost(r, c);
      OnlyAbout(member, up, Arriving(r), c);
      assert up + [] == up;
    }
  }

  // ------------------------------------------------- when a part and a renaming complete

  /** A request whose send fails, and a part of a channel that is not tracked, change nothing;
      every other request changes something or goes out. */
  lemma AskedOrNot(w: World, r: Request, ok: bool)
    requires w.running
    ensures !ok || (r.PartReq? && r.channel !in w.bot.chans) ==> Next(w, Ask(r, ok)) == w
    ensures ok && (r.PartReq? ==> r.channel in w.bot.chans) ==> Next(w, Ask(r, ok)).sent == w.sent + [r]
  {
    hide ArrivingAll;
    NothingArrives();
    assert w.up + [] == w.up && w.sent + [] == w.sent;
  }

  /** A part of a tracked channel that is asked for in a reachable state leaves the channel
      tracked until the echo, and takes the bot out of it on both sides, if the name can be
      written down. */
  lemma PartCompletes(nick: string, others: set<string>, es: seq<Event>, c: string)
    requires var w := Run(Start(nick, others), es);
             w.running && c in w.bot.chans && AllUndisturbed(w.sent, c) && ChannelName(c)
    ensures var w' := Next(Run(Start(nick, others), es), Ask(PartReq(c), true));
            Parting(w'.bot, c) && c !in Settled(w').bot.chans && c !in Settled(w').host.members
  {
    hide Run, Undisturbed, InStep, Middle, ArrivingAll, HasPart, HasJoin, NickInv, ServeAll, DeliverAll;
    ReachableInv(nick, others, es);
    var w := Run(Start(nick, others), es);
    assert ChannelInv(w, c);
    WritableDisturbsNothing(PartReq(c), c);
    AskKeepsChannel(w, PartReq(c), true, c);
    var w' := Next(w, Ask(PartReq(c), true));
    SettledAgree(w', c);
    DeliverAllChannel(w'.bot, Coming(w'), c);
  }

  lemma {:induction false} ServeAllOneMore(h: Host, up: seq<Request>, r: Request)
    ensures ServeAll(h, up + [r]).0 == ServeOne(ServeAll(h, up).0, r).0
    decreases |up|
  {
    if |up| == 0 {
      assert (up + [r])[1..] == [];
    } else {
      assert (up + [r])[1..] == up[1..] + [r];
      ServeAllOneMore(ServeOne(h, up[0]).0, up[1..], r);
    }
  }

  lemma {:induction false} ServeAllOthers(h: Host, up: seq<Request>)
    requires h.nick !in h.others
    ensures ServeAll(h, up).0.others == h.others && ServeAll(h, up).0.nick !in h.others
    decreases |up|
  {
    if |up| > 0 {
      ServeAllOthers(ServeOne(h, up[0]).0, up[1..]);
    }
  }

  lemma ServeRenaming(h: Host, up: seq<Request>, n: string)
    requires h.nick !in h.others
    ensures var before, after := ServeAll(h, up).0.nick, ServeAll(h, up + ArrivingAll([NickReq(n)])).0.nick;
            && (Middle(n) ==> (after == n <==> n !in h.others))
            && (!Middle(n) && before != n ==> after != n)
  {
    hide ServeAll, Arriving, ArrivingAll, Middle, HasComma;
    var r := NickReq(n);
    var rs := Arriving(r);
    ArrivingOne(r);
    ArrivesIffWritable(r);
    ArrivalsAre(r);
    NickHasNoList(r);
    ServeAllOthers(h, up);
    if |rs| == 0 {
      assert up + rs == up;
    } else {
      assert rs == [rs[0]];
      ServeAllOneMore(h, up, rs[0]);
    }
  }

  lemma NickHasNoList(r: Request)
    ensures r.NickReq? ==> !HasComma(r)
  {
  }

  /** A renaming that is asked for in a reachable state settles to the new name, on both sides,
      exactly when nobody else has it; provided the name can be written down, and otherwise
      never, unless it is the name already. */
  lemma NickCompletes(nick: string, others: set<string>, es: seq<Event>, n: string)
    requires Run(Start(nick, others), es).running
    ensures var w := Run(Start(nick, others), es);
            var o := Settled(Next(w, Ask(NickReq(n), true)));
            && o.bot.nick == o.host.nick
            && (Middle(n) ==> (o.bot.nick == n <==> n !in w.host.others))
            && (!Middle(n) && Settled(w).host.nick != n ==> o.bot.nick != n)
  {
    hide Run, ArrivingAll, Middle, ChannelInv, ServeAll, DeliverAll, Replay;
    ReachableInv(nick, others, es);
    var w := Run(Start(nick, others), es);
    NickInvNext(w, Ask(NickReq(n), true));
    SettledNick(Next(w, Ask(NickReq(n), true)));
    ServeRenaming(w.host, w.up, n);
  }

  lemma RunCons(w: World, e: Event, es: seq<Event>)
    ensures Run(w, [e] + es) == Run(Next(w, e), es)
  {
    assert ([e] + es)[1..] == es;
  }

  /** The bot has joined `c`, and nothing is in flight. */
  function JoinedTo(nick: string, c: string, others: set<string>): World {
    World(Bot(map[c := Joined], nick), [], [], Host({c}, nick, others - {nick}), [JoinReq(c)], true)
  }

  lemma PlainAsk(r: Request)
    requires Writable(r)
    ensures ArrivingAll([r]) == [r]
  {
    hide Arriving, Writable;
    ArrivingOne(r);
    ArrivesIffWritable(r);
  }

  lemma JoinRun(nick: string, c: string, others: set<string>)
    requires ChannelName(c)
    ensures Run(Start(nick, others), [Ask(JoinReq(c), true), Serve, Receive(true)]) == JoinedTo(nick, c, others)
  {
    hide VerdictOf, Arriving, ArrivingAll, Middle;
    PlainAsk(JoinReq(c));
    var w0 := Start(nick, others);
    var w1 := Next(w0, Ask(JoinReq(c), true));
    RunCons(w0, Ask(JoinReq(c), true), [Serve, Receive(true)]);
    RunCons(w1, Serve, [Receive(true)]);
    assert w1.up == [JoinReq(c)];
    var w2 := Next(w1, Serve);
    RunCons(w2, Receive(true), []);
    assert w2.down == [JoinLine(nick, c)];
  }

  /** A channel that is joined twice in a row is left requested. */
  lemma RejoinSticks(nick: string, c: string, others: set<string>)
    requires ChannelName(c)
    ensures Run(Start(nick, others), [Ask(JoinReq(c), true), Serve, Receive(true)]) == JoinedTo(nick, c, others)
    ensures var o := Settled(Next(JoinedTo(nick, c, others), Ask(JoinReq(c), true)));
            o.bot.chans == map[c := JoinRequested]
  {
    hide Arriving, Middle, ArrivingAll;
    JoinRun(nick, c, others);
    PlainAsk(JoinReq(c));
    var w := Next(JoinedTo(nick, c, others), Ask(JoinReq(c), true));
    assert w.up == [JoinReq(c)] && w.up[1..] == [];
    assert ServeAll(w.host, w.up) == (w.host, [] + []);
    assert w.down + ([] + []) == [];
  }

  lemma {:induction false} ExhaustedStays(w: World, ds: seq<Event>)
    requires Exhausted(w) && Draining(ds)
    ensures Run(w, ds) == w
    decreases |ds|
  {
    hide LineVerdict;
    if |ds| > 0 {
      ExhaustedStays(w, ds[1..]);
    }
  }

  /** The bot has left `c`, and the echo is on its way behind somebody's QUIT. */
  function LeftBehind(nick: string, c: string, quit: string): World {
    World(Bot(map[c := PartRequested], nick), [], [Other(quit), PartLine(nick, c)], Host({}, nick, {}),
          [JoinReq(c), PartReq(c)], true)
  }

  lemma LeaveRun(nick: string, c: string, who: IRCUser, reason: string)
    requires who.nickname != nick && ChannelName(c)
    ensures Run(JoinedTo(nick, c, {who.nickname}), [Ask(PartReq(c), true), OtherLeaves(who, true, reason), Serve])
         == LeftBehind(nick, c, QuitText(who, reason))
  {
    hide QuitText, LineVerdict, Arriving, ArrivingAll, Middle;
    PlainAsk(PartReq(c));
    var e1, e2 := Ask(PartReq(c), true), OtherLeaves(who, true, reason);
    var w0 := JoinedTo(nick, c, {who.nickname});
    RunCons(w0, e1, [e2, Serve]);
    var w1 := Next(w0, e1);
    assert w1.up == [PartReq(c)] && w1.sent == [JoinReq(c), PartReq(c)] && w1.bot.chans == map[c := PartRequested];
    RunCons(w1, e2, [Serve]);
    var w2 := Next(w1, e2);
    assert w2.down == [Other(QuitText(who, reason))] && w2.host == Host({c}, nick, {});
    RunCons(w2, Serve, []);
    assert w2.up[1..] == [] && w2.host.members - {c} == {};
  }

  /** Somebody else leaves while the bot waits for the echo of its PART. If a read ends with
      that QUIT, the worker ends, and the channel stays tracked for good. */
  lemma QuitStrands(nick: string, c: string, who: IRCUser, reason: string, ds: seq<Event>)
    requires who.nickname != nick && ' ' !in Source.Render(who) && ChannelName(c) && Draining(ds)
    ensures Run(JoinedTo(nick, c, {who.nickname}), [Ask(PartReq(c), true), OtherLeaves(who, true, reason), Serve])
         == LeftBehind(nick, c, QuitText(who, reason))
    ensures var w := Run(Next(LeftBehind(nick, c, QuitText(who, reason)), Receive(true)), ds);
            && !w.running && w.down == [PartLine(nick, c)]
            && w.bot.chans == map[c := PartRequested] && w.host.members == {}
  {
    hide VerdictOf, LineOf, QuitText, Draining, Source.Render, Middle;
    LeaveRun(nick, c, who, reason);
    QuitTextStops(who, reason);
    ExhaustedStays(Next(LeftBehind(nick, c, QuitText(who, reason)), Receive(true)), ds);
  }
}
