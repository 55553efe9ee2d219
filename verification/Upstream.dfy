/**
 The bot's commands on their way to the server: formatted, sent, split into lines and read by
 the grammar of section 2.3.1 of RFC 2812, where a parameter that begins with ':' is the last
 one and runs to the end of the line.
 */
module Upstream {
  import opened Text
  import opened Server
  import opened Framing
  import Outgoing

  // ------------------------------------------------------------------ the server's reader

  datatype ServerMessage = ServerMessage(command: string, params: seq<string>)

  function ParamsOf(s: string): seq<string>
    decreases |s|
  {
    if s == "" then []
    else if s[0] == ' ' then ParamsOf(s[1..])
    else if s[0] == ':' then [s[1..]]
    else var e := Find(s, SPACE, 0); [s[..e]] + ParamsOf(s[e..])
  }

  function ServerReads(line: string): ServerMessage {
    var e := Find(line, SPACE, 0);
    ServerMessage(line[..e], ParamsOf(line[e..]))
  }

  /** What may stand as a parameter in front of others. */
  predicate Middle(w: string) { w != "" && ' ' !in w && w[0] != ':' }

  lemma {:induction false} FirstWord(s: string)
    ensures |ParamsOf(s)| >= 2 ==> Middle(ParamsOf(s)[0])
    ensures ParamsOf(s) != [] ==> |ParamsOf(s)[0]| <= |s|
    ensures ParamsOf(s) != [] && s[0] in {' ', ':'} ==> |ParamsOf(s)[0]| < |s|
    decreases |s|
  {
    if s != "" && s[0] == ' ' {
      FirstWord(s[1..]);
    }
  }

  lemma ParamsOfMiddle(w: string, rest: string)
    requires Middle(w) && (rest == "" || rest[0] == ' ')
    ensures ParamsOf(w + rest) == [w] + ParamsOf(rest)
  {
    var s := w + rest;
    assert IsFirst(s, SPACE, 0, |w|);
    assert s[..|w|] == w && s[|w|..] == rest;
  }

  /** A word is read as a parameter of its own, in front of the others, exactly when it is
      nonempty, has no space and does not begin with ':'. */
  lemma ParamsOfWord(w: string, rest: string)
    requires rest == "" || (rest[0] == ' ' && ParamsOf(rest) != [])
    ensures ParamsOf(w + rest) == [w] + ParamsOf(rest) <==> Middle(w)
  {
    if Middle(w) {
      ParamsOfMiddle(w, rest);
    }
    if ParamsOf(w + rest) == [w] + ParamsOf(rest) {
      OnlyMiddle(w, rest);
    }
  }

  lemma OnlyMiddle(w: string, rest: string)
    requires rest == "" || ParamsOf(rest) != []
    requires ParamsOf(w + rest) == [w] + ParamsOf(rest)
    ensures Middle(w)
  {
    FirstWord(w + rest);
    if rest == "" {
      assert w + rest == w;
      assert Find(w, SPACE, 0) == |w|;
    }
  }

  lemma ParamsOfTrailing(m: string)
    ensures ParamsOf(" :" + m) == [m]
  {
    assert (" :" + m)[1..] == ":" + m;
    assert (":" + m)[1..] == m;
  }

  // ---------------------------------------------------------------------- each command

  function Keyword(c: Outgoing.Command): string {
    match c
    case User(_) => "USER"
    case Nick(_) => "NICK"
    case Join(_) => "JOIN"
    case Part(_) => "PART"
    case PrivMsg(_, _) => "PRIVMSG"
    case Quit(_) => "QUIT"
    case Pong(_) => "PONG"
  }

  /** The parameters that the bot means. */
  function Meant(c: Outgoing.Command): seq<string> {
    match c
    case User(n) => [n, "0", "*", n]
    case Nick(n) => [n]
    case Join(ch) => [ch]
    case Part(ch) => [ch]
    case PrivMsg(to, m) => [to, m]
    case Quit(m) => [m]
    case Pong(p) => [p]
  }

  /** What is written behind the first parameter. */
  function Behind(c: Outgoing.Command): string {
    match c
    case User(n) => " 0 * :" + n
    case PrivMsg(_, m) => " :" + m
    case _ => ""
  }

  lemma ParamsOfBehind(c: Outgoing.Command)
    requires !c.Pong?
    ensures Behind(c) == "" || (Behind(c)[0] == ' ' && ParamsOf(Behind(c)) != [])
    ensures [Meant(c)[0]] + ParamsOf(Behind(c)) == Meant(c)
  {
    hide ParamsOf;
    match c
    case User(n) => ParamsOfUser(n);
    case PrivMsg(_, m) => ParamsOfTrailing(m);
    case _ => NoParams();
  }

  lemma ParamsOfUser(n: string)
    ensures ParamsOf(" 0 * :" + n) == ["0", "*", n]
  {
    hide ParamsOf;
    var s, t, u := " 0 * :" + n, " * :" + n, " :" + n;
    ParamsOfTrailing(n);
    assert t[1..] == "*" + u;
    ParamsOfMiddle("*", u);
    SkipSpace(t);
    assert s[1..] == "0" + t;
    ParamsOfMiddle("0", t);
    SkipSpace(s);
  }

  lemma KeywordIsRead(k: string, args: string)
    requires k != "" && ' ' !in k
    ensures ServerReads(k + " " + args) == ServerMessage(k, ParamsOf(args))
  {
    var line := k + " " + args;
    assert forall j :: 0 <= j < |k| ==> line[j] == k[j];
    assert IsFirst(line, SPACE, 0, |k|);
    assert line[..|k|] == k && line[|k|..] == " " + args;
    assert (" " + args)[1..] == args;
  }

  lemma OneArgument(k: string, a: string)
    ensures k + " " + (a + "") == (k + " ") + a
  {
  }

  lemma ManyArguments(k: string, a: string, b: string, c: string)
    ensures (k + " ") + a + b + c == k + " " + (a + (b + c))
  {
  }

  lemma SaidShape(c: Outgoing.Command)
    ensures !c.Pong? ==> Outgoing.Said(c) == Keyword(c) + " " + (Meant(c)[0] + Behind(c))
    ensures c.Pong? ==> Outgoing.Said(c) == Keyword(c) + " " + (":" + c.param)
  {
    match c
    case User(n) =>
      assert "USER" + " " == "USER ";
      ManyArguments("USER", n, " 0 * :", n);
    case PrivMsg(to, m) =>
      assert "PRIVMSG" + " " == "PRIVMSG ";
      ManyArguments("PRIVMSG", to, " :", m);
    case Nick(n) =>
      assert "NICK" + " " == "NICK ";
      OneArgument("NICK", n);
    case Join(ch) =>
      assert "JOIN" + " " == "JOIN ";
      OneArgument("JOIN", ch);
    case Part(ch) =>
      assert "PART" + " " == "PART ";
      OneArgument("PART", ch);
    case Quit(m) =>
      assert "QUIT" + " " == "QUIT ";
      OneArgument("QUIT", m);
    case Pong(p) =>
  }

  lemma KeywordShape(c: Outgoing.Command)
    ensures Keyword(c) != "" && ' ' !in Keyword(c)
  {
  }

  /** The server reads a command as it is meant, exactly when its first parameter is a word
      that does not begin with ':'; a PONG always. The text of a message is free, that of a
      farewell is not, since no ':' is put in front of it. */
  lemma SaidIsRead(c: Outgoing.Command)
    ensures ServerReads(Outgoing.Said(c)) == ServerMessage(Keyword(c), Meant(c)) <==> c.Pong? || Middle(Meant(c)[0])
  {
    hide ParamsOf, ServerReads, Outgoing.Said, Behind, Keyword;
    SaidShape(c);
    KeywordShape(c);
    if c.Pong? {
      KeywordIsRead(Keyword(c), ":" + c.param);
      ParamsOfColon(c.param);
    } else {
      KeywordIsRead(Keyword(c), Meant(c)[0] + Behind(c));
      ParamsOfBehind(c);
      ParamsOfWord(Meant(c)[0], Behind(c));
    }
  }

  lemma ParamsOfColon(m: string)
    ensures ParamsOf(":" + m) == [m]
  {
    assert (":" + m)[1..] == m;
  }

  lemma {:induction false} ParamsOfJoin(ws: seq<string>)
    requires forall k :: 0 <= k < |ws| ==> Middle(ws[k])
    ensures ParamsOf(Join(ws, ' ')) == ws
  {
    hide ParamsOf, Middle;
    NoParams();
    if |ws| == 1 {
      ParamsOfMiddle(ws[0], "");
      assert ws[0] + "" == ws[0] && ws == [ws[0]] + [];
    } else if |ws| > 1 {
      var more := Join(ws[1..], ' ');
      ParamsOfJoin(ws[1..]);
      ParamsOfMiddle(ws[0], " " + more);
      assert ws[0] + [' '] + more == ws[0] + (" " + more);
      SkipSpace(" " + more);
      assert (" " + more)[1..] == more && ws == [ws[0]] + ws[1..];
    }
  }

  /** A farewell of several words is read as so many parameters. */
  lemma FarewellIsCut(ws: seq<string>)
    requires forall k :: 0 <= k < |ws| ==> Middle(ws[k])
    ensures ServerReads(Outgoing.Said(Outgoing.Quit(Join(ws, ' ')))) == ServerMessage("QUIT", ws)
  {
    hide ParamsOf, ServerReads, Join, Middle, Outgoing.Said;
    var m := Join(ws, ' ');
    ParamsOfJoin(ws);
    SaidShape(Outgoing.Quit(m));
    assert m + "" == m;
    KeywordShape(Outgoing.Quit(m));
    KeywordIsRead("QUIT", m);
  }

  /** Such as the bot's own. */
  lemma GoodbyeIsCut()
    ensures ServerReads(Outgoing.Said(Outgoing.Quit("Goodbye cruel world!"))).params == ["Goodbye", "cruel", "world!"]
  {
    hide ServerReads;
    var ws := ["Goodbye", "cruel", "world!"];
    assert ws[1..] == ["cruel", "world!"] && ws[1..][1..] == ["world!"];
    assert Join(ws, ' ') == "Goodbye" + " " + ("cruel" + " " + "world!") == "Goodbye cruel world!";
    FarewellIsCut(ws);
  }

  lemma SkipSpace(s: string)
    requires s != "" && s[0] == ' '
    ensures ParamsOf(s) == ParamsOf(s[1..])
  {
  }

  lemma NoParams()
    ensures ParamsOf("") == []
  {
  }

  // ---------------------------------------------------------------------- the requests

  const COMMA: set<char> := {','}

  function JoinEach(names: seq<string>): seq<Request> {
    seq(|names|, i requires 0 <= i < |names| => JoinReq(names[i]))
  }

  function PartEach(names: seq<string>): seq<Request> {
    seq(|names|, i requires 0 <= i < |names| => PartReq(names[i]))
  }

  /** The requests in a line: its first parameter is a name, or a list of channels with commas
      in between (sections 3.1.2, 3.2.1 and 3.2.2 of RFC 2812). */
  function ReadRequests(line: string): seq<Request> {
    var m := ServerReads(line);
    if m.params == [] then []
    else if m.command == "JOIN" then JoinEach(Fields(m.params[0], COMMA))
    else if m.command == "PART" then PartEach(Fields(m.params[0], COMMA))
    else if m.command == "NICK" then [NickReq(m.params[0])]
    else []
  }

  /** All requests in a sequence of lines. */
  function ReadAll(lines: seq<string>): seq<Request> {
    if |lines| == 0 then [] else ReadRequests(lines[0]) + ReadAll(lines[1..])
  }

  /** What the server makes of a request. */
  function Arriving(r: Request): seq<Request> { ReadRequests(Outgoing.Said(CommandFor(r))) }

  function ArrivingAll(rs: seq<Request>): seq<Request>
    decreases |rs|
  {
    if |rs| == 0 then [] else ArrivingAll(rs[..|rs| - 1]) + Arriving(rs[|rs| - 1])
  }

  /** A request that can be written down. */
  predicate Writable(r: Request) { Middle(Argument(r)) && (r.NickReq? || ',' !in Argument(r)) }

  ghost predicate AllWritable(rs: seq<Request>) { forall k :: 0 <= k < |rs| ==> Writable(rs[k]) }

  // ------------------------------------------------------------------ what becomes of one

  lemma ArrivingShape(r: Request)
    ensures var p := ParamsOf(Argument(r));
            Arriving(r) ==
            if p == [] then []
            else match r
              case JoinReq(_) => JoinEach(Fields(p[0], COMMA))
              case PartReq(_) => PartEach(Fields(p[0], COMMA))
              case NickReq(_) => [NickReq(p[0])]
  {
    hide ParamsOf, Fields, ServerReads, Outgoing.Said;
    var c := CommandFor(r);
    SaidShape(c);
    KeywordShape(c);
    assert Argument(r) + "" == Argument(r);
    KeywordIsRead(Keyword(c), Argument(r));
  }

  lemma FirstIsWhole(w: string)
    ensures Middle(w) ==> ParamsOf(w) == [w]
    ensures ParamsOf(w) != [] && |ParamsOf(w)[0]| >= |w| ==> Middle(w)
  {
    if Middle(w) {
      ParamsOfMiddle(w, "");
      assert w + "" == w;
    }
    FirstWord(w);
    if ParamsOf(w) != [] && |ParamsOf(w)[0]| >= |w| {
      assert Find(w, SPACE, 0) == |w|;
    }
  }

  /** A list of one name. */
  lemma OneName(p: string, w: string)
    ensures Fields(p, COMMA) == [w] ==> |w| <= |p| && ',' !in w && w != ""
    ensures p == w != "" && ',' !in w ==> Fields(p, COMMA) == [w]
    ensures ',' !in p ==> |Fields(p, COMMA)| <= 1
    ensures forall k :: 0 <= k < |Fields(p, COMMA)| ==> ',' !in Fields(p, COMMA)[k]
  {
    FieldsAreTokens(p, COMMA);
    JoinOfFieldsShrinks(p, ',', COMMA);
    if ',' !in p && p != "" {
      FieldsOfToken(p, COMMA);
    }
    forall k | 0 <= k < |Fields(p, COMMA)| ensures ',' !in Fields(p, COMMA)[k] {
      assert Token(Fields(p, COMMA)[k], COMMA);
    }
    if Fields(p, COMMA) == [w] {
      assert Token(Fields(p, COMMA)[0], COMMA);
    }
  }

  /** A request is read as itself exactly when it is writable. */
  lemma ArrivesIffWritable(r: Request)
    ensures Arriving(r) == [r] <==> Writable(r)
  {
    hide ParamsOf, Fields, Arriving, Middle;
    ArrivingShape(r);
    var w := Argument(r);
    FirstIsWhole(w);
    if ParamsOf(w) != [] {
      var p := ParamsOf(w)[0];
      OneName(p, w);
      MiddleIsSomething(w);
      assert r.JoinReq? && Arriving(r) == [r] ==> JoinEach(Fields(p, COMMA))[0] == r;
      assert r.PartReq? && Arriving(r) == [r] ==> PartEach(Fields(p, COMMA))[0] == r;
    }
  }

  lemma MiddleIsSomething(w: string)
    ensures Middle(w) ==> w != ""
  {
  }

  predicate SameKind(r: Request, q: Request) {
    (r.JoinReq? <==> q.JoinReq?) && (r.PartReq? <==> q.PartReq?) && (r.NickReq? <==> q.NickReq?)
  }

  predicate HasComma(r: Request) { !r.NickReq? && ',' in Argument(r) }

  /** What arrives is of the same kind and has no comma; without commas, it is at most one. */
  lemma ArrivalsAre(r: Request)
    ensures forall k :: 0 <= k < |Arriving(r)| ==> !HasComma(Arriving(r)[k]) && SameKind(Arriving(r)[k], r)
    ensures !HasComma(r) ==> |Arriving(r)| <= 1
  {
    hide ParamsOf, Fields, Arriving, Middle;
    ArrivingShape(r);
    if ParamsOf(Argument(r)) != [] {
      OneName(ParamsOf(Argument(r))[0], "");
      if ',' !in Argument(r) {
        ParamsAvoidComma(Argument(r));
      }
    }
  }

  lemma {:induction false} ParamsAvoidComma(s: string)
    requires ',' !in s
    ensures ParamsOf(s) != [] ==> ',' !in ParamsOf(s)[0]
    decreases |s|
  {
    if s != "" && s[0] == ' ' {
      ParamsAvoidComma(s[1..]);
    }
  }

  // ------------------------------------------------------------------ what becomes of all

  lemma {:induction false} ArrivingAppend(a: seq<Request>, b: seq<Request>)
    ensures ArrivingAll(a + b) == ArrivingAll(a) + ArrivingAll(b)
    decreases |b|
  {
    hide Arriving;
    if |b| == 0 {
      assert a + b == a;
    } else {
      assert (a + b)[..|a + b| - 1] == a + b[..|b| - 1];
      ArrivingAppend(a, b[..|b| - 1]);
    }
  }

  lemma ArrivingOne(r: Request)
    ensures ArrivingAll([r]) == Arriving(r)
  {
    hide Arriving;
    assert [r][..0] == [];
  }

  lemma {:induction false} NoCommaArrives(rs: seq<Request>)
    ensures forall k :: 0 <= k < |ArrivingAll(rs)| ==> !HasComma(ArrivingAll(rs)[k])
    decreases |rs|
  {
    hide Arriving, HasComma;
    if |rs| > 0 {
      NoCommaArrives(rs[..|rs| - 1]);
      ArrivalsAre(rs[|rs| - 1]);
    }
  }

  lemma {:induction false} AtMostOneEach(rs: seq<Request>)
    requires forall k :: 0 <= k < |rs| ==> !HasComma(rs[k])
    ensures |ArrivingAll(rs)| <= |rs|
    ensures ArrivingAll(rs) == rs ==> AllWritable(rs)
    decreases |rs|
  {
    hide Arriving, HasComma, Writable;
    if |rs| > 0 {
      var n := |rs| - 1;
      AtMostOneEach(rs[..n]);
      ArrivalsAre(rs[n]);
      if ArrivingAll(rs) == rs {
        assert rs == rs[..n] + [rs[n]];
        SameParts(ArrivingAll(rs[..n]), rs[..n], Arriving(rs[n]), [rs[n]]);
        ArrivesIffWritable(rs[n]);
        assert forall k :: 0 <= k < n ==> rs[k] == rs[..n][k];
      }
    }
  }

  lemma {:induction false} WritableArrives(rs: seq<Request>)
    requires AllWritable(rs)
    ensures ArrivingAll(rs) == rs
    decreases |rs|
  {
    hide Arriving, Writable;
    if |rs| > 0 {
      var n := |rs| - 1;
      WritableArrives(rs[..n]);
      ArrivesIffWritable(rs[n]);
      assert rs == rs[..n] + [rs[n]];
    }
  }

  lemma ArrivingIffWritable(rs: seq<Request>)
    ensures ArrivingAll(rs) == rs <==> AllWritable(rs)
  {
    hide ArrivingAll, HasComma, AllWritable;
    if AllWritable(rs) {
      WritableArrives(rs);
    }
    if ArrivingAll(rs) == rs {
      NoCommaArrives(rs);
      AtMostOneEach(rs);
    }
  }

  // ------------------------------------------------------------------ in the byte stream

  lemma RequestIsOneLine(r: Request)
    requires Avoids(Argument(r), EOL)
    ensures Outgoing.OneLine(CommandFor(r))
  {
    var k := Keyword(CommandFor(r)) + " ";
    assert Outgoing.Said(CommandFor(r)) == k + Argument(r);
    AvoidsConcat(k, Argument(r), EOL);
  }

  /** A line that begins with another keyword is no request. */
  lemma OtherKeyword(k: string, args: string)
    requires k != "" && ' ' !in k && k !in {"JOIN", "PART", "NICK"}
    ensures ReadRequests(k + " " + args) == []
  {
    hide ParamsOf, ServerReads, Fields;
    KeywordIsRead(k, args);
  }

  lemma CommandIsRead(c: Outgoing.Command)
    ensures ReadRequests(Outgoing.Said(c)) == ArrivingAll(RequestsAmong([c]))
  {
    hide ReadRequests, Outgoing.Said, RequestsAmong, ArrivingAll, Behind;
    RequestsOfOne(c);
    match c
    case Join(ch) => ArrivingOne(JoinReq(ch));
    case Part(ch) => ArrivingOne(PartReq(ch));
    case Nick(n) => ArrivingOne(NickReq(n));
    case Pong(p) =>
      SaidShape(c);
      OtherKeyword("PONG", ":" + p);
      NothingArrives();
    case _ =>
      SaidShape(c);
      OtherKeyword(Keyword(c), Meant(c)[0] + Behind(c));
      NothingArrives();
  }

  lemma NothingArrives()
    ensures ArrivingAll([]) == []
  {
  }

  /** Whatever runs into a PONG, no request comes of it. */
  lemma PongIsNoRequest(p: string, more: string)
    ensures ReadRequests(Outgoing.Said(Outgoing.Pong(p)) + more) == []
  {
    hide ReadRequests;
    OtherKeyword("PONG", ":" + p + more);
    assert "PONG :" + p + more == "PONG" + " " + (":" + p + more);
  }

  lemma FirstMerged(cs: seq<Outgoing.Command>)
    requires cs != [] && cs[0].Pong?
    ensures exists more :: Outgoing.Merged(cs)[0] == Outgoing.Said(cs[0]) + more
  {
    var m := Outgoing.Merged(cs[1..]);
    if |cs| > 1 && cs[1].Pong? {
      assert Outgoing.Merged(cs)[0] == Outgoing.Said(cs[0]) + m[0];
    } else {
      assert Outgoing.Merged(cs)[0] == Outgoing.Said(cs[0]) + "";
    }
  }

  lemma ReadAllCons(line: string, more: seq<string>)
    ensures ReadAll([line] + more) == ReadRequests(line) + ReadAll(more)
  {
    hide ReadRequests;
    assert ([line] + more)[1..] == more;
  }

  lemma {:induction false} MergedIsRead(cs: seq<Outgoing.Command>)
    ensures ReadAll(Outgoing.Merged(cs)) == ArrivingAll(RequestsAmong(cs))
  {
    hide ReadRequests, Outgoing.Said, RequestsAmong, ArrivingAll, ReadAll;
    if |cs| == 0 {
      NoneRead();
    } else {
      var c, more := cs[0], cs[1..];
      assert cs == [c] + more;
      MergedIsRead(more);
      RequestsAmongAppend([c], more);
      ArrivingAppend(RequestsAmong([c]), RequestsAmong(more));
      CommandIsRead(c);
      var m := Outgoing.Merged(more);
      if c.Pong? && |cs| > 1 && cs[1].Pong? {
        FirstMerged(more);
        var tail :| m[0] == Outgoing.Said(more[0]) + tail;
        PongIsNoRequest(more[0].param, tail);
        PongIsNoRequest(c.param, m[0]);
        PongIsNoRequest(c.param, "");
        assert Outgoing.Said(c) + "" == Outgoing.Said(c);
        ReadAllCons(m[0], m[1..]);
        assert m == [m[0]] + m[1..];
        ReadAllCons(Outgoing.Said(c) + m[0], m[1..]);
      } else {
        ReadAllCons(Outgoing.Said(c), m);
      }
    }
  }

  lemma NoneRead()
    ensures ReadAll([]) == [] && RequestsAmong([]) == [] && ArrivingAll([]) == []
  {
  }

  /** What the server reads in the bytes of any commands, joins among answers and PONGs. */
  lemma StreamIsRead(cs: seq<Outgoing.Command>)
    requires Outgoing.AllOneLine(cs)
    ensures ReadAll(Fields(Outgoing.Stream(cs), EOL)) == ArrivingAll(RequestsAmong(cs))
  {
    hide ReadAll, ArrivingAll, RequestsAmong, Fields;
    Outgoing.StreamArrives(cs);
    MergedIsRead(cs);
  }

  /** The requests among any commands that leave the bot are the requests that the server
      reads in the byte stream, in order, exactly when each is writable: its argument is one
      word that does not begin with ':', and for a channel has no comma. */
  lemma RequestsArrive(cs: seq<Outgoing.Command>)
    requires Outgoing.AllOneLine(cs)
    ensures ReadAll(Fields(Outgoing.Stream(cs), EOL)) == RequestsAmong(cs) <==> AllWritable(RequestsAmong(cs))
  {
    hide ReadAll, ArrivingAll, RequestsAmong, Fields, AllWritable;
    StreamIsRead(cs);
    ArrivingIffWritable(RequestsAmong(cs));
  }

  /** A channel behind a ':' is joined under another name. */
  lemma ColonIsDropped()
    ensures Arriving(JoinReq(":#x")) == [JoinReq("#x")]
  {
    hide ParamsOf, Fields, Arriving;
    ArrivingShape(JoinReq(":#x"));
    assert ":" + "#x" == ":#x";
    ParamsOfColon("#x");
    FieldsOfToken("#x", COMMA);
    assert JoinEach(["#x"]) == [JoinReq("#x")];
  }
}
