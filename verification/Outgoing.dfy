/**
 The outgoing stream: the command formats of src/IRC.cc, and the PONG of
 src/Manager.cc, which is the one command sent without a line end.
 */
module Outgoing {
  import opened Text
  import opened Framing

  datatype Command =
    | User(nick: string)
    | Nick(nick: string)
    | Join(channel: string)
    | Part(channel: string)
    | PrivMsg(recipient: string, msg: string)
    | Quit(msg: string)
    | Pong(param: string)

  function Said(c: Command): string {
    match c
    case User(n) => "USER " + n + " 0 * :" + n
    case Nick(n) => "NICK " + n
    case Join(ch) => "JOIN " + ch
    case Part(ch) => "PART " + ch
    case PrivMsg(to, m) => "PRIVMSG " + to + " :" + m
    case Quit(m) => "QUIT " + m
    case Pong(p) => "PONG :" + p
  }

  /** What is sent: every command is framed by CR and CRLF, only PONG is bare. */
  function Wire(c: Command): string {
    if c.Pong? then Said(c) else "\r" + Said(c) + "\r\n"
  }

  function Stream(cs: seq<Command>): string {
    if |cs| == 0 then "" else Wire(cs[0]) + Stream(cs[1..])
  }

  function AllSaid(cs: seq<Command>): seq<string> {
    seq(|cs|, i requires 0 <= i < |cs| => Said(cs[i]))
  }

  /** Its arguments, and so its text, have no CR or LF. */
  predicate OneLine(c: Command) { Token(Said(c), EOL) }

  ghost predicate AllOneLine(cs: seq<Command>) {
    forall k :: 0 <= k < |cs| ==> OneLine(cs[k])
  }

  ghost predicate NoAdjacentPongs(cs: seq<Command>) {
    forall k :: 0 < k < |cs| ==> !(cs[k - 1].Pong? && cs[k].Pong?)
  }

  /** The lines that arrive: a PONG runs into a PONG behind it. */
  function Merged(cs: seq<Command>): (r: seq<string>)
    ensures |r| <= |cs| && (cs != [] ==> r != [])
  {
    if |cs| == 0 then []
    else
      var m := Merged(cs[1..]);
      if cs[0].Pong? && |cs| > 1 && cs[1].Pong? then [Said(cs[0]) + m[0]] + m[1..]
      else [Said(cs[0])] + m
  }

  lemma FieldsOfFramed(t: string, rest: string)
    requires Token(t, EOL)
    ensures Fields("\r" + t + "\r\n" + rest, EOL) == [t] + Fields(rest, EOL)
  {
    hide Fields;
    var s := "\r" + t + "\r\n" + rest;
    SkipFirst(s);
    assert s[1..] == t + "\r\n" + rest;
    FieldsOfTerminated(t, rest);
  }

  /** A bare text in front of a separator or of nothing. */
  lemma FieldsOfBare(t: string, rest: string)
    requires Token(t, EOL) && (rest == "" || rest[0] in EOL)
    ensures Fields(t + rest, EOL) == [t] + Fields(rest, EOL)
  {
    FieldsOfToken(t, EOL);
    if rest == "" {
      assert t + rest == t;
    } else {
      assert t + rest == t + [rest[0]] + rest[1..];
      FieldsCut(t, rest[0], rest[1..], EOL);
    }
  }

  /** A bare text in front of more text: the two run together. */
  lemma FieldsGlue(t: string, rest: string)
    requires Token(t, EOL) && rest != "" && rest[0] !in EOL
    ensures Fields(rest, EOL) != []
    ensures Fields(t + rest, EOL) == [t + Fields(rest, EOL)[0]] + Fields(rest, EOL)[1..]
  {
    var e := Find(rest, EOL, 0);
    var s := t + rest;
    assert forall j :: 0 <= j < |t| ==> s[j] == t[j];
    assert forall j :: 0 <= j < |rest| ==> s[|t| + j] == rest[j];
    assert IsFirst(s, EOL, 0, |t| + e);
    assert s[..|t| + e] == t + rest[..e];
    assert s[|t| + e..] == rest[e..];
    assert Fields(rest, EOL)[1..] == Fields(rest[e..], EOL);
  }

  /** Splitting the sent stream, for every sequence of one-line commands. */
  lemma {:induction false} StreamArrives(cs: seq<Command>)
    requires AllOneLine(cs)
    ensures Fields(Stream(cs), EOL) == Merged(cs)
  {
    if |cs| > 0 {
      var c, more := cs[0], cs[1..];
      assert OneLine(c);
      StreamArrives(more);
      if !c.Pong? {
        FieldsOfFramed(Said(c), Stream(more));
      } else if |cs| > 1 && cs[1].Pong? {
        assert Stream(more)[0] == 'P';
        FieldsGlue(Said(c), Stream(more));
      } else {
        assert |cs| > 1 ==> Stream(more)[0] == '\r';
        FieldsOfBare(Said(c), Stream(more));
      }
    }
  }

  lemma {:induction false} MergedCount(cs: seq<Command>)
    ensures |Merged(cs)| == |cs| <==> NoAdjacentPongs(cs)
    ensures NoAdjacentPongs(cs) ==> Merged(cs) == AllSaid(cs)
  {
    if |cs| > 0 {
      var more := cs[1..];
      MergedCount(more);
      assert NoAdjacentPongs(cs) <==> NoAdjacentPongs(more) && !(|cs| > 1 && cs[0].Pong? && cs[1].Pong?) by {
        assert forall k :: 0 < k < |more| ==> more[k] == cs[k + 1] && more[k - 1] == cs[k];
      }
      assert AllSaid(cs) == [Said(cs[0])] + AllSaid(more);
    }
  }

  /** Splitting the sent stream on CR and LF recovers exactly the commands sent,
      if and only if no two PONGs are adjacent. */
  lemma OutgoingFraming(cs: seq<Command>)
    requires AllOneLine(cs)
    ensures Fields(Stream(cs), EOL) == AllSaid(cs) <==> NoAdjacentPongs(cs)
  {
    StreamArrives(cs);
    MergedCount(cs);
  }

  /** Two PINGs answered in a row arrive as one line. */
  lemma PongsRunTogether()
    ensures Fields(Stream([Pong("a"), Pong("b")]), EOL) == ["PONG :aPONG :b"]
  {
    hide Fields;
    var cs := [Pong("a"), Pong("b")];
    var last := [Pong("b")];
    assert cs[1..] == last && last[1..] == [];
    assert Said(cs[0]) == "PONG :a" && Said(last[0]) == "PONG :b";
    assert Merged(last) == ["PONG :b"] + Merged([]);
    assert "PONG :a" + "PONG :b" == "PONG :aPONG :b";
    StreamArrives(cs);
  }
}
