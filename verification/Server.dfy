/**
 The bot's own view of its channels and its nickname (src/Server.cc, src/Server.hh):
 values first, then the class whose methods update them in place.
 */
module Server {
  import opened Framing
  import Outgoing

  /** A channel that is not in the map is not tracked. */
  datatype ChannelState = JoinRequested | Joined | PartRequested

  type ChanMap = map<string, ChannelState>

  datatype Bot = Bot(chans: ChanMap, nick: string)

  datatype Request = JoinReq(channel: string) | PartReq(channel: string) | NickReq(nick: string)

  /** The lines of the server: those that change the bot, and all others. The handlers do
      not look at who joined or parted. */
  datatype Line =
    | JoinLine(who: string, channel: string)
    | PartLine(who: string, channel: string)
    | NickLine(oldNick: string, newNick: string)
    | Other(text: string)

  // ------------------------------------------------------------ what a call changes

  /** The request that a call puts on the wire, if any. */
  function Sends(b: Bot, r: Request, sent: bool): seq<Request> {
    if sent && (r.PartReq? ==> r.channel in b.chans) then [r] else []
  }

  function AfterRequest(b: Bot, r: Request, sent: bool): Bot {
    if Sends(b, r, sent) == [] then b
    else
      match r
      case JoinReq(c) => b.(chans := b.chans[c := JoinRequested])
      case PartReq(c) => b.(chans := b.chans[c := PartRequested])
      case NickReq(_) => b
  }

  function Deliver(b: Bot, l: Line): Bot {
    match l
    case JoinLine(_, c) =>
      if c in b.chans && b.chans[c] == JoinRequested then b.(chans := b.chans[c := Joined]) else b
    case PartLine(_, c) =>
      if c in b.chans && b.chans[c] == PartRequested then b.(chans := b.chans - {c}) else b
    case NickLine(o, n) =>
      if o == b.nick then b.(nick := n) else b
    case Other(_) => b
  }

  // ------------------------------------------------------------- what goes out for it

  function CommandFor(r: Request): Outgoing.Command {
    match r
    case JoinReq(c) => Outgoing.Join(c)
    case PartReq(c) => Outgoing.Part(c)
    case NickReq(n) => Outgoing.Nick(n)
  }

  function Argument(r: Request): string {
    match r
    case JoinReq(c) => c
    case PartReq(c) => c
    case NickReq(n) => n
  }

  function CommandsFor(rs: seq<Request>): seq<Outgoing.Command> {
    seq(|rs|, i requires 0 <= i < |rs| => CommandFor(rs[i]))
  }

  /** The requests among the commands sent. */
  function RequestsAmong(cs: seq<Outgoing.Command>): seq<Request>
    decreases |cs|
  {
    if |cs| == 0 then []
    else
      RequestsAmong(cs[..|cs| - 1]) +
      match cs[|cs| - 1]
      case Join(c) => [JoinReq(c)]
      case Part(c) => [PartReq(c)]
      case Nick(n) => [NickReq(n)]
      case _ => []
  }

  lemma {:induction false} RequestsAmongAppend(a: seq<Outgoing.Command>, b: seq<Outgoing.Command>)
    ensures RequestsAmong(a + b) == RequestsAmong(a) + RequestsAmong(b)
    decreases |b|
  {
    if |b| == 0 {
      assert a + b == a;
    } else {
      assert (a + b)[..|a + b| - 1] == a + b[..|b| - 1];
      RequestsAmongAppend(a, b[..|b| - 1]);
    }
  }

  lemma RequestsOfOne(c: Outgoing.Command)
    ensures c.Join? ==> RequestsAmong([c]) == [JoinReq(c.channel)]
    ensures c.Part? ==> RequestsAmong([c]) == [PartReq(c.channel)]
    ensures c.Nick? ==> RequestsAmong([c]) == [NickReq(c.nick)]
    ensures !(c.Join? || c.Part? || c.Nick?) ==> RequestsAmong([c]) == []
  {
    assert [c][..0] == [];
  }

  /** Nothing else sends a request, and none is lost: the requests are read off the outbox. */
  lemma {:induction false} RequestsOfCommands(rs: seq<Request>)
    ensures RequestsAmong(CommandsFor(rs)) == rs
    decreases |rs|
  {
    if |rs| > 0 {
      var n := |rs| - 1;
      RequestsOfCommands(rs[..n]);
      assert CommandsFor(rs)[..n] == CommandsFor(rs[..n]);
      assert rs == rs[..n] + [rs[n]];
    }
  }

  function SentIf(c: Outgoing.Command, ok: bool): seq<Outgoing.Command> { if ok then [c] else [] }

  // -------------------------------------------------------------------- the class

  class IRCServer {
    var chanMap: ChanMap
    var nickname: string
    var outbox: seq<Outgoing.Command>

    constructor (nick: string)
      ensures View() == Bot(map[], nick) && outbox == []
    {
      chanMap, nickname, outbox := map[], nick, [];
    }

    function View(): Bot
      reads this
    {
      Bot(chanMap, nickname)
    }

    /** The send of a command; `ok` is false when the socket reports an error. */
    method SendMsg(c: Outgoing.Command, ok: bool) returns (sent: bool)
      modifies this`outbox
      ensures sent == ok
      ensures outbox == old(outbox) + SentIf(c, ok)
    {
      if ok {
        outbox := outbox + [c];
      }
      return ok;
    }

    method JoinChannel(channel: string, ok: bool)
      modifies this
      ensures View() == AfterRequest(old(View()), JoinReq(channel), ok)
      ensures outbox == old(outbox) + CommandsFor(Sends(old(View()), JoinReq(channel), ok))
    {
      var found := channel in chanMap;
      var sent := SendMsg(CommandFor(JoinReq(channel)), ok);
      if !sent {
        return;
      }
      if !found {
        chanMap := chanMap[channel := JoinRequested];
      } else {
        chanMap := chanMap[channel := JoinRequested];
        return;
      }
    }

    method UpdateJoinChannel(channel: string)
      modifies this`chanMap
      ensures forall who :: View() == Deliver(old(View()), JoinLine(who, channel))
    {
      if channel in chanMap {
        if chanMap[channel] == JoinRequested {
          chanMap := chanMap[channel := Joined];
        }
      }
    }

    method UpdatePartChannel(channel: string)
      modifies this`chanMap
      ensures forall who :: View() == Deliver(old(View()), PartLine(who, channel))
    {
      if channel in chanMap {
        if chanMap[channel] == PartRequested {
          chanMap := chanMap - {channel};
        }
      }
    }

    method PartChannel(channel: string, ok: bool) returns (requested: bool)
      modifies this
      ensures View() == AfterRequest(old(View()), PartReq(channel), ok)
      ensures outbox == old(outbox) + CommandsFor(Sends(old(View()), PartReq(channel), ok))
      ensures requested <==> Sends(old(View()), PartReq(channel), ok) != []
    {
      if channel in chanMap {
        var sent := SendMsg(CommandFor(PartReq(channel)), ok);
        if !sent {
          return false;
        }
        chanMap := chanMap[channel := PartRequested];
        return true;
      } else {
        return false;
      }
    }

    method UpdateNickname(oldNick: string, newNick: string)
      modifies this`nickname
      ensures View() == Deliver(old(View()), NickLine(oldNick, newNick))
    {
      if oldNick == nickname {
        nickname := newNick;
      }
    }

    /** The name is passed on by address: what stands behind it in memory, up to a NUL, goes
        out with it. */
    method SetNickname(nick: string, behind: string, ok: bool)
      modifies this`outbox
      ensures View() == AfterRequest(old(View()), NickReq(CString(nick + behind)), ok)
      ensures outbox == old(outbox) + CommandsFor(Sends(old(View()), NickReq(CString(nick + behind)), ok))
    {
      var data := CString(nick + behind);
      var _ := SendMsg(CommandFor(NickReq(data)), ok);
    }
  }
}
