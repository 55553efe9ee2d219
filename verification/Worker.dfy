/**
 The worker loop of src/Manager.cc: reads, split into lines, each handled on the server
 object, until a read ends in a quit.
 */
module Worker {
  import opened Text
  import opened Receive
  import opened Framing
  import opened Command
  import opened Message
  import opened Server
  import opened UserCommand
  import opened Dispatch
  import Outgoing

  // -------------------------------------------------------------------------- one read

  /** How many lines of a read are handled: all of them, unless one fails an assertion. */
  function Reached(ls: seq<string>): (n: nat)
    ensures n <= |ls| && (ls != [] ==> n > 0)
  {
    hide VerdictOf;
    if |ls| == 0 then 0
    else if VerdictOf(ls[0]) == Abort then 1
    else 1 + Reached(ls[1..])
  }

  ghost predicate NoAbort(ls: seq<string>, n: int) {
    forall k :: 0 <= k < n && k < |ls| ==> VerdictOf(ls[k]) != Abort
  }

  ghost predicate AbortsAt(ls: seq<string>, n: nat) {
    0 < n <= |ls| && VerdictOf(ls[n - 1]) == Abort
  }

  lemma {:induction false} ReachedIs(ls: seq<string>, n: nat)
    requires n <= |ls| && (ls != [] ==> n > 0)
    ensures n == Reached(ls) <==> NoAbort(ls, n - 1) && (n == |ls| || AbortsAt(ls, n))
    decreases |ls|
  {
    hide VerdictOf;
    if |ls| > 1 {
      var more := ls[1..];
      if n > 1 {
        ReachedIs(more, n - 1);
        assert NoAbort(ls, n - 1) <==> VerdictOf(ls[0]) != Abort && NoAbort(more, n - 2) by {
          assert forall k :: 0 <= k < |more| ==> more[k] == ls[k + 1];
        }
      }
    }
  }

  /** What the loop goes by: the verdict of the last line handled. A quit earlier in a read
      is forgotten, since each line overwrites the verdict of the one before. */
  function ReadVerdict(ls: seq<string>): Verdict {
    if ls == [] then Continue else VerdictOf(ls[Reached(ls) - 1])
  }

  /** The lines the worker handles, given what its reads return. */
  function Handled(chunks: seq<string>): seq<string> {
    if |chunks| == 0 then []
    else
      var ls := Lines(chunks[0]);
      if ReadVerdict(ls) == Continue then ls + Handled(chunks[1..]) else ls[..Reached(ls)]
  }

  /** How the worker stands after its reads: at work as long as that is `Continue`. */
  function EndVerdict(chunks: seq<string>): Verdict {
    if |chunks| == 0 then Continue
    else
      var v := ReadVerdict(Lines(chunks[0]));
      if v == Continue then EndVerdict(chunks[1..]) else v
  }

  /** What a sequence of lines does; the sends for line number k go as `env(k)` says. */
  function ProcessAll(b: Bot, lines: seq<string>, env: nat -> Env): Effect
    decreases |lines|
  {
    if |lines| == 0 then Effect(b, [])
    else
      var n := |lines| - 1;
      var before := ProcessAll(b, lines[..n], env);
      var last := Process(before.bot, lines[n], env(n));
      Effect(last.bot, before.sent + last.sent)
  }

  lemma {:induction false} ProcessOneMore(b: Bot, lines: seq<string>, line: string, env: nat -> Env)
    ensures var before := ProcessAll(b, lines, env);
            var last := Process(before.bot, line, env(|lines|));
            ProcessAll(b, lines + [line], env) == Effect(last.bot, before.sent + last.sent)
  {
    assert (lines + [line])[..|lines|] == lines;
  }

  /** The server object stands where the lines handled so far have taken it. */
  ghost predicate Follows(server: IRCServer, b: Bot, out: seq<Outgoing.Command>, done: seq<string>, env: nat -> Env)
    reads server
  {
    && server.View() == ProcessAll(b, done, env).bot
    && server.outbox == out + ProcessAll(b, done, env).sent
  }

  method HandleLine(server: IRCServer, line: string, env: nat -> Env, k: nat,
                    ghost b: Bot, ghost out: seq<Outgoing.Command>, ghost done: seq<string>)
    returns (v: Verdict)
    requires k == |done| && Follows(server, b, out, done, env)
    modifies server
    ensures Follows(server, b, out, done + [line], env)
    ensures v == VerdictOf(line)
  {
    hide Process, VerdictOf;
    ProcessOneMore(b, done, line, env);
    v := ProcessMessageLine(server, line, env(k));
  }

  /** The callback of the worker: one read, split in place and handled line by line. */
  method HandleRead(server: IRCServer, msg: string, env: nat -> Env, k: nat,
                    ghost b: Bot, ghost out: seq<Outgoing.Command>, ghost done: seq<string>)
    returns (handled: seq<string>, v: Verdict)
    requires k == |done| && Follows(server, b, out, done, env)
    modifies server
    ensures handled == Lines(msg)[..Reached(Lines(msg))]
    ensures v == ReadVerdict(Lines(msg))
    ensures Follows(server, b, out, done + handled, env)
  {
    hide VerdictOf, Lines, Follows;
    handled, v := [], Continue;
    assert done + [] == done;
    if msg == "" {
      NoLines();
      return;
    }
    var buf := new char[|msg|](i requires 0 <= i < |msg| => msg[i]);
    assert buf[..] == msg;
    var tok := TokenizeMessageMultiple(buf);
    for i := 0 to |tok|
      invariant handled == tok[..i]
      invariant forall j :: 0 <= j < i ==> VerdictOf(tok[j]) != Abort
      invariant v == if i == 0 then Continue else VerdictOf(tok[i - 1])
      invariant Follows(server, b, out, done + handled, env)
    {
      v := HandleLine(server, tok[i], env, k + i, b, out, done + handled);
      assert done + (handled + [tok[i]]) == (done + handled) + [tok[i]];
      handled := handled + [tok[i]];
      if v == Abort {
        ReachedIs(tok, i + 1);
        return;
      }
    }
    assert tok[..|tok|] == tok;
    ReachedIs(tok, |tok|);
  }

  lemma NoLines()
    ensures Lines("") == []
  {
  }

  // -------------------------------------------------------------------------- the loop

  /** One call of RunEventLoop: it fails, or the socket is readable and is read. */
  datatype Turn = LoopFails | Readable(msg: string)

  function ReadsBefore(turns: seq<Turn>): seq<string> {
    if |turns| == 0 || turns[0].LoopFails? then [] else [turns[0].msg] + ReadsBefore(turns[1..])
  }

  lemma HandledNext(turns: seq<Turn>, n: nat)
    requires n < |turns|
    ensures turns[n].LoopFails? ==>
              Handled(ReadsBefore(turns[n..])) == [] && EndVerdict(ReadsBefore(turns[n..])) == Continue
    ensures turns[n].Readable? ==>
              var ls := Lines(turns[n].msg);
              && (ReadVerdict(ls) == Continue ==>
                    && Handled(ReadsBefore(turns[n..])) == ls + Handled(ReadsBefore(turns[n + 1..]))
                    && EndVerdict(ReadsBefore(turns[n..])) == EndVerdict(ReadsBefore(turns[n + 1..])))
              && (ReadVerdict(ls) != Continue ==>
                    && Handled(ReadsBefore(turns[n..])) == ls[..Reached(ls)]
                    && EndVerdict(ReadsBefore(turns[n..])) == ReadVerdict(ls))
  {
    hide Lines, ReadVerdict, Reached;
    assert turns[n..][1..] == turns[n + 1..];
    var rs := ReadsBefore(turns[n..]);
    if turns[n].Readable? {
      assert rs[1..] == ReadsBefore(turns[n + 1..]);
    }
  }

  lemma ContinuesAtEnd(ls: seq<string>)
    requires ReadVerdict(ls) == Continue
    ensures ls[..Reached(ls)] == ls
  {
    hide VerdictOf;
    ReachedIs(ls, Reached(ls));
  }

  /** The worker on the server object: it handles the lines of its reads, up to a failure of
      the event loop, a failed assertion, or a read whose last line is a quit. */
  method WorkerRun(server: IRCServer, turns: seq<Turn>, env: nat -> Env) 
    returns (handled: seq<string>, v: Verdict)
    modifies server
    ensures handled == Handled(ReadsBefore(turns)) && v == EndVerdict(ReadsBefore(turns))
    ensures server.View() == ProcessAll(old(server.View()), handled, env).bot
    ensures server.outbox == old(server.outbox) + ProcessAll(old(server.View()), handled, env).sent
  {
    hide Lines, Handled, EndVerdict, ReadsBefore, ReadVerdict, VerdictOf, Reached, Process;
    ghost var b, out := server.View(), server.outbox;
    handled, v := [], Continue;
    var n := 0;
    assert turns[0..] == turns;
    assert turns[|turns|..] == [];
    NothingHandled();
    while v == Continue && n < |turns|
      invariant n <= |turns|
      invariant Follows(server, b, out, handled, env)
      invariant v == Continue ==> Handled(ReadsBefore(turns)) == handled + Handled(ReadsBefore(turns[n..]))
      invariant v == Continue ==> EndVerdict(ReadsBefore(turns)) == EndVerdict(ReadsBefore(turns[n..]))
      invariant v != Continue ==> Handled(ReadsBefore(turns)) == handled && EndVerdict(ReadsBefore(turns)) == v
      decreases |turns| - n
    {
      HandledNext(turns, n);
      if turns[n].LoopFails? {
        break;
      }
      var ls;
      ls, v := HandleRead(server, turns[n].msg, env, |handled|, b, out, handled);
      if v == Continue {
        ContinuesAtEnd(Lines(turns[n].msg));
        assert (handled + ls) + Handled(ReadsBefore(turns[n + 1..])) == handled + (ls + Handled(ReadsBefore(turns[n + 1..])));
      }
      handled := handled + ls;
      n := n + 1;
    }
  }

  lemma NothingHandled()
    ensures Handled([]) == [] && EndVerdict([]) == Continue && ReadsBefore([]) == []
  {
  }

  // ------------------------------------------------------------- how the reads are cut

  /** A read can end behind line number `m`, counted from 1. */
  ghost predicate ReadEndsAfter(s: string, m: nat) {
    exists n: nat :: n <= |s| && EndsLine(s[..n]) && |Lines(s[..n])| == m
  }

  /** The worker can be through with the stream after `m` lines: at its end, at a failed
      assertion, or at a quit that a read can end with. */
  ghost predicate CanStopAt(s: string, m: nat) {
    var ls := Lines(s);
    && m <= |ls| && NoAbort(ls, m - 1)
    && (|| m == |ls|
        || AbortsAt(ls, m)
        || (m > 0 && VerdictOf(ls[m - 1]) == Stop && ReadEndsAfter(s, m)))
  }

  lemma ReadStops(p: seq<string>, a: seq<string>, r: seq<string>)
    requires NoAbort(p, |p|)
    ensures NoAbort(p + a + r, |p| + Reached(a) - 1)
    ensures ReadVerdict(a) == Continue ==> NoAbort(p + a, |p + a|)
    ensures ReadVerdict(a) != Continue ==> a != [] && (p + a + r)[|p| + Reached(a) - 1] == a[Reached(a) - 1]
    ensures ReadVerdict(a) == Stop ==> Reached(a) == |a|
  {
    hide VerdictOf;
    ReachedIs(a, Reached(a));
  }

  /** A read that is taken off what is left of the stream. */
  lemma ReadOff(s: string, done: nat, a: string, rest: string)
    requires done <= |s| && (done == 0 || EndsLine(s[..done])) && '\0' !in s
    requires s[done..] == a + rest && EndsLine(a)
    ensures var n := done + |a|;
            && n <= |s| && s[n..] == rest && EndsLine(s[..n])
            && Lines(s[..n]) == Lines(s[..done]) + Lines(a)
            && Lines(s) == Lines(s[..done]) + Lines(a) + Lines(rest)
  {
    hide Lines;
    var n := done + |a|;
    assert s[done..][..|a|] == a && s[done..][|a|..] == rest;
    assert s[..n] == s[..done] + a && s == s[..n] + rest;
    LinesAppend(s[..done], a);
    assert s[..n][n - 1] == a[|a| - 1];
    LinesAppend(s[..n], rest);
  }

  /** A read that ends the worker. */
  lemma StopHere(s: string, n: nat, p: seq<string>, ls: seq<string>, r: seq<string>)
    requires n <= |s| && EndsLine(s[..n]) && Lines(s[..n]) == p + ls && Lines(s) == p + ls + r
    requires NoAbort(p, |p|) && ReadVerdict(ls) != Continue
    ensures CanStopAt(s, |p| + Reached(ls))
    ensures Lines(s)[|p|..|p| + Reached(ls)] == ls[..Reached(ls)]
  {
    hide VerdictOf, Lines, ReadVerdict, Reached, NoAbort;
    ReadStops(p, ls, r);
    ReadVerdictIs(ls);
    assert |Lines(s[..n])| == |p + ls|;
  }

  lemma StopAtEnd(s: string)
    requires NoAbort(Lines(s), |Lines(s)|)
    ensures CanStopAt(s, |Lines(s)|)
  {
    hide VerdictOf, Lines, NoAbort;
    NoAbortBefore(Lines(s));
  }

  lemma StopsInside(s: string, m: nat)
    requires CanStopAt(s, m)
    ensures m <= |Lines(s)|
  {
    hide VerdictOf, Lines, NoAbort;
  }

  lemma MiddleAndRest(p: seq<string>, ls: seq<string>, r: seq<string>, m: nat)
    requires |p + ls| <= m <= |p + ls + r|
    ensures (p + ls + r)[|p|..m] == ls + (p + ls + r)[|p + ls|..m]
  {
  }

  lemma {:induction false} HandledStops(s: string, done: nat, chunks: seq<string>) returns (m: nat)
    requires done <= |s| && (done == 0 || EndsLine(s[..done])) && '\0' !in s
    requires Cuts(chunks, s[done..]) && NoAbort(Lines(s[..done]), |Lines(s[..done])|)
    ensures CanStopAt(s, m) && |Lines(s[..done])| <= m
    ensures Handled(chunks) == Lines(s)[|Lines(s[..done])|..m]
    decreases |chunks|
  {
    hide VerdictOf, Lines, ReadVerdict, Reached, NoAbort, CanStopAt;
    var p := Lines(s[..done]);
    if |chunks| == 0 {
      assert s[..done] == s;
      m := |p|;
      StopAtEnd(s);
    } else {
      var a, rest := chunks[0], Flatten(chunks[1..]);
      var n := done + |a|;
      ReadOff(s, done, a, rest);
      var ls := Lines(a);
      ReadStops(p, ls, Lines(rest));
      if ReadVerdict(ls) == Continue {
        m := HandledStops(s, n, chunks[1..]);
        StopsInside(s, m);
        MiddleAndRest(p, ls, Lines(rest), m);
      } else {
        m := |p| + Reached(ls);
        StopHere(s, n, p, ls, Lines(rest));
      }
    }
  }

  lemma NoAbortBefore(ls: seq<string>)
    requires NoAbort(ls, |ls|)
    ensures NoAbort(ls, |ls| - 1)
  {
    hide VerdictOf;
  }

  lemma ReadVerdictIs(ls: seq<string>)
    requires ReadVerdict(ls) != Continue
    ensures 0 < Reached(ls) <= |ls| && ReadVerdict(ls) == VerdictOf(ls[Reached(ls) - 1])
  {
    hide VerdictOf, Reached;
  }

  lemma OneRead(s: string, m: nat)
    requires EndsLine(s) && m <= |Lines(s)| && NoAbort(Lines(s), m - 1)
    requires m == |Lines(s)| || AbortsAt(Lines(s), m)
    ensures Cuts([s], s) && Handled([s]) == Lines(s)[..m]
  {
    hide VerdictOf, Lines;
    var chunks := [s];
    assert chunks[1..] == [];
    assert Flatten(chunks) == s + Flatten([]) == s;
    ReachedIs(Lines(s), m);
    assert Handled([]) == [];
    assert Lines(s) + [] == Lines(s);
  }

  ghost predicate EndsInQuit(ls: seq<string>) {
    ls != [] && NoAbort(ls, |ls|) && VerdictOf(ls[|ls| - 1]) == Stop
  }

  lemma TwoReads(s: string, n: nat)
    requires EndsLine(s) && '\0' !in s && n < |s| && EndsLine(s[..n]) && EndsInQuit(Lines(s[..n]))
    ensures Cuts([s[..n], s[n..]], s) && Handled([s[..n], s[n..]]) == Lines(s[..n])
  {
    hide VerdictOf, Lines, Handled, Reached;
    var a, b := s[..n], s[n..];
    assert s == a + b && b[|b| - 1] == s[|s| - 1];
    var chunks := [a, b];
    assert chunks[1..] == [b] && chunks[1..][1..] == [];
    assert Flatten([b]) == b + Flatten([]) == b;
    LinesAppend(a, b);
    ReachedIs(Lines(a), |Lines(a)|);
    StopsFirst(chunks);
  }

  lemma StopsFirst(chunks: seq<string>)
    requires chunks != [] && ReadVerdict(Lines(chunks[0])) != Continue
    ensures Handled(chunks) == Lines(chunks[0])[..Reached(Lines(chunks[0]))]
  {
    hide ReadVerdict, Lines, Reached;
  }

  lemma CutFor(s: string, m: nat) returns (chunks: seq<string>)
    requires (s == "" || EndsLine(s)) && '\0' !in s && CanStopAt(s, m)
    ensures Cuts(chunks, s) && Handled(chunks) == Lines(s)[..m]
  {
    hide VerdictOf, Lines, Handled, Reached, ReadVerdict;
    if s == "" {
      NoLines();
      NothingHandled();
      return [];
    }
    var ls := Lines(s);
    if m == |ls| || AbortsAt(ls, m) {
      OneRead(s, m);
      return [s];
    }
    assert s[..|s|] == s;
    var n: nat :| n <= |s| && EndsLine(s[..n]) && |Lines(s[..n])| == m;
    var a, b := s[..n], s[n..];
    assert s == a + b;
    LinesAppend(a, b);
    assert forall k :: 0 <= k < m ==> Lines(a)[k] == ls[k];
    TwoReads(s, n);
    return [a, b];
  }

  /** The lines handled, over all ways to receive a stream without loss: exactly the
      beginnings of its lines at which the worker can stop. */
  lemma HandledOutcomes(s: string, handled: seq<string>)
    requires (s == "" || EndsLine(s)) && '\0' !in s
    ensures (exists chunks :: Cuts(chunks, s) && Handled(chunks) == handled)
       <==> (exists m: nat :: CanStopAt(s, m) && handled == Lines(s)[..m])
  {
    hide Handled, Lines, NoAbort, VerdictOf, ReadEndsAfter;
    if chunks :| Cuts(chunks, s) && Handled(chunks) == handled {
      var m := HandledOnce(s, chunks);
    }
    if m: nat :| CanStopAt(s, m) && handled == Lines(s)[..m] {
      var chunks := CutFor(s, m);
    }
  }

  lemma HandledOnce(s: string, chunks: seq<string>) returns (m: nat)
    requires '\0' !in s && Cuts(chunks, s)
    ensures CanStopAt(s, m) && m <= |Lines(s)| && Handled(chunks) == Lines(s)[..m]
  {
    hide Handled, VerdictOf;
    assert s[0..] == s && s[..0] == "";
    NoLines();
    m := HandledStops(s, 0, chunks);
    assert Lines(s)[0..m] == Lines(s)[..m];
  }

  /** Every way of receiving a stream without loss leads to all its lines being handled,
      exactly when no line in front of others fails an assertion, or is a quit that a read
      can end with. */
  lemma ChunkingIndependence(s: string)
    requires (s == "" || EndsLine(s)) && '\0' !in s
    ensures (forall chunks :: Cuts(chunks, s) ==> Handled(chunks) == Lines(s))
       <==> (forall m: nat :: m < |Lines(s)| ==> !CanStopAt(s, m))
  {
    hide CanStopAt, Handled, Lines;
    if forall m: nat :: m < |Lines(s)| ==> !CanStopAt(s, m) {
      forall chunks | Cuts(chunks, s) ensures Handled(chunks) == Lines(s) {
        var m := HandledOnce(s, chunks);
        assert Lines(s)[..|Lines(s)|] == Lines(s);
      }
    }
    if m: nat :| m < |Lines(s)| && CanStopAt(s, m) {
      var chunks := CutFor(s, m);
    }
  }

  function AllLines(chunks: seq<string>): seq<string> {
    if |chunks| == 0 then [] else Lines(chunks[0]) + AllLines(chunks[1..])
  }

  /** How the worker ends: as long as it is at work, it has handled every line of every read; and
      when it ends, the last line it handled told it to. */
  lemma {:induction false} EndVerdictIs(chunks: seq<string>)
    ensures EndVerdict(chunks) == Continue ==> Handled(chunks) == AllLines(chunks)
    ensures EndVerdict(chunks) != Continue ==>
              Handled(chunks) != [] && VerdictOf(Handled(chunks)[|Handled(chunks)| - 1]) == EndVerdict(chunks)
  {
    hide Lines, VerdictOf, Reached, ReadVerdict;
    if |chunks| > 0 {
      EndVerdictIs(chunks[1..]);
      if ReadVerdict(Lines(chunks[0])) != Continue {
        ReadVerdictIs(Lines(chunks[0]));
      }
    }
  }

  /** For every line the worker sees, the packed switch is string comparison. */
  lemma WorkerSwitchIsStringComparison(s: string, k: nat, m: IRCMessage)
    requires IsBytes(s) && k < |Lines(s)| && Parse(Lines(s)[k], DEFAULT) == Ok(m)
    ensures GetMessageType(m.command) == TypeByName(m.command)
  {
    hide Parse, Lines, GetMessageType, TypeByName;
    LinesAreClean(s, k);
    SwitchIsStringComparison(Lines(s)[k], m);
  }
}
