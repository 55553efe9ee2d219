/**
 A connection's life on the receiving side: RecvMsg called again and again on one stream of
 recv results, and what of the bytes that arrived gets to the worker.
 */
module Session {
  import opened Text
  import opened Receive
  import opened Framing
  import opened Dispatch
  import opened Worker

  ghost predicate AllLegal(results: nat -> Recv) { forall k :: Legal(results(k)) }

  /** Successive calls: `starts[k]` is the first result of call number k, and the last
      element is where the next call will start. */
  ghost predicate Calls(results: nat -> Recv, starts: seq<nat>) {
    && |starts| > 0
    && forall k :: 0 < k < |starts| ==> IsCall(results, starts[k - 1], starts[k])
  }

  ghost predicate IsCall(results: nat -> Recv, at: nat, next: nat) {
    at < next && ReadsMade(results, at, next - at)
  }

  /** What the first `n` calls return. */
  ghost function Messages(results: nat -> Recv, starts: seq<nat>, n: nat): seq<string>
    requires n < |starts| && Calls(results, starts)
  {
    if n == 0 then []
    else
      assert IsCall(results, starts[n - 1], starts[n]);
      Messages(results, starts, n - 1) + [Returned(results, starts[n - 1], starts[n] - starts[n - 1])]
  }

  /** All bytes that were received in the meantime. */
  ghost function Bytes(results: nat -> Recv, starts: seq<nat>, n: nat): string
    requires n < |starts| && Calls(results, starts)
  {
    if n == 0 then ""
    else
      assert IsCall(results, starts[n - 1], starts[n]);
      Bytes(results, starts, n - 1) + Received(results, starts[n - 1], starts[n] - starts[n - 1])
  }

  /** Call number `k` finds nothing, or data that ends in a newline. */
  ghost predicate FindsWholeLines(results: nat -> Recv, at: nat, next: nat)
    requires IsCall(results, at, next)
  {
    !results(at).Data? || EndsLine(Received(results, at, next - at))
  }

  ghost predicate NothingCut(results: nat -> Recv, starts: seq<nat>, n: nat)
    requires n < |starts| && Calls(results, starts)
  {
    forall k :: 0 < k <= n ==> IsCall(results, starts[k - 1], starts[k]) && FindsWholeLines(results, starts[k - 1], starts[k])
  }

  /** The reads that the worker looks at. */
  function Nonempty(chunks: seq<string>): seq<string> {
    if |chunks| == 0 then []
    else if chunks[0] == "" then Nonempty(chunks[1..])
    else [chunks[0]] + Nonempty(chunks[1..])
  }

  lemma {:induction false} NonemptyOneMore(chunks: seq<string>, c: string)
    ensures Nonempty(chunks + [c]) == if c == "" then Nonempty(chunks) else Nonempty(chunks) + [c]
  {
    if |chunks| == 0 {
      assert (chunks + [c])[1..] == [];
    } else {
      assert (chunks + [c])[1..] == chunks[1..] + [c];
      NonemptyOneMore(chunks[1..], c);
    }
  }

  lemma {:induction false} EmptyReadsDoNothing(chunks: seq<string>)
    ensures Handled(chunks) == Handled(Nonempty(chunks))
  {
    hide Lines, VerdictOf, Reached;
    if |chunks| > 0 {
      EmptyReadsDoNothing(chunks[1..]);
      NoLines();
      assert chunks[0] != "" ==> Nonempty(chunks)[1..] == Nonempty(chunks[1..]);
    }
  }

  lemma {:induction false} FlattenAppend(a: seq<string>, c: string)
    ensures Flatten(a + [c]) == Flatten(a) + c
  {
    if |a| == 0 {
      assert (a + [c])[1..] == [];
    } else {
      assert (a + [c])[1..] == a[1..] + [c];
      FlattenAppend(a[1..], c);
    }
  }

  ghost predicate AllEndLines(chunks: seq<string>) {
    forall k :: 0 <= k < |chunks| ==> EndsLine(chunks[k])
  }

  lemma AllEndLinesMore(chunks: seq<string>, c: string)
    requires AllEndLines(chunks) && EndsLine(c)
    ensures AllEndLines(chunks + [c])
  {
  }

  lemma CutNext(results: nat -> Recv, starts: seq<nat>, n: nat)
    requires 0 < n < |starts| && Calls(results, starts)
    ensures IsCall(results, starts[n - 1], starts[n])
    ensures NothingCut(results, starts, n) <==>
            NothingCut(results, starts, n - 1) && FindsWholeLines(results, starts[n - 1], starts[n])
  {
    hide ReadsMade, FindsWholeLines;
  }

  lemma {:induction false} SessionBytes(results: nat -> Recv, starts: seq<nat>, n: nat)
    requires AllLegal(results) && n < |starts| && Calls(results, starts)
    ensures var chunks := Nonempty(Messages(results, starts, n));
            && AllEndLines(chunks) && |Flatten(chunks)| <= |Bytes(results, starts, n)|
            && (Flatten(chunks) == Bytes(results, starts, n) <==> NothingCut(results, starts, n))
  {
    hide ReadsMade, Received, Returned, Calls, NothingCut, Nonempty;
    if n == 0 {
      NothingAtFirst(results, starts);
    } else {
      CutNext(results, starts, n);
      var at, count := starts[n - 1], starts[n] - starts[n - 1];
      var before, msg, got := Messages(results, starts, n - 1), Returned(results, at, count), Received(results, at, count);
      SessionBytes(results, starts, n - 1);
      KeepsAll(results, at, count);
      NonemptyOneMore(before, msg);
      var a, b := Flatten(Nonempty(before)), Bytes(results, starts, n - 1);
      FlattenAppend(Nonempty(before), msg);
      assert a + "" == a;
      if msg != "" {
        AllEndLinesMore(Nonempty(before), msg);
      }
      assert Flatten(Nonempty(before + [msg])) == a + msg;
      if a + msg == b + got {
        SameParts(a, b, msg, got);
      }
    }
  }

  lemma NothingAtFirst(results: nat -> Recv, starts: seq<nat>)
    requires 0 < |starts| && Calls(results, starts)
    ensures Nonempty([]) == [] && NothingCut(results, starts, 0)
  {
  }

  /** Over any number of calls, the messages that reach the worker are a cutting of all the
      bytes received, exactly when every call finds nothing or data that ends in a newline. */
  lemma SessionIsLossless(results: nat -> Recv, starts: seq<nat>)
    requires AllLegal(results) && Calls(results, starts)
    ensures var n := |starts| - 1;
            Cuts(Nonempty(Messages(results, starts, n)), Bytes(results, starts, n)) <==> NothingCut(results, starts, n)
  {
    SessionBytes(results, starts, |starts| - 1);
  }

  /** Then the worker handles the lines of all bytes received, up to one at which it can stop. */
  lemma SessionIsHandled(results: nat -> Recv, starts: seq<nat>, s: string) returns (m: nat)
    requires AllLegal(results) && Calls(results, starts)
    requires NothingCut(results, starts, |starts| - 1) && s == Bytes(results, starts, |starts| - 1) && '\0' !in s
    ensures CanStopAt(s, m) && m <= |Lines(s)|
    ensures Handled(Messages(results, starts, |starts| - 1)) == Lines(s)[..m]
  {
    hide Lines, Handled, Messages, Bytes, Nonempty, NothingCut, NoAbort, VerdictOf, ReadEndsAfter;
    SessionIsLossless(results, starts);
    var chunks := Messages(results, starts, |starts| - 1);
    EmptyReadsDoNothing(chunks);
    m := HandledOnce(s, Nonempty(chunks));
  }

  // ----------------------------------------------------- when the connection is closed

  lemma {:induction false} EmptyReadsChangeNothing(chunks: seq<string>, more: seq<string>)
    requires forall k :: 0 <= k < |more| ==> more[k] == ""
    ensures Handled(chunks + more) == Handled(chunks) && EndVerdict(chunks + more) == EndVerdict(chunks)
    decreases |chunks| + |more|
  {
    hide Lines, VerdictOf, Reached;
    if |chunks| > 0 {
      assert (chunks + more)[1..] == chunks[1..] + more;
      EmptyReadsChangeNothing(chunks[1..], more);
    } else if |more| > 0 {
      NoLines();
      assert chunks + more == more && [] + more[1..] == more[1..];
      EmptyReadsChangeNothing([], more[1..]);
    }
  }

  lemma SilentCall(results: nat -> Recv, at: nat, next: nat)
    requires IsCall(results, at, next) && !results(at).Data?
    ensures next == at + 1 && Returned(results, at, 1) == ""
  {
  }

  lemma {:induction false} SilentMessages(results: nat -> Recv, starts: seq<nat>, n: nat)
    requires n < |starts| && Calls(results, starts)
    requires forall k :: starts[0] <= k ==> !results(k).Data?
    ensures starts[n] == starts[0] + n
    ensures |Messages(results, starts, n)| == n
    ensures forall k :: 0 <= k < n ==> Messages(results, starts, n)[k] == ""
  {
    hide ReadsMade, Returned, Calls;
    if n > 0 {
      SilentMessages(results, starts, n - 1);
      CutNext(results, starts, n);
      SilentCall(results, starts[n - 1], starts[n]);
    }
  }

  /** Once the server has closed the connection, or the socket only fails, every call reads once
      and returns nothing: no further line is handled, and the worker stays as it was. A worker
      that was at work goes on for ever. */
  lemma ClosingEndsNothing(results: nat -> Recv, starts: seq<nat>, chunks: seq<string>)
    requires Calls(results, starts)
    requires forall k :: starts[0] <= k ==> results(k).Closed? || results(k).Failed?
    ensures var n := |starts| - 1;
            && starts[n] == starts[0] + n
            && Handled(chunks + Messages(results, starts, n)) == Handled(chunks)
            && EndVerdict(chunks + Messages(results, starts, n)) == EndVerdict(chunks)
  {
    hide Messages, Handled, EndVerdict, Calls;
    assert |starts| > 0 by { CallsStart(results, starts); }
    SilentMessages(results, starts, |starts| - 1);
    EmptyReadsChangeNothing(chunks, Messages(results, starts, |starts| - 1));
  }

  lemma CallsStart(results: nat -> Recv, starts: seq<nat>)
    requires Calls(results, starts)
    ensures |starts| > 0
  {
  }

  // ------------------------------------------------------------------ the calls

  lemma MessagesSame(results: nat -> Recv, starts: seq<nat>, next: nat, n: nat)
    requires n < |starts| && Calls(results, starts) && Calls(results, starts + [next])
    ensures Messages(results, starts + [next], n) == Messages(results, starts, n)
  {
    hide ReadsMade, Returned, IsCall;
    if n > 0 {
      MessagesSame(results, starts, next, n - 1);
    }
  }

  lemma NoCalls(results: nat -> Recv)
    ensures Calls(results, [0])
  {
  }

  lemma IsNextCall(results: nat -> Recv, at: nat, n: nat)
    requires ReadsMade(results, at, n)
    ensures IsCall(results, at, at + n)
  {
  }

  lemma CallsMore(results: nat -> Recv, starts: seq<nat>, next: nat)
    requires Calls(results, starts) && IsCall(results, starts[|starts| - 1], next)
    ensures Calls(results, starts + [next])
  {
    hide ReadsMade, IsCall;
  }

  /** The calls themselves. */
  method ReceiveAll(results: nat -> Recv, calls: nat) returns (ghost starts: seq<nat>, msgs: seq<string>)
    requires AllLegal(results)
    ensures |starts| == calls + 1 && starts[0] == 0 && Calls(results, starts)
    ensures msgs == Messages(results, starts, calls)
  {
    hide ReadsMade, Received, Calls;
    NoCalls(results);
    starts, msgs := [0], [];
    var at := 0;
    for i := 0 to calls
      invariant |starts| == i + 1 && starts[0] == 0 && starts[i] == at && Calls(results, starts)
      invariant msgs == Messages(results, starts, i)
    {
      var msg, n := RecvMsg(results, at);
      ghost var more := starts + [at + n];
      IsNextCall(results, at, n);
      CallsMore(results, starts, at + n);
      MessagesSame(results, starts, at + n, i);
      starts, at, msgs := more, at + n, msgs + [msg];
    }
  }
}
