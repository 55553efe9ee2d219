/**
 IRC::RecvMsg of src/IRC.cc: up to six reads of at most 4096 bytes, until the
 data ends in a newline; an unfinished last line is dropped.
 */
module Receive {
  const CHUNK := 4096
  const TRIES := 5

  /** What one call of recv returns. */
  datatype Recv = Data(bytes: string) | Again | Failed | Closed

  /** recv stores at least one and at most CHUNK bytes. */
  predicate Legal(r: Recv) { r.Data? ==> 0 < |r.bytes| <= CHUNK }

  predicate EndsLine(s: string) { s != "" && s[|s| - 1] == '\n' }

  ghost predicate NoLineAfter(s: string, n: nat) {
    forall k :: n <= k < |s| ==> s[k] != '\n'
  }

  /** The longest prefix of `s` that is empty or ends in a newline. */
  function WholeLines(s: string): (r: string)
    ensures r <= s && (r == "" || EndsLine(r))
    ensures NoLineAfter(s, |r|)
  {
    if s == "" || EndsLine(s) then s else WholeLines(s[..|s| - 1])
  }

  /** No other prefix has these properties. */
  lemma WholeLinesUnique(s: string, p: string)
    requires p <= s && (p == "" || EndsLine(p)) && NoLineAfter(s, |p|)
    ensures p == WholeLines(s)
  {
    var r := WholeLines(s);
    assert p == s[..|p|] && r == s[..|r|];
  }

  /** The bytes of `n` reads, from result number `at` on. */
  function Received(results: nat -> Recv, at: nat, n: nat): string {
    if n == 0 then ""
    else Received(results, at, n - 1) + (if results(at + n - 1).Data? then results(at + n - 1).bytes else "")
  }

  /** After `n` reads, all of them with data, the loop wants one more. */
  ghost predicate Continues(results: nat -> Recv, at: nat, n: nat) {
    && (forall k :: at <= k < at + n ==> results(k).Data?)
    && (forall k :: 0 < k <= n ==> !EndsLine(Received(results, at, k)))
    && n <= TRIES
  }

  /** `n` is the number of reads of the call: one more than the last that left
      the loop wanting, and not left wanting itself. */
  ghost predicate ReadsMade(results: nat -> Recv, at: nat, n: nat) {
    0 < n && Continues(results, at, n - 1) && !Continues(results, at, n)
  }

  lemma {:induction false} ReceivedLength(results: nat -> Recv, at: nat, n: nat)
    requires forall k :: Legal(results(k))
    ensures |Received(results, at, n)| <= n * CHUNK
    ensures n > 0 && results(at).Data? ==> |Received(results, at, n)| > 0
  {
    if n > 0 {
      ReceivedLength(results, at, n - 1);
    }
  }

  function Resize(buf: string, n: nat): (r: string)
    ensures |r| == n
    ensures forall k :: 0 <= k < |buf| && k < n ==> r[k] == buf[k]
  {
    if n <= |buf| then buf[..n] else buf + seq(n - |buf|, _ => '\0')
  }

  /** The loop that gives up an unfinished last line. */
  method DropTail(buf: string, end: nat) returns (r: nat)
    requires 0 < end <= |buf|
    ensures r <= end && buf[..r] == WholeLines(buf[..end])
  {
    r := end;
    ghost var all := buf[..end];
    if buf[r - 1] != '\n' {
      r := r - 1;
      while r != 0 && buf[r - 1] != '\n'
        invariant r <= end
        invariant NoLineAfter(all, r)
      {
        r := r - 1;
      }
    }
    assert r > 0 ==> buf[..r][r - 1] == buf[r - 1];
    WholeLinesUnique(all, buf[..r]);
  }

  lemma ReceivedNext(results: nat -> Recv, at: nat, n: nat)
    ensures results(at + n).Data? ==> Received(results, at, n + 1) == Received(results, at, n) + results(at + n).bytes
    ensures !results(at + n).Data? ==> Received(results, at, n + 1) == Received(results, at, n)
  {
    assert Received(results, at, n) + "" == Received(results, at, n);
  }

  /** How one more read ends the loop or goes on. */
  lemma OneMoreRead(results: nat -> Recv, at: nat, n: nat)
    requires Continues(results, at, n)
    ensures !results(at + n).Data? ==> ReadsMade(results, at, n + 1)
    ensures results(at + n).Data? && (EndsLine(Received(results, at, n + 1)) || n == TRIES) ==> ReadsMade(results, at, n + 1)
    ensures results(at + n).Data? && !EndsLine(Received(results, at, n + 1)) && n < TRIES ==> Continues(results, at, n + 1)
  {
  }

  /** What a call of `n` reads returns: the whole lines of the bytes received; nothing after an
      error, an end of file or a first read without data. */
  function Returned(results: nat -> Recv, at: nat, n: nat): string
    requires n > 0
  {
    var last := results(at + n - 1);
    if last.Data? || (last.Again? && n > 1) then WholeLines(Received(results, at, n)) else ""
  }

  /** The receive loop, on a buffer that grows by CHUNK ahead of each read, with
      its cursor `r`. It returns the whole lines of what it read; an error, an end
      of file or a first read without data yields nothing. */
  method RecvMsg(results: nat -> Recv, at: nat) returns (msg: string, n: nat)
    requires forall k :: Legal(results(k))
    ensures ReadsMade(results, at, n) && n <= 6
    ensures |msg| <= 24576
    ensures msg == Returned(results, at, n)
    ensures var last := results(at + n - 1);
            if last.Failed? || last.Closed? || (last.Again? && n == 1) then msg == ""
            else msg <= Received(results, at, n) && (msg == "" || EndsLine(msg)) && NoLineAfter(Received(results, at, n), |msg|)
  {
    hide Received, Continues, ReadsMade;
    var buf := "";
    var r := 0;
    var tries: int := TRIES;
    n := 0;
    NothingReceived(results, at);
    while true
      invariant 0 <= tries && n == TRIES - tries
      invariant r <= |buf| && buf[..r] == Received(results, at, n)
      invariant Continues(results, at, n) && (n > 0 ==> r > 0)
      decreases tries
    {
      OneMoreRead(results, at, n);
      ReceivedNext(results, at, n);
      ReceivedLength(results, at, n + 1);
      ghost var got := buf[..r];
      buf := Resize(buf, r + CHUNK);
      assert buf[..r] == got;
      var p := results(at + n);
      n := n + 1;
      if p.Failed? || p.Closed? || (p.Again? && r == 0) {
        return "", n;
      }
      if p.Again? {
        break;
      }
      buf := buf[..r] + p.bytes + buf[r + |p.bytes|..];
      r := r + |p.bytes|;
      assert buf[..r] == got + p.bytes;
      assert buf[..r][r - 1] == buf[r - 1];
      if buf[r - 1] == '\n' || tries == 0 {
        break;
      }
      tries := tries - 1;
    }
    r := DropTail(buf, r);
    msg := Resize(buf, r);
    assert msg == buf[..r];
    ReturnedIs(results, at, n);
  }

  lemma NothingReceived(results: nat -> Recv, at: nat)
    ensures Received(results, at, 0) == "" && Continues(results, at, 0)
  {
  }

  /** The first `n` results have data, and none of them completes a line. */
  ghost predicate AllUnfinished(results: nat -> Recv, at: nat, n: nat) {
    && (forall k :: at <= k < at + n ==> results(k).Data?)
    && (forall k :: 0 < k <= n ==> !EndsLine(Received(results, at, k)))
  }

  /** When a call stops reading: after six reads, at a result without data, or when the data
      ends in a newline, and not before. */
  lemma ReadsMadeIff(results: nat -> Recv, at: nat, n: nat)
    ensures ReadsMade(results, at, n) <==>
            && 1 <= n <= 6 && AllUnfinished(results, at, n - 1)
            && (n == 6 || !results(at + n - 1).Data? || EndsLine(Received(results, at, n)))
  {
    hide Received, Continues, AllUnfinished;
    if 1 <= n {
      ContinuesNext(results, at, n - 1);
      ContinuesIs(results, at, n - 1);
    }
  }

  lemma ContinuesIs(results: nat -> Recv, at: nat, n: nat)
    ensures Continues(results, at, n) <==> AllUnfinished(results, at, n) && n <= 5
  {
    hide Received;
  }

  lemma ContinuesNext(results: nat -> Recv, at: nat, n: nat)
    ensures Continues(results, at, n + 1) <==>
            && Continues(results, at, n) && results(at + n).Data? && n < TRIES
            && !EndsLine(Received(results, at, n + 1))
  {
    hide Received;
  }

  /** What `Returned` says of the bytes received: all whole lines and no more, or nothing. */
  lemma ReturnedIs(results: nat -> Recv, at: nat, n: nat)
    requires n > 0
    ensures var msg, got, last := Returned(results, at, n), Received(results, at, n), results(at + n - 1);
            if last.Failed? || last.Closed? || (last.Again? && n == 1) then msg == ""
            else msg <= got && (msg == "" || EndsLine(msg)) && NoLineAfter(got, |msg|)
  {
  }

  /** Six full reads fill the largest message. */
  lemma LargestMessage(results: nat -> Recv, at: nat)
    requires forall k :: at <= k < at + 6 ==> results(k).Data? && |results(k).bytes| == 4096
    ensures (forall k :: at <= k < at + 6 ==> Legal(results(k))) && |Received(results, at, 6)| == 24576
  {
    hide Received;
    NothingReceived(results, at);
    ReceivedNext(results, at, 0);
    ReceivedNext(results, at, 1);
    ReceivedNext(results, at, 2);
    ReceivedNext(results, at, 3);
    ReceivedNext(results, at, 4);
    ReceivedNext(results, at, 5);
  }

  lemma WholeAndTail(whole: string, tail: string)
    requires EndsLine(whole) && tail != "" && NoLineAfter(tail, 0)
    ensures WholeLines(whole + tail) == whole && !EndsLine(whole + tail)
  {
    var s := whole + tail;
    assert s[|s| - 1] == tail[|tail| - 1];
    assert forall k :: |whole| <= k < |s| ==> s[k] == tail[k - |whole|];
    WholeLinesUnique(s, whole);
  }

  /** Complete lines in front of an unfinished one are kept, and it is dropped. */
  lemma UnfinishedLine(results: nat -> Recv, at: nat, whole: string, tail: string)
    requires EndsLine(whole) && tail != "" && NoLineAfter(tail, 0)
    requires results(at) == Data(whole + tail) && results(at + 1) == Again
    ensures ReadsMade(results, at, 2) && Returned(results, at, 2) == whole
  {
    hide Received, WholeLines, EndsLine, NoLineAfter;
    WholeAndTail(whole, tail);
    NothingReceived(results, at);
    ReceivedNext(results, at, 0);
    ReceivedNext(results, at, 1);
    assert "" + (whole + tail) == whole + tail;
    assert AllUnfinished(results, at, 1);
    ReadsMadeIff(results, at, 2);
  }

  /** A call returns all that it received exactly when its first read has no data, or the data
      ends in a newline: an unfinished line is dropped, and an error or an end of file behind
      data drops all of it. */
  lemma KeepsAll(results: nat -> Recv, at: nat, n: nat)
    requires (forall k :: Legal(results(k))) && ReadsMade(results, at, n)
    ensures Returned(results, at, n) == "" || EndsLine(Returned(results, at, n))
    ensures |Returned(results, at, n)| <= |Received(results, at, n)|
    ensures Returned(results, at, n) == Received(results, at, n) <==>
            !results(at).Data? || EndsLine(Received(results, at, n))
    ensures |Returned(results, at, n)| == |Received(results, at, n)| ==> Returned(results, at, n) == Received(results, at, n)
  {
    ReceivedLength(results, at, n);
    ReceivedNext(results, at, n - 1);
    if !results(at).Data? {
      assert n == 1;
    }
  }
}
