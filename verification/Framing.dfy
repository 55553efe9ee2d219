/**
 Lines in the incoming byte stream: TokenizeMessageMultiple of src/Manager.cc, and how the
 stream is cut into reads.
 */
module Framing {
  import opened Text
  import opened Receive

  const EOL: set<char> := {'\r', '\n'}
  const NUL: set<char> := {'\0'}

  /** What C makes of a text: nothing behind a NUL is seen. */
  function CString(s: string): string { s[..Find(s, NUL, 0)] }

  /** The lines of a buffer. */
  function Lines(s: string): seq<string> { Fields(CString(s), EOL) }

  // -------------------------------------------------------------------- strtok_r

  /** strtok_r ends each line by writing a NUL over the separator that follows it. */
  function Marked(s: string, limit: nat, i: nat): char
    requires i < |s| && limit <= |s|
  {
    if 0 < i < limit && s[i] in EOL && s[i - 1] !in EOL then '\0' else s[i]
  }

  /** One call of strtok_r from `from`: the bounds of the next line, or None. The
      end of the C string is at `limit`. */
  datatype Span = None | Line(start: nat, end: nat)

  method NextToken(s: string, limit: nat, from: nat) returns (t: Span)
    requires from <= limit <= |s|
    ensures t.None? ==> Fields(s[from..limit], EOL) == [] && forall j :: from <= j < limit ==> s[j] in EOL
    ensures t.Line? ==>
      && from <= t.start < t.end <= limit
      && (forall j :: from <= j < t.start ==> s[j] in EOL)
      && (forall j :: t.start <= j < t.end ==> s[j] !in EOL)
      && (t.end < limit ==> s[t.end] in EOL)
      && Fields(s[from..limit], EOL) == [s[t.start..t.end]] + Fields(s[t.end..limit], EOL)
  {
    var i := from;
    while i < limit && s[i] in EOL
      invariant from <= i <= limit
      invariant forall j :: from <= j < i ==> s[j] in EOL
      invariant Fields(s[i..limit], EOL) == Fields(s[from..limit], EOL)
    {
      assert s[i..limit][1..] == s[i + 1..limit];
      i := i + 1;
    }
    if i == limit {
      assert s[i..limit] == "";
      return None;
    }
    var e := i;
    while e < limit && s[e] !in EOL
      invariant i <= e <= limit
      invariant forall j :: i <= j < e ==> s[j] !in EOL
    {
      e := e + 1;
    }
    ghost var u := s[i..limit];
    assert IsFirst(u, EOL, 0, e - i);
    assert u[..e - i] == s[i..e] && u[e - i..] == s[e..limit];
    return Line(i, e);
  }

  /** The part before `p` is marked, the part from `p` on is as it was. */
  ghost predicate MarkedUpTo(now: string, s: string, limit: nat, p: nat)
    requires p <= limit <= |s|
  {
    && |now| == |s|
    && (forall j :: 0 <= j < p ==> now[j] == Marked(s, limit, j))
    && (forall j :: p <= j < |s| ==> now[j] == s[j])
    && (p == 0 || p == limit || s[p - 1] in EOL)
  }

  /** The effect of one call on the buffer. */
  lemma MarkNext(now: string, s: string, limit: nat, p: nat, t: Span)
    requires p <= limit <= |s| && MarkedUpTo(now, s, limit, p)
    requires t.Line? && p <= t.start < t.end <= limit
    requires forall j :: p <= j < t.start ==> s[j] in EOL
    requires forall j :: t.start <= j < t.end ==> s[j] !in EOL
    requires t.end < limit ==> s[t.end] in EOL
    ensures t.end == limit ==> MarkedUpTo(now, s, limit, limit)
    ensures t.end < limit ==> MarkedUpTo(now[t.end := '\0'], s, limit, t.end + 1)
  {
  }

  /** The splitter: it returns the lines, and leaves in the buffer a NUL behind
      each line that has something behind it. */
  method TokenizeMessageMultiple(msg: array<char>) returns (ret: seq<string>)
    modifies msg
    ensures ret == Lines(old(msg[..]))
    ensures forall i :: 0 <= i < msg.Length ==>
              msg[i] == Marked(old(msg[..]), Find(old(msg[..]), NUL, 0), i)
  {
    hide Fields;
    ret := [];
    ghost var s := msg[..];
    var limit := Find(msg[..], NUL, 0);
    var p := 0;
    assert s[..limit] == s[0..limit];
    while true
      invariant p <= limit <= |s|
      invariant MarkedUpTo(msg[..], s, limit, p)
      invariant Fields(s[..limit], EOL) == ret + Fields(s[p..limit], EOL)
      decreases limit - p
    {
      assert msg[..][p..limit] == s[p..limit];
      var t := NextToken(msg[..], limit, p);
      if t.None? {
        break;
      }
      MarkNext(msg[..], s, limit, p, t);
      ghost var line, more := s[t.start..t.end], Fields(s[t.end..limit], EOL);
      assert msg[..][t.start..t.end] == line && msg[..][t.end..limit] == s[t.end..limit];
      assert ret + ([line] + more) == (ret + [line]) + more;
      ret := ret + [msg[..][t.start..t.end]];
      p := t.end;
      if p < limit {
        ghost var now := msg[..];
        msg[p] := '\0';
        assert msg[..] == now[p := '\0'];
        SkipFirst(s[p..limit]);
        assert s[p..limit][1..] == s[p + 1..limit];
        p := p + 1;
      }
    }
  }

  lemma SkipFirst(s: string)
    requires s != "" && s[0] in EOL
    ensures Fields(s, EOL) == Fields(s[1..], EOL)
  {
  }

  /** A line with its CR LF in front of more text. */
  lemma FieldsOfTerminated(t: string, rest: string)
    requires Token(t, EOL)
    ensures Fields(t + "\r\n" + rest, EOL) == [t] + Fields(rest, EOL)
  {
    hide Fields;
    var s := t + "\r\n" + rest;
    assert s == t + ['\r'] + ("\n" + rest);
    FieldsCut(t, '\r', "\n" + rest, EOL);
    FieldsOfToken(t, EOL);
    SkipFirst("\n" + rest);
    assert ("\n" + rest)[1..] == rest;
  }

  lemma LinesWithoutNul(s: string)
    requires '\0' !in s
    ensures Lines(s) == Fields(s, EOL)
  {
    assert IsFirst(s, NUL, 0, |s|);
    assert s[..|s|] == s;
  }

  // ------------------------------------------------- how the stream is cut into reads

  /** `chunks` is a way to receive `s` in which no read drops an unfinished line. */
  ghost predicate Cuts(chunks: seq<string>, s: string) {
    (forall k :: 0 <= k < |chunks| ==> EndsLine(chunks[k])) && Flatten(chunks) == s
  }

  function LinesOfEach(chunks: seq<string>): seq<seq<string>> {
    seq(|chunks|, i requires 0 <= i < |chunks| => Lines(chunks[i]))
  }

  lemma LinesAppend(a: string, b: string)
    requires a == "" || EndsLine(a)
    requires '\0' !in a + b
    ensures Lines(a + b) == Lines(a) + Lines(b)
  {
    assert forall j :: 0 <= j < |a| ==> a[j] == (a + b)[j];
    assert forall j :: 0 <= j < |b| ==> b[j] == (a + b)[|a| + j];
    LinesWithoutNul(a);
    LinesWithoutNul(b);
    LinesWithoutNul(a + b);
    FieldsAppend(a, b, EOL);
  }

  /** The lines do not depend on the cutting. */
  lemma {:induction false} LinesOfCuts(chunks: seq<string>, s: string)
    requires Cuts(chunks, s) && '\0' !in s
    ensures Flatten(LinesOfEach(chunks)) == Lines(s)
  {
    if |chunks| == 0 {
      LinesWithoutNul(s);
    } else {
      var a, more := chunks[0], chunks[1..];
      LinesAppend(a, Flatten(more));
      assert forall j :: 0 <= j < |Flatten(more)| ==> Flatten(more)[j] == s[|a| + j];
      LinesOfCuts(more, Flatten(more));
      assert LinesOfEach(chunks)[1..] == LinesOfEach(more);
    }
  }

  /** A line has no NUL, CR or LF: each is a stretch of the text in front of the first NUL. */
  lemma LinesAreClean(s: string, k: nat)
    requires k < |Lines(s)|
    ensures Token(Lines(s)[k], EOL + NUL)
    ensures exists i: nat, j: nat :: i <= j <= |s| && Lines(s)[k] == s[i..j]
  {
    var n := Find(s, NUL, 0);
    FieldsAreTheRuns(s[..n], EOL);
    var (i, j) := Spans(s[..n], EOL, 0)[k];
    assert s[..n][i..j] == s[i..j];
  }

  /** The buffer after the split. */
  function MarkedBuffer(s: string): string {
    seq(|s|, i requires 0 <= i < |s| => Marked(s, Find(s, NUL, 0), i))
  }

  /** The lines are found in the buffer as C strings, each where it stood, and nothing but
      separators has been written over. */
  lemma BufferHoldsLines(s: string, k: nat)
    requires k < |Lines(s)|
    ensures var p := Spans(CString(s), EOL, 0);
            && k < |p| && p[k].0 <= |s|
            && CString(MarkedBuffer(s)[p[k].0..]) == Lines(s)[k]
    ensures forall i :: 0 <= i < |s| && MarkedBuffer(s)[i] != s[i] ==> s[i] in EOL && MarkedBuffer(s)[i] == '\0'
  {
    hide Spans, Fields;
    var t, limit := CString(s), Find(s, NUL, 0);
    FieldsAreTheRuns(t, EOL);
    var (i, j) := Spans(t, EOL, 0)[k];
    assert IsRun(t, EOL, i, j);
    var b := MarkedBuffer(s);
    assert forall q :: i <= q < j ==> t[q] == s[q];
    assert forall q :: i <= q < j ==> b[q] == s[q];
    var u := b[i..];
    assert forall q :: 0 <= q < j - i ==> u[q] == s[i + q];
    assert j < |s| ==> u[j - i] == b[j] && b[j] == '\0';
    assert IsFirst(u, NUL, 0, j - i);
    assert u[..j - i] == t[i..j];
  }
}
