/**
 The tag text of a message and its key/value list (src/IRC.hh, the first loop of
 the constructor): when each determines the other.
 */
module Tags {
  import opened Text
  import opened Message

  function RenderPair(p: Tag): string { p.key + "=" + p.val }

  function RenderTags(kv: seq<Tag>): string {
    if |kv| == 0 then ""
    else if |kv| == 1 then RenderPair(kv[0])
    else RenderPair(kv[0]) + ";" + RenderTags(kv[1..])
  }

  lemma {:induction false} RenderNone(kv: seq<Tag>)
    requires kv == []
    ensures RenderTags(kv) == ""
  {
  }

  lemma {:induction false} TagKvNone(t: string, prev: nat)
    requires prev <= |t|
    ensures TagKvFrom(t, prev) == [] <==> Find(t, EQUALS, prev) == |t|
  {
  }

  lemma {:induction false} RenderCons(p: Tag, more: seq<Tag>)
    ensures more == [] ==> RenderTags([p] + more) == RenderPair(p)
    ensures more != [] ==> RenderTags([p] + more) == RenderPair(p) + ";" + RenderTags(more)
  {
    assert ([p] + more)[1..] == more;
  }

  /** A value may contain '=', and a key may contain ';'. */
  predicate CleanPair(p: Tag) { '=' !in p.key && ';' !in p.val }

  ghost predicate Clean(kv: seq<Tag>) {
    forall k :: 0 <= k < |kv| ==> CleanPair(kv[k])
  }

  /** The loop only ever collects clean pairs. */
  lemma {:induction false} CollectedPairsAreClean(t: string, prev: nat)
    requires prev <= |t|
    ensures Clean(TagKvFrom(t, prev))
    decreases |t| - prev
  {
    var e := Find(t, EQUALS, prev);
    if e < |t| {
      var sc := Find(t, SEMICOLON, e + 1);
      NotInSlice(t, '=', prev, e);
      NotInSlice(t, ';', e + 1, sc);
      if sc < |t| {
        CollectedPairsAreClean(t, sc + 1);
        TagKvStep(t, prev, e, sc);
      }
    }
  }

  /** Where the loop finds a clean pair that stands at `prev`. */
  lemma {:induction false} FindPair(t: string, prev: nat, p: Tag, tail: string)
    requires prev <= |t| && t[prev..] == RenderPair(p) + tail
    requires CleanPair(p) && (tail == "" || tail[0] == ';')
    ensures var e := prev + |p.key|; var sc := e + 1 + |p.val|;
            && sc <= |t| && t[sc..] == tail
            && Find(t, EQUALS, prev) == e && Find(t, SEMICOLON, e + 1) == sc
            && t[prev..e] == p.key && t[e + 1..sc] == p.val
  {
    var e := prev + |p.key|;
    var sc := e + 1 + |p.val|;
    var u := RenderPair(p) + tail;
    assert forall j :: prev <= j < |t| ==> t[j] == u[j - prev];
    assert forall j :: 0 <= j < |p.key| ==> u[j] == p.key[j];
    assert forall j :: 0 <= j < |p.val| ==> u[|p.key| + 1 + j] == p.val[j];
    assert forall j :: 0 <= j < |tail| ==> u[|p.key| + 1 + |p.val| + j] == tail[j];
    assert IsFirst(t, EQUALS, prev, e);
    assert forall j :: e + 1 <= j < sc ==> t[j] == p.val[j - e - 1];
    assert IsFirst(t, SEMICOLON, e + 1, sc);
  }

  /** What stands behind the last pair: nothing, or tags without a '='. */
  ghost predicate Leftover(kv: seq<Tag>, tail: string) {
    '=' !in tail && (kv == [] || tail == "" || tail[0] == ';')
  }

  lemma NoneIn(t: string, prev: nat, tail: string)
    requires prev <= |t| && t[prev..] == tail && '=' !in tail
    ensures Find(t, EQUALS, prev) == |t|
  {
    assert forall j :: prev <= j < |t| ==> t[j] == tail[j - prev];
  }

  lemma {:induction false} CollectLast(t: string, prev: nat, p: Tag, tail: string)
    requires prev <= |t| && t[prev..] == RenderPair(p) + tail && CleanPair(p) && Leftover([p], tail)
    ensures TagKvFrom(t, prev) == [p]
  {
    hide TagKvFrom;
    FindPair(t, prev, p, tail);
    var e := prev + |p.key|;
    var sc := e + 1 + |p.val|;
    if tail == "" {
      TagKvLast(t, prev, e);
      assert t[e + 1..] == t[e + 1..sc];
    } else {
      TagKvStep(t, prev, e, sc);
      assert t[sc + 1..] == tail[1..];
      NoneIn(t, sc + 1, tail[1..]);
      TagKvNone(t, sc + 1);
    }
  }

  lemma {:induction false} CollectPair(t: string, prev: nat, p: Tag, rest: string)
    requires prev <= |t| && t[prev..] == RenderPair(p) + ";" + rest && CleanPair(p)
    ensures var next := prev + |p.key| + |p.val| + 2;
            && next <= |t| && t[next..] == rest
            && TagKvFrom(t, prev) == [p] + TagKvFrom(t, next)
  {
    hide TagKvFrom;
    assert RenderPair(p) + ";" + rest == RenderPair(p) + (";" + rest);
    FindPair(t, prev, p, ";" + rest);
    var e := prev + |p.key|;
    var sc := e + 1 + |p.val|;
    TagKvStep(t, prev, e, sc);
    assert t[sc + 1..] == t[sc..][1..] == rest;
  }

  /** A clean list that is rendered at some place of a text, with no further pair behind
      it, is collected from there. */
  lemma {:induction false} CollectRendered(t: string, prev: nat, kv: seq<Tag>, tail: string)
    requires prev <= |t| && t[prev..] == RenderTags(kv) + tail && Clean(kv) && Leftover(kv, tail)
    ensures TagKvFrom(t, prev) == kv
    decreases |kv|
  {
    hide TagKvFrom, RenderTags;
    if |kv| == 0 {
      RenderNone(kv);
      assert "" + tail == tail;
      NoneIn(t, prev, tail);
      TagKvNone(t, prev);
    } else {
      var p, more := kv[0], kv[1..];
      assert kv == [p] + more;
      RenderCons(p, more);
      if more == [] {
        CollectLast(t, prev, p, tail);
      } else {
        assert RenderTags(kv) + tail == RenderPair(p) + ";" + (RenderTags(more) + tail);
        CollectPair(t, prev, p, RenderTags(more) + tail);
        CollectRendered(t, prev + |p.key| + |p.val| + 2, more, tail);
      }
    }
  }

  /** A rendered list is collected back exactly when keys are free of '=' and
      values free of ';'. */
  lemma TagListRoundTrip(kv: seq<Tag>)
    ensures TagKv(RenderTags(kv)) == kv <==> Clean(kv)
  {
    CollectedPairsAreClean(RenderTags(kv), 0);
    if Clean(kv) {
      assert RenderTags(kv)[0..] == RenderTags(kv) + "";
      CollectRendered(RenderTags(kv), 0, kv, "");
    }
  }

  /** The last tag, from position `prev` on, has an '='. */
  ghost predicate LastTagHasValue(t: string, prev: nat) {
    exists e :: prev <= e < |t| && t[e] == '=' && forall j :: e < j < |t| ==> t[j] != ';'
  }

  lemma {:induction false} LastTagIsLater(t: string, prev: nat, e: nat, sc: nat)
    requires prev <= e < sc < |t| && t[sc] == ';'
    ensures LastTagHasValue(t, prev) <==> LastTagHasValue(t, sc + 1)
  {
  }

  lemma {:induction false} RenderCollected(t: string, prev: nat)
    requires prev <= |t|
    ensures RenderTags(TagKvFrom(t, prev)) == t[prev..] <==> (prev == |t| || LastTagHasValue(t, prev))
    decreases |t| - prev
  {
    hide TagKvFrom, RenderTags;
    var e := Find(t, EQUALS, prev);
    if e == |t| {
      TagKvNone(t, prev);
      RenderNone(TagKvFrom(t, prev));
      assert !LastTagHasValue(t, prev);
    } else {
      var sc := Find(t, SEMICOLON, e + 1);
      var pair := Tag(t[prev..e], t[e + 1..sc]);
      assert RenderPair(pair) == t[prev..sc];
      if sc == |t| {
        TagKvLast(t, prev, e);
        assert pair == Tag(t[prev..e], t[e + 1..]);
        RenderCons(pair, []);
        assert [pair] + [] == [pair] == TagKvFrom(t, prev);
        assert t[prev..sc] == t[prev..];
        assert LastTagHasValue(t, prev);
      } else {
        RenderCollected(t, sc + 1);
        LastTagIsLater(t, prev, e, sc);
        RenderMore(t, prev, e, sc);
      }
    }
  }

  lemma {:induction false} RenderMore(t: string, prev: nat, e: nat, sc: nat)
    requires prev <= |t| && e == Find(t, EQUALS, prev) < |t| && sc == Find(t, SEMICOLON, e + 1) < |t|
    ensures RenderTags(TagKvFrom(t, prev)) == t[prev..] <==>
            TagKvFrom(t, sc + 1) != [] && RenderTags(TagKvFrom(t, sc + 1)) == t[sc + 1..]
    ensures TagKvFrom(t, sc + 1) == [] ==> !LastTagHasValue(t, sc + 1)
    ensures TagKvFrom(t, sc + 1) != [] ==> sc + 1 != |t|
  {
    hide TagKvFrom, RenderTags;
    TagKvNone(t, sc + 1);
    var pair, more := Tag(t[prev..e], t[e + 1..sc]), TagKvFrom(t, sc + 1);
    TagKvStep(t, prev, e, sc);
    RenderCons(pair, more);
    var a := t[prev..sc] + ";";
    assert RenderPair(pair) == t[prev..sc];
    assert t[prev..] == a + t[sc + 1..];
    if more != [] && a + RenderTags(more) == a + t[sc + 1..] {
      SamePrefix(a, RenderTags(more), t[sc + 1..]);
    }
  }

  /** The list determines the tag text exactly when the text is empty or its last
      tag has an '=': anything after the last pair is lost. */
  lemma TagTextRoundTrip(t: string)
    ensures RenderTags(TagKv(t)) == t <==> (t == "" || LastTagHasValue(t, 0))
  {
    RenderCollected(t, 0);
    assert t[0..] == t;
  }

  // ------------------------------------------------------------ every text decomposed

  /** `t` is a rendered list of clean pairs with tags without '=' behind it. */
  ghost predicate Decomposes(t: string, kv: seq<Tag>, tail: string) {
    t == RenderTags(kv) + tail && Clean(kv) && Leftover(kv, tail)
  }

  /** How far the rendering of the collected pairs covers the text. */
  lemma {:induction false} RenderedPart(t: string, prev: nat) returns (n: nat)
    requires prev <= |t|
    ensures prev <= n <= |t| && RenderTags(TagKvFrom(t, prev)) == t[prev..n]
    ensures forall j :: n <= j < |t| ==> t[j] != '='
    ensures TagKvFrom(t, prev) == [] || n == |t| || t[n] == ';'
    decreases |t| - prev
  {
    hide TagKvFrom, RenderTags;
    var e := Find(t, EQUALS, prev);
    if e == |t| {
      TagKvNone(t, prev);
      RenderNone(TagKvFrom(t, prev));
      return prev;
    }
    var sc := Find(t, SEMICOLON, e + 1);
    var pair := Tag(t[prev..e], t[e + 1..sc]);
    assert RenderPair(pair) == t[prev..sc];
    RenderCons(pair, []);
    assert [pair] + [] == [pair];
    if sc == |t| {
      TagKvLast(t, prev, e);
      assert t[e + 1..] == t[e + 1..sc];
      return sc;
    }
    TagKvStep(t, prev, e, sc);
    n := RenderedPart(t, sc + 1);
    var more := TagKvFrom(t, sc + 1);
    RenderCons(pair, more);
    if more == [] {
      TagKvNone(t, sc + 1);
      return sc;
    }
    assert t[prev..sc] + ";" + t[sc + 1..n] == t[prev..n];
  }

  /** Every text is in exactly one way a list of clean pairs and a rest without pairs, and
      the list is what the loop collects. */
  lemma TagsDecompose(t: string, kv: seq<Tag>, tail: string)
    ensures RenderTags(TagKv(t)) <= t
    ensures Decomposes(t, kv, tail) <==> kv == TagKv(t) && tail == t[|RenderTags(TagKv(t))|..]
  {
    hide TagKvFrom, RenderTags;
    var n := RenderedPart(t, 0);
    assert t[0..n] == t[..n];
    NotInSlice(t, '=', n, |t|);
    assert t[n..|t|] == t[n..];
    assert t == t[..n] + t[n..];
    CollectedPairsAreClean(t, 0);
    if Decomposes(t, kv, tail) {
      assert t[0..] == t;
      CollectRendered(t, 0, kv, tail);
      SamePrefix(RenderTags(kv), tail, t[n..]);
    }
  }

  /** The text is not determined: a last tag without '=' leaves no trace in the list. */
  lemma LastTagIsLost()
    ensures TagKv("a=b;c") == [Tag("a", "b")] == TagKv("a=b")
    ensures RenderTags(TagKv("a=b;c")) != "a=b;c"
  {
    hide TagKv, RenderTags;
    var kv := [Tag("a", "b")];
    RenderCons(kv[0], []);
    assert kv == [kv[0]] + [] && RenderPair(kv[0]) == "a=b";
    assert "a=b" == RenderTags(kv) + "" && "a=b;c" == RenderTags(kv) + ";c";
    TagsDecompose("a=b", kv, "");
    TagsDecompose("a=b;c", kv, ";c");
  }
}
