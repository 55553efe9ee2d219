/**
 The IRCMessage constructor of src/IRC.hh: a hand-indexed parser for one line.
 `Parse` says what it computes, on suffixes of the line; `ParseLine` is the
 constructor itself, with its indices and two loops.
 */
module Message {
  import opened Text
  import opened Source

  datatype MessageType = DEFAULT | PING | LOGIN | NICK | JOIN | PART | PRIVMSG | QUIT

  datatype ParseError = NoCommand | MalformedTag | ServerMessage | NoParameter | BadParameter

  datatype Result<+T> = Ok(value: T) | Err(error: ParseError) {
    predicate IsFailure() { Err? }
    function PropagateFailure<U>(): Result<U> requires Err? { Err(error) }
    function Extract(): T requires Ok? { value }
  }

  datatype Tag = Tag(key: string, val: string)

  datatype IRCMessage = IRCMessage(
    tags: string,
    tagKv: seq<Tag>,
    source: string,
    command: string,
    params: seq<string>
  )

  const EQUALS: set<char> := {'='}
  const SEMICOLON: set<char> := {';'}

  // ---------------------------------------------------------------- the parser

  /** Some tag of the text has an '='. */
  predicate HasPair(t: string) { Find(t, EQUALS, 0) < |t| }

  /** Key/value pairs from position `prev` on: a key runs to the next '=', its
      value to the next ';'. What follows the last value without a '=' yields no
      pair, and a tag without '=' is part of the next key. */
  function TagKvFrom(t: string, prev: nat): seq<Tag>
    requires prev <= |t|
    decreases |t| - prev
  {
    var e := Find(t, EQUALS, prev);
    if e == |t| then []
    else
      var sc := Find(t, SEMICOLON, e + 1);
      if sc == |t| then [Tag(t[prev..e], t[e + 1..sc])]
      else [Tag(t[prev..e], t[e + 1..sc])] + TagKvFrom(t, sc + 1)
  }

  function TagKv(t: string): seq<Tag> { TagKvFrom(t, 0) }

  function StripTags(line: string): Result<(string, string)> {
    if line == "" || line[0] != '@' then Ok(("", line))
    else
      var sp := Find(line, SPACE, 1);
      if sp == |line| then Err(NoCommand)
      else if !HasPair(line[1..sp]) then Err(MalformedTag)
      else Ok((line[1..sp], line[sp + 1..]))
  }

  function StripSource(line: string): Result<(string, string)> {
    if line == "" || line[0] != ':' then Ok(("", line))
    else
      var sp := Find(line, SPACE, 1);
      if sp == |line| then Err(NoCommand) else Ok((line[1..sp], line[sp + 1..]))
  }

  /** The command branch is skipped at the end of the text, which the code tests
      by looking for a NUL: an embedded NUL skips it too. */
  function StripCommand(line: string): Result<(string, string)> {
    if line == "" || line[0] == '\0' then Ok(("", line))
    else
      var sp := Find(line, SPACE, 0);
      if sp == |line| then Err(NoParameter)
      else if sp == 0 then Err(NoCommand)
      else Ok((line[..sp], line[sp + 1..]))
  }

  function Parameters(line: string): Result<seq<string>> {
    if line == "" || line[0] == ' ' then Err(BadParameter) else Ok(Fields(line, SPACE))
  }

  function Parse(line: string, t: MessageType): Result<IRCMessage> {
    var (tags, afterTags) :- StripTags(line);
    var (source, afterSource) :- StripSource(afterTags);
    if source != "" && !IsUserMessage(source) && t == PRIVMSG then Err(ServerMessage)
    else
      var (command, rest) :- StripCommand(afterSource);
      var params :- Parameters(rest);
      Ok(IRCMessage(tags, TagKv(tags), source, command, params))
  }

  // ------------------------------------------------ the same, by index into the line

  lemma {:induction false} TagKvStep(t: string, prev: nat, e: nat, sc: nat)
    requires prev <= |t| && e == Find(t, EQUALS, prev) < |t|
    requires sc == Find(t, SEMICOLON, e + 1) < |t|
    ensures TagKvFrom(t, prev) == [Tag(t[prev..e], t[e + 1..sc])] + TagKvFrom(t, sc + 1)
  {
  }

  lemma {:induction false} TagKvLast(t: string, prev: nat, e: nat)
    requires prev <= |t| && e == Find(t, EQUALS, prev) < |t|
    requires Find(t, SEMICOLON, e + 1) == |t|
    ensures TagKvFrom(t, prev) == [Tag(t[prev..e], t[e + 1..])]
  {
    assert t[e + 1..|t|] == t[e + 1..];
  }

  lemma {:induction false} StripSourceAt(line: string, i: nat, sp: nat)
    requires i < |line| && line[i] == ':' && sp == Find(line, SPACE, i + 1)
    ensures StripSource(line[i..])
         == if sp == |line| then Err(NoCommand) else Ok((line[i + 1..sp], line[sp + 1..]))
  {
    FindInSuffix(line, SPACE, i, i + 1);
    if sp < |line| {
      SliceOfSuffix(line, i, i + 1, sp);
      SliceOfSuffix(line, i, sp + 1, sp + 1);
    }
  }

  lemma {:induction false} StripCommandAt(line: string, i: nat, sp: nat)
    requires i < |line| && line[i] != '\0' && sp == Find(line, SPACE, i)
    ensures StripCommand(line[i..])
         == if sp == |line| then Err(NoParameter)
            else if sp == i then Err(NoCommand)
            else Ok((line[i..sp], line[sp + 1..]))
  {
    FindInSuffix(line, SPACE, i, i);
    if sp < |line| {
      SliceOfSuffix(line, i, i, sp);
      SliceOfSuffix(line, i, sp + 1, sp + 1);
    }
  }

  /** One field and the separators behind it. */
  lemma {:induction false} FieldsAt(line: string, prev: nat, i: nat, n: nat)
    requires prev < |line| && line[prev] != ' ' && i == Find(line, SPACE, prev)
    requires i <= n <= |line| && forall j :: i <= j < n ==> line[j] in SPACE
    ensures Fields(line[prev..], SPACE) == [line[prev..i]] + Fields(line[n..], SPACE)
  {
    var t := line[prev..];
    FindInSuffix(line, SPACE, prev, prev);
    assert t[..i - prev] == line[prev..i] && t[i - prev..] == line[i..];
    SkipSeparators(line, SPACE, i, n);
  }

  /** Separators in front of a text do not change its fields. */
  lemma {:induction false} SkipSeparators(s: string, ds: set<char>, i: nat, n: nat)
    requires i <= n <= |s| && forall j :: i <= j < n ==> s[j] in ds
    ensures Fields(s[i..], ds) == Fields(s[n..], ds)
    decreases n - i
  {
    if i < n {
      assert s[i..][1..] == s[i + 1..];
      SkipSeparators(s, ds, i + 1, n);
    }
  }

  // ------------------------------------------------------- the constructor's loops

  const NPOS := -1

  ghost predicate TagsCollected(tags: string, kv: seq<Tag>, prev: nat)
    requires prev <= |tags|
  {
    TagKv(tags) == kv + TagKvFrom(tags, prev)
  }

  lemma {:induction false} CollectTag(tags: string, kv: seq<Tag>, prev: nat, i: nat, sc: nat)
    requires prev <= |tags| && i == Find(tags, EQUALS, prev) < |tags|
    requires sc == Find(tags, SEMICOLON, i + 1)
    requires TagsCollected(tags, kv, prev)
    ensures HasPair(tags)
    ensures sc == |tags| ==> TagKv(tags) == kv + [Tag(tags[prev..i], tags[i + 1..sc])]
    ensures sc < |tags| ==> TagsCollected(tags, kv + [Tag(tags[prev..i], tags[i + 1..sc])], sc + 1)
  {
    if sc < |tags| {
      TagKvStep(tags, prev, i, sc);
      var pair, todo := Tag(tags[prev..i], tags[i + 1..sc]), TagKvFrom(tags, sc + 1);
      assert kv + ([pair] + todo) == (kv + [pair]) + todo;
    }
  }

  /** The tag loop: `prev` advances past each '=' and each ';'. */
  method ParseTags(tags: string) returns (kv: seq<Tag>, found: bool)
    ensures kv == TagKv(tags)
    ensures found <==> HasPair(tags)
  {
    kv := [];
    var prev := 0;
    var i := Find(tags, EQUALS, prev);
    while i != |tags|
      invariant prev <= i <= |tags| && i == Find(tags, EQUALS, prev)
      invariant TagsCollected(tags, kv, prev)
      invariant prev != 0 ==> HasPair(tags)
      decreases |tags| - prev
    {
      var sc := Find(tags, SEMICOLON, i + 1);
      CollectTag(tags, kv, prev, i, sc);
      kv := kv + [Tag(tags[prev..i], tags[i + 1..sc])];
      if sc == |tags| {
        return kv, true;
      }
      prev := sc + 1;
      i := Find(tags, EQUALS, prev);
    }
    found := prev != 0;
  }

  /** The parameters collected before `prev` and the fields from there on are
      all the fields from `start`. */
  ghost predicate Collected(line: string, start: nat, params: seq<string>, prev: int)
    requires start <= |line| && (prev == NPOS || start <= prev <= |line|)
  {
    && (prev != NPOS ==> prev < |line| && line[prev] != ' ')
    && Fields(line[start..], SPACE) == if prev == NPOS then params else params + Fields(line[prev..], SPACE)
  }

  lemma {:induction false} CollectNext(line: string, start: nat, params: seq<string>, prev: nat, i: nat, n: nat)
    requires start <= prev < |line| && Collected(line, start, params, prev)
    requires i == Find(line, SPACE, prev)
    requires n == if i == |line| then i else FindNot(line, SPACE, i + 1)
    ensures prev < i
    ensures Collected(line, start, params + [line[prev..i]], if n == |line| then NPOS else n)
  {
    hide Fields;
    FieldsAt(line, prev, i, n);
    var w, more := line[prev..i], Fields(line[n..], SPACE);
    assert params + ([w] + more) == (params + [w]) + more;
    if n == |line| {
      assert line[n..] == "";
      NoFieldsOfNothing(SPACE);
      assert params + ([w] + []) == params + [w];
    }
  }

  /** The parameter loop, from `start` to the end of the line. The first
      parameter is pushed before anything is known about it, so it may be empty. */
  method ParseParams(line: string, start: nat) returns (params: seq<string>)
    requires start <= |line|
    ensures params != []
    ensures params[0] == "" ==> Parameters(line[start..]) == Err(BadParameter)
    ensures params[0] != "" ==> Parameters(line[start..]) == Ok(params)
  {
    params := [];
    var prev: int := start;
    ghost var good := start < |line| && line[start] != ' ';
    assert good ==> [] + Fields(line[start..], SPACE) == Fields(line[start..], SPACE);
    while prev != NPOS
      invariant prev == NPOS || start <= prev <= |line|
      invariant params == [] ==> prev == start
      invariant params != [] ==> (params[0] == "" <==> !good)
      invariant good ==> Collected(line, start, params, prev)
      decreases if prev == NPOS then 0 else |line| + 1 - prev
    {
      var i := Find(line, SPACE, prev);
      var n := if i == |line| then i else FindNot(line, SPACE, i + 1);
      if good {
        CollectNext(line, start, params, prev, i, n);
      }
      params := params + [line[prev..i]];
      prev := if n == |line| then NPOS else n;
    }
  }

  /** The tag part: the tags, their pairs and where the next part starts. */
  method ScanTags(line: string) returns (r: Result<(string, seq<Tag>, nat)>)
    ensures r.Err? ==> StripTags(line) == Err(r.error)
    ensures r.Ok? ==>
      var (tags, kv, i) := r.value;
      kv == TagKv(tags) && i <= |line| && StripTags(line) == Ok((tags, line[i..]))
  {
    if line == "" || line[0] != '@' {
      assert line[0..] == line;
      return Ok(("", [], 0));
    }
    var sp := Find(line, SPACE, 1);
    if sp == |line| {
      return Err(NoCommand);
    }
    var tags := line[1..sp];
    var kv, found := ParseTags(tags);
    if !found {
      return Err(MalformedTag);
    }
    return Ok((tags, kv, sp + 1));
  }

  /** The source part, from position `i`. */
  method ScanSource(line: string, i: nat) returns (r: Result<(string, nat)>)
    requires i <= |line|
    ensures r.Err? ==> StripSource(line[i..]) == Err(r.error)
    ensures r.Ok? ==> r.value.1 <= |line| && StripSource(line[i..]) == Ok((r.value.0, line[r.value.1..]))
  {
    if i == |line| || line[i] != ':' {
      return Ok(("", i));
    }
    var sp := Find(line, SPACE, i + 1);
    StripSourceAt(line, i, sp);
    if sp == |line| {
      return Err(NoCommand);
    }
    return Ok((line[i + 1..sp], sp + 1));
  }

  /** The command part, from position `i`. */
  method ScanCommand(line: string, i: nat) returns (r: Result<(string, nat)>)
    requires i <= |line|
    ensures r.Err? ==> StripCommand(line[i..]) == Err(r.error)
    ensures r.Ok? ==> r.value.1 <= |line| && StripCommand(line[i..]) == Ok((r.value.0, line[r.value.1..]))
  {
    if i == |line| || line[i] == '\0' {
      return Ok(("", i));
    }
    var sp := Find(line, SPACE, i);
    StripCommandAt(line, i, sp);
    if sp == |line| {
      return Err(NoParameter);
    }
    if sp == i {
      return Err(NoCommand);
    }
    return Ok((line[i..sp], sp + 1));
  }

  /** The constructor: what it stores, or the reason it throws. */
  method ParseLine(line: string, t: MessageType) returns (r: Result<IRCMessage>)
    ensures r == Parse(line, t)
  {
    var a :- ScanTags(line);
    var (tags, kv, i) := a;
    var b :- ScanSource(line, i);
    var (source, j) := b;
    if source != "" && !IsUserMessage(source) && t == PRIVMSG {
      return Err(ServerMessage);
    }
    var c :- ScanCommand(line, j);
    var (command, k) := c;
    var params := ParseParams(line, k);
    if params[0] == "" {
      return Err(BadParameter);
    }
    return Ok(IRCMessage(tags, kv, source, command, params));
  }
}
