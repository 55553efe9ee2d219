/**
 ParseSourceUser of src/IRC.hh: the user record in a message source of the form
 nick!user@host.
 */
module Source {
  import opened Text

  datatype IRCUser = IRCUser(nickname: string, username: string, hostname: string)

  datatype UserResult = User(user: IRCUser) | NotAUser

  const BANG: set<char> := {'!'}
  const AT: set<char> := {'@'}

  predicate IsUserMessage(source: string) { Find(source, BANG, 0) < |source| }

  /** The parts of a source: up to the first '!', from there to the next '@', and
      the rest. */
  function ParseUser(source: string): UserResult {
    var b := Find(source, BANG, 0);
    if b == |source| then NotAUser
    else
      var a := Find(source, AT, b + 1);
      User(IRCUser(source[..b], source[b + 1..a], if a == |source| then "" else source[a + 1..]))
  }

  /** The function of the source: the indices `cur` and `next` move to the right,
      and the three assertions on their order hold. */
  method ParseSourceUser(source: string) returns (r: UserResult)
    ensures r == ParseUser(source)
  {
    if !IsUserMessage(source) {
      return NotAUser;
    }
    var cur := 0;
    var next := Find(source, BANG, cur);
    assert cur <= next;
    var u := IRCUser(source[cur..next], "", "");
    assert source[..next] == source[cur..next];
    cur := next + 1;
    ghost var bang := next;
    next := Find(source, AT, next);
    assert next == Find(source, AT, cur);
    assert cur <= next;
    u := u.(username := source[cur..next]);
    if next == |source| {
      return User(u);
    }
    cur := next + 1;
    next := |source|;
    assert cur <= next;
    u := u.(hostname := source[cur..next]);
    assert source[cur..next] == source[cur..];
    return User(u);
  }

  function Render(u: IRCUser): string { u.nickname + "!" + u.username + "@" + u.hostname }

  lemma CutSource(source: string, b: nat, a: nat)
    requires b < a <= |source| && source[b] == '!' && (a < |source| ==> source[a] == '@')
    ensures a == |source| ==> source == source[..b] + "!" + source[b + 1..a]
    ensures a < |source| ==> source == source[..b] + "!" + source[b + 1..a] + "@" + source[a + 1..]
  {
  }

  /** Conversely, a source is rebuilt from its parts: it is the printed user, or
      the printed user without the '@' in front of an empty host. */
  lemma SourceRebuilt(source: string)
    ensures ParseUser(source) == NotAUser <==> '!' !in source
    ensures ParseUser(source).User? ==>
              var u := ParseUser(source).user;
              && '!' !in u.nickname && '@' !in u.username
              && (source == Render(u) || (u.hostname == "" && source + "@" == Render(u)))
  {
    var b := Find(source, BANG, 0);
    NotInSlice(source, '!', 0, b);
    if b == |source| {
      assert source[0..b] == source;
    } else {
      var a := Find(source, AT, b + 1);
      NotInSlice(source, '@', b + 1, a);
      CutSource(source, b, a);
      assert source[0..b] == source[..b];
      if a == |source| {
        assert (source[..b] + "!" + source[b + 1..a]) + "@" == Render(IRCUser(source[..b], source[b + 1..a], ""));
      }
    }
  }

  lemma PrintedUserParses(u: IRCUser)
    requires '!' !in u.nickname && '@' !in u.username
    ensures ParseUser(Render(u)) == User(u)
  {
    var s := Render(u);
    var b := |u.nickname|;
    var a := b + 1 + |u.username|;
    assert forall j :: 0 <= j < b ==> s[j] == u.nickname[j];
    assert forall j :: b < j < a ==> s[j] == u.username[j - b - 1];
    assert s[b] == '!' && s[a] == '@';
    assert IsFirst(s, BANG, 0, b);
    assert IsFirst(s, AT, b + 1, a);
    assert s[..b] == u.nickname && s[b + 1..a] == u.username && s[a + 1..] == u.hostname;
  }

  /** A printed user is read back exactly when its nickname has no '!' and its
      username no '@'; the host is free. */
  lemma UserRoundTrip(u: IRCUser)
    ensures ParseUser(Render(u)) == User(u) <==> '!' !in u.nickname && '@' !in u.username
  {
    hide ParseUser;
    SourceRebuilt(Render(u));
    if '!' !in u.nickname && '@' !in u.username {
      PrintedUserParses(u);
    }
  }
}
