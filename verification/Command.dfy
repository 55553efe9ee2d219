/**
 The command classifier of src/IRC.cc: the bytes of a command of at most eight
 characters are packed into a 64-bit word, first byte lowest, and the word is
 switched on.
 */
module Command {
  import opened Message

  /** A C++ char has eight bits. */
  ghost predicate IsBytes(s: string) {
    forall i :: 0 <= i < |s| ==> s[i] as int < 256
  }

  predicate HasValue(b: bv8, n: nat) { b as int == n }

  lemma {:induction false} ByteExists(n: nat)
    requires n < 256
    ensures exists b :: HasValue(b, n)
  {
    if n == 0 {
      assert HasValue(0, n);
    } else {
      ByteExists(n - 1);
      var b :| HasValue(b, n - 1);
      NextByte(b);
      assert HasValue(b + 1, n);
    }
  }

  lemma NextByte(b: bv8)
    requires b as int < 255
    ensures (b + 1) as int == b as int + 1
  {
  }

  lemma SameByte(b: bv8, b': bv8)
    ensures b as int == b' as int ==> b == b'
  {
  }

  /** The low eight bits of a character. */
  function Byte(c: char): (b: bv8)
    ensures HasValue(b, c as int % 256)
  {
    var n := c as int % 256;
    ByteExists(n);
    assert forall b, b' :: HasValue(b, n) && HasValue(b', n) ==> b == b' by {
      forall b, b' | HasValue(b, n) && HasValue(b', n) ensures b == b' {
        SameByte(b, b');
      }
    }
    var b :| HasValue(b, n);
    b
  }

  lemma OneValue(b: bv8, n: nat, n': nat)
    requires HasValue(b, n) && HasValue(b, n')
    ensures n == n'
  {
  }

  lemma ByteInjective(c: char, d: char)
    requires c as int < 256 && d as int < 256
    ensures Byte(c) == Byte(d) ==> c == d
  {
    hide HasValue;
    if Byte(c) == Byte(d) {
      OneValue(Byte(c), c as int, d as int);
    }
  }

  lemma ByteZero(c: char)
    requires c as int < 256
    ensures Byte(c) == 0 <==> c == '\0'
  {
    SameByte(Byte(c), 0);
  }

  // The word operations, named so that a proof can choose to look into them or not.

  function Or(x: bv64, y: bv64): bv64 { x | y }

  /** The word shifted up, and down, by one byte. */
  function Up(x: bv64): bv64 { x << 8 }
  function Down(x: bv64): bv64 { x >> 8 }

  function Word(b: bv8): bv64 { b as bv64 }

  /** `b << (i * 8)`. */
  function Shifted(b: bv8, i: nat): bv64 {
    if i == 0 then Word(b) else Up(Shifted(b, i - 1))
  }

  /** The bytes of `s`, the first of them at position `i` of the word. */
  function PackFrom(s: string, i: nat): bv64
    decreases |s|
  {
    if s == "" then 0 else Or(Shifted(Byte(s[0]), i), PackFrom(s[1..], i + 1))
  }

  function Pack(s: string): bv64 { PackFrom(s, 0) }

  /** The accumulating loop of the source. Longer commands keep the mask 0. */
  method GetCommandMaskAsUint(command: string) returns (mask: bv64)
    ensures mask == Mask(command)
  {
    hide Byte, Shifted, Or;
    mask := 0;
    if |command| <= 8 {
      assert command[0..] == command;
      OrLaws(0, 0, Pack(command));
      for i := 0 to |command|
        invariant Or(mask, PackFrom(command[i..], i)) == Pack(command)
      {
        assert command[i..][1..] == command[i + 1..];
        OrLaws(mask, Shifted(Byte(command[i]), i), PackFrom(command[i + 1..], i + 1));
        mask := Or(mask, Shifted(Byte(command[i]), i));
      }
      OrLaws(mask, 0, 0);
    }
  }

  function Mask(command: string): bv64 {
    if |command| <= 8 then Pack(command) else 0
  }

  /** The switch of the source. */
  function GetMessageType(command: string): MessageType {
    var mask := Mask(command);
    if mask == Mask("PING") then PING
    else if mask == Mask("LOGIN") then LOGIN
    else if mask == Mask("NICK") then NICK
    else if mask == Mask("JOIN") then JOIN
    else if mask == Mask("PART") then PART
    else if mask == Mask("PRIVMSG") then PRIVMSG
    else if mask == Mask("KILL") || mask == Mask("QUIT") then QUIT
    else DEFAULT
  }

  /** What the switch stands for: comparing the text. */
  function TypeByName(command: string): MessageType {
    if command == "PING" then PING
    else if command == "LOGIN" then LOGIN
    else if command == "NICK" then NICK
    else if command == "JOIN" then JOIN
    else if command == "PART" then PART
    else if command == "PRIVMSG" then PRIVMSG
    else if command == "KILL" || command == "QUIT" then QUIT
    else DEFAULT
  }

  // ------------------------------------------------------------------ the word

  lemma OrLaws(x: bv64, y: bv64, z: bv64)
    ensures Or(Or(x, y), z) == Or(x, Or(y, z)) && Or(0, z) == z && Or(x, 0) == x
  {
  }

  lemma UpDistributes(x: bv64, y: bv64)
    ensures Up(Or(x, y)) == Or(Up(x), Up(y))
  {
  }

  lemma ZeroShifts()
    ensures Up(0) == 0 && Down(0) == 0
  {
  }

  predicate TopFree(m: bv64) { m >> 56 == 0 }

  /** A byte put below a word whose top byte is free can be taken off again. */
  lemma TakeByte(b: bv8, b': bv8, m: bv64, m': bv64)
    requires TopFree(m) && TopFree(m')
    ensures Down(Or(Word(b), Up(m))) == m
    ensures Or(Word(b), Up(m)) == Or(Word(b'), Up(m')) ==> b == b' && m == m'
    ensures Or(Word(b), Up(m)) == 0 <==> b == 0 && m == 0
  {
  }

  /** Moving all bytes up by one position is one shift. */
  lemma {:induction false} PackShift(s: string, i: nat)
    ensures PackFrom(s, i + 1) == Up(PackFrom(s, i))
    decreases |s|
  {
    hide Byte, Or, Up, Word;
    ZeroShifts();
    if s != "" {
      PackShift(s[1..], i + 1);
      UpDistributes(Shifted(Byte(s[0]), i), PackFrom(s[1..], i + 1));
    }
  }

  lemma PackStep(s: string)
    requires s != ""
    ensures Pack(s) == Or(Word(Byte(s[0])), Up(Pack(s[1..])))
  {
    hide Byte, Or, Up, Word;
    PackShift(s[1..], 0);
  }

  /** The word without its `k` lowest bytes. */
  function Drop(m: bv64, k: nat): bv64 {
    if k == 0 then m else Drop(Down(m), k - 1)
  }

  lemma {:induction false} DropNone(k: nat)
    ensures Drop(0, k) == 0
  {
    hide Down;
    ZeroShifts();
    if k > 0 {
      DropNone(k - 1);
    }
  }

  lemma DropOne(m: bv64, k: nat)
    ensures Drop(m, k + 1) == Drop(Down(m), k) && Drop(m, 0) == m
  {
  }

  lemma DropSeven(m: bv64)
    requires Drop(m, 7) == 0
    ensures TopFree(m)
  {
    hide Drop, Down, TopFree;
    var a := Down(m);
    var b := Down(a);
    var c := Down(b);
    var d := Down(c);
    var e := Down(d);
    var f := Down(e);
    DropOne(m, 6);
    DropOne(a, 5);
    DropOne(b, 4);
    DropOne(c, 3);
    DropOne(d, 2);
    DropOne(e, 1);
    DropOne(f, 0);
    DropOne(Down(f), 0);
    DownSeven(m);
  }

  lemma DownSeven(m: bv64)
    ensures Down(Down(Down(Down(Down(Down(Down(m))))))) == 0 ==> TopFree(m)
  {
  }

  // --------------------------------------------------------------- the packing

  lemma {:induction false} PackDrop(s: string, k: nat)
    requires |s| <= k <= 7
    ensures Drop(Pack(s), k) == 0
    decreases |s|
  {
    hide Byte, Pack, Or, Up, Down, Word, TopFree;
    if s == "" {
      PackNothing();
      DropNone(k);
    } else {
      PackDrop(s[1..], 7);
      DropSeven(Pack(s[1..]));
      PackStep(s);
      TakeByte(Byte(s[0]), Byte(s[0]), Pack(s[1..]), Pack(s[1..]));
      PackDrop(s[1..], k - 1);
    }
  }

  /** A text of at most seven bytes leaves the top byte of the word free. */
  lemma PackTopFree(s: string)
    requires |s| <= 7
    ensures TopFree(Pack(s))
  {
    hide Pack, TopFree;
    PackDrop(s, 7);
    DropSeven(Pack(s));
  }

  function Low(m: bv64): bv8 { (m & 0xff) as bv8 }

  lemma LowByte(b: bv8, m: bv64)
    ensures Low(Or(Word(b), Up(m))) == b
  {
  }

  /** Byte number `i` of the word is character number `i` of the text. */
  lemma {:induction false} PackedByte(s: string, i: nat)
    requires i < |s| <= 8
    ensures Low(Drop(Pack(s), i)) == Byte(s[i])
    decreases |s|
  {
    hide Byte, Pack, Or, Up, Down, Word, TopFree, Low;
    PackStep(s);
    if i == 0 {
      LowByte(Byte(s[0]), Pack(s[1..]));
    } else {
      PackTopFree(s[1..]);
      TakeByte(Byte(s[0]), Byte(s[0]), Pack(s[1..]), Pack(s[1..]));
      PackedByte(s[1..], i - 1);
    }
  }

  ghost predicate EndsInNul(s: string) { s != "" && s[|s| - 1] == '\0' }

  lemma {:induction false} PackNonzero(s: string)
    requires s != "" && |s| <= 8 && IsBytes(s) && !EndsInNul(s)
    ensures Pack(s) != 0
    decreases |s|
  {
    hide Byte, Pack, Or, Up, Word, TopFree;
    var b, m := Byte(s[0]), Pack(s[1..]);
    PackStep(s);
    PackTopFree(s[1..]);
    TakeByte(b, b, m, m);
    if |s| == 1 {
      ByteZero(s[0]);
    } else {
      TailEnds(s);
      PackNonzero(s[1..]);
    }
  }

  /** Without trailing NULs the packing is injective, over all lengths up to 8. */
  lemma {:induction false} PackInjective(s: string, t: string)
    requires |s| <= 8 && |t| <= 8 && IsBytes(s) && IsBytes(t)
    requires !EndsInNul(s) && !EndsInNul(t) && Pack(s) == Pack(t)
    ensures s == t
    decreases |s|
  {
    hide Byte, Pack, Or, Up, Word, TopFree;
    if s == "" || t == "" {
      PackNothing();
      if s != "" {
        PackNonzero(s);
      }
      if t != "" {
        PackNonzero(t);
      }
    } else {
      PackStep(s);
      PackStep(t);
      PackTopFree(s[1..]);
      PackTopFree(t[1..]);
      TakeByte(Byte(s[0]), Byte(t[0]), Pack(s[1..]), Pack(t[1..]));
      ByteInjective(s[0], t[0]);
      TailEnds(s);
      TailEnds(t);
      PackInjective(s[1..], t[1..]);
      assert s == [s[0]] + s[1..] && t == [t[0]] + t[1..];
    }
  }

  lemma PackNothing()
    ensures Pack("") == 0
  {
  }

  lemma TailEnds(s: string)
    requires s != "" && IsBytes(s) && !EndsInNul(s)
    ensures IsBytes(s[1..]) && !EndsInNul(s[1..])
  {
    assert |s| > 1 ==> s[1..][|s| - 2] == s[|s| - 1];
  }

  function TrimNul(s: string): (r: string)
    ensures |r| <= |s| && (s == "" || s[|s| - 1] != '\0' ==> r == s)
  {
    if s != "" && s[|s| - 1] == '\0' then TrimNul(s[..|s| - 1]) else s
  }

  lemma {:induction false} PackPadded(s: string)
    ensures Pack(s + "\0") == Pack(s)
    decreases |s|
  {
    hide Byte, Pack, Or, Up, Word;
    var p := s + "\0";
    PackStep(p);
    if s == "" {
      assert p[1..] == "";
      PackNothing();
      ByteZero('\0');
      NulPacksToZero();
    } else {
      assert p[1..] == s[1..] + "\0";
      PackPadded(s[1..]);
      PackStep(s);
    }
  }

  lemma NulPacksToZero()
    ensures Or(Word(0), Up(0)) == 0
  {
  }

  lemma {:induction false} PackTrim(s: string)
    requires IsBytes(s)
    ensures Pack(TrimNul(s)) == Pack(s) && IsBytes(TrimNul(s)) && !EndsInNul(TrimNul(s))
    decreases |s|
  {
    hide Pack;
    if EndsInNul(s) {
      var n := |s| - 1;
      PackTrim(s[..n]);
      PackPadded(s[..n]);
      assert s == s[..n] + "\0";
    }
  }

  lemma MaskIsName(command: string, name: string)
    requires IsBytes(command) && IsName(name)
    ensures Mask(command) == Mask(name) <==> |command| <= 8 && TrimNul(command) == name
  {
    hide Pack, TrimNul;
    PackNonzero(name);
    if |command| <= 8 {
      PackTrim(command);
      if Pack(command) == Pack(name) {
        PackInjective(TrimNul(command), name);
      }
    }
  }

  ghost predicate IsName(name: string) {
    IsBytes(name) && 0 < |name| <= 8 && !EndsInNul(name)
  }

  lemma Names()
    ensures IsName("PING")
    ensures IsName("LOGIN")
    ensures IsName("NICK")
    ensures IsName("JOIN")
    ensures IsName("PART")
    ensures IsName("PRIVMSG")
    ensures IsName("KILL")
    ensures IsName("QUIT")
  {
  }

  /** The packed switch, for every command: it compares the text up to trailing
      NULs, and knows no command of more than eight bytes. */
  lemma ClassifierExact(command: string)
    requires IsBytes(command)
    ensures GetMessageType(command) == if |command| <= 8 then TypeByName(TrimNul(command)) else DEFAULT
  {
    hide Mask, TrimNul, IsName, IsBytes;
    Names();
    MaskIsName(command, "PING");
    MaskIsName(command, "LOGIN");
    MaskIsName(command, "NICK");
    MaskIsName(command, "JOIN");
    MaskIsName(command, "PART");
    MaskIsName(command, "PRIVMSG");
    MaskIsName(command, "KILL");
    MaskIsName(command, "QUIT");
  }

  /** The packed switch refines string comparison exactly when the command has no
      trailing NUL, or trimming it gives no known name, or it is too long. */
  lemma ClassifierIsStringComparison(command: string)
    requires IsBytes(command)
    ensures GetMessageType(command) == TypeByName(command) <==>
            !EndsInNul(command) || |command| > 8 || TypeByName(TrimNul(command)) == DEFAULT
  {
    hide GetMessageType, TypeByName, TrimNul;
    ClassifierExact(command);
    NoSuchName(command);
    if !EndsInNul(command) {
      assert TrimNul(command) == command;
    }
  }

  lemma NoSuchName(command: string)
    ensures EndsInNul(command) || |command| > 8 ==> TypeByName(command) == DEFAULT
  {
  }

  /** A trailing NUL is not seen by the packing. */
  lemma TrailingNulIsIgnored()
    ensures GetMessageType("PING\0") == PING && TypeByName("PING\0") == DEFAULT
  {
    hide GetMessageType;
    ClassifierExact("PING\0");
    assert "PING\0"[..4] == "PING";
    assert TrimNul("PING\0") == TrimNul("PING") == "PING";
  }
}
