/**
 Data races on what the locks of src/Server.hh guard: which accesses of two handlers can come
 together, over every number of threads and every schedule.
 */
module Races {
  import opened Locks

  function HeldNext(held: map<Lock, Mode>, a: Action): map<Lock, Mode> {
    match a
    case Acquire(l, m) => held[l := m]
    case Release(l) => held - {l}
    case Access(_, _) => held
  }

  /** The locks held after some actions. */
  function HeldAfter(held: map<Lock, Mode>, todo: seq<Action>): map<Lock, Mode>
    decreases |todo|
  {
    if |todo| == 0 then held else HeldAfter(HeldNext(held, todo[0]), todo[1..])
  }

  /** An access under its lock; a change needs it for itself. */
  predicate Covered(held: map<Lock, Mode>, a: Action) {
    a.Access? ==> a.lock in held && (a.write ==> held[a.lock] == Exclusive)
  }

  const BARE_LOOK := Access(Nick, false)

  /** Every access is covered; with `lax`, a look at the nickname need not be. */
  predicate Guarded(held: map<Lock, Mode>, todo: seq<Action>, lax: bool)
    decreases |todo|
  {
    |todo| > 0 ==>
      && (Covered(held, todo[0]) || (lax && todo[0] == BARE_LOOK))
      && Guarded(HeldNext(held, todo[0]), todo[1..], lax)
  }

  lemma {:induction false} HeldAfterAppend(held: map<Lock, Mode>, a: seq<Action>, b: seq<Action>)
    ensures HeldAfter(held, a + b) == HeldAfter(HeldAfter(held, a), b)
    decreases |a|
  {
    if |a| == 0 {
      assert a + b == b;
    } else {
      assert (a + b)[1..] == a[1..] + b;
      HeldAfterAppend(HeldNext(held, a[0]), a[1..], b);
    }
  }

  lemma {:induction false} GuardedAppend(held: map<Lock, Mode>, a: seq<Action>, b: seq<Action>, lax: bool)
    ensures Guarded(held, a + b, lax) <==> Guarded(held, a, lax) && Guarded(HeldAfter(held, a), b, lax)
    decreases |a|
  {
    if |a| == 0 {
      assert a + b == b;
    } else {
      assert (a + b)[1..] == a[1..] + b;
      GuardedAppend(HeldNext(held, a[0]), a[1..], b, lax);
    }
  }

  lemma {:induction false} LaxIsWeaker(held: map<Lock, Mode>, todo: seq<Action>)
    requires Guarded(held, todo, false)
    ensures Guarded(held, todo, true)
    decreases |todo|
  {
    if |todo| > 0 {
      LaxIsWeaker(HeldNext(held, todo[0]), todo[1..]);
    }
  }

  // ------------------------------------------------------------- what the handlers do

  /** Wherever the locks of `need` are held, and others only below rank `low`, the actions are
      guarded and leave the locks held as they were. */
  ghost predicate Safe(low: nat, need: map<Lock, Mode>, a: seq<Action>, lax: bool) {
    forall held: map<Lock, Mode> :: Fits(low, need, held) ==> HeldAfter(held, a) == held && Guarded(held, a, lax)
  }

  ghost predicate Fits(low: nat, need: map<Lock, Mode>, held: map<Lock, Mode>) {
    && (forall l :: l in held ==> Rank(l) < low)
    && (forall l :: l in need ==> l in held && held[l] == need[l])
  }

  lemma SafeNothing(low: nat, need: map<Lock, Mode>, lax: bool)
    ensures Safe(low, need, [], lax)
  {
  }

  lemma SafeAccess(low: nat, need: map<Lock, Mode>, l: Lock, write: bool, lax: bool)
    requires l in need && (write ==> need[l] == Exclusive)
    ensures Safe(low, need, [Access(l, write)], lax)
  {
    forall held: map<Lock, Mode> | Fits(low, need, held)
      ensures HeldAfter(held, [Access(l, write)]) == held && Guarded(held, [Access(l, write)], lax)
    {
    }
  }

  lemma SafeAppend(low: nat, need: map<Lock, Mode>, a: seq<Action>, b: seq<Action>, lax: bool)
    requires Safe(low, need, a, lax) && Safe(low, need, b, lax)
    ensures Safe(low, need, a + b, lax)
  {
    hide HeldAfter, Guarded, Fits;
    forall held: map<Lock, Mode> | Fits(low, need, held)
      ensures HeldAfter(held, a + b) == held && Guarded(held, a + b, lax)
    {
      HeldAfterAppend(held, a, b);
      GuardedAppend(held, a, b, lax);
    }
  }

  lemma WithinHeld(held: map<Lock, Mode>, l: Lock, m: Mode, inner: seq<Action>, lax: bool)
    requires l !in held && HeldAfter(held[l := m], inner) == held[l := m] && Guarded(held[l := m], inner, lax)
    ensures HeldAfter(held, Within(l, m, inner)) == held && Guarded(held, Within(l, m, inner), lax)
  {
    var tail := inner + [Release(l)];
    HeldAfterAppend(held[l := m], inner, [Release(l)]);
    GuardedAppend(held[l := m], inner, [Release(l)], lax);
    assert held[l := m] - {l} == held;
    assert Within(l, m, inner)[1..] == tail;
  }

  lemma SafeWithin(low: nat, need: map<Lock, Mode>, l: Lock, m: Mode, inner: seq<Action>, lax: bool)
    requires low <= Rank(l) && Safe(Rank(l) + 1, need[l := m], inner, lax)
    ensures Safe(low, need, Within(l, m, inner), lax)
  {
    hide HeldAfter, Guarded;
    forall held: map<Lock, Mode> | Fits(low, need, held)
      ensures HeldAfter(held, Within(l, m, inner)) == held && Guarded(held, Within(l, m, inner), lax)
    {
      assert l !in held;
      assert Fits(Rank(l) + 1, need[l := m], held[l := m]);
      WithinHeld(held, l, m, inner, lax);
    }
  }

  lemma SafeUpdates(low: nat, l: Lock, changes: bool, lax: bool)
    requires low <= Rank(l)
    ensures Safe(low, map[], Within(l, Exclusive, Updates(l, changes)), lax)
  {
    hide Safe;
    var need := map[l := Exclusive];
    assert map[][l := Exclusive] == need;
    SafeAccess(Rank(l) + 1, need, l, false, lax);
    SafeAccess(Rank(l) + 1, need, l, true, lax);
    SafeNothing(Rank(l) + 1, need, lax);
    SafeAppend(Rank(l) + 1, need, [Access(l, false)], if changes then [Access(l, true)] else [], lax);
    SafeWithin(low, map[], l, Exclusive, Updates(l, changes), lax);
  }

  lemma SafeTouch(low: nat, need: map<Lock, Mode>, l: Lock, m: Mode, write: bool, lax: bool)
    requires low <= Rank(l) && (write ==> m == Exclusive)
    ensures Safe(low, need, Within(l, m, [Access(l, write)]), lax)
  {
    hide Safe;
    SafeAccess(Rank(l) + 1, need[l := m], l, write, lax);
    SafeWithin(low, need, l, m, [Access(l, write)], lax);
  }

  /** An answer is safe but for its look at the nickname. */
  lemma SafeReply(low: nat, need: map<Lock, Mode>)
    requires low <= 2
    ensures Safe(low, need, Reply(), true)
  {
    hide Safe;
    SafeNothing(3, need[Nick := Exclusive], true);
    SafeWithin(low, need, Nick, Exclusive, [], true);
    SafeBareLook(low, need);
    SafeAppend(low, need, Within(Nick, Exclusive, []), Reads(Nick), true);
  }

  lemma SafeBareLook(low: nat, need: map<Lock, Mode>)
    ensures Safe(low, need, Reads(Nick), true)
  {
    forall held: map<Lock, Mode> | Fits(low, need, held)
      ensures HeldAfter(held, Reads(Nick)) == held && Guarded(held, Reads(Nick), true)
    {
    }
  }

  lemma SafeWeaker(low: nat, need: map<Lock, Mode>, low': nat, need': map<Lock, Mode>, a: seq<Action>, lax: bool)
    requires Safe(low', need', a, lax) && low <= low' && forall l :: l in need' ==> l in need && need[l] == need'[l]
    ensures Safe(low, need, a, lax)
  {
    hide HeldAfter, Guarded;
    forall held: map<Lock, Mode> | Fits(low, need, held) ensures HeldAfter(held, a) == held && Guarded(held, a, lax) {
      assert Fits(low', need', held);
    }
  }

  /** The handler answers somebody. */
  predicate Replies(job: Job) {
    match job
    case WrongArguments => true
    case Hi => true
    case NickCommand(permitted) => !permitted
    case JoinCommand(permitted, _) => !permitted
    case PartCommand(permitted, parted) => !(permitted && parted)
    case LoadCommand(_) => true
    case UnloadCommand(_) => true
    case HelpCommand(loaded, noEntry) => !(loaded && noEntry)
    case HelpList => true
    case PluginCommand(found, body) => found && ReplyLeaf in body
    case _ => false
  }

  lemma {:induction false} SafeLeaves(need: map<Lock, Mode>, body: seq<Leaf>, lax: bool)
    requires ReplyLeaf in body ==> lax
    ensures Safe(2, need, Leaves(body), lax)
  {
    hide Safe;
    if |body| == 0 {
      SafeNothing(2, need, lax);
    } else {
      SafeLeaves(need, body[1..], lax);
      match body[0] {
        case ReplyLeaf => SafeReply(2, need);
        case ChannelLeaf(changes) =>
          SafeUpdates(2, Chan, changes, lax);
          SafeWeaker(2, need, 2, map[], LeafTrace(body[0]), lax);
      }
      SafeAppend(2, need, LeafTrace(body[0]), Leaves(body[1..]), lax);
    }
  }

  lemma SafeUnloading(loaded: bool)
    ensures Safe(1, map[PluginsMap := Exclusive], Unloading(loaded), true)
  {
    hide Safe, Reply;
    var need := map[PluginsMap := Exclusive];
    SafeAccess(1, need, PluginsMap, false, true);
    SafeAccess(1, need, PluginsMap, true, true);
    SafeReply(1, need);
    if loaded {
      SafeTouch(1, need, UserCommand, Exclusive, true, true);
      SafeAppend(1, need, Writes(PluginsMap), Reply(), true);
      var del := Within(UserCommand, Exclusive, Writes(UserCommand));
      SafeAppend(1, need, del, Writes(PluginsMap) + Reply(), true);
      SafeAppend(1, need, Reads(PluginsMap), del + (Writes(PluginsMap) + Reply()), true);
    } else {
      SafeAppend(1, need, Reads(PluginsMap), Reply(), true);
    }
  }

  /** Every handler accesses what the locks guard under the right lock, and gives all of them
      back; only an answer looks at the nickname without. */
  lemma HandlerSafe(job: Job)
    ensures Safe(0, map[], Trace(job), Replies(job))
  {
    hide Safe, Reply, Updates, Leaves, Unloading;
    SafeNothing(0, map[], false);
    SafeReply(0, map[]);
    match job
    case NickLine(renames) => SafeUpdates(0, Nick, renames, false);
    case JoinLine(changes) => SafeUpdates(0, Chan, changes, false);
    case PartLine(changes) => SafeUpdates(0, Chan, changes, false);
    case JoinCommand(_, sent) => SafeUpdates(0, Chan, sent, false);
    case DumpInfo =>
      SafeTouch(0, map[], Nick, Exclusive, false, false);
      SafeTouch(0, map[], Chan, Shared, false, false);
      SafeAppend(0, map[], Within(Nick, Exclusive, Reads(Nick)), Within(Chan, Shared, Reads(Chan)), false);
    case PartCommand(_, parted) =>
      SafeUpdates(0, Chan, parted, Replies(job));
      SafeAppendReply(Within(Chan, Exclusive, Updates(Chan, parted)), parted);
    case LoadCommand(_) => SafeLoading();
    case UnloadCommand(loaded) =>
      SafeUnloading(loaded);
      assert map[][PluginsMap := Exclusive] == map[PluginsMap := Exclusive];
      SafeWithin(0, map[], PluginsMap, Exclusive, Unloading(loaded), true);
    case HelpCommand(loaded, noEntry) => SafeHelp(loaded && noEntry);
    case HelpList =>
      SafeTouch(0, map[], UserCommand, Exclusive, false, true);
      SafeAppend(0, map[], Within(UserCommand, Exclusive, Reads(UserCommand)), Reply(), true);
      SafeAppend(0, map[], Reply(), Within(UserCommand, Exclusive, Reads(UserCommand)) + Reply(), true);
    case PluginCommand(found, body) => SafeCallback(found, body);
    case _ =>
  }

  lemma SafeAppendReply(a: seq<Action>, parted: bool)
    requires !parted ==> Safe(0, map[], a, true)
    ensures !parted ==> Safe(0, map[], a + Reply(), true)
  {
    hide Safe;
    SafeReply(0, map[]);
    if !parted {
      SafeAppend(0, map[], a, Reply(), true);
    }
  }

  lemma SafeLoading()
    ensures Safe(0, map[], Trace(LoadCommand(true)), true)
  {
    hide Safe, Reply;
    var need := map[PluginsMap := Exclusive];
    assert map[][PluginsMap := Exclusive] == need;
    SafeTouch(0, map[], UserCommand, Exclusive, true, true);
    SafeAccess(1, need, PluginsMap, true, true);
    SafeReply(1, need);
    SafeAppend(1, need, Writes(PluginsMap), Reply(), true);
    SafeWithin(0, map[], PluginsMap, Exclusive, Writes(PluginsMap) + Reply(), true);
    SafeAppend(0, map[], Within(UserCommand, Exclusive, Writes(UserCommand)),
               Within(PluginsMap, Exclusive, Writes(PluginsMap) + Reply()), true);
  }

  lemma SafeHelp(silent: bool)
    ensures Safe(0, map[], Within(PluginsMap, Shared, Reads(PluginsMap) + if silent then [] else Reply()), !silent)
  {
    hide Safe, Reply;
    var need := map[PluginsMap := Shared];
    assert map[][PluginsMap := Shared] == need;
    SafeAccess(1, need, PluginsMap, false, !silent);
    SafeNothing(1, need, !silent);
    SafeReply(1, need);
    var inner := if silent then [] else Reply();
    SafeAppend(1, need, Reads(PluginsMap), inner, !silent);
    SafeWithin(0, map[], PluginsMap, Shared, Reads(PluginsMap) + inner, !silent);
  }

  lemma SafeCallback(found: bool, body: seq<Leaf>)
    ensures Safe(0, map[], Trace(PluginCommand(found, body)), found && ReplyLeaf in body)
  {
    hide Safe, Leaves;
    var need, lax := map[UserCommand := Shared], found && ReplyLeaf in body;
    assert map[][UserCommand := Shared] == need;
    SafeAccess(2, need, UserCommand, false, lax);
    SafeNothing(2, need, lax);
    if found {
      SafeLeaves(need, body, lax);
    }
    var inner := if found then Leaves(body) else [];
    SafeAppend(2, need, Reads(UserCommand), inner, lax);
    SafeWithin(0, map[], UserCommand, Shared, Reads(UserCommand) + inner, lax);
  }

  // -------------------------------------------------------------- what they all touch

  function Accesses(todo: seq<Action>): seq<Action>
    decreases |todo|
  {
    if |todo| == 0 then []
    else (if todo[0].Access? then [todo[0]] else []) + Accesses(todo[1..])
  }

  lemma {:induction false} AccessesAppend(a: seq<Action>, b: seq<Action>)
    ensures Accesses(a + b) == Accesses(a) + Accesses(b)
  {
    if |a| == 0 {
      assert a + b == b;
    } else {
      assert (a + b)[1..] == a[1..] + b;
      AccessesAppend(a[1..], b);
    }
  }

  lemma AccessesWithin(l: Lock, m: Mode, inner: seq<Action>)
    ensures Accesses(Within(l, m, inner)) == Accesses(inner)
  {
    assert Within(l, m, inner)[1..] == inner + [Release(l)];
    AccessesAppend(inner, [Release(l)]);
    assert [Release(l)][1..] == [];
    assert Accesses(inner) + [] == Accesses(inner);
  }

  lemma AccessesOne(l: Lock, write: bool)
    ensures Accesses([Access(l, write)]) == [Access(l, write)]
  {
    assert [Access(l, write)][1..] == [];
  }

  lemma AccessesUpdates(l: Lock, changes: bool)
    ensures Accesses(Updates(l, changes)) == Updates(l, changes)
  {
    AccessesOne(l, false);
    AccessesOne(l, true);
    AccessesAppend([Access(l, false)], if changes then [Access(l, true)] else []);
  }

  lemma AccessesReply()
    ensures Accesses(Reply()) == [Access(Nick, false)]
  {
    AccessesWithin(Nick, Exclusive, []);
    AccessesOne(Nick, false);
    AccessesAppend(Within(Nick, Exclusive, []), Reads(Nick));
  }

  /** What a callback touches: the nickname for an answer, the channels otherwise. */
  function LeavesTouch(body: seq<Leaf>): seq<Action> {
    if |body| == 0 then []
    else
      (match body[0]
       case ReplyLeaf => [Access(Nick, false)]
       case ChannelLeaf(false) => [Access(Chan, false)]
       case ChannelLeaf(true) => [Access(Chan, false), Access(Chan, true)])
      + LeavesTouch(body[1..])
  }

  lemma {:induction false} AccessesLeaves(body: seq<Leaf>)
    ensures Accesses(Leaves(body)) == LeavesTouch(body)
  {
    hide Reply;
    if |body| > 0 {
      AccessesLeaves(body[1..]);
      AccessesReply();
      if body[0].ChannelLeaf? {
        AccessesUpdates(Chan, body[0].changes);
        AccessesWithin(Chan, Exclusive, Updates(Chan, body[0].changes));
      }
      AccessesAppend(LeafTrace(body[0]), Leaves(body[1..]));
    }
  }

  /** What a handler does to the four structures, whatever locks it takes: the channel methods
      look a channel up and change it or not, an answer looks at the nickname, a load inserts
      into both maps, an unload looks a plugin up and erases from both. */
  function Touched(job: Job): seq<Action> {
    match job
    case PingLine => []
    case NickLine(renames) => if renames then [Access(Nick, false), Access(Nick, true)] else [Access(Nick, false)]
    case JoinLine(changes) => if changes then [Access(Chan, false), Access(Chan, true)] else [Access(Chan, false)]
    case PartLine(changes) => if changes then [Access(Chan, false), Access(Chan, true)] else [Access(Chan, false)]
    case DumpInfo => [Access(Nick, false), Access(Chan, false)]
    case WrongArguments => [Access(Nick, false)]
    case Hi => [Access(Nick, false)]
    case NickCommand(permitted) => if permitted then [] else [Access(Nick, false)]
    case JoinCommand(permitted, sent) =>
      if !permitted then [Access(Nick, false)]
      else if sent then [Access(Chan, false), Access(Chan, true)] else [Access(Chan, false)]
    case PartCommand(permitted, parted) =>
      if !permitted then [Access(Nick, false)]
      else if parted then [Access(Chan, false), Access(Chan, true)]
      else [Access(Chan, false), Access(Nick, false)]
    case LoadCommand(opens) =>
      if opens then [Access(UserCommand, true), Access(PluginsMap, true), Access(Nick, false)] else [Access(Nick, false)]
    case UnloadCommand(loaded) =>
      if loaded then
        [Access(PluginsMap, false), Access(UserCommand, true), Access(PluginsMap, true), Access(Nick, false)]
      else [Access(PluginsMap, false), Access(Nick, false)]
    case HelpCommand(loaded, noEntry) =>
      if loaded && noEntry then [Access(PluginsMap, false)] else [Access(PluginsMap, false), Access(Nick, false)]
    case HelpList => [Access(Nick, false), Access(UserCommand, false), Access(Nick, false)]
    case PluginCommand(found, body) =>
      [Access(UserCommand, false)] + if found then LeavesTouch(body) else []
  }

  lemma AccessesSection(l: Lock, m: Mode, changes: bool)
    ensures Accesses(Within(l, m, Updates(l, changes))) == Updates(l, changes)
  {
    AccessesUpdates(l, changes);
    AccessesWithin(l, m, Updates(l, changes));
  }

  lemma AccessesTouch(l: Lock, m: Mode, write: bool)
    ensures Accesses(Within(l, m, [Access(l, write)])) == [Access(l, write)]
  {
    AccessesOne(l, write);
    AccessesWithin(l, m, [Access(l, write)]);
  }

  lemma AccessesUnloading(loaded: bool)
    ensures Accesses(Within(PluginsMap, Exclusive, Unloading(loaded))) == Touched(UnloadCommand(loaded))
  {
    hide Accesses, Within, Reply;
    AccessesReply();
    AccessesOne(PluginsMap, false);
    AccessesOne(PluginsMap, true);
    AccessesTouch(UserCommand, Exclusive, true);
    var del := Within(UserCommand, Exclusive, Writes(UserCommand));
    AccessesAppend(Writes(PluginsMap), Reply());
    AccessesAppend(del, Writes(PluginsMap) + Reply());
    AccessesAppend(Reads(PluginsMap), if loaded then del + (Writes(PluginsMap) + Reply()) else Reply());
    AccessesWithin(PluginsMap, Exclusive, Unloading(loaded));
  }

  lemma HandlerTouches(job: Job)
    ensures Accesses(Trace(job)) == Touched(job)
  {
    hide Accesses, Within, Reply, Leaves, Unloading;
    AccessesReply();
    NoAccesses();
    match job
    case NickLine(renames) => AccessesSection(Nick, Exclusive, renames);
    case JoinLine(changes) => AccessesSection(Chan, Exclusive, changes);
    case PartLine(changes) => AccessesSection(Chan, Exclusive, changes);
    case JoinCommand(_, sent) => AccessesSection(Chan, Exclusive, sent);
    case DumpInfo =>
      AccessesTouch(Nick, Exclusive, false);
      AccessesTouch(Chan, Shared, false);
      AccessesAppend(Within(Nick, Exclusive, Reads(Nick)), Within(Chan, Shared, Reads(Chan)));
    case PartCommand(_, parted) =>
      AccessesSection(Chan, Exclusive, parted);
      AccessesAppend(Within(Chan, Exclusive, Updates(Chan, parted)), Reply());
    case LoadCommand(_) =>
      AccessesTouch(UserCommand, Exclusive, true);
      AccessesOne(PluginsMap, true);
      AccessesAppend(Writes(PluginsMap), Reply());
      AccessesWithin(PluginsMap, Exclusive, Writes(PluginsMap) + Reply());
      AccessesAppend(Within(UserCommand, Exclusive, Writes(UserCommand)),
                     Within(PluginsMap, Exclusive, Writes(PluginsMap) + Reply()));
    case UnloadCommand(loaded) => AccessesUnloading(loaded);
    case HelpCommand(loaded, noEntry) =>
      var inner := if loaded && noEntry then [] else Reply();
      AccessesOne(PluginsMap, false);
      AccessesAppend(Reads(PluginsMap), inner);
      AccessesWithin(PluginsMap, Shared, Reads(PluginsMap) + inner);
    case HelpList =>
      AccessesTouch(UserCommand, Exclusive, false);
      AccessesAppend(Within(UserCommand, Exclusive, Reads(UserCommand)), Reply());
      AccessesAppend(Reply(), Within(UserCommand, Exclusive, Reads(UserCommand)) + Reply());
    case PluginCommand(found, body) =>
      AccessesLeaves(body);
      var inner := if found then Leaves(body) else [];
      AccessesOne(UserCommand, false);
      AccessesAppend(Reads(UserCommand), inner);
      AccessesWithin(UserCommand, Shared, Reads(UserCommand) + inner);
    case _ =>
  }

  lemma NoAccesses()
    ensures Accesses([]) == []
  {
  }

  // ------------------------------------------------------- answers do look without lock

  ghost predicate Bare(a: seq<Action>) { forall held: map<Lock, Mode> :: !Guarded(held, a, false) }

  lemma BareReply()
    ensures Bare(Reply())
  {
    forall held: map<Lock, Mode> ensures !Guarded(held, Reply(), false) {
      var h := HeldAfter(held, Within(Nick, Exclusive, []));
      assert Within(Nick, Exclusive, []) == [Acquire(Nick, Exclusive), Release(Nick)];
      assert Within(Nick, Exclusive, [])[1..] == [Release(Nick)];
      assert Nick !in h;
      GuardedAppend(held, Within(Nick, Exclusive, []), Reads(Nick), false);
    }
  }

  lemma BareAppend(a: seq<Action>, b: seq<Action>)
    requires Bare(a) || Bare(b)
    ensures Bare(a + b)
  {
    hide Guarded;
    forall held: map<Lock, Mode> ensures !Guarded(held, a + b, false) {
      GuardedAppend(held, a, b, false);
    }
  }

  lemma BareWithin(l: Lock, m: Mode, inner: seq<Action>)
    requires Bare(inner)
    ensures Bare(Within(l, m, inner))
  {
    hide Bare;
    BareAppend(inner, [Release(l)]);
    BareAppend([Acquire(l, m)], inner + [Release(l)]);
  }

  lemma {:induction false} BareLeaves(body: seq<Leaf>)
    requires ReplyLeaf in body
    ensures Bare(Leaves(body))
  {
    hide Bare, Reply;
    if body[0] == ReplyLeaf {
      BareReply();
    } else {
      BareLeaves(body[1..]);
    }
    BareAppend(LeafTrace(body[0]), Leaves(body[1..]));
  }

  lemma HandlerBare(job: Job)
    requires Replies(job)
    ensures Bare(Trace(job))
  {
    hide Bare, Reply, Updates, Leaves;
    BareReply();
    match job
    case PartCommand(_, _) => BareAppend(Within(Chan, Exclusive, Updates(Chan, false)), Reply());
    case LoadCommand(_) =>
      BareAppend(Writes(PluginsMap), Reply());
      BareWithin(PluginsMap, Exclusive, Writes(PluginsMap) + Reply());
      BareAppend(Within(UserCommand, Exclusive, Writes(UserCommand)),
                 Within(PluginsMap, Exclusive, Writes(PluginsMap) + Reply()));
    case UnloadCommand(loaded) =>
      BareAppend(Writes(PluginsMap), Reply());
      var del := Within(UserCommand, Exclusive, Writes(UserCommand));
      BareAppend(del, Writes(PluginsMap) + Reply());
      BareAppend(Reads(PluginsMap), if loaded then del + (Writes(PluginsMap) + Reply()) else Reply());
      BareWithin(PluginsMap, Exclusive, Unloading(loaded));
    case HelpCommand(_, _) =>
      BareAppend(Reads(PluginsMap), Reply());
      BareWithin(PluginsMap, Shared, Reads(PluginsMap) + Reply());
    case HelpList =>
      BareAppend(Reply(), Within(UserCommand, Exclusive, Reads(UserCommand)) + Reply());
    case PluginCommand(_, body) =>
      BareLeaves(body);
      BareAppend(Reads(UserCommand), Leaves(body));
      BareWithin(UserCommand, Shared, Reads(UserCommand) + Leaves(body));
    case _ =>
  }

  // ------------------------------------------------------------- whole lists of handlers

  predicate AnyReplies(jobs: seq<Job>) { exists k :: 0 <= k < |jobs| && Replies(jobs[k]) }

  lemma JobHeld(job: Job)
    ensures HeldAfter(map[], Trace(job)) == map[]
    ensures Guarded(map[], Trace(job), true)
    ensures Guarded(map[], Trace(job), false) <==> !Replies(job)
  {
    hide HeldAfter, Guarded, Trace;
    HandlerSafe(job);
    assert Fits(0, map[], map[]);
    if Replies(job) {
      HandlerBare(job);
    } else {
      LaxIsWeaker(map[], Trace(job));
    }
  }

  lemma {:induction false} JobsHeld(jobs: seq<Job>)
    ensures HeldAfter(map[], Traces(jobs)) == map[]
    ensures Guarded(map[], Traces(jobs), true)
    ensures Guarded(map[], Traces(jobs), false) <==> !AnyReplies(jobs)
  {
    hide HeldAfter, Guarded, Trace, Replies;
    if |jobs| == 0 {
      NothingHeld();
    } else {
      var more := jobs[1..];
      JobHeld(jobs[0]);
      JobsHeld(more);
      HeldAfterAppend(map[], Trace(jobs[0]), Traces(more));
      GuardedAppend(map[], Trace(jobs[0]), Traces(more), true);
      GuardedAppend(map[], Trace(jobs[0]), Traces(more), false);
      assert AnyReplies(jobs) <==> Replies(jobs[0]) || AnyReplies(more) by {
        assert forall k :: 0 <= k < |more| ==> more[k] == jobs[k + 1];
        if AnyReplies(jobs) && !Replies(jobs[0]) {
          var k :| 0 <= k < |jobs| && Replies(jobs[k]);
          assert Replies(more[k - 1]);
        }
        if AnyReplies(more) {
          var k :| 0 <= k < |more| && Replies(more[k]);
          assert Replies(jobs[k + 1]);
        }
      }
    }
  }

  lemma NothingHeld()
    ensures HeldAfter(map[], []) == map[] && Guarded(map[], [], true) && Guarded(map[], [], false)
  {
  }

  // ---------------------------------------------------------------------- every schedule

  /** Two threads are about to access one structure, and one of them to change it. */
  predicate Conflict(s: System, i: nat, j: nat) {
    && i < |s| && j < |s| && i != j && s[i].todo != [] && s[j].todo != []
    && s[i].todo[0].Access? && s[i].todo[0].write
    && s[j].todo[0].Access? && s[j].todo[0].lock == s[i].todo[0].lock
  }

  ghost predicate AllGuarded(s: System, programs: seq<seq<Job>>) {
    && |s| == |programs|
    && forall i :: 0 <= i < |s| ==> ThreadGuarded(s[i], programs[i])
  }

  /** What is left of the handlers is guarded, and is a part of them. */
  ghost predicate ThreadGuarded(t: Thread, jobs: seq<Job>) {
    && Guarded(t.held, t.todo, AnyReplies(jobs))
    && (Renames(t.todo) ==> NickLine(true) in jobs)
  }

  lemma AfterIs(t: Thread)
    requires t.todo != []
    ensures After(t) == Thread(HeldNext(t.held, t.todo[0]), t.todo[1..])
  {
  }

  lemma StepKeepsGuarded(s: System, i: nat, programs: seq<seq<Job>>)
    requires AllGuarded(s, programs) && i < |s| && s[i].todo != []
    ensures AllGuarded(Step(s, i), programs)
  {
    hide HeldAfter, AnyReplies;
    AfterIs(s[i]);
    assert ThreadGuarded(s[i], programs[i]);
  }

  lemma {:induction false} RunKeepsGuarded(s: System, schedule: seq<nat>, writersFirst: bool, programs: seq<seq<Job>>)
    requires AllGuarded(s, programs) && Runs(s, schedule, writersFirst)
    ensures AllGuarded(Final(s, schedule, writersFirst), programs)
    decreases |schedule|
  {
    hide AllGuarded;
    if |schedule| > 0 {
      StepKeepsGuarded(s, schedule[0], programs);
      RunKeepsGuarded(Step(s, schedule[0]), schedule[1..], writersFirst, programs);
    }
  }

  ghost predicate Renames(a: seq<Action>) { Access(Nick, true) in a }

  lemma RenamesAppend(a: seq<Action>, b: seq<Action>)
    ensures Renames(a + b) <==> Renames(a) || Renames(b)
  {
  }

  lemma RenamesWithin(l: Lock, m: Mode, inner: seq<Action>)
    ensures Renames(Within(l, m, inner)) <==> Renames(inner)
  {
  }

  lemma ReplyRenamesNothing()
    ensures !Renames(Reply())
  {
    RenamesWithin(Nick, Exclusive, []);
    RenamesAppend(Within(Nick, Exclusive, []), Reads(Nick));
  }

  lemma UpdatesRename(l: Lock, changes: bool)
    ensures Renames(Updates(l, changes)) <==> l == Nick && changes
  {
    if changes {
      assert Updates(l, changes)[1] == Access(l, true);
    }
  }

  lemma {:induction false} LeavesDoNotRename(body: seq<Leaf>)
    ensures !Renames(Leaves(body))
  {
    hide Renames, Reply, Updates, Within;
    if |body| == 0 {
      NothingRenames();
    } else {
      LeavesDoNotRename(body[1..]);
      ReplyRenamesNothing();
      if body[0].ChannelLeaf? {
        UpdatesRename(Chan, body[0].changes);
        RenamesWithin(Chan, Exclusive, Updates(Chan, body[0].changes));
      }
      RenamesAppend(LeafTrace(body[0]), Leaves(body[1..]));
    }
  }

  lemma NothingRenames()
    ensures !Renames([]) && forall l :: !Renames(Reads(l)) && (Renames(Writes(l)) <==> l == Nick)
  {
    forall l ensures !Renames(Reads(l)) && (Renames(Writes(l)) <==> l == Nick) {
      assert Writes(l)[0] == Access(l, true);
    }
  }

  /** Only a NICK line that renames the bot changes the nickname. */
  lemma OnlyNickLinesRename(job: Job)
    ensures Renames(Trace(job)) <==> job == NickLine(true)
  {
    hide Renames, Reply, Updates, Within, Leaves, Reads, Writes;
    NothingRenames();
    ReplyRenamesNothing();
    UpdatesRename(Chan, true);
    UpdatesRename(Chan, false);
    UpdatesRename(Nick, true);
    UpdatesRename(Nick, false);
    forall l, m, inner ensures Renames(Within(l, m, inner)) <==> Renames(inner) {
      RenamesWithin(l, m, inner);
    }
    forall a, b ensures Renames(a + b) <==> Renames(a) || Renames(b) {
      RenamesAppend(a, b);
    }
    if job.PluginCommand? {
      LeavesDoNotRename(job.body);
    }
  }

  lemma {:induction false} OnlyNickLinesRenameAll(jobs: seq<Job>)
    ensures Renames(Traces(jobs)) ==> NickLine(true) in jobs
  {
    hide Trace;
    if |jobs| > 0 {
      OnlyNickLinesRename(jobs[0]);
      RenamesAppend(Trace(jobs[0]), Traces(jobs[1..]));
      OnlyNickLinesRenameAll(jobs[1..]);
    }
  }

  lemma StartGuarded(programs: seq<seq<Job>>)
    ensures AllGuarded(Start(programs), programs)
  {
    hide Guarded, Traces, AnyReplies;
    forall i | 0 <= i < |programs| ensures ThreadGuarded(Start(programs)[i], programs[i]) {
      JobsHeld(programs[i]);
      OnlyNickLinesRenameAll(programs[i]);
    }
  }

  lemma ConflictIsNick(s: System, programs: seq<seq<Job>>, i: nat, j: nat)
    requires Exclusion(s) && AllGuarded(s, programs) && Conflict(s, i, j)
    ensures s[i].todo[0] == Access(Nick, true) && s[j].todo[0] == BARE_LOOK
    ensures NickLine(true) in programs[i] && AnyReplies(programs[j])
  {
    hide AnyReplies;
    var l := s[i].todo[0].lock;
    assert ThreadGuarded(s[i], programs[i]) && ThreadGuarded(s[j], programs[j]);
    assert Covered(s[i].held, s[i].todo[0]);
    assert HeldBy(s, i, l);
    assert !HeldBy(s, j, l);
  }

  /** Race freedom, in every schedule of any number of threads, readers or writers preferred:
      no two threads are ever at conflicting accesses to the plugins, the commands or the
      channels; and at the nickname, only a renaming NICK line and an answer are. */
  lemma OnlyTheNicknameRaces(programs: seq<seq<Job>>, schedule: seq<nat>, writersFirst: bool, i: nat, j: nat)
    requires Runs(Start(programs), schedule, writersFirst)
    requires Conflict(Final(Start(programs), schedule, writersFirst), i, j)
    ensures var s := Final(Start(programs), schedule, writersFirst);
            s[i].todo[0] == Access(Nick, true) && s[j].todo[0] == Access(Nick, false)
    ensures i < |programs| && j < |programs| && NickLine(true) in programs[i] && AnyReplies(programs[j])
  {
    hide AnyReplies, Conflict;
    StartInv(programs);
    Locks.RunKeepsInv(Start(programs), schedule, writersFirst);
    StartGuarded(programs);
    RunKeepsGuarded(Start(programs), schedule, writersFirst, programs);
    ConflictIsNick(Final(Start(programs), schedule, writersFirst), programs, i, j);
    ConflictPlaces(Final(Start(programs), schedule, writersFirst), i, j);
  }

  lemma ConflictPlaces(s: System, i: nat, j: nat)
    requires Conflict(s, i, j)
    ensures i < |s| && j < |s| && i != j
  {
  }

  // ------------------------------------------------------------- and the nickname does

  /** `n` times thread `i`. */
  function Alone(i: nat, n: nat): seq<nat> { seq(n, _ => i) }

  /** Thread `i` after its next `n` actions. */
  function Moved(s: System, i: nat, n: nat): System
    requires i < |s| && n <= |s[i].todo|
  {
    s[i := Thread(HeldAfter(s[i].held, s[i].todo[..n]), s[i].todo[n..])]
  }

  lemma MovedOne(s: System, i: nat, n: nat)
    requires i < |s| && 0 < n <= |s[i].todo|
    ensures n - 1 <= |Step(s, i)[i].todo| && Moved(Step(s, i), i, n - 1) == Moved(s, i, n)
  {
    AfterIs(s[i]);
    var t := s[i].todo;
    assert t[..n][0] == t[0] && t[..n][1..] == t[1..][..n - 1];
    assert t[1..][n - 1..] == t[n..];
  }

  /** A thread can run alone while the others hold nothing. */
  lemma {:induction false} RunsAlone(s: System, i: nat, n: nat)
    requires i < |s| && n <= |s[i].todo| && Ordered(s[i].held.Keys, s[i].todo)
    requires forall k :: 0 <= k < |s| && k != i ==> s[k].held == map[]
    ensures Runs(s, Alone(i, n), false) && Final(s, Alone(i, n), false) == Moved(s, i, n)
    decreases n
  {
    hide HeldAfter, Moved;
    if n == 0 {
      MovedNot(s, i);
    } else {
      var t := s[i];
      assert forall j: nat, l :: HeldBy(s, j, l) ==> j == i;
      assert t.todo[0].Acquire? ==> t.todo[0].lock !in t.held.Keys;
      assert CanStep(s, i, false);
      assert Alone(i, n)[1..] == Alone(i, n - 1);
      MovedOne(s, i, n);
      OrderedStep(t);
      RunsAlone(Step(s, i), i, n - 1);
    }
  }

  lemma MovedNot(s: System, i: nat)
    requires i < |s|
    ensures Moved(s, i, 0) == s
  {
    assert s[i].todo[0..] == s[i].todo && s[i].todo[..0] == [];
  }

  lemma OrderedStep(t: Thread)
    requires t.todo != [] && Ordered(t.held.Keys, t.todo)
    ensures Ordered(After(t).held.Keys, After(t).todo)
  {
    match t.todo[0]
    case Acquire(l, m) => assert t.held[l := m].Keys == t.held.Keys + {l};
    case Release(l) => assert (t.held - {l}).Keys == t.held.Keys - {l};
    case Access(_, _) =>
  }

  lemma {:induction false} RunsAppend(s: System, a: seq<nat>, b: seq<nat>, writersFirst: bool)
    requires Runs(s, a, writersFirst) && Runs(Final(s, a, writersFirst), b, writersFirst)
    ensures Runs(s, a + b, writersFirst)
    ensures Final(s, a + b, writersFirst) == Final(Final(s, a, writersFirst), b, writersFirst)
    decreases |a|
  {
    if |a| == 0 {
      assert a + b == b;
    } else {
      assert (a + b)[1..] == a[1..] + b;
      RunsAppend(Step(s, a[0]), a[1..], b, writersFirst);
    }
  }

  /** Where a look is bare. */
  lemma {:induction false} BareLookAt(held: map<Lock, Mode>, todo: seq<Action>) returns (n: nat)
    requires Guarded(held, todo, true) && !Guarded(held, todo, false)
    ensures n < |todo| && todo[n] == BARE_LOOK && Nick !in HeldAfter(held, todo[..n])
    decreases |todo|
  {
    if Covered(held, todo[0]) {
      n := BareLookAt(HeldNext(held, todo[0]), todo[1..]);
      n := n + 1;
      assert todo[..n][0] == todo[0] && todo[..n][1..] == todo[1..][..n - 1];
    } else {
      n := 0;
      assert todo[..0] == [];
    }
  }

  lemma {:induction false} TracesAppend(a: seq<Job>, b: seq<Job>)
    ensures Traces(a + b) == Traces(a) + Traces(b)
  {
    hide Trace;
    if |a| == 0 {
      assert a + b == b;
    } else {
      assert (a + b)[1..] == a[1..] + b;
      TracesAppend(a[1..], b);
    }
  }

  /** A renaming NICK line, and the place where it begins. */
  lemma NickLineAt(jobs: seq<Job>) returns (n: nat)
    requires NickLine(true) in jobs
    ensures n + 3 < |Traces(jobs)| && HeldAfter(map[], Traces(jobs)[..n]) == map[]
    ensures Traces(jobs)[n] == Acquire(Nick, Exclusive) && Traces(jobs)[n + 1] == Access(Nick, false)
    ensures Traces(jobs)[n + 2] == Access(Nick, true)
  {
    hide HeldAfter, Guarded;
    var k :| 0 <= k < |jobs| && jobs[k] == NickLine(true);
    var pre, post := jobs[..k], jobs[k..];
    assert jobs == pre + post && post[0] == NickLine(true);
    TracesAppend(pre, post);
    JobsHeld(pre);
    n := |Traces(pre)|;
    assert Traces(jobs)[..n] == Traces(pre);
    var t := Trace(NickLine(true));
    assert t == [Acquire(Nick, Exclusive), Access(Nick, false), Access(Nick, true), Release(Nick)];
    assert Traces(post) == t + Traces(post[1..]);
  }

  lemma ToTheNickLine(programs: seq<seq<Job>>, i: nat) returns (n: nat)
    requires i < |programs| && NickLine(true) in programs[i]
    ensures var s := Start(programs);
            && n + 3 < |s[i].todo| && Runs(s, Alone(i, n), false) && Final(s, Alone(i, n), false) == Moved(s, i, n)
            && Moved(s, i, n)[i].held == map[]
            && Moved(s, i, n)[i].todo[..3] == [Acquire(Nick, Exclusive), Access(Nick, false), Access(Nick, true)]
  {
    hide HeldAfter, Runs, Final, Traces, Ordered;
    n := NickLineAt(programs[i]);
    var s := Start(programs);
    TracesOrdered(programs[i]);
    assert s[i].held.Keys == {};
    RunsAlone(s, i, n);
    var t := s[i].todo;
    assert t[n..][..3] == [t[n], t[n + 1], t[n + 2]];
  }

  lemma ToTheAnswer(s: System, programs: seq<seq<Job>>, j: nat) returns (n: nat)
    requires j < |programs| == |s| && s[j] == Thread(map[], Traces(programs[j])) && AnyReplies(programs[j])
    requires forall k :: 0 <= k < |s| && k != j ==> s[k].held == map[]
    ensures n < |s[j].todo| && Runs(s, Alone(j, n), false) && Final(s, Alone(j, n), false) == Moved(s, j, n)
    ensures Nick !in Moved(s, j, n)[j].held && Moved(s, j, n)[j].todo[0] == BARE_LOOK
  {
    hide HeldAfter, Runs, Final, Traces, Ordered, AnyReplies, Guarded;
    JobsHeld(programs[j]);
    TracesOrdered(programs[j]);
    assert s[j].held.Keys == {};
    n := BareLookAt(map[], Traces(programs[j]));
    RunsAlone(s, j, n);
  }

  /** The two steps of the NICK line up to its change. */
  lemma IntoTheNickLine(s: System, i: nat)
    requires i < |s| && |s[i].todo| >= 3 && forall k :: 0 <= k < |s| ==> Nick !in s[k].held
    requires s[i].todo[..3] == [Acquire(Nick, Exclusive), Access(Nick, false), Access(Nick, true)]
    ensures Runs(s, [i, i], false)
    ensures var s' := Final(s, [i, i], false);
            && |s'| == |s| && s'[i].todo != [] && s'[i].todo[0] == Access(Nick, true)
            && forall k :: 0 <= k < |s| && k != i ==> s'[k] == s[k]
  {
    var t := s[i].todo;
    assert t[0] == t[..3][0] && t[1] == t[..3][1] && t[2] == t[..3][2];
    assert forall k: nat :: !HeldBy(s, k, Nick);
    assert CanStep(s, i, false);
    var s1 := Step(s, i);
    assert s1[i].todo == t[1..] && CanStep(s1, i, false);
    var s2 := Step(s1, i);
    assert [i, i][1..] == [i] && [i][1..] == [];
    assert Runs(s2, [], false) && Final(s2, [], false) == s2;
    assert Runs(s1, [i], false) && Final(s1, [i], false) == s2;
    assert s2[i].todo == t[1..][1..];
  }

  ghost predicate CanRace(programs: seq<seq<Job>>, schedule: seq<nat>, writersFirst: bool) {
    && Runs(Start(programs), schedule, writersFirst)
    && exists i: nat, j: nat :: Conflict(Final(Start(programs), schedule, writersFirst), i, j)
  }

  lemma RaceExists(programs: seq<seq<Job>>, i: nat, j: nat) returns (schedule: seq<nat>)
    requires i < |programs| && j < |programs| && i != j
    requires NickLine(true) in programs[i] && AnyReplies(programs[j])
    ensures CanRace(programs, schedule, false)
  {
    hide HeldAfter, Runs, Final, Traces, AnyReplies, Replies;
    var s := Start(programs);
    var n := ToTheNickLine(programs, i);
    var s1 := Moved(s, i, n);
    var m := ToTheAnswer(s1, programs, j);
    var s2 := Moved(s1, j, m);
    RunsAppend(s, Alone(i, n), Alone(j, m), false);
    assert s2[i] == s1[i];
    IntoTheNickLine(s2, i);
    var before := Alone(i, n) + Alone(j, m);
    RunsAppend(s, before, [i, i], false);
    schedule := before + [i, i];
    assert Conflict(Final(s, schedule, false), i, j);
  }

  /** With readers preferred, some schedule brings two threads to conflicting accesses exactly
      when one of them has a NICK line that renames the bot, and another one answers somebody:
      the reference that GetNickname returns is used without its lock. */
  lemma RaceIff(programs: seq<seq<Job>>)
    ensures (exists schedule :: CanRace(programs, schedule, false))
       <==> (exists i: nat, j: nat :: i < |programs| && j < |programs| && i != j
                                      && NickLine(true) in programs[i] && AnyReplies(programs[j]))
  {
    hide Runs, Final, AnyReplies, Conflict;
    if schedule :| CanRace(programs, schedule, false) {
      var i: nat, j: nat :| Conflict(Final(Start(programs), schedule, false), i, j);
      OnlyTheNicknameRaces(programs, schedule, false, i, j);
      ConflictPlaces(Final(Start(programs), schedule, false), i, j);
    }
    if i: nat, j: nat :| i < |programs| && j < |programs| && i != j
                         && NickLine(true) in programs[i] && AnyReplies(programs[j]) {
      var schedule := RaceExists(programs, i, j);
    }
  }
}
