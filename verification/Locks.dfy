/**
 The locks of src/Server.hh as the command handlers and line handlers take them
 (src/Manager.cc, src/UserCommand.cc, src/Server.cc), and their accesses to what the locks
 guard: any number of threads, each running any list of handlers, over reader/writer locks.
 */
module Locks {

  datatype Lock = PluginsMap | UserCommand | Nick | Chan

  datatype Mode = Shared | Exclusive

  /** An access is to the structure that belongs to the lock: the plugins, the commands, the
      nickname, the channels. */
  datatype Action = Acquire(lock: Lock, mode: Mode) | Release(lock: Lock) | Access(lock: Lock, write: bool)

  datatype Thread = Thread(held: map<Lock, Mode>, todo: seq<Action>)

  type System = seq<Thread>

  /** The order of acquisition. */
  function Rank(l: Lock): nat {
    match l
    case PluginsMap => 0
    case UserCommand => 1
    case Nick => 2
    case Chan => 3
  }

  // -------------------------------------------------------------------- the threads

  predicate Waits(t: Thread, l: Lock, m: Mode) {
    t.todo != [] && t.todo[0] == Acquire(l, m)
  }

  predicate HeldBy(s: System, i: nat, l: Lock) { i < |s| && l in s[i].held }

  /** Thread `i` can take its next action. A writer waits for all holders, a reader
      for a writer; with `writersFirst` a reader also lets a waiting writer pass. */
  ghost predicate CanStep(s: System, i: nat, writersFirst: bool) {
    && i < |s| && s[i].todo != []
    && match s[i].todo[0]
       case Release(_) => true
       case Access(_, _) => true
       case Acquire(l, Exclusive) => forall j: nat :: !HeldBy(s, j, l)
       case Acquire(l, Shared) =>
         && (forall j: nat :: HeldBy(s, j, l) ==> s[j].held[l] == Shared)
         && (writersFirst ==> forall j: nat :: j < |s| ==> !Waits(s[j], l, Exclusive))
  }

  function After(t: Thread): Thread
    requires t.todo != []
  {
    match t.todo[0]
    case Acquire(l, m) => Thread(t.held[l := m], t.todo[1..])
    case Release(l) => Thread(t.held - {l}, t.todo[1..])
    case Access(_, _) => Thread(t.held, t.todo[1..])
  }

  function Step(s: System, i: nat): System
    requires i < |s| && s[i].todo != []
  {
    s[i := After(s[i])]
  }

  /** A schedule: which thread moves at each step. */
  ghost predicate Runs(s: System, schedule: seq<nat>, writersFirst: bool)
    decreases |schedule|
  {
    |schedule| > 0 ==>
      CanStep(s, schedule[0], writersFirst) && Runs(Step(s, schedule[0]), schedule[1..], writersFirst)
  }

  ghost function Final(s: System, schedule: seq<nat>, writersFirst: bool): System
    requires Runs(s, schedule, writersFirst)
    decreases |schedule|
  {
    if |schedule| == 0 then s else Final(Step(s, schedule[0]), schedule[1..], writersFirst)
  }

  predicate Finished(t: Thread) { t.todo == [] }

  // ------------------------------------------------------------------ the discipline

  /** From a thread that holds `held`: every acquisition ranks above all locks held,
      only held locks are released, and none is held at the end. */
  predicate Ordered(held: set<Lock>, todo: seq<Action>)
    decreases |todo|
  {
    if |todo| == 0 then held == {}
    else
      match todo[0]
      case Acquire(l, _) => (forall h :: h in held ==> Rank(h) < Rank(l)) && Ordered(held + {l}, todo[1..])
      case Release(l) => l in held && Ordered(held - {l}, todo[1..])
      case Access(_, _) => Ordered(held, todo[1..])
  }

  /** A lock that two threads hold is held by both as readers. */
  ghost predicate Exclusion(s: System) {
    forall i: nat, j: nat, l :: i != j && HeldBy(s, i, l) && HeldBy(s, j, l) ==> s[i].held[l] == Shared
  }

  ghost predicate Inv(s: System) {
    && (forall i :: 0 <= i < |s| ==> Ordered(s[i].held.Keys, s[i].todo))
    && Exclusion(s)
  }

  lemma StepKeepsInv(s: System, i: nat, writersFirst: bool)
    requires Inv(s) && CanStep(s, i, writersFirst)
    ensures Inv(Step(s, i))
  {
    var t, t' := s[i], After(s[i]);
    match t.todo[0] {
      case Acquire(l, _) => assert t'.held.Keys == t.held.Keys + {l};
      case Release(l) => assert t'.held.Keys == t.held.Keys - {l};
      case Access(_, _) =>
    }
    var s' := Step(s, i);
    forall a: nat, b: nat, l | a != b && HeldBy(s', a, l) && HeldBy(s', b, l) ensures s'[a].held[l] == Shared {
      if a == i && t.todo[0].Acquire? && t.todo[0].lock == l {
        assert HeldBy(s, b, l);
      } else if b == i && t.todo[0].Acquire? && t.todo[0].lock == l {
        assert HeldBy(s, a, l);
      } else {
        assert HeldBy(s, a, l) && HeldBy(s, b, l);
      }
    }
  }

  /** Somebody can step: follow the chain of holders, whose waits rank ever higher. */
  lemma {:induction false} ChainEnds(s: System, i: nat, writersFirst: bool)
    requires Inv(s) && i < |s| && !Finished(s[i])
    ensures exists j: nat :: CanStep(s, j, writersFirst)
    decreases if s[i].todo[0].Acquire? then 4 - Rank(s[i].todo[0].lock) else 0
  {
    if CanStep(s, i, writersFirst) {
    } else {
      var l := s[i].todo[0].lock;
      if exists j: nat :: HeldBy(s, j, l) {
        var j: nat :| HeldBy(s, j, l);
        assert Ordered(s[j].held.Keys, s[j].todo);
        assert l in s[j].held.Keys;
        ChainEnds(s, j, writersFirst);
      } else {
        var j: nat :| j < |s| && Waits(s[j], l, Exclusive);
        assert CanStep(s, j, writersFirst);
      }
    }
  }

  function Work(s: System): nat {
    if |s| == 0 then 0 else |s[0].todo| + Work(s[1..])
  }

  lemma {:induction false} StepCosts(s: System, i: nat)
    requires i < |s| && s[i].todo != []
    ensures Work(Step(s, i)) == Work(s) - 1
  {
    if i == 0 {
      assert Step(s, 0)[1..] == s[1..];
    } else {
      assert Step(s, i)[1..] == Step(s[1..], i - 1);
      StepCosts(s[1..], i - 1);
    }
  }

  lemma {:induction false} RunKeepsInv(s: System, schedule: seq<nat>, writersFirst: bool)
    requires Inv(s) && Runs(s, schedule, writersFirst)
    ensures Inv(Final(s, schedule, writersFirst))
    ensures |schedule| + Work(Final(s, schedule, writersFirst)) == Work(s)
    decreases |schedule|
  {
    if |schedule| > 0 {
      StepKeepsInv(s, schedule[0], writersFirst);
      StepCosts(s, schedule[0]);
      RunKeepsInv(Step(s, schedule[0]), schedule[1..], writersFirst);
    }
  }

  // -------------------------------------------------------------------- the handlers

  /** A short section that a plugin's callback may go through, any number of times. */
  datatype Leaf = ReplyLeaf | ChannelLeaf(changes: bool)

  /** A handler, with the outcomes of its branches. */
  datatype Job =
    | PingLine
    | NickLine(renames: bool)
    | JoinLine(changes: bool)
    | PartLine(changes: bool)
    | DumpInfo
    | WrongArguments
    | Hi
    | NickCommand(permitted: bool)
    | JoinCommand(permitted: bool, sent: bool)
    | PartCommand(permitted: bool, parted: bool)
    | LoadCommand(opens: bool)
    | UnloadCommand(loaded: bool)
    | HelpCommand(loaded: bool, noEntry: bool)
    | HelpList
    | PluginCommand(found: bool, body: seq<Leaf>)

  function Within(l: Lock, m: Mode, inner: seq<Action>): seq<Action> {
    [Acquire(l, m)] + (inner + [Release(l)])
  }

  function Reads(l: Lock): seq<Action> { [Access(l, false)] }

  /** A look, and a change if there is something to change. */
  function Updates(l: Lock, changes: bool): seq<Action> {
    [Access(l, false)] + if changes then [Access(l, true)] else []
  }

  function Writes(l: Lock): seq<Action> { [Access(l, true)] }

  /** SendInvokerReply asks for the nickname, is given a reference to it, and looks at it when
      the lock has been released. */
  function Reply(): seq<Action> { Within(Nick, Exclusive, []) + Reads(Nick) }

  function LeafTrace(leaf: Leaf): seq<Action> {
    match leaf
    case ReplyLeaf => Reply()
    case ChannelLeaf(changes) => Within(Chan, Exclusive, Updates(Chan, changes))
  }

  function Leaves(body: seq<Leaf>): seq<Action> {
    if |body| == 0 then [] else LeafTrace(body[0]) + Leaves(body[1..])
  }

  function Trace(job: Job): seq<Action> {
    match job
    case PingLine => []
    case NickLine(renames) => Within(Nick, Exclusive, Updates(Nick, renames))
    case JoinLine(changes) => Within(Chan, Exclusive, Updates(Chan, changes))
    case PartLine(changes) => Within(Chan, Exclusive, Updates(Chan, changes))
    case DumpInfo => Within(Nick, Exclusive, Reads(Nick)) + Within(Chan, Shared, Reads(Chan))
    case WrongArguments => Reply()
    case Hi => Reply()
    case NickCommand(permitted) => if permitted then [] else Reply()
    case JoinCommand(permitted, sent) =>
      if permitted then Within(Chan, Exclusive, Updates(Chan, sent)) else Reply()
    case PartCommand(permitted, parted) =>
      if !permitted then Reply()
      else if parted then Within(Chan, Exclusive, Updates(Chan, true))
      else Within(Chan, Exclusive, Updates(Chan, false)) + Reply()
    case LoadCommand(opens) =>
      if opens then
        Within(UserCommand, Exclusive, Writes(UserCommand))
        + Within(PluginsMap, Exclusive, Writes(PluginsMap) + Reply())
      else Reply()
    case UnloadCommand(loaded) => Within(PluginsMap, Exclusive, Unloading(loaded))
    case HelpCommand(loaded, noEntry) =>
      Within(PluginsMap, Shared, Reads(PluginsMap) + if loaded && noEntry then [] else Reply())
    case HelpList => Reply() + (Within(UserCommand, Exclusive, Reads(UserCommand)) + Reply())
    case PluginCommand(found, body) =>
      Within(UserCommand, Shared, Reads(UserCommand) + if found then Leaves(body) else [])
  }

  function Unloading(loaded: bool): seq<Action> {
    if !loaded then Reads(PluginsMap) + Reply()
    else
      Reads(PluginsMap)
      + (Within(UserCommand, Exclusive, Writes(UserCommand)) + (Writes(PluginsMap) + Reply()))
  }

  function Traces(jobs: seq<Job>): seq<Action> {
    if |jobs| == 0 then [] else Trace(jobs[0]) + Traces(jobs[1..])
  }

  /** One thread for each list of handlers. */
  function Start(programs: seq<seq<Job>>): System {
    seq(|programs|, i requires 0 <= i < |programs| => Thread(map[], Traces(programs[i])))
  }

  // --------------------------------------------------- the handlers keep the discipline

  /** Actions that leave the locks held as they were, as long as those rank below `low`. */
  ghost predicate Balanced(low: nat, a: seq<Action>) {
    forall held: set<Lock>, b :: (forall h :: h in held ==> Rank(h) < low) && Ordered(held, b) ==> Ordered(held, a + b)
  }

  lemma BalancedAccess(low: nat, l: Lock, write: bool)
    ensures Balanced(low, [Access(l, write)])
  {
    forall held: set<Lock>, b | (forall h :: h in held ==> Rank(h) < low) && Ordered(held, b)
      ensures Ordered(held, [Access(l, write)] + b)
    {
      assert ([Access(l, write)] + b)[1..] == b;
    }
  }

  lemma BalancedUpdates(low: nat, l: Lock, changes: bool)
    ensures Balanced(low, Updates(l, changes))
  {
    hide Balanced;
    BalancedAccess(low, l, false);
    BalancedAccess(low, l, true);
    BalancedNothing(low);
    BalancedAppend(low, [Access(l, false)], if changes then [Access(l, true)] else []);
  }

  lemma BalancedAppend(low: nat, a: seq<Action>, b: seq<Action>)
    requires Balanced(low, a) && Balanced(low, b)
    ensures Balanced(low, a + b)
  {
    forall held: set<Lock>, c | (forall h :: h in held ==> Rank(h) < low) && Ordered(held, c)
      ensures Ordered(held, a + b + c)
    {
      assert Ordered(held, b + c);
      assert a + b + c == a + (b + c);
    }
  }

  lemma BalancedWithin(l: Lock, m: Mode, inner: seq<Action>)
    requires Balanced(Rank(l) + 1, inner)
    ensures Balanced(Rank(l), Within(l, m, inner))
  {
    forall held: set<Lock>, b | (forall h :: h in held ==> Rank(h) < Rank(l)) && Ordered(held, b)
      ensures Ordered(held, Within(l, m, inner) + b)
    {
      var close := [Release(l)] + b;
      assert l !in held;
      assert held + {l} - {l} == held;
      assert close[1..] == b;
      assert Ordered(held + {l}, close);
      assert Ordered(held + {l}, inner + close);
      var a := Within(l, m, inner) + b;
      assert a[1..] == inner + close;
    }
  }

  lemma BalancedNothing(low: nat)
    ensures Balanced(low, [])
  {
    forall held: set<Lock>, b | (forall h :: h in held ==> Rank(h) < low) && Ordered(held, b)
      ensures Ordered(held, [] + b)
    {
      assert [] + b == b;
    }
  }

  lemma BalancedBelow(low: nat, high: nat, a: seq<Action>)
    requires low <= high && Balanced(high, a)
    ensures Balanced(low, a)
  {
  }

  lemma BalancedReply(low: nat)
    requires low <= 2
    ensures Balanced(low, Reply())
  {
    hide Balanced;
    BalancedNothing(3);
    BalancedWithin(Nick, Exclusive, []);
    BalancedBelow(low, 2, Within(Nick, Exclusive, []));
    BalancedAccess(low, Nick, false);
    BalancedAppend(low, Within(Nick, Exclusive, []), Reads(Nick));
  }

  /** A section that looks at what its lock guards, and may change it. */
  lemma BalancedUpdate(low: nat, l: Lock, m: Mode, changes: bool)
    requires low <= Rank(l)
    ensures Balanced(low, Within(l, m, Updates(l, changes)))
  {
    hide Balanced;
    BalancedUpdates(Rank(l) + 1, l, changes);
    BalancedWithin(l, m, Updates(l, changes));
    BalancedBelow(low, Rank(l), Within(l, m, Updates(l, changes)));
  }

  lemma BalancedTouch(low: nat, l: Lock, m: Mode, write: bool)
    requires low <= Rank(l)
    ensures Balanced(low, Within(l, m, [Access(l, write)]))
  {
    hide Balanced;
    BalancedAccess(Rank(l) + 1, l, write);
    BalancedWithin(l, m, [Access(l, write)]);
    BalancedBelow(low, Rank(l), Within(l, m, [Access(l, write)]));
  }

  lemma {:induction false} BalancedLeaves(body: seq<Leaf>)
    ensures Balanced(2, Leaves(body))
  {
    hide Balanced;
    if |body| == 0 {
      BalancedNothing(2);
    } else {
      BalancedLeaves(body[1..]);
      BalancedReply(2);
      if body[0].ChannelLeaf? {
        BalancedUpdate(2, Chan, Exclusive, body[0].changes);
      }
      BalancedAppend(2, LeafTrace(body[0]), Leaves(body[1..]));
    }
  }

  lemma BalancedUnloading(loaded: bool)
    ensures Balanced(1, Unloading(loaded))
  {
    hide Balanced;
    BalancedAccess(1, PluginsMap, false);
    BalancedAccess(1, PluginsMap, true);
    BalancedReply(1);
    if loaded {
      BalancedTouch(1, UserCommand, Exclusive, true);
      BalancedAppend(1, Writes(PluginsMap), Reply());
      BalancedAppend(1, Within(UserCommand, Exclusive, Writes(UserCommand)), Writes(PluginsMap) + Reply());
      BalancedAppend(1, Reads(PluginsMap),
                     Within(UserCommand, Exclusive, Writes(UserCommand)) + (Writes(PluginsMap) + Reply()));
    } else {
      BalancedAppend(1, Reads(PluginsMap), Reply());
    }
  }

  /** Every handler takes its locks in the order plugins map, command map, nickname or
      channels, and gives all of them back. */
  lemma HandlerOrdered(job: Job)
    ensures Balanced(0, Trace(job))
  {
    hide Balanced, Reply, Updates;
    BalancedNothing(0);
    BalancedNothing(1);
    BalancedNothing(2);
    BalancedReply(0);
    BalancedReply(1);
    match job
    case NickLine(renames) => BalancedUpdate(0, Nick, Exclusive, renames);
    case JoinLine(changes) => BalancedUpdate(0, Chan, Exclusive, changes);
    case PartLine(changes) => BalancedUpdate(0, Chan, Exclusive, changes);
    case JoinCommand(_, sent) => BalancedUpdate(0, Chan, Exclusive, sent);
    case DumpInfo =>
      BalancedTouch(0, Nick, Exclusive, false);
      BalancedTouch(0, Chan, Shared, false);
      BalancedAppend(0, Within(Nick, Exclusive, Reads(Nick)), Within(Chan, Shared, Reads(Chan)));
    case PartCommand(_, parted) =>
      BalancedUpdate(0, Chan, Exclusive, parted);
      BalancedAppend(0, Within(Chan, Exclusive, Updates(Chan, parted)), Reply());
    case LoadCommand(_) =>
      BalancedTouch(0, UserCommand, Exclusive, true);
      BalancedAccess(1, PluginsMap, true);
      BalancedAppend(1, Writes(PluginsMap), Reply());
      BalancedWithin(PluginsMap, Exclusive, Writes(PluginsMap) + Reply());
      BalancedAppend(0, Within(UserCommand, Exclusive, Writes(UserCommand)),
                     Within(PluginsMap, Exclusive, Writes(PluginsMap) + Reply()));
    case UnloadCommand(loaded) =>
      BalancedUnloading(loaded);
      BalancedWithin(PluginsMap, Exclusive, Unloading(loaded));
    case HelpCommand(loaded, noEntry) =>
      var inner := if loaded && noEntry then [] else Reply();
      BalancedAccess(1, PluginsMap, false);
      BalancedAppend(1, Reads(PluginsMap), inner);
      BalancedWithin(PluginsMap, Shared, Reads(PluginsMap) + inner);
    case HelpList =>
      BalancedTouch(0, UserCommand, Exclusive, false);
      BalancedAppend(0, Within(UserCommand, Exclusive, Reads(UserCommand)), Reply());
      BalancedAppend(0, Reply(), Within(UserCommand, Exclusive, Reads(UserCommand)) + Reply());
    case PluginCommand(found, body) =>
      BalancedLeaves(body);
      var inner := if found then Leaves(body) else [];
      BalancedAccess(2, UserCommand, false);
      BalancedAppend(2, Reads(UserCommand), inner);
      BalancedWithin(UserCommand, Shared, Reads(UserCommand) + inner);
      BalancedBelow(0, 1, Within(UserCommand, Shared, Reads(UserCommand) + inner));
    case _ =>
  }

  lemma {:induction false} TracesOrdered(jobs: seq<Job>)
    ensures Ordered({}, Traces(jobs))
  {
    if |jobs| > 0 {
      TracesOrdered(jobs[1..]);
      HandlerOrdered(jobs[0]);
    }
  }

  lemma StartInv(programs: seq<seq<Job>>)
    ensures Inv(Start(programs))
  {
    var s := Start(programs);
    forall i | 0 <= i < |s| ensures Ordered(s[i].held.Keys, s[i].todo) {
      TracesOrdered(programs[i]);
      assert s[i].held.Keys == {};
    }
  }

  /** Deadlock freedom: after every schedule of every number of threads with any lists
      of handlers, writers never share a lock, and as long as some thread is not
      finished, some thread can step; no schedule is longer than the total number of
      actions. So every run goes on until all threads are finished. */
  lemma DeadlockFree(programs: seq<seq<Job>>, schedule: seq<nat>, writersFirst: bool)
    requires Runs(Start(programs), schedule, writersFirst)
    ensures var s := Final(Start(programs), schedule, writersFirst);
            && Exclusion(s)
            && |schedule| + Work(s) == Work(Start(programs))
            && ((exists i :: 0 <= i < |s| && !Finished(s[i])) ==> exists j: nat :: CanStep(s, j, writersFirst))
  {
    StartInv(programs);
    RunKeepsInv(Start(programs), schedule, writersFirst);
    var s := Final(Start(programs), schedule, writersFirst);
    if i :| 0 <= i < |s| && !Finished(s[i]) {
      ChainEnds(s, i, writersFirst);
    }
  }

  /** Why the dispatcher takes the command map's lock only after the built-in commands:
      held around a successful load, it would block the loading thread on itself. */
  lemma EarlyLockDeadlocks(writersFirst: bool)
    ensures var s := [Thread(map[], Within(UserCommand, Shared, Trace(LoadCommand(true))))];
            && Runs(s, [0], writersFirst)
            && (var s' := Final(s, [0], writersFirst);
                !Finished(s'[0]) && forall j: nat :: !CanStep(s', j, writersFirst))
  {
    var s := [Thread(map[], Within(UserCommand, Shared, Trace(LoadCommand(true))))];
    assert forall j: nat :: !HeldBy(s, j, UserCommand);
    assert CanStep(s, 0, writersFirst);
    var s' := Step(s, 0);
    assert [0][1..] == [];
    assert Runs(s', [0][1..], writersFirst);
    assert s'[0].todo[0] == Acquire(UserCommand, Exclusive);
    assert HeldBy(s', 0, UserCommand);
  }
}
