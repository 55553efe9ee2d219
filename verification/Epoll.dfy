/**
 EpollManager of src/Epoll.cc: a registry of file descriptors that shadows the
 kernel's interest list. ADD and MOD may fail for reasons of their own; DEL fails
 exactly when the descriptor is absent. Descriptors are not closed while they are
 registered (closing one would remove it from the kernel's list behind the
 registry's back).
 */
module Epoll {

  const EPOLLIN: bv32 := 0x1
  const EPOLLPRI: bv32 := 0x2
  const EPOLLOUT: bv32 := 0x4
  const EPOLLERR: bv32 := 0x8
  const EPOLLRDHUP: bv32 := 0x2000
  const EPOLLEXCLUSIVE: bv32 := 0x1000_0000
  const EPOLLWAKEUP: bv32 := 0x2000_0000
  const EPOLLONESHOT: bv32 := 0x4000_0000
  const EPOLLET: bv32 := 0x8000_0000

  /** EpollConfigFullMask, and the mask of GetConfigMask. */
  const CONFIG_MASK: bv32 := EPOLLET | EPOLLONESHOT | EPOLLWAKEUP | EPOLLEXCLUSIVE
  /** EpollEventFullMask. */
  const EVENT_FULL_MASK: bv32 := EPOLLIN | EPOLLOUT | EPOLLRDHUP | EPOLLPRI | EPOLLERR
  /** The mask of GetEventMask: EPOLLERR is not in it. */
  const EVENT_MASK: bv32 := EPOLLIN | EPOLLOUT | EPOLLRDHUP | EPOLLPRI

  datatype Context = Context(ev: bv32, cb: int, enabled: bool)

  datatype State = State(fdMap: map<int, Context>, kernel: map<int, bv32>)

  /** A call of the manager; `fails` is a failure of the kernel's own. */
  datatype Op =
    | Register(fd: int, events: bv32, cb: int, config: bv32, fails: bool)
    | Enable(fd: int, fails: bool)
    | Disable(fd: int)
    | ModifyEvents(fd: int, events: bv32, fails: bool)
    | ModifyConfig(fd: int, config: bv32, fails: bool)
    | ModifyCallback(fd: int, cb: int)
    | Delete(fd: int)

  datatype Reply = Done | Refused | LogicError

  datatype Errno = OK | EEXIST | ENOENT | OTHER

  // -------------------------------------------------------------------- the kernel

  function CtlAdd(k: map<int, bv32>, fd: int, ev: bv32, fails: bool): (map<int, bv32>, Errno) {
    if fd in k then (k, EEXIST) else if fails then (k, OTHER) else (k[fd := ev], OK)
  }

  function CtlMod(k: map<int, bv32>, fd: int, ev: bv32, fails: bool): (map<int, bv32>, Errno) {
    if fd !in k then (k, ENOENT) else if fails then (k, OTHER) else (k[fd := ev], OK)
  }

  function CtlDel(k: map<int, bv32>, fd: int): (map<int, bv32>, Errno) {
    if fd !in k then (k, ENOENT) else (k - {fd}, OK)
  }

  // ------------------------------------------------------------------- the registry

  function Combine(events: bv32, config: bv32): bv32 { events | config }

  /** GetConfigMask() | events. */
  function WithEvents(ev: bv32, events: bv32): bv32 { (ev & CONFIG_MASK) | events }

  /** GetEventMask() | config. */
  function WithConfig(ev: bv32, config: bv32): bv32 { (ev & EVENT_MASK) | config }

  function Apply(s: State, op: Op): (State, Reply) {
    match op
    case Register(fd, events, cb, config, fails) =>
      if fd in s.fdMap then (s, Refused)
      else
        var ev := Combine(events, config);
        var (k, e) := CtlAdd(s.kernel, fd, ev, fails);
        if e != OK then (s, Refused)
        else (State(s.fdMap[fd := Context(ev, cb, true)], k), Done)
    case Enable(fd, fails) =>
      if fd !in s.fdMap then (s, Refused)
      else if s.fdMap[fd].enabled then (s, Done)
      else
        var (k, e) := CtlAdd(s.kernel, fd, s.fdMap[fd].ev, fails);
        if e != OK then (s, Refused)
        else (State(s.fdMap[fd := s.fdMap[fd].(enabled := true)], k), Done)
    case Disable(fd) =>
      if fd !in s.fdMap then (s, Refused)
      else if !s.fdMap[fd].enabled then (s, Done)
      else
        var (k, e) := CtlDel(s.kernel, fd);
        if e != OK then (s, Refused)
        else (State(s.fdMap[fd := s.fdMap[fd].(enabled := false)], k), Done)
    case ModifyEvents(fd, events, fails) =>
      if events & CONFIG_MASK != 0 then (s, LogicError)
      else Modify(s, fd, (ev: bv32) => WithEvents(ev, events), fails)
    case ModifyConfig(fd, config, fails) =>
      if config & EVENT_FULL_MASK != 0 || config & EPOLLEXCLUSIVE != 0 then (s, LogicError)
      else Modify(s, fd, (ev: bv32) => WithConfig(ev, config), fails)
    case ModifyCallback(fd, cb) =>
      if fd !in s.fdMap then (s, Refused)
      else (s.(fdMap := s.fdMap[fd := s.fdMap[fd].(cb := cb)]), Done)
    case Delete(fd) =>
      if fd !in s.fdMap then (s, Refused)
      else
        var (k, e) := CtlDel(s.kernel, fd);
        (State(s.fdMap - {fd}, k), if e != OK then Refused else Done)
  }

  function Modify(s: State, fd: int, f: bv32 -> bv32, fails: bool): (State, Reply) {
    if fd !in s.fdMap then (s, Refused)
    else
      var ev := f(s.fdMap[fd].ev);
      var (k, e) := CtlMod(s.kernel, fd, ev, fails);
      if e != OK then (s, Refused)
      else (State(s.fdMap[fd := s.fdMap[fd].(ev := ev)], k), Done)
  }

  function Run(s: State, ops: seq<Op>): State
    decreases |ops|
  {
    if |ops| == 0 then s else Run(Apply(s, ops[0]).0, ops[1..])
  }

  // -------------------------------------------------------------------- agreement

  /** The kernel watches exactly the enabled descriptors, with the event mask that
      the registry records for them. */
  ghost predicate Agree(s: State) {
    && (forall fd :: fd in s.kernel <==> fd in s.fdMap && s.fdMap[fd].enabled)
    && (forall fd :: fd in s.kernel ==> s.kernel[fd] == s.fdMap[fd].ev)
  }

  lemma ApplyKeepsAgreement(s: State, op: Op)
    requires Agree(s)
    ensures Agree(Apply(s, op).0)
  {
  }

  /** After every sequence of calls, whatever ADD and MOD make of them. */
  lemma {:induction false} RunKeepsAgreement(s: State, ops: seq<Op>)
    requires Agree(s)
    ensures Agree(Run(s, ops))
    decreases |ops|
  {
    if |ops| > 0 {
      ApplyKeepsAgreement(s, ops[0]);
      RunKeepsAgreement(Apply(s, ops[0]).0, ops[1..]);
    }
  }

  /** So the two assertions of the source never fire: in a reachable state EnableFd
      is never told EEXIST, and DisableFd never ENOENT. */
  lemma AssertionsNeverFire(ops: seq<Op>, fd: int, fails: bool)
    ensures var s := Run(State(map[], map[]), ops);
            fd in s.fdMap ==>
              && (!s.fdMap[fd].enabled ==> CtlAdd(s.kernel, fd, s.fdMap[fd].ev, fails).1 != EEXIST)
              && (s.fdMap[fd].enabled ==> CtlDel(s.kernel, fd).1 == OK)
  {
    RunKeepsAgreement(State(map[], map[]), ops);
  }

  // ------------------------------------------------- the registry without the kernel

  datatype Entry = NoEntry | Entry(ctx: Context)

  function EntryOf(s: State, fd: int): Entry {
    if fd in s.fdMap then Entry(s.fdMap[fd]) else NoEntry
  }

  /** What a call on a descriptor does, said from its registry entry alone: disabling never
      fails, a modification needs an enabled descriptor, and a deletion reports whether the
      descriptor was enabled. */
  function Predict(e: Entry, op: Op): (Entry, Reply) {
    match op
    case Register(_, events, cb, config, fails) =>
      if e == NoEntry && !fails then (Entry(Context(Combine(events, config), cb, true)), Done) else (e, Refused)
    case Enable(_, fails) =>
      if e == NoEntry || (!e.ctx.enabled && fails) then (e, Refused)
      else (Entry(e.ctx.(enabled := true)), Done)
    case Disable(_) =>
      if e == NoEntry then (e, Refused) else (Entry(e.ctx.(enabled := false)), Done)
    case ModifyEvents(_, events, fails) =>
      if events & CONFIG_MASK != 0 then (e, LogicError)
      else if e == NoEntry || !e.ctx.enabled || fails then (e, Refused)
      else (Entry(e.ctx.(ev := WithEvents(e.ctx.ev, events))), Done)
    case ModifyConfig(_, config, fails) =>
      if config & EVENT_FULL_MASK != 0 || config & EPOLLEXCLUSIVE != 0 then (e, LogicError)
      else if e == NoEntry || !e.ctx.enabled || fails then (e, Refused)
      else (Entry(e.ctx.(ev := WithConfig(e.ctx.ev, config))), Done)
    case ModifyCallback(_, cb) =>
      if e == NoEntry then (e, Refused) else (Entry(e.ctx.(cb := cb)), Done)
    case Delete(_) =>
      if e == NoEntry then (e, Refused) else (NoEntry, if e.ctx.enabled then Done else Refused)
  }

  lemma ApplyIsPredicted(s: State, op: Op, fd: int)
    requires Agree(s)
    ensures Apply(s, op).1 == Predict(EntryOf(s, op.fd), op).1
    ensures EntryOf(Apply(s, op).0, fd) == if fd == op.fd then Predict(EntryOf(s, fd), op).0 else EntryOf(s, fd)
  {
    assert op.fd in s.kernel <==> op.fd in s.fdMap && s.fdMap[op.fd].enabled;
  }

  /** One descriptor's entry through a sequence of calls; calls on others do not touch it. */
  function PredictAll(e: Entry, ops: seq<Op>, fd: int): Entry
    decreases |ops|
  {
    if |ops| == 0 then e
    else PredictAll(if ops[0].fd == fd then Predict(e, ops[0]).0 else e, ops[1..], fd)
  }

  /** After every run, each descriptor stands where its own calls have put it, with no
      regard to the kernel's list or to other descriptors. */
  lemma {:induction false} RunIsPredicted(s: State, ops: seq<Op>, fd: int)
    requires Agree(s)
    ensures EntryOf(Run(s, ops), fd) == PredictAll(EntryOf(s, fd), ops, fd)
    decreases |ops|
  {
    hide Apply, Predict;
    if |ops| > 0 {
      ApplyKeepsAgreement(s, ops[0]);
      ApplyIsPredicted(s, ops[0], fd);
      RunIsPredicted(Apply(s, ops[0]).0, ops[1..], fd);
    }
  }

  /** Deleting always forgets the descriptor on both sides, but it reports success
      exactly when the descriptor was enabled: a disabled one is not in the kernel
      any more, and its DEL is refused. */
  lemma DeleteReports(ops: seq<Op>, fd: int)
    ensures var s := Run(State(map[], map[]), ops);
            var (s', reply) := Apply(s, Delete(fd));
            && fd !in s'.fdMap && fd !in s'.kernel
            && (reply == Done <==> fd in s.fdMap && s.fdMap[fd].enabled)
  {
    RunKeepsAgreement(State(map[], map[]), ops);
  }

  /** Disabling and enabling again restores both sides. */
  lemma DisableEnableRestores(ops: seq<Op>, fd: int)
    ensures var s := Run(State(map[], map[]), ops);
            fd in s.fdMap && s.fdMap[fd].enabled ==>
              Apply(Apply(s, Disable(fd)).0, Enable(fd, false)) == (s, Done)
  {
    RunKeepsAgreement(State(map[], map[]), ops);
    var s := Run(State(map[], map[]), ops);
    if fd in s.fdMap && s.fdMap[fd].enabled {
      var s' := Apply(Apply(s, Disable(fd)).0, Enable(fd, false)).0;
      assert s'.fdMap == s.fdMap;
      assert s'.kernel == s.kernel;
    }
  }

  const CONFIG_FLAGS: set<bv32> := {EPOLLET, EPOLLONESHOT, EPOLLWAKEUP, EPOLLEXCLUSIVE}
  const EVENT_FLAGS: set<bv32> := {EPOLLIN, EPOLLPRI, EPOLLOUT, EPOLLRDHUP, EPOLLERR}

  lemma ConfigMaskBits(ev: bv32)
    ensures ev & CONFIG_MASK == 0 <==>
            ev & EPOLLET == 0 && ev & EPOLLONESHOT == 0 && ev & EPOLLWAKEUP == 0 && ev & EPOLLEXCLUSIVE == 0
  {
  }

  lemma EventMaskBits(ev: bv32)
    ensures ev & EVENT_FULL_MASK == 0 <==>
            && ev & EPOLLIN == 0 && ev & EPOLLPRI == 0 && ev & EPOLLOUT == 0 && ev & EPOLLRDHUP == 0
            && ev & EPOLLERR == 0
  {
  }

  /** A registration asks the kernel for the events and the configuration it was given, both of
      them and no others, and records the same. */
  lemma RegisterMask(s: State, fd: int, events: bv32, cb: int, config: bv32, fails: bool)
    requires Apply(s, Register(fd, events, cb, config, fails)).1 == Done
    ensures var s' := Apply(s, Register(fd, events, cb, config, fails)).0;
            && fd in s'.fdMap && fd in s'.kernel && s'.kernel[fd] == s'.fdMap[fd].ev
            && s'.fdMap[fd].cb == cb && s'.fdMap[fd].enabled
            && (forall f :: Has(s'.kernel[fd], f) <==> Has(events, f) || Has(config, f))
            && (events & CONFIG_MASK == 0 && config & !CONFIG_MASK == 0 ==>
                  s'.kernel[fd] & CONFIG_MASK == config && s'.kernel[fd] & !CONFIG_MASK == events)
  {
    hide Combine, Has;
    forall f ensures Has(Combine(events, config), f) <==> Has(events, f) || Has(config, f) {
      CombineBits(events, config, f);
    }
    if events & CONFIG_MASK == 0 && config & !CONFIG_MASK == 0 {
      CombineParts(events, config);
    }
  }

  /** Some flag of `f` is among those of `ev`. */
  predicate Has(ev: bv32, f: bv32) { And(ev, f) != 0 }

  function And(x: bv32, y: bv32): bv32 { x & y }

  function Or(x: bv32, y: bv32): bv32 { x | y }

  lemma CombineBits(events: bv32, config: bv32, f: bv32)
    ensures Has(Combine(events, config), f) <==> Has(events, f) || Has(config, f)
  {
    hide And, Or, Combine;
    BothAnd(events, config, f);
    OrIsZero(And(events, f), And(config, f));
  }

  lemma BothAnd(x: bv32, y: bv32, f: bv32)
    ensures And(Combine(x, y), f) == Or(And(x, f), And(y, f))
  {
  }

  lemma OrIsZero(x: bv32, y: bv32)
    ensures Or(x, y) == 0 <==> x == 0 && y == 0
  {
  }

  lemma CombineParts(events: bv32, config: bv32)
    requires events & CONFIG_MASK == 0 && config & !CONFIG_MASK == 0
    ensures Combine(events, config) & CONFIG_MASK == config && Combine(events, config) & !CONFIG_MASK == events
  {
  }

  /** The registration of the worker's socket. */
  lemma WorkerIsToldOfData(fd: int, cb: int)
    ensures var (s, reply) := Apply(State(map[], map[]), Register(fd, EPOLLIN, cb, 0, false));
            reply == Done && s.kernel == map[fd := EPOLLIN]
  {
  }

  /** Which calls are logic errors: events that hold a configuration flag, a configuration that
      holds an event flag or EPOLLEXCLUSIVE. They change nothing. */
  lemma LogicErrors(s: State, op: Op)
    ensures Apply(s, op).1 == LogicError <==>
            match op
            case ModifyEvents(_, events, _) => exists f :: f in CONFIG_FLAGS && Has(events, f)
            case ModifyConfig(_, config, _) => exists f :: f in EVENT_FLAGS + {EPOLLEXCLUSIVE} && Has(config, f)
            case _ => false
    ensures Apply(s, op).1 != Done && !op.Delete? ==> Apply(s, op).0 == s
  {
    hide Has, Combine, WithEvents, WithConfig;
    match op
    case ModifyEvents(_, events, _) => FlagsOf(events);
    case ModifyConfig(_, config, _) => FlagsOf(config);
    case _ =>
  }

  lemma FlagsOf(ev: bv32)
    ensures ev & CONFIG_MASK != 0 <==> exists f :: f in CONFIG_FLAGS && Has(ev, f)
    ensures ev & EVENT_FULL_MASK != 0 || ev & EPOLLEXCLUSIVE != 0 <==>
            exists f :: f in EVENT_FLAGS + {EPOLLEXCLUSIVE} && Has(ev, f)
  {
    ConfigMaskBits(ev);
    EventMaskBits(ev);
    HasIs(ev);
    hide Has, And;
    if ev & CONFIG_MASK != 0 {
      assert Has(ev, EPOLLET) || Has(ev, EPOLLONESHOT) || Has(ev, EPOLLWAKEUP) || Has(ev, EPOLLEXCLUSIVE);
    }
    if ev & EVENT_FULL_MASK != 0 {
      assert Has(ev, EPOLLIN) || Has(ev, EPOLLPRI) || Has(ev, EPOLLOUT) || Has(ev, EPOLLRDHUP) || Has(ev, EPOLLERR);
    }
  }

  lemma HasIs(ev: bv32)
    ensures forall f :: f in CONFIG_FLAGS + EVENT_FLAGS ==> (Has(ev, f) <==> ev & f != 0)
  {
  }

  /** A new callback takes the place of the old one; mask, flag and kernel stay. */
  lemma ModifyCallbackEffect(s: State, fd: int, cb: int)
    requires Apply(s, ModifyCallback(fd, cb)).1 == Done
    ensures var s' := Apply(s, ModifyCallback(fd, cb)).0;
            && fd in s.fdMap && s'.kernel == s.kernel && s'.fdMap.Keys == s.fdMap.Keys
            && s'.fdMap[fd] == Context(s.fdMap[fd].ev, cb, s.fdMap[fd].enabled)
            && forall other :: other in s.fdMap && other != fd ==> s'.fdMap[other] == s.fdMap[other]
  {
  }

  /** Changing the events keeps the configuration flags, and sets the rest. */
  lemma ModifyEventsMask(s: State, fd: int, events: bv32, fails: bool)
    requires Apply(s, ModifyEvents(fd, events, fails)).1 == Done
    ensures var ev := Apply(s, ModifyEvents(fd, events, fails)).0.fdMap[fd].ev;
            && ev & CONFIG_MASK == s.fdMap[fd].ev & CONFIG_MASK
            && ev & !CONFIG_MASK == events
  {
    EventBits(s.fdMap[fd].ev, events);
  }

  lemma EventBits(was: bv32, events: bv32)
    requires events & CONFIG_MASK == 0
    ensures WithEvents(was, events) & CONFIG_MASK == was & CONFIG_MASK
    ensures WithEvents(was, events) & !CONFIG_MASK == events
  {
  }

  /** Changing the configuration sets it, and keeps the event flags exactly when
      EPOLLERR was not among them. */
  lemma ModifyConfigMask(s: State, fd: int, config: bv32, fails: bool)
    requires Apply(s, ModifyConfig(fd, config, fails)).1 == Done
    ensures var ev := Apply(s, ModifyConfig(fd, config, fails)).0.fdMap[fd].ev;
            && ev & CONFIG_MASK == config & CONFIG_MASK
            && (ev & EVENT_FULL_MASK == s.fdMap[fd].ev & EVENT_FULL_MASK <==> s.fdMap[fd].ev & EPOLLERR == 0)
  {
    ConfigBits(s.fdMap[fd].ev, config);
  }

  lemma ConfigBits(was: bv32, config: bv32)
    requires config & EVENT_FULL_MASK == 0
    ensures WithConfig(was, config) & CONFIG_MASK == config & CONFIG_MASK
    ensures WithConfig(was, config) & EVENT_FULL_MASK == was & EVENT_FULL_MASK <==> was & EPOLLERR == 0
  {
  }

  lemma {:induction false} RunAppend(s: State, a: seq<Op>, b: seq<Op>)
    ensures Run(s, a + b) == Run(Run(s, a), b)
    decreases |a|
  {
    hide Apply;
    if |a| == 0 {
      assert a + b == b;
    } else {
      assert (a + b)[1..] == a[1..] + b;
      RunAppend(Apply(s, a[0]).0, a[1..], b);
    }
  }

  lemma RunOneMore(s: State, ops: seq<Op>, op: Op)
    ensures Run(s, ops + [op]) == Apply(Run(s, ops), op).0
  {
    hide Apply;
    RunAppend(s, ops, [op]);
    assert [op][1..] == [];
  }

  /** The recorded mask of a descriptor that was registered for everything loses EPOLLERR when
      the descriptor is made edge-triggered. */
  lemma ErrorFlagIsLost(fd: int, cb: int)
    ensures var s := Run(State(map[], map[]), [Register(fd, EVENT_FULL_MASK, cb, 0, false)]);
            var (s', reply) := Apply(s, ModifyConfig(fd, EPOLLET, false));
            && reply == Done && s.fdMap.Keys == s'.fdMap.Keys == {fd}
            && s.fdMap[fd].ev & EPOLLERR != 0 && s'.fdMap[fd].ev & EPOLLERR == 0
  {
    var e := State(map[], map[]);
    assert [] + [Register(fd, EVENT_FULL_MASK, cb, 0, false)] == [Register(fd, EVENT_FULL_MASK, cb, 0, false)];
    RunOneMore(e, [], Register(fd, EVENT_FULL_MASK, cb, 0, false));
    FlagBits();
    hide Combine, WithConfig;
  }

  lemma FlagBits()
    ensures Combine(EVENT_FULL_MASK, 0) & EPOLLERR != 0
    ensures WithConfig(Combine(EVENT_FULL_MASK, 0), EPOLLET) & EPOLLERR == 0
    ensures EPOLLET & EVENT_FULL_MASK == 0 && EPOLLET & EPOLLEXCLUSIVE == 0
  {
  }

  /** The deletion of a disabled descriptor reports a failure, although it is carried out. */
  lemma DeleteOfDisabledFails(fd: int, events: bv32, cb: int, config: bv32)
    ensures var s := Run(State(map[], map[]), [Register(fd, events, cb, config, false), Disable(fd)]);
            fd in s.fdMap && Apply(s, Delete(fd)) == (State(map[], map[]), Refused)
  {
    hide Combine;
    var e, r := State(map[], map[]), Register(fd, events, cb, config, false);
    assert [] + [r] == [r] && [r] + [Disable(fd)] == [r, Disable(fd)];
    RunOneMore(e, [], r);
    RunOneMore(e, [r], Disable(fd));
    var s := Run(e, [r, Disable(fd)]);
    assert s.fdMap - {fd} == map[] && s.kernel == map[];
  }

  // ------------------------------------------------------------ callbacks in a batch

  /** What a callback does to the registry: it may enable and disable descriptors. */
  type Toggle = op: Op | op.Enable? || op.Disable? witness Disable(0)

  /** The toggles of callback `cb` when it is run for position `i` of the batch. */
  type Script = (int, nat) -> seq<Toggle>

  predicate EnabledIn(s: State, fd: int) { fd in s.fdMap && s.fdMap[fd].enabled }

  /** The state when position `i` of the batch has its turn. */
  function Before(s: State, batch: seq<int>, script: Script, i: nat): State
    requires i <= |batch|
  {
    if i == 0 then s
    else
      var t := Before(s, batch, script, i - 1);
      if EnabledIn(t, batch[i - 1]) then Run(t, script(t.fdMap[batch[i - 1]].cb, i - 1)) else t
  }

  /** A descriptor's flag after a toggle: a disable of it clears the flag, an enable
      sets it unless the kernel fails. */
  function FlagAfter(flag: bool, t: Toggle, fd: int): bool {
    if t.fd != fd then flag
    else if t.Disable? then false
    else flag || !t.fails
  }

  function Flag(flag: bool, ts: seq<Toggle>, fd: int): bool
    decreases |ts|
  {
    if |ts| == 0 then flag else FlagAfter(Flag(flag, ts[..|ts| - 1], fd), ts[|ts| - 1], fd)
  }

  /** All toggles that ran before position `i` had its turn. */
  function History(s: State, batch: seq<int>, script: Script, i: nat): seq<Toggle>
    requires i <= |batch|
  {
    if i == 0 then []
    else
      var t := Before(s, batch, script, i - 1);
      History(s, batch, script, i - 1) +
      if EnabledIn(t, batch[i - 1]) then script(t.fdMap[batch[i - 1]].cb, i - 1) else []
  }

  lemma OneToggle(s: State, t: Toggle)
    requires Agree(s)
    ensures var s' := Apply(s, t).0;
            && Agree(s') && s'.fdMap.Keys == s.fdMap.Keys
            && (forall fd :: fd in s.fdMap ==> s'.fdMap[fd].enabled == FlagAfter(s.fdMap[fd].enabled, t, fd))
            && (forall fd :: fd in s.fdMap ==> s'.fdMap[fd].cb == s.fdMap[fd].cb)
  {
    ApplyKeepsAgreement(s, t);
  }

  /** Toggles neither add nor remove descriptors, keep the agreement and the
      callbacks, and leave each flag as the last effective toggle on it. */
  lemma {:induction false} ToggleEffect(s: State, ts: seq<Toggle>)
    requires Agree(s)
    ensures Agree(Run(s, ts)) && Run(s, ts).fdMap.Keys == s.fdMap.Keys
    ensures forall fd :: fd in s.fdMap ==> Run(s, ts).fdMap[fd].enabled == Flag(s.fdMap[fd].enabled, ts, fd)
    ensures forall fd :: fd in s.fdMap ==> Run(s, ts).fdMap[fd].cb == s.fdMap[fd].cb
    decreases |ts|
  {
    hide Apply, Agree, FlagAfter;
    if |ts| > 0 {
      var n := |ts| - 1;
      var t := ts[n];
      assert ts == ts[..n] + [t];
      RunAppend(s, ts[..n], [t]);
      var m := Run(s, ts[..n]);
      assert Run(m, [t]) == Apply(m, t).0;
      ToggleEffect(s, ts[..n]);
      OneToggle(m, t);
      assert forall fd :: fd in s.fdMap ==> fd in m.fdMap.Keys;
    }
  }

  lemma {:induction false} BeforeIsHistory(s: State, batch: seq<int>, script: Script, i: nat)
    requires i <= |batch|
    ensures Before(s, batch, script, i) == Run(s, History(s, batch, script, i))
  {
    if i > 0 {
      BeforeIsHistory(s, batch, script, i - 1);
      var t := Before(s, batch, script, i - 1);
      var h := History(s, batch, script, i - 1);
      if EnabledIn(t, batch[i - 1]) {
        RunAppend(s, h, script(t.fdMap[batch[i - 1]].cb, i - 1));
      } else {
        assert h + [] == h;
      }
    }
  }

  /** At its turn, every descriptor of a batch of watched descriptors is still
      registered, and it is enabled exactly when the toggles of the callbacks that
      ran before it have left it so. */
  lemma TurnByHistory(s: State, batch: seq<int>, script: Script, i: nat)
    requires Agree(s) && i < |batch| && batch[i] in s.kernel
    ensures Agree(Before(s, batch, script, i))
    ensures batch[i] in Before(s, batch, script, i).fdMap
    ensures EnabledIn(Before(s, batch, script, i), batch[i]) <==>
            Flag(true, History(s, batch, script, i), batch[i])
  {
    var fd := batch[i];
    assert fd in s.kernel ==> fd in s.fdMap && s.fdMap[fd].enabled;
    BeforeIsHistory(s, batch, script, i);
    ToggleEffect(s, History(s, batch, script, i));
    assert fd in Run(s, History(s, batch, script, i)).fdMap.Keys;
  }

  lemma BatchStart(s: State, batch: seq<int>, script: Script)
    ensures Before(s, batch, script, 0) == s
  {
  }

  lemma BeforeNext(s: State, batch: seq<int>, script: Script, i: nat)
    requires i < |batch|
    ensures var t := Before(s, batch, script, i);
            && (EnabledIn(t, batch[i]) ==>
                  Before(s, batch, script, i + 1) == Run(t, script(t.fdMap[batch[i]].cb, i)))
            && (!EnabledIn(t, batch[i]) ==> Before(s, batch, script, i + 1) == t)
  {
  }

  // --------------------------------------------------------- one turn of the event loop

  /** What a call of epoll_wait returns. */
  datatype Wait = Interrupted | WaitFails | Ready(batch: seq<int>)

  datatype LoopReply = Returned | WaitFailed | AssertionFails | StillWaiting

  /** The first outcome that is not an interruption, if any. */
  function Awaited(waits: seq<Wait>): (w: Wait)
    ensures w != Interrupted ==> w in waits
    ensures w == Interrupted ==> forall k :: 0 <= k < |waits| ==> waits[k] == Interrupted
  {
    if |waits| == 0 then Interrupted
    else if waits[0] != Interrupted then waits[0] else Awaited(waits[1..])
  }

  /** The state after a turn, and what the caller is told: the static callbacks in front run
      always, those behind only when a batch was dispatched. */
  function AfterTurn(s: State, pre: seq<Op>, waits: seq<Wait>, script: Script, post: seq<Op>): (State, LoopReply) {
    var t := Run(s, pre);
    match Awaited(waits)
    case Interrupted => (t, StillWaiting)
    case WaitFails => (t, WaitFailed)
    case Ready(batch) =>
      if batch == [] then (t, AssertionFails)
      else (Run(Before(t, batch, script, |batch|), post), Returned)
  }

  /** `k` is the first wait that was not interrupted. */
  ghost predicate FirstAnswer(waits: seq<Wait>, k: nat) {
    k < |waits| && waits[k] != Interrupted && forall j :: 0 <= j < k ==> waits[j] == Interrupted
  }

  lemma {:induction false} AwaitedIs(waits: seq<Wait>, k: nat)
    requires FirstAnswer(waits, k)
    ensures Awaited(waits) == waits[k]
  {
    if k > 0 {
      AwaitedIs(waits[1..], k - 1);
    }
  }

  /** What a turn comes to: it goes on waiting exactly while every wait is interrupted; the first
      that is not decides. A batch is dispatched in full and followed by the static callbacks
      behind; after a failure, or an empty batch, these do not run. */
  lemma TurnIs(s: State, pre: seq<Op>, waits: seq<Wait>, script: Script, post: seq<Op>, k: nat)
    ensures AfterTurn(s, pre, waits, script, post).1 == StillWaiting <==>
            forall j :: 0 <= j < |waits| ==> waits[j] == Interrupted
    ensures (forall j :: 0 <= j < |waits| ==> waits[j] == Interrupted) ==>
              AfterTurn(s, pre, waits, script, post).0 == Run(s, pre)
    ensures FirstAnswer(waits, k) ==>
              match waits[k]
              case Interrupted => false
              case WaitFails => AfterTurn(s, pre, waits, script, post) == (Run(s, pre), WaitFailed)
              case Ready(batch) =>
                if batch == [] then AfterTurn(s, pre, waits, script, post) == (Run(s, pre), AssertionFails)
                else AfterTurn(s, pre, waits, script, post)
                     == (Run(Before(Run(s, pre), batch, script, |batch|), post), Returned)
  {
    hide Run, Before;
    if FirstAnswer(waits, k) {
      AwaitedIs(waits, k);
    }
    if Awaited(waits) != Interrupted {
      assert exists j :: 0 <= j < |waits| && waits[j] == Awaited(waits);
    } else {
      assert forall j :: 0 <= j < |waits| ==> waits[j] == Interrupted;
    }
  }

  /** The positions of a batch whose callbacks are called: those enabled at their turn, each
      once and in order. */
  ghost predicate CalledIn(s: State, batch: seq<int>, script: Script, called: seq<nat>) {
    && (forall k :: 0 <= k < |called| ==>
          called[k] < |batch| && EnabledIn(Before(s, batch, script, called[k]), batch[called[k]]))
    && (forall i :: 0 <= i < |batch| && EnabledIn(Before(s, batch, script, i), batch[i]) ==> i in called)
    && (forall k :: 0 < k < |called| ==> called[k - 1] < called[k])
  }

  // --------------------------------------------------------------------- the class

  class EpollManager {
    var fdMap: map<int, Context>
    var kernel: map<int, bv32>

    constructor ()
      ensures View() == State(map[], map[]) && Valid()
    {
      fdMap, kernel := map[], map[];
    }

    function View(): State
      reads this
    {
      State(fdMap, kernel)
    }

    ghost predicate Valid()
      reads this
    {
      Agree(View())
    }

    method RegisterFd(fd: int, events: bv32, cb: int, config: bv32, fails: bool) returns (ok: bool)
      requires Valid()
      modifies this
      ensures Valid()
      ensures (View(), if ok then Done else Refused) == Apply(old(View()), Register(fd, events, cb, config, fails))
    {
      hide Agree, Combine;
      ApplyKeepsAgreement(View(), Register(fd, events, cb, config, fails));
      if fd in fdMap {
        return false;
      }
      var ev := Combine(events, config);
      var (k, e) := CtlAdd(kernel, fd, ev, fails);
      if e != OK {
        return false;
      }
      kernel := k;
      fdMap := fdMap[fd := Context(ev, cb, true)];
      return true;
    }

    method EnableFd(fd: int, fails: bool) returns (ok: bool)
      requires Valid()
      modifies this
      ensures Valid()
      ensures (View(), if ok then Done else Refused) == Apply(old(View()), Enable(fd, fails))
    {
      ApplyKeepsAgreement(View(), Enable(fd, fails));
      if fd in fdMap {
        if !fdMap[fd].enabled {
          var (k, e) := CtlAdd(kernel, fd, fdMap[fd].ev, fails);
          if e != OK {
            assert e != EEXIST;
            return false;
          }
          kernel := k;
          fdMap := fdMap[fd := fdMap[fd].(enabled := true)];
        }
        return true;
      } else {
        return false;
      }
    }

    method DisableFd(fd: int) returns (ok: bool)
      requires Valid()
      modifies this
      ensures Valid()
      ensures (View(), if ok then Done else Refused) == Apply(old(View()), Disable(fd))
    {
      ApplyKeepsAgreement(View(), Disable(fd));
      if fd in fdMap {
        if fdMap[fd].enabled {
          var (k, e) := CtlDel(kernel, fd);
          assert e != ENOENT;
          kernel := k;
          fdMap := fdMap[fd := fdMap[fd].(enabled := false)];
        }
        return true;
      } else {
        return false;
      }
    }

    method ModifyFdEvents(fd: int, events: bv32, fails: bool) returns (reply: Reply)
      requires Valid()
      modifies this
      ensures Valid()
      ensures (View(), reply) == Apply(old(View()), ModifyEvents(fd, events, fails))
    {
      hide Agree, WithEvents;
      ApplyKeepsAgreement(View(), ModifyEvents(fd, events, fails));
      if events & CONFIG_MASK != 0 {
        return LogicError;
      }
      if fd !in fdMap {
        return Refused;
      }
      var ctx := fdMap[fd];
      var ev := WithEvents(ctx.ev, events);
      var (k, e) := CtlMod(kernel, fd, ev, fails);
      if e != OK {
        return Refused;
      }
      kernel := k;
      fdMap := fdMap[fd := ctx.(ev := ev)];
      return Done;
    }

    method ModifyFdConfig(fd: int, config: bv32, fails: bool) returns (reply: Reply)
      requires Valid()
      modifies this
      ensures Valid()
      ensures (View(), reply) == Apply(old(View()), ModifyConfig(fd, config, fails))
    {
      hide Agree, WithConfig;
      ApplyKeepsAgreement(View(), ModifyConfig(fd, config, fails));
      if config & EVENT_FULL_MASK != 0 {
        return LogicError;
      }
      if config & EPOLLEXCLUSIVE != 0 {
        return LogicError;
      }
      if fd !in fdMap {
        return Refused;
      }
      var ctx := fdMap[fd];
      var ev := WithConfig(ctx.ev, config);
      var (k, e) := CtlMod(kernel, fd, ev, fails);
      if e != OK {
        return Refused;
      }
      kernel := k;
      fdMap := fdMap[fd := ctx.(ev := ev)];
      return Done;
    }

    method ModifyFdCallback(fd: int, cb: int) returns (ok: bool)
      requires Valid()
      modifies this
      ensures Valid()
      ensures (View(), if ok then Done else Refused) == Apply(old(View()), ModifyCallback(fd, cb))
    {
      hide Agree;
      ApplyKeepsAgreement(View(), ModifyCallback(fd, cb));
      if fd !in fdMap {
        return false;
      }
      fdMap := fdMap[fd := fdMap[fd].(cb := cb)];
      return true;
    }

    method DeleteFd(fd: int) returns (ok: bool)
      requires Valid()
      modifies this
      ensures Valid()
      ensures (View(), if ok then Done else Refused) == Apply(old(View()), Delete(fd))
    {
      hide Agree;
      ApplyKeepsAgreement(View(), Delete(fd));
      if fd !in fdMap {
        return false;
      }
      fdMap := fdMap - {fd};
      var (k, e) := CtlDel(kernel, fd);
      kernel := k;
      return e == OK;
    }

    /** A callback: it enables and disables descriptors, one after the other. */
    method RunCallback(ts: seq<Toggle>)
      requires Valid()
      modifies this
      ensures Valid() && View() == Run(old(View()), ts)
    {
      assert ts[..|ts|] == ts;
      for i := 0 to |ts|
        invariant Valid() && View() == Run(old(View()), ts[..i])
      {
        assert ts[..i + 1] == ts[..i] + [ts[i]];
        RunAppend(old(View()), ts[..i], [ts[i]]);
        assert Run(View(), [ts[i]]) == Apply(View(), ts[i]).0;
        if ts[i].Enable? {
          var _ := EnableFd(ts[i].fd, ts[i].fails);
        } else {
          var _ := DisableFd(ts[i].fd);
        }
      }
    }

    /** A static callback: it may call anything. */
    method RunCalls(ops: seq<Op>)
      requires Valid()
      modifies this
      ensures Valid() && View() == Run(old(View()), ops)
    {
      hide Apply, Agree;
      assert ops[..|ops|] == ops;
      for i := 0 to |ops|
        invariant Valid() && View() == Run(old(View()), ops[..i])
      {
        assert ops[..i + 1] == ops[..i] + [ops[i]];
        RunOneMore(old(View()), ops[..i], ops[i]);
        Call(ops[i]);
      }
    }

    method Call(op: Op)
      requires Valid()
      modifies this
      ensures Valid() && View() == Apply(old(View()), op).0
    {
      hide Apply, Agree;
      match op {
        case Register(fd, events, cb, config, fails) => var _ := RegisterFd(fd, events, cb, config, fails);
        case Enable(fd, fails) => var _ := EnableFd(fd, fails);
        case Disable(fd) => var _ := DisableFd(fd);
        case ModifyEvents(fd, events, fails) => var _ := ModifyFdEvents(fd, events, fails);
        case ModifyConfig(fd, config, fails) => var _ := ModifyFdConfig(fd, config, fails);
        case ModifyCallback(fd, cb) => var _ := ModifyFdCallback(fd, cb);
        case Delete(fd) => var _ := DeleteFd(fd);
      }
    }

    /** A batch that the kernel reported: every lookup succeeds, and the positions whose
        callbacks are called, in the kernel's order, are exactly those enabled at their turn. */
    method DispatchBatch(batch: seq<int>, script: Script) returns (called: seq<nat>)
      requires Valid()
      requires forall i :: 0 <= i < |batch| ==> batch[i] in kernel
      modifies this
      ensures Valid() && View() == Before(old(View()), batch, script, |batch|)
      ensures CalledIn(old(View()), batch, script, called)
    {
      hide Before, Run, Apply, Agree, History, Flag;
      called := [];
      BatchStart(View(), batch, script);
      for i := 0 to |batch|
        invariant Valid() && View() == Before(old(View()), batch, script, i)
        invariant forall k :: 0 <= k < |called| ==>
                    called[k] < i && EnabledIn(Before(old(View()), batch, script, called[k]), batch[called[k]])
        invariant forall j :: 0 <= j < i && EnabledIn(Before(old(View()), batch, script, j), batch[j]) ==> j in called
        invariant forall k :: 0 < k < |called| ==> called[k - 1] < called[k]
      {
        TurnByHistory(old(View()), batch, script, i);
        BeforeNext(old(View()), batch, script, i);
        assert batch[i] in fdMap;
        var ctx := fdMap[batch[i]];
        if ctx.enabled {
          called := called + [i];
          RunCallback(script(ctx.cb, i));
        }
      }
    }

    /** One turn of the event loop: the static callbacks in front, waiting until a call is not
        interrupted, the batch, the static callbacks behind. */
    method RunEventLoop(pre: seq<Op>, waits: seq<Wait>, script: Script, post: seq<Op>)
      returns (reply: LoopReply, called: seq<nat>)
      requires Valid()
      requires var k := Run(View(), pre).kernel;
               forall i, j :: 0 <= i < |waits| && waits[i].Ready? && 0 <= j < |waits[i].batch| ==> waits[i].batch[j] in k
      modifies this
      ensures Valid() && (View(), reply) == AfterTurn(old(View()), pre, waits, script, post)
      ensures if reply == Returned then CalledIn(Run(old(View()), pre), Awaited(waits).batch, script, called)
              else called == []
    {
      hide Apply, Agree, Before, CalledIn, EnabledIn, Run;
      called := [];
      RunCalls(pre);
      var i := 0;
      assert waits[0..] == waits;
      while i < |waits| && waits[i] == Interrupted
        invariant i <= |waits| && Awaited(waits) == Awaited(waits[i..])
      {
        assert waits[i..][1..] == waits[i + 1..];
        i := i + 1;
      }
      if i == |waits| {
        return StillWaiting, [];
      }
      if waits[i].WaitFails? {
        return WaitFailed, [];
      }
      if waits[i].batch == [] {
        return AssertionFails, [];
      }
      called := DispatchBatch(waits[i].batch, script);
      RunCalls(post);
      return Returned, called;
    }
  }
}
