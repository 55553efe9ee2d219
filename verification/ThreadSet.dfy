/**
 The set of server threads and its condition variable (src/Manager.cc, src/Manager.hh):
 every interleaving of insertions, of the clean-up that a thread runs when it ends, and
 of the main thread's WaitAll. A thread is inserted before its clean-up begins.
 */
module ThreadSet {

  /** Where a server thread stands. `MustNotify` and `Unlocking` are inside the clean-up,
      after its entry is erased; `Absent` covers both before insertion and after the end. */
  datatype Pc = Absent | Running | Locked | MustNotify | Unlocking

  /** Where the main thread stands in WaitAll: `Checking` evaluates the predicate under the
      mutex, `Blocked` sleeps on the condition variable without it. */
  datatype Waiter = Outside | Checking | Blocked(notified: bool) | Returned

  datatype Owner = Free | ByWaiter | ByThread(id: nat)

  /** `entries` is the thread set: identifiers are positions of `pcs`, and may be reused. */
  datatype State = State(entries: set<nat>, mutex: Owner, waiter: Waiter, pcs: seq<Pc>)

  datatype Event =
    | Insert(id: nat)          // InsertNewThread
    | Lock(id: nat)            // the clean-up takes the mutex,
    | Erase(id: nat)           // erases its entry,
    | Notify(id: nat)          // notifies when the set became empty,
    | Unlock(id: nat)          // and releases the mutex
    | Enter                    // WaitAll takes the mutex
    | Check                    // it evaluates the predicate: return, or release and sleep
    | Wake                     // a notified sleeper takes the mutex again
    | Spurious                 // so may one that was not notified

  predicate At(s: State, id: nat, pc: Pc) { id < |s.pcs| && s.pcs[id] == pc }

  predicate Enabled(s: State, e: Event) {
    match e
    case Insert(id) => s.mutex == Free && At(s, id, Absent)
    case Lock(id) => s.mutex == Free && At(s, id, Running)
    case Erase(id) => At(s, id, Locked)
    case Notify(id) => At(s, id, MustNotify)
    case Unlock(id) => At(s, id, Unlocking)
    case Enter => s.mutex == Free && s.waiter == Outside
    case Check => s.waiter == Checking
    case Wake => s.mutex == Free && s.waiter == Blocked(true)
    case Spurious => s.mutex == Free && s.waiter.Blocked?
  }

  function Next(s: State, e: Event): State
    requires Enabled(s, e)
  {
    match e
    case Insert(id) => s.(entries := s.entries + {id}, pcs := s.pcs[id := Running])
    case Lock(id) => s.(mutex := ByThread(id), pcs := s.pcs[id := Locked])
    case Erase(id) =>
      var rest := s.entries - {id};
      s.(entries := rest, pcs := s.pcs[id := if rest == {} then MustNotify else Unlocking])
    case Notify(id) =>
      s.(waiter := if s.waiter.Blocked? then Blocked(true) else s.waiter, pcs := s.pcs[id := Unlocking])
    case Unlock(id) => s.(mutex := Free, pcs := s.pcs[id := Absent])
    case Enter => s.(mutex := ByWaiter, waiter := Checking)
    case Check => s.(mutex := Free, waiter := if s.entries == {} then Returned else Blocked(false))
    case Wake => s.(mutex := ByWaiter, waiter := Checking)
    case Spurious => s.(mutex := ByWaiter, waiter := Checking)
  }

  ghost predicate Runs(s: State, es: seq<Event>)
    decreases |es|
  {
    |es| > 0 ==> Enabled(s, es[0]) && Runs(Next(s, es[0]), es[1..])
  }

  ghost function Final(s: State, es: seq<Event>): State
    requires Runs(s, es)
    decreases |es|
  {
    if |es| == 0 then s else Final(Next(s, es[0]), es[1..])
  }

  /** No thread yet, and room for `n` at a time. */
  function Start(n: nat): State {
    State({}, Free, Outside, seq(n, _ => Absent))
  }

  // ------------------------------------------------------------------ the invariant

  ghost predicate Inv(s: State) {
    && (forall id :: id in s.entries <==> At(s, id, Running) || At(s, id, Locked))
    && (forall id: nat :: s.mutex == ByThread(id) <==> At(s, id, Locked) || At(s, id, MustNotify) || At(s, id, Unlocking))
    && (s.mutex == ByWaiter <==> s.waiter == Checking)
    && (forall id: nat :: At(s, id, MustNotify) ==> s.entries == {})
    && NotForgotten(s)
  }

  /** A sleeper that was not notified still has a thread to wait for, or a notification
      that the owner of the mutex is about to send. */
  ghost predicate NotForgotten(s: State) {
    s.waiter == Blocked(false) ==> s.entries != {} || exists id: nat :: At(s, id, MustNotify)
  }

  lemma NextKeepsInv(s: State, e: Event)
    requires Inv(s) && Enabled(s, e)
    ensures Inv(Next(s, e))
  {
    var s' := Next(s, e);
    match e
    case Erase(id) =>
      assert At(s', id, MustNotify) || At(s', id, Unlocking);
      if s'.waiter == Blocked(false) && s'.entries == {} {
        assert At(s', id, MustNotify);
      }
    case Insert(id) =>
      assert id in s'.entries;
    case _ =>
  }

  lemma {:induction false} RunKeepsInv(s: State, es: seq<Event>)
    requires Inv(s) && Runs(s, es)
    ensures Inv(Final(s, es)) && |Final(s, es).pcs| == |s.pcs|
    decreases |es|
  {
    if |es| > 0 {
      NextKeepsInv(s, es[0]);
      RunKeepsInv(Next(s, es[0]), es[1..]);
    }
  }

  // -------------------------------------------------------------------- the promises

  predicate AllGone(s: State) { forall id :: 0 <= id < |s.pcs| ==> s.pcs[id] == Absent }

  /** In every interleaving: WaitAll returns, by whatever step, only when every thread has
      finished its clean-up, the release of the mutex included, and then has returned for good; a thread that cleans up finds its own entry; and a
      sleeper whose set is empty has been notified as soon as the mutex is free, so no wake-up
      is lost. */
  lemma ShutdownIsSafe(n: nat, es: seq<Event>)
    requires Runs(Start(n), es)
    ensures var s := Final(Start(n), es);
            && (forall e :: Enabled(s, e) && s.waiter != Returned && Next(s, e).waiter == Returned ==> AllGone(s))
            && (s.waiter == Returned ==> forall e :: Enabled(s, e) ==> Next(s, e).waiter == Returned)
            && (forall id: nat :: At(s, id, Locked) ==> id in s.entries)
            && (s.entries == {} && s.mutex == Free ==> s.waiter != Blocked(false))
  {
    RunKeepsInv(Start(n), es);
    var s := Final(Start(n), es);
    forall e | Enabled(s, e) && s.waiter != Returned && Next(s, e).waiter == Returned ensures AllGone(s) {
      forall id: nat | id < |s.pcs| ensures s.pcs[id] == Absent {
        assert At(s, id, s.pcs[id]);
      }
    }
  }

  function Inserts(n: nat): seq<Event> { seq(n, i requires 0 <= i < n => Insert(i)) }

  lemma {:induction false} RunsAppend(s: State, a: seq<Event>, e: Event)
    requires Runs(s, a) && Enabled(Final(s, a), e)
    ensures Runs(s, a + [e]) && Final(s, a + [e]) == Next(Final(s, a), e)
    decreases |a|
  {
    if |a| == 0 {
      assert (a + [e])[1..] == [];
    } else {
      assert (a + [e])[1..] == a[1..] + [e];
      RunsAppend(Next(s, a[0]), a[1..], e);
    }
  }

  /** As many threads as there is room for can be running at once, each with its entry. */
  lemma {:induction false} AllCanRun(n: nat, k: nat)
    requires k <= n
    ensures Runs(Start(n), Inserts(k))
    ensures var s := Final(Start(n), Inserts(k));
            && s.mutex == Free && s.waiter == Outside && |s.pcs| == n
            && (forall id: nat :: id in s.entries <==> id < k)
            && forall id :: 0 <= id < n ==> s.pcs[id] == if id < k then Running else Absent
  {
    if k > 0 {
      AllCanRun(n, k - 1);
      assert Inserts(k) == Inserts(k - 1) + [Insert(k - 1)];
      RunsAppend(Start(n), Inserts(k - 1), Insert(k - 1));
    }
  }

  predicate Urgent(e: Event) { !e.Insert? && !e.Spurious? }

  /** Some step is possible, without insertions and spurious wake-ups, until every thread
      is gone and WaitAll has returned. */
  lemma StuckMeansDone(n: nat, es: seq<Event>)
    requires Runs(Start(n), es)
    ensures var s := Final(Start(n), es);
            (forall e :: Urgent(e) ==> !Enabled(s, e)) ==>
              s.waiter == Returned && s.entries == {} && forall id :: 0 <= id < |s.pcs| ==> s.pcs[id] == Absent
  {
    RunKeepsInv(Start(n), es);
    var s := Final(Start(n), es);
    if forall e :: Urgent(e) ==> !Enabled(s, e) {
      assert !Enabled(s, Check) && !Enabled(s, Enter) && !Enabled(s, Wake);
      forall id: nat ensures !At(s, id, Locked) && !At(s, id, MustNotify) && !At(s, id, Unlocking) {
        assert !Enabled(s, Erase(id)) && !Enabled(s, Notify(id)) && !Enabled(s, Unlock(id));
      }
      assert s.mutex == Free;
      forall id: nat | id < |s.pcs| ensures s.pcs[id] == Absent {
        assert !Enabled(s, Lock(id));
        assert At(s, id, s.pcs[id]);
      }
      assert s.entries == {};
    }
  }

  function PcLeft(pc: Pc): nat {
    match pc
    case Absent => 0
    case Running => 4
    case Locked => 3
    case MustNotify => 2
    case Unlocking => 1
  }

  function PcsLeft(pcs: seq<Pc>): nat {
    if |pcs| == 0 then 0 else PcLeft(pcs[0]) + PcsLeft(pcs[1..])
  }

  function WaiterLeft(w: Waiter): nat {
    match w
    case Outside => 2
    case Checking => 1
    case Blocked(notified) => if notified then 2 else 0
    case Returned => 0
  }

  /** A bound on the steps still to come when nothing is inserted any more. */
  function StepsLeft(s: State): nat { 3 * PcsLeft(s.pcs) + WaiterLeft(s.waiter) }

  lemma {:induction false} PcsLeftUpdate(pcs: seq<Pc>, id: nat, pc: Pc)
    requires id < |pcs|
    ensures PcsLeft(pcs[id := pc]) == PcsLeft(pcs) - PcLeft(pcs[id]) + PcLeft(pc)
  {
    if id == 0 {
      assert pcs[0 := pc][1..] == pcs[1..];
    } else {
      assert pcs[id := pc][1..] == pcs[1..][id - 1 := pc];
      PcsLeftUpdate(pcs[1..], id - 1, pc);
    }
  }

  /** Every urgent step brings the end nearer. */
  lemma UrgentStepsDecrease(s: State, e: Event)
    requires Enabled(s, e) && Urgent(e)
    ensures StepsLeft(Next(s, e)) < StepsLeft(s)
  {
    var s' := Next(s, e);
    match e
    case Lock(id) => PcsLeftUpdate(s.pcs, id, s'.pcs[id]);
    case Erase(id) => PcsLeftUpdate(s.pcs, id, s'.pcs[id]);
    case Notify(id) => PcsLeftUpdate(s.pcs, id, s'.pcs[id]);
    case Unlock(id) => PcsLeftUpdate(s.pcs, id, s'.pcs[id]);
    case _ =>
  }

  /** So from any state, a run of urgent steps has bounded length; by `StuckMeansDone`, one
      that cannot be continued has returned from WaitAll. */
  lemma {:induction false} UrgentRunsEnd(s: State, es: seq<Event>)
    requires Runs(s, es) && forall k :: 0 <= k < |es| ==> Urgent(es[k])
    ensures |es| + StepsLeft(Final(s, es)) <= StepsLeft(s)
    decreases |es|
  {
    if |es| > 0 {
      assert Urgent(es[0]);
      UrgentStepsDecrease(s, es[0]);
      UrgentRunsEnd(Next(s, es[0]), es[1..]);
    }
  }
}
