/** A history from a new lock manager in which a timeout leaves a waiter waiting for nothing. */
module LockWaitExamples {
  import opened Options
  import opened Scopes
  import opened LockTable
  import opened LockState
  import opened LockGrowth
  import opened LockRuns
  import opened FileLockManagement
  import opened LockDuty
  import opened LockCapExamples

  predicate HeldBy(slot: Option<Lock>, path: string, holder: string) {
    slot.Some? && slot.value.path == path && slot.value.holder == holder && slot.value.expiresAt == DEFAULT_LEASE_MS
  }

  /** Peer "c" holds one file, peer "d" another. */
  predicate TwoHold(slots: Slots) {
    |slots| == 2 && HeldBy(slots[0], "p", "c") && HeldBy(slots[1], "q", "d")
  }

  function Asking(id: nat, holder: string): Waiter {
    Waiter(SCOPE, id, holder, "", 0, 0, DEFAULT_LOCK_WAIT_TIMEOUT_MS, None)
  }

  lemma FilesApart()
    ensures !PathsConflict("p", "q") && !PathsConflict("q", "p")
    ensures PathsConflict(SCOPE, "p") && PathsConflict(SCOPE, "q") && SCOPE != "p" && SCOPE != "q"
  {
    assert "p"[0] != "q"[0];
    ScopeOverAll("p");
    ScopeOverAll("q");
    ConflictSymmetric("p", SCOPE);
    ConflictSymmetric("q", SCOPE);
  }

  lemma TwoHoldFacts(slots: Slots)
    requires TwoHold(slots)
    ensures Size(slots) == 2 && Expired(slots, 0) == {} && Get(slots, SCOPE).None? && IndexOf(slots, "q") == 1
  {
    FilesApart();
    assert Occupied(slots) == {0, 1};
    assert IndexOf(slots, SCOPE) == 2;
  }

  lemma NothingYet()
    ensures Size([]) == 0 && Clear([], "p", "c", 0) && Get([], "p").None? && Expired([], 0) == {}
  {
    assert Occupied([]) == {};
  }

  lemma FirstIsThere(a: Lock)
    requires HeldBy(Some(a), "p", "c")
    ensures Put([], a) == [Some(a)] && Size([Some(a)]) == 1 && Expired([Some(a)], 0) == {}
    ensures Clear([Some(a)], "q", "d", 0) && Get([Some(a)], "q").None?
  {
    FilesApart();
    assert Occupied([Some(a)]) == {0};
    assert IndexOf([Some(a)], "q") == 1;
  }

  lemma BothAreThere(a: Lock, b: Lock)
    requires HeldBy(Some(a), "p", "c") && HeldBy(Some(b), "q", "d")
    ensures TwoHold(Put([Some(a)], b))
  {
    assert IndexOf([Some(a)], "q") == 1;
  }

  /** The scope cannot be granted while somebody else holds a file under it. */
  lemma ScopeIsTaken(slots: Slots, i: nat, lock: Lock, token: nat)
    requires TwoHold(slots) && i < 2 && lock.path == SCOPE && lock.holder != slots[i].value.holder
    ensures !GoodTable(Put(slots, lock), token)
  {
    hide PathsConflict;
    FilesApart();
    TwoHoldFacts(slots);
    var after := Put(slots, lock);
    assert after[2] == Some(lock) && after[i] == slots[i];
    assert !Compatible(after[2], after[i]);
  }

  function TwoAsk(): Queues {
    map[SCOPE := [Asking(1, "b"), Asking(2, "c")]]
  }

  lemma MustWait(s: View, t: View, r: Request, holder: string)
    requires TwoHold(s.slots) && |s.queues| <= 1 && |Waiting(s)| <= 1 && (holder == "b" || holder == "c")
    requires r.Threw? ==> Size(s.slots) >= MAX_LOCKS || Demand(s) > MAX_LOCKS + 1
    requires r.Immediate? ==>
      r.granted && r.lock.path == SCOPE && r.lock.holder == holder && t == GrantView(s, r.lock) && Inv(t)
    requires r.WaitersFull? ==> t == s && |Waiting(t)| == MAX_LOCK_WAITERS
    ensures r.Waits?
  {
    hide Inv, TwoHold, Size, Waiting;
    TwoHoldFacts(s.slots);
    if r.Immediate? { NotGranted(s, r.lock, holder); }
  }

  lemma NotGranted(s: View, lock: Lock, holder: string)
    requires TwoHold(s.slots) && (holder == "b" || holder == "c") && lock.path == SCOPE && lock.holder == holder
    ensures !Inv(GrantView(s, lock))
  {
    ScopeIsTaken(s.slots, 1, lock, lock.token);
  }

  lemma OneMoreWaits(s: View, w: Waiter)
    requires Inv(s) && CanEnqueue(s, w)
    ensures |Waiting(EnqueueView(s, w))| == |Waiting(s)| + 1
  {
    hide Inv;
    EnqueueKeeps(s, w);
    EnqueueQueues(s, w);
  }

  /** A peer asks for the scope over both files, and waits for the other one's. */
  method WaitForScope(m: FileLockManager, holder: string)
    requires m.Valid() && TwoHold(m.slots) && (holder == "b" || holder == "c")
    requires |m.queues| <= 1 && |Waiting(m.State())| <= 1
    modifies m
    ensures m.Valid() && m.State() == EnqueueView(old(m.State()), Asking(old(m.waiterCounter) + 1, holder))
    ensures |Waiting(m.State())| == |Waiting(old(m.State()))| + 1
  {
    hide Inv, Steps, PathsConflict, Evolves, Serves, Strands, GrantedAfter, Scanned, Blocked, Clear;
    hide LeaseFor, Size, CanGrant, Moves, InsertSorted, TwoHold, Demand, GrantView, EnqueueView, Waiting;
    ghost var s := m.State();
    TwoHoldFacts(m.slots);
    var r := m.AcquireQueued(SCOPE, holder, "", None, true, None, None, 0);
    MustWait(s, m.State(), r, holder);
    OneMoreWaits(s, r.waiter);
  }

  lemma TheyQueue(v: View)
    requires v.queues == map[] && v.minted == 0
    ensures var t := EnqueueView(v, Asking(1, "b"));
      |t.queues| == 1 && t.slots == v.slots && t.shifted == v.shifted && t.minted == 1 &&
      var u := EnqueueView(t, Asking(2, "c"));
      u.queues == TwoAsk() && u.slots == v.slots && u.shifted == v.shifted
  {
    var t := EnqueueView(v, Asking(1, "b"));
    assert t.queues == map[SCOPE := [Asking(1, "b")]];
    assert InsertSorted([Asking(1, "b")], Asking(2, "c")) == [Asking(1, "b"), Asking(2, "c")];
  }

  method TwoWaitForTwo() returns (m: FileLockManager)
    ensures fresh(m) && m.Valid() && TwoHold(m.slots) && m.queues == TwoAsk() && m.shifted == {}
  {
    hide Inv, Steps, PathsConflict, Evolves, Serves, Strands, GrantedAfter, Scanned, CanGrant, Clear;
    hide Moves, InsertSorted, EnqueueView;
    m := new FileLockManager();
    NothingYet();
    var first := m.Acquire("p", "c", "", None, 0);
    FirstIsThere(first.lock);
    var second := m.Acquire("q", "d", "", None, 0);
    BothAreThere(first.lock, second.lock);
    assert Waiting(m.State()) == {};
    TheyQueue(m.State());
    WaitForScope(m, "b");
    WaitForScope(m, "c");
  }

  /** The release of "q" serves nobody, as "b" goes on waiting for "c". */
  lemma FirstStaysBlocked(s: View, t: View)
    requires Inv(s) && Inv(t) && TwoHold(s.slots) && s.queues == TwoAsk()
    requires Moves(DeleteView(s, "q"), t, {}, 0) && t.shifted == s.shifted
    ensures t.queues == TwoAsk() && t.slots == [s.slots[0], None]
  {
    hide Inv, Serves, CapKept, PathsConflict, Evolves;
    TwoHoldFacts(s.slots);
    FilesApart();
    var d := DeleteView(s, "q");
    DeleteKeeps(s, "q");
    assert d.slots == [s.slots[0], None];
    assert Blocks(d.slots[0], SCOPE, "b", 0);
    NobodyIsServed(d, t, 0);
    QueuesOnlyShrink(d, t, 0);
    assert SlotEvolves(d.slots[0], t.slots[0], 0, d.token);
  }

  lemma SecondIsFree(v: View)
    requires Inv(v) && v.queues == TwoAsk() && |v.slots| == 2 && HeldBy(v.slots[0], "p", "c") && v.slots[1].None?
    ensures HeadsHindered(v) && !Hindered(v.slots, SCOPE, "c") && Clear(v.slots, SCOPE, "c", 0)
    ensures IsHead(GiveUpView(v, Asking(1, "b"), TimedOut).queues, Asking(2, "c"))
  {
    hide Inv, PathsConflict;
    FilesApart();
    assert Hinders(v.slots[0], SCOPE, "b");
    HeadsAfterTimeout(v, Asking(1, "b"), Asking(2, "c"));
  }

  /** Peers "b" and "c" wait for a scope over the files that "c" and "d" hold. When "d" releases its
      file, "b" is first in line and waits for "c". When "b" gives up, "c" is first in line, and
      nothing is in its way any more, but nobody serves it. */
  method TimeoutLeavesWaiter() returns (m: FileLockManager, ghost before: View, ghost waiting: Waiter)
    ensures fresh(m) && m.Valid() && Inv(before) && HeadsHindered(before) && Steps(before, m.State(), 0)
    ensures m.shifted == before.shifted && TimeoutFrees(before, m.State()) && !HeadsHindered(m.State())
    ensures IsHead(m.queues, waiting) && Clear(m.slots, waiting.path, waiting.holder, 0)
  {
    hide Inv, Steps, PathsConflict, Moves, HeadsBlocked, Clear, Hindered, HeadsHindered, TimeoutFrees, WithoutWaiter;
    m := TwoWaitForTwo();
    ghost var s := m.State();
    TwoHoldFacts(m.slots);
    assert m.queues.Keys == {SCOPE};
    var thrown, released := m.Release("q", "d", false, 0);
    before := m.State();
    FirstStaysBlocked(s, before);
    SecondIsFree(before);
    m.TimerFires(Asking(1, "b"));
    waiting := Asking(2, "c");
    WhoTimedOut(before, Asking(1, "b"));
    TimeoutKeepsHeadsIff(before, Asking(1, "b"));
  }
}
