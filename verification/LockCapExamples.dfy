/** Histories from a new lock manager that end at the cap: a release that loses a waiter, and a
    request that leaves 101 locks in the table. */
module LockCapExamples {
  import opened Options
  import opened Scopes
  import opened LockTable
  import opened LockState
  import opened LockGrowth
  import opened LockRuns
  import opened FileLockManagement
  import opened LockCap

  const SCOPE := "scope:**"

  function PlainPath(i: nat): string {
    seq(i + 1, _ => 'x')
  }

  /** Peer "a" holds the scope and the first `n` plain files, in this order, all granted at time 0. */
  ghost predicate HeldByA(slots: Slots, n: nat, scopeLease: int) {
    && |slots| == n + 1
    && HeldAs(slots[0], SCOPE, scopeLease)
    && forall i :: 1 <= i <= n ==> HeldAs(slots[i], PlainPath(i - 1), DEFAULT_LEASE_MS)
  }

  predicate HeldAs(slot: Option<Lock>, path: string, lease: int) {
    slot.Some? && slot.value.path == path && slot.value.holder == "a" && slot.value.expiresAt == lease
  }

  function WaiterOf(path: string, id: nat): Waiter {
    Waiter(path, id, "b", "B", 0, 0, DEFAULT_LOCK_WAIT_TIMEOUT_MS, None)
  }

  function TwoQueues(): Queues {
    map["p" := [WaiterOf("p", 1)], "q" := [WaiterOf("q", 2)]]
  }

  lemma PlainPathsDiffer(i: nat, path: string)
    requires path != "" && path[0] != 's' && path[0] != 'x'
    ensures PlainPath(i) != SCOPE && !PathsConflict(path, PlainPath(i)) && path != PlainPath(i)
  {
    assert PlainPath(i)[0] == 'x';
  }

  lemma ScopeOverAll(path: string)
    requires |path| == 1 && !IsLineTerminator(path[0]) && path[0] != 's'
    ensures PathsConflict(path, SCOPE) && path != SCOPE
  {
    assert ScopeGlob(SCOPE) == "**";
    assert Tokens("**") == [AnyPath] + Tokens("**"[2..]) == [AnyPath];
    assert Matches([], path[1..]);
    assert Matches([AnyPath], path[1..]);
  }

  lemma {:induction false} FullSize(slots: Slots)
    requires forall i :: 0 <= i < |slots| ==> slots[i].Some?
    ensures Size(slots) == |slots|
  {
    if slots == [] {
      assert Occupied(slots) == {};
    } else {
      var n := |slots| - 1;
      FullSize(slots[..n]);
      assert Occupied(slots) == Occupied(slots[..n]) + {n};
    }
  }

  lemma HeldFacts(slots: Slots, n: nat, scopeLease: int)
    requires HeldByA(slots, n, scopeLease) && 0 < scopeLease
    ensures Size(slots) == n + 1 && Expired(slots, 0) == {}
    ensures forall path :: Clear(slots, path, "a", 0)
    ensures IndexOf(slots, SCOPE) == 0 && Get(slots, PlainPath(n)).None?
  {
    FullSize(slots);
    forall path ensures Clear(slots, path, "a", 0) {
      forall i | 0 <= i < |slots| ensures Passes(slots[i], path, "a", 0) {
      }
    }
    assert PlainPath(n)[0] == 'x';
    forall i | 0 <= i < |slots| ensures slots[i].value.path != PlainPath(n) {
      assert i > 0 ==> |slots[i].value.path| == i;
    }
    forall i ensures i !in Expired(slots, 0) {
    }
  }

  /** The scope keeps everybody else from the files under it. */
  lemma NotUnderScope(v: View, scopeLease: int, lock: Lock)
    requires HeldByA(v.slots, 0, scopeLease) && lock.holder != "a"
    requires lock.path != SCOPE && PathsConflict(lock.path, SCOPE)
    ensures !Inv(GrantView(v, lock))
  {
    hide PathsConflict;
    var after := GrantView(v, lock).slots;
    assert IndexOf(v.slots, lock.path) == 1;
    assert after[0] == v.slots[0] && after[1] == Some(lock);
    assert !Compatible(after[1], after[0]);
  }

  // ---- Peers take locks and wait ----

  /** Peer "a" takes the scope and peer "b" waits for two files under it. */
  method TwoWaitForScope(scopeLease: Option<int>) returns (m: FileLockManager)
    requires GoodLease(scopeLease)
    ensures fresh(m) && m.Valid() && HeldByA(m.slots, 0, LeaseFor(scopeLease))
    ensures m.queues == TwoQueues() && m.shifted == {} && |Waiting(m.State())| == 2
  {
    hide Inv, Steps, PathsConflict, Evolves, Serves, Strands, GrantedAfter, Scanned, LeaseFor, HeldByA, CanGrant;
    m := new FileLockManager();
    NothingHeld(m.State());
    var scope := m.Acquire(SCOPE, "a", "A", scopeLease, 0);
    FirstIsHeld(scope.lock, LeaseFor(scopeLease));
    WaitBehindScope(m, "p", LeaseFor(scopeLease));
    assert m.queues.Keys == {"p"} && |m.queues| == |m.queues.Keys|;
    WaitBehindScope(m, "q", LeaseFor(scopeLease));
  }

  lemma NothingHeld(v: View)
    requires v.slots == [] && v.ever == {}
    ensures Size(v.slots) == 0 && Clear(v.slots, SCOPE, "a", 0) && Get(v.slots, SCOPE).None?
    ensures Waiting(v) == {} && forall lock :: Waiting(GrantView(v, lock)) == {}
  {
    FullSize(v.slots);
  }

  lemma FirstIsHeld(lock: Lock, scopeLease: int)
    requires lock.path == SCOPE && lock.holder == "a" && lock.expiresAt == scopeLease
    ensures HeldByA(Put([], lock), 0, scopeLease)
  {
  }

  lemma OnlyWaits(s: View, t: View, r: Request, path: string, scopeLease: int)
    requires HeldByA(s.slots, 0, scopeLease) && 0 < scopeLease && path in {"p", "q"}
    requires |s.queues| <= 1 && |Waiting(s)| < MAX_LOCK_WAITERS
    requires r.Threw? ==> Size(s.slots) >= MAX_LOCKS || Demand(s) > MAX_LOCKS + 1
    requires r.Immediate? ==>
      r.granted && r.lock.path == path && r.lock.holder == "b" && t == GrantView(s, r.lock) && Inv(t)
    requires r.WaitersFull? ==> t == s && |Waiting(t)| == MAX_LOCK_WAITERS
    ensures r.Waits?
  {
    hide Inv, PathsConflict, HeldByA, Size, Waiting;
    HeldFacts(s.slots, 0, scopeLease);
    ScopeOverAll(path);
    if r.Immediate? { NotUnderScope(s, scopeLease, r.lock); }
  }

  /** Peer "b" asks for a file under the scope, and waits. */
  method WaitBehindScope(m: FileLockManager, path: string, scopeLease: int)
    requires m.Valid() && HeldByA(m.slots, 0, scopeLease) && 0 < scopeLease
    requires path in {"p", "q"} && path !in m.queues
    requires |m.queues| <= 1 && |Waiting(m.State())| < MAX_LOCK_WAITERS - 1
    modifies m
    ensures m.Valid() && m.slots == old(m.slots) && m.shifted == old(m.shifted)
    ensures m.waiterCounter == old(m.waiterCounter) + 1
    ensures m.queues == old(m.queues)[path := [WaiterOf(path, m.waiterCounter)]]
    ensures |Waiting(m.State())| == |Waiting(old(m.State()))| + 1
  {
    hide Inv, Steps, PathsConflict, Evolves, Serves, Strands, GrantedAfter, Scanned;
    hide LeaseFor, HeldByA, Size, CanGrant, Moves, InsertSorted, Demand, GrantView, EnqueueView;
    ghost var s := m.State();
    HeldFacts(m.slots, 0, scopeLease);
    ScopeOverAll(path);
    var r := m.AcquireQueued(path, "b", "B", None, true, None, None, 0);
    OnlyWaits(s, m.State(), r, path, scopeLease);
    FirstInQueue(s, r.waiter);
  }

  lemma FirstInQueue(s: View, w: Waiter)
    requires Inv(s) && CanEnqueue(s, w) && w.path !in s.queues
    ensures var t := EnqueueView(s, w);
      && t.queues == s.queues[w.path := [w]] && t.slots == s.slots && t.shifted == s.shifted
      && t.minted == s.minted + 1 && |Waiting(t)| == |Waiting(s)| + 1
  {
    hide Inv;
    EnqueueKeeps(s, w);
    EnqueueQueues(s, w);
  }

  /** Peer "a" takes `n` plain files. */
  method TakeFiles(m: FileLockManager, n: nat, scopeLease: int)
    requires m.Valid() && HeldByA(m.slots, 0, scopeLease) && 0 < scopeLease && n < MAX_LOCKS
    modifies m
    ensures m.Valid() && HeldByA(m.slots, n, scopeLease)
    ensures m.queues == old(m.queues) && m.shifted == old(m.shifted)
    ensures Waiting(m.State()) == old(Waiting(m.State()))
  {
    hide Inv, Steps, PathsConflict, Evolves, Serves, Strands, GrantedAfter, Scanned, HeldByA, CanGrant;
    for k := 0 to n
      invariant m.Valid() && HeldByA(m.slots, k, scopeLease)
      invariant m.queues == old(m.queues) && m.shifted == old(m.shifted) && m.ever == old(m.ever)
    {
      ghost var s := m.State();
      HeldFacts(m.slots, k, scopeLease);
      var r := m.Acquire(PlainPath(k), "a", "A", None, 0);
      OneMoreHeld(s.slots, k, scopeLease, r.lock);
    }
  }

  lemma OneMoreHeld(slots: Slots, k: nat, scopeLease: int, lock: Lock)
    requires HeldByA(slots, k, scopeLease) && lock.path == PlainPath(k) && lock.holder == "a"
    requires lock.expiresAt == DEFAULT_LEASE_MS && Get(slots, PlainPath(k)).None?
    ensures HeldByA(Put(slots, lock), k + 1, scopeLease)
  {
  }

  lemma TwoWait()
    ensures |TwoQueues()| == 2 && TwoQueues().Keys == {"p", "q"} && !PathsConflict("p", "q") && !PathsConflict("q", "p")
  {
    assert TwoQueues().Keys == {"p", "q"};
    assert "p"[0] != "q"[0];
  }

  // ---- A release that loses a waiter ----

  lemma OnlyFilesAreLeft(slots: Slots, n: nat, scopeLease: int)
    requires HeldByA(slots, n, scopeLease) && 0 < scopeLease
    ensures Get(slots, SCOPE) == slots[0] && Independent(Delete(slots, SCOPE), TwoQueues(), 0)
    ensures Expired(Delete(slots, SCOPE), 0) == {}
  {
    hide PathsConflict;
    HeldFacts(slots, n, scopeLease);
    TwoWait();
    var left := Delete(slots, SCOPE);
    forall p, i | p in TwoQueues() && 0 <= i < |left| ensures Aside(left[i], p, 0) {
      if i > 0 { PlainPathsDiffer(i - 1, p); }
    }
    forall i ensures i !in Expired(left, 0) {
    }
  }

  /** With 100 locks held and two waiters the release of the scope leaves one of them in no queue,
      with its promise pending. */
  method ReleaseLosesWaiter() returns (m: FileLockManager, thrown: bool, ghost before: View, ghost lost: Waiter)
    ensures fresh(m) && m.Valid() && Inv(before) && Steps(before, m.State(), 0) && Demand(before) == 102
    ensures thrown && At(before, lost, InQueue) && At(m.State(), lost, Stranded)
  {
    hide Inv, Steps, PathsConflict, HeldByA, Independent, Moves, HeadsBlocked;
    m := TwoWaitForScope(None);
    TakeFiles(m, MAX_LOCKS - 1, DEFAULT_LEASE_MS);
    before := m.State();
    HeldFacts(m.slots, MAX_LOCKS - 1, DEFAULT_LEASE_MS);
    OnlyFilesAreLeft(m.slots, MAX_LOCKS - 1, DEFAULT_LEASE_MS);
    TwoWait();
    HeldFirst(m.slots, MAX_LOCKS - 1, DEFAULT_LEASE_MS);
    var released;
    thrown, released := ReleaseIndependent(m, SCOPE, "a", false, 0);
    lost :| StrandsOne(DeleteView(before, SCOPE), m.State(), lost);
  }

  lemma HeldFirst(slots: Slots, n: nat, scopeLease: int)
    requires HeldByA(slots, n, scopeLease)
    ensures slots[0].Some? && slots[0].value.holder == "a"
  {
  }

  // ---- A request that passes the cap ----

  /** The state just after the scope has expired. */
  lemma ScopeHasExpired(slots: Slots, n: nat)
    requires HeldByA(slots, n, 1)
    ensures |LiveEntries(slots, 1)| == n && Expired(slots, 1) == {0}
    ensures slots[0].Some? && slots[0].value.holder == "a"
  {
    HeldFacts(slots, n, 1);
    assert LiveEntries(slots, 1) == Occupied(slots) - {0};
    assert 0 in Occupied(slots);
  }

  lemma NothingLiveInTheWay(slots: Slots, n: nat)
    requires HeldByA(slots, n, 1)
    ensures Independent(slots, TwoQueues(), 1) && Get(slots, "z").None?
    ensures forall i :: 0 <= i < |slots| ==> Aside(slots[i], "z", 1)
  {
    hide PathsConflict;
    TwoWait();
    forall p, i | p in {"p", "q", "z"} && 0 <= i < |slots| ensures Aside(slots[i], p, 1) {
      if i > 0 { PlainPathsDiffer(i - 1, p); }
    }
  }

  lemma FreePath(p: string)
    requires p in {"p", "q"}
    ensures !PathsConflict("z", p)
  {
    assert "z"[0] != p[0];
  }

  /** The cap test sees 99 locks; the expired one makes way for two waiters, and the request adds its
      own: 101 locks. */
  method RequestPassesCap() returns (m: FileLockManager, r: Attempt, ghost before: View)
    ensures fresh(m) && m.Valid() && Inv(before) && Steps(before, m.State(), 1)
    ensures Size(before.slots) == 99 && Demand(before) == 101
    ensures r.Response? && r.granted && Size(m.slots) == 101
  {
    hide Inv, Steps, PathsConflict, HeldByA, Independent, Moves, Evolves, Serves, Strands;
    hide HeadsBlocked, GrantedAfter, Scanned;
    m := TwoWaitForScope(Some(1));
    TakeFiles(m, MAX_LOCKS - 2, 1);
    before := m.State();
    HeldFacts(m.slots, MAX_LOCKS - 2, 1);
    ScopeHasExpired(m.slots, MAX_LOCKS - 2);
    NothingLiveInTheWay(m.slots, MAX_LOCKS - 2);
    TwoWait();
    forall p | p in TwoQueues() ensures !PathsConflict("z", p) { FreePath(p); }
    r := m.Acquire("z", "c", "C", None, 1);
    MovesSteps(before, m.State(), 1);
    if !r.granted {
      NothingInTheWay(before, m.State(), "z", 1);
      assert false;
    }
    assert !Passes(before.slots[0], "z", "c", 1);
    RequestSize(before, m.State(), r.lock, 1);
  }
}
