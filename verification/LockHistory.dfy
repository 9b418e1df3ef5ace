/** Whole histories of one lock manager: any calls, by anybody, at any times. */
module LockHistory {
  import opened Options
  import opened LockTable
  import opened LockState
  import opened LockGrowth
  import opened LockRuns
  import opened LockDuty
  import opened FileLockManagement

  datatype Call =
    | Acquiring(path: string, holder: string, name: string, lease: Option<int>,
                wait: bool, timeout: Option<int>, priority: Option<int>)
    | Releasing(path: string, caller: string, force: bool)
    | Firing(waiter: Waiter)
    | AskingOther(path: string, peer: string)
    | Reading(path: string)
    | Expiring
    | Listing
    | Disposing

  datatype Timed = Timed(call: Call, now: int)

  predicate Lawful(call: Call) {
    call.Acquiring? ==> GoodLease(call.lease)
  }

  /** Nobody asked for a lock later than `now`. */
  ghost predicate AskedBy(ever: set<Waiter>, now: int) {
    forall w :: w in ever ==> w.requestedAt <= now
  }

  /** One call, whatever it returns or throws: a step that does its duty by those who wait. The cap of
      100 locks is kept by every call made while locks and paths waited for are together at most 100. */
  method Perform(m: FileLockManager, call: Call, now: int)
    requires m.Valid() && Lawful(call)
    modifies m
    ensures m.Valid() && Steps(old(m.State()), m.State(), now) && Attends(old(m.State()), m.State())
    ensures old(Demand(m.State())) <= 100 ==> Size(m.slots) <= 100
    ensures old(Demand(m.State())) <= 101 ==> m.shifted == old(m.shifted)
    ensures AskedBy(old(m.ever), now) ==> AskedBy(m.ever, now)
    ensures ArrivalsInOrder(old(m.ever)) && AskedBy(old(m.ever), now) ==> ArrivalsInOrder(m.ever)
  {
    hide Steps, Evolves, Serves, Strands, CapKept, HeadsBlocked, Inv, ArrivalsInOrder, WithoutWaiter, InsertSorted;
    hide GrantedAfter, Scanned, Size, Demand, TimeoutFrees, HeadsHindered, Blocked;
    ghost var s := m.State();
    StandingStillAttends(s);
    match call
    case Acquiring(path, holder, name, lease, wait, timeout, priority) =>
      var r := m.AcquireQueued(path, holder, name, lease, wait, timeout, priority, now);
      if !r.Waits? { Dwindles(s, m.State(), now); }
      RequestKeepsCap(s, m.State(), path, r, now);
      RequestAttends(s, m.State(), r, now);
    case Releasing(path, caller, force) =>
      var thrown, released := m.Release(path, caller, force, now);
      ReleaseKeepsCap(s, path, m.State(), now);
      if m.State() != s { ReleaseAttends(s, path, m.State(), thrown, now); }
    case Firing(w) =>
      m.TimerFires(w);
      SizeWithinDemand(s);
      if m.State() != s { TimeoutAttends(s, w); }
    case AskingOther(path, peer) =>
      var thrown, locked := m.IsLockedByOther(path, peer, now);
      QueryKeepsCap(s, m.State(), now);
      QueryAttends(s, m.State(), thrown, now);
    case Reading(path) =>
      var thrown, found := m.GetLock(path, now);
      QueryKeepsCap(s, m.State(), now);
      QueryAttends(s, m.State(), thrown, now);
    case Expiring =>
      var thrown := m.CleanExpired(now);
      QueryKeepsCap(s, m.State(), now);
      QueryAttends(s, m.State(), thrown, now);
    case Listing =>
      var thrown, all := m.GetAll(now);
      QueryKeepsCap(s, m.State(), now);
      QueryAttends(s, m.State(), thrown, now);
    case Disposing =>
      m.Dispose();
      NoLocks();
      DisposeAttends(s);
  }

  lemma NoLocks()
    ensures Size([]) == 0
  {
    assert Occupied([]) == {};
  }

  lemma SizeWithinDemand(v: View)
    ensures Size(v.slots) <= Demand(v)
  {
  }

  lemma QueryKeepsCap(s: View, t: View, now: int)
    requires Moves(s, t, {}, now)
    ensures Demand(s) <= MAX_LOCKS ==> Size(t.slots) <= MAX_LOCKS
    ensures t.ever == s.ever
  {
    hide Size;
    if Size(s.slots) <= MAX_LOCKS { MovesKeepCap(s, t, now); }
  }

  lemma ReleaseKeepsCap(s: View, path: string, t: View, now: int)
    requires t == s || Moves(DeleteView(s, path), t, {}, now)
    ensures Demand(s) <= MAX_LOCKS ==> Size(t.slots) <= MAX_LOCKS
    ensures t.ever == s.ever
  {
    hide Size;
    DeleteSize(s.slots, path);
    if t != s { QueryKeepsCap(DeleteView(s, path), t, now); }
  }

  lemma QueryAttends(s: View, t: View, thrown: bool, now: int)
    requires Inv(s) && Evolves(s, t, now)
    requires if thrown then Strands(s, t) && Demand(s) > MAX_LOCKS + 1 else Scanned(s, t, now)
    ensures Attends(s, t)
  {
    hide Inv, Evolves, Scanned, Attends, Demand;
    if thrown { StrandingAttends(s, t); } else { ScanAttends(s, t, now); }
  }

  lemma RequestAttends(s: View, t: View, r: Request, now: int)
    requires Inv(s)
    requires r.Threw? ==> t == s || (Strands(s, t) && Demand(s) > MAX_LOCKS + 1)
    requires r.Immediate? && r.granted ==> GrantedAfter(s, t, r.lock, now)
    requires (r.Immediate? && !r.granted) || r.WaitersFull? ==> Evolves(s, t, now) && Scanned(s, t, now)
    requires r.Waits? ==> Blocked(t.slots, r.waiter.path, r.waiter.holder, now)
    requires r.Waits? ==> exists m :: FileLockManager.JoinsAfter(s, m, t, r.waiter, now)
    ensures Attends(s, t)
  {
    hide Inv, Evolves, Scanned, Attends, Demand, Blocked, GrantedAfter;
    StandingStillAttends(s);
    match r
    case Threw => if t != s { StrandingAttends(s, t); }
    case WaitersFull => ScanAttends(s, t, now);
    case Immediate(granted, lock) => if granted { GrantAttends(s, t, lock, now); } else { ScanAttends(s, t, now); }
    case Waits(w) =>
      var m :| FileLockManager.JoinsAfter(s, m, t, w, now);
      JoinAttends(s, m, w, now);
  }

  lemma RequestKeepsCap(s: View, t: View, path: string, r: Request, now: int)
    requires Inv(s)
    requires Get(s.slots, path).Some? || Size(s.slots) < MAX_LOCKS || t == s
    requires r.Threw? ==> t == s || Demand(s) > MAX_LOCKS + 1
    requires r.Immediate? && r.granted ==> r.lock.path == path && (GrantedAfter(s, t, r.lock, now) || t == s)
    requires (r.Immediate? && !r.granted) || r.WaitersFull? ==> Moves(s, t, {}, now)
    requires r.Waits? ==> exists m :: FileLockManager.JoinsAfter(s, m, t, r.waiter, now)
    ensures Demand(s) <= MAX_LOCKS ==> Size(t.slots) <= MAX_LOCKS
  {
    hide Size, Inv, Moves, GrantedAfter;
    if t != s {
      match r
      case Threw =>
      case WaitersFull => QueryKeepsCap(s, t, now);
      case Immediate(granted, lock) => if granted { GrantKeepsCap(s, t, lock, now); } else { QueryKeepsCap(s, t, now); }
      case Waits(w) =>
        var m :| FileLockManager.JoinsAfter(s, m, t, w, now);
        QueryKeepsCap(s, m, now);
    }
  }

  ghost predicate ClockRunsForward(calls: seq<Timed>) {
    forall i, j :: 0 <= i < j < |calls| ==> calls[i].now <= calls[j].now
  }

  function Times(calls: seq<Timed>): seq<int> {
    seq(|calls|, i requires 0 <= i < |calls| => calls[i].now)
  }

  /** From a new manager, every history of calls is a run, so that all that LockRuns says of runs is
      said of it. Under a clock that never runs backwards, waiters are numbered in order of arrival. If
      locks and paths waited for are together at most 101 before every call, nobody is stranded. */
  method PerformAll(calls: seq<Timed>) returns (m: FileLockManager, ghost states: seq<View>)
    requires forall i :: 0 <= i < |calls| ==> Lawful(calls[i].call)
    ensures fresh(m) && m.Valid()
    ensures Run(states, Times(calls)) && states[|calls|] == m.State()
    ensures states[0] == View([], map[], 0, 0, map[], {}, {}, map[])
    ensures ClockRunsForward(calls) ==> ArrivalsInOrder(m.ever)
    ensures (forall k :: 0 <= k < |calls| ==> Demand(states[k]) <= MAX_LOCKS + 1) ==> m.shifted == {}
  {
    hide Steps, Inv, Attends, Demand;
    m := new FileLockManager();
    states := [m.State()];
    for i := 0 to |calls|
      invariant fresh(m) && m.Valid()
      invariant |states| == i + 1 && Run(states, Times(calls[..i])) && states[i] == m.State()
      invariant states[0] == View([], map[], 0, 0, map[], {}, {}, map[])
      invariant ClockRunsForward(calls) ==> ArrivalsInOrder(m.ever) && (i < |calls| ==> AskedBy(m.ever, calls[i].now))
    {
      ghost var before := states;
      Perform(m, calls[i].call, calls[i].now);
      states := states + [m.State()];
      RunOneMore(before, Times(calls[..i]), m.State(), calls[i].now);
      assert Times(calls[..i + 1]) == Times(calls[..i]) + [calls[i].now];
      if ClockRunsForward(calls) && i + 1 < |calls| {
        assert AskedBy(m.ever, calls[i].now) && calls[i].now <= calls[i + 1].now;
      }
    }
    assert calls[..|calls|] == calls;
    if forall k :: 0 <= k < |calls| ==> Demand(states[k]) <= MAX_LOCKS + 1 {
      NobodyIsStranded(states, Times(calls), 0, |calls|);
    }
  }

  lemma RunOneMore(states: seq<View>, times: seq<int>, v: View, now: int)
    requires Run(states, times) && Inv(v)
    requires Steps(states[|states| - 1], v, now) && Attends(states[|states| - 1], v)
    ensures Run(states + [v], times + [now])
  {
    hide Inv, Steps, Attends;
    var longer, later := states + [v], times + [now];
    forall i | 0 <= i < |later|
      ensures Steps(longer[i], longer[i + 1], later[i]) && Attends(longer[i], longer[i + 1])
    {
      if i < |times| { assert longer[i] == states[i] && longer[i + 1] == states[i + 1]; }
    }
  }
}
