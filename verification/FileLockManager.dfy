/** The file lock manager: leases, fencing tokens, lazy expiry and priority wait queues.

    `now` is the clock reading of one synchronous call. Releasing an expired lock while the
    table is scanned grants waiters, which scan the table again: the methods below call each
    other exactly as the program's do, and a thrown "Max locks reached" unwinds them all. */
module FileLockManagement {
  import opened Options
  import opened Scopes
  import opened LockTable
  import opened LockState
  import opened LockGrowth
  import opened LockRuns

  /** A lock response, or the exception thrown when the table is full. */
  datatype Attempt = MaxLocksReached | Response(granted: bool, lock: Lock)

  /** The outcome of a request that may wait: an exception, an immediate response, a full wait
      list, or a promise for the waiter. */
  datatype Request = Threw | Immediate(granted: bool, lock: Lock) | WaitersFull | Waits(waiter: Waiter)

  function ClampPriority(priority: Option<int>): (p: int)
    ensures 0 <= p <= 9
    ensures priority.Some? && 0 <= priority.value <= 9 ==> p == priority.value
    ensures priority.None? || priority.value < 0 ==> p == 0
    ensures priority.Some? && priority.value > 9 ==> p == 9
  {
    if priority.None? || priority.value < MIN_LOCK_PRIORITY then MIN_LOCK_PRIORITY
    else if priority.value > MAX_LOCK_PRIORITY then MAX_LOCK_PRIORITY
    else priority.value
  }

  function WaitTimeout(requested: Option<int>): (timeout: int)
    ensures requested.None? ==> timeout == 60_000
    ensures requested.Some? && requested.value <= 300_000 ==> timeout == requested.value
    ensures requested.Some? && requested.value > 300_000 ==> timeout == 300_000
  {
    var wanted := if requested.Some? then requested.value else DEFAULT_LOCK_WAIT_TIMEOUT_MS;
    if wanted < MAX_LOCK_WAIT_TIMEOUT_MS then wanted else MAX_LOCK_WAIT_TIMEOUT_MS
  }

  class FileLockManager {
    var slots: Slots
    var queues: Queues
    var tokenCounter: nat
    var waiterCounter: nat
    var settled: map<Waiter, Outcome>
    ghost var shifted: set<Waiter>
    ghost var ever: set<Waiter>
    ghost var contexts: map<Waiter, Context>

    ghost function State(): View
      reads this
    {
      View(slots, queues, tokenCounter, waiterCounter, settled, shifted, ever, contexts)
    }

    ghost predicate Valid()
      reads this
    {
      Inv(State())
    }

    constructor ()
      ensures Valid() && State() == View([], map[], 0, 0, map[], {}, {}, map[])
    {
      slots, queues, tokenCounter, waiterCounter := [], map[], 0, 0;
      settled, shifted, ever, contexts := map[], {}, {}, map[];
    }

    // ---- Release, scan, acquire, grant: mutually recursive ----

    /** Deletes the entry for `path` and serves the waiters that this lets through. */
    method ReleaseLock(path: string, now: int) returns (thrown: bool)
      requires Valid()
      modifies this
      ensures Valid()
      ensures Moves(DeleteView(old(State()), path), State(), {}, now)
      ensures !thrown ==> HeadsBlocked(State(), now) && shifted == old(shifted)
      ensures thrown ==> Strands(DeleteView(old(State()), path), State())
      decreases Expired(Delete(slots, path), now), 5
    {
      DeleteKeeps(State(), path);
      slots := Delete(slots, path);
      assert State() == DeleteView(old(State()), path);
      thrown := GrantEligibleWaiters(now);
    }

    /** Releases an entry that has expired. */
    method ReleaseExpired(path: string, now: int) returns (thrown: bool)
      requires Valid()
      requires Get(slots, path).Some? && !Live(Get(slots, path).value, now)
      modifies this
      ensures Valid() && Moves(old(State()), State(), {}, now)
      ensures var i := IndexOf(old(slots), path); i < |slots| && slots[i].None?
      ensures !thrown ==> HeadsBlocked(State(), now) && shifted == old(shifted)
      ensures thrown ==> Strands(old(State()), State())
      ensures Expired(slots, now) <= Expired(Delete(old(slots), path), now)
      decreases Expired(Delete(slots, path), now), 6
    {
      ghost var before := State();
      ghost var deleted := DeleteView(before, path);
      ghost var i := IndexOf(slots, path);
      ExpiryEvolves(before, path, now);
      thrown := ReleaseLock(path, now);
      MovesTrans(before, deleted, State(), {}, now);
      ExpiredShrinks(deleted.slots, slots, now, deleted.token);
      assert SlotEvolves(deleted.slots[i], slots[i], now, deleted.token);
      if thrown {
        StrandsSooner(before, deleted, State(), now);
      }
    }

    /** Scans the table for a live lock of another holder that conflicts with `path`, releasing
        expired locks of others on the way. */
    method GetConflictingLock(path: string, holder: string, now: int) returns (thrown: bool, found: Option<Lock>)
      requires Valid()
      modifies this
      ensures Valid() && Moves(old(State()), State(), {}, now)
      ensures thrown ==> Strands(old(State()), State()) && Freed(old(slots), slots)
      ensures !thrown ==> Scanned(old(State()), State(), now)
      ensures old(Expired(slots, now)) == {} ==> !thrown && State() == old(State())
      ensures !thrown && found.None? ==> Clear(slots, path, holder, now)
      ensures !thrown && found.Some? ==>
        found == Get(slots, found.value.path) && Blocks(found, path, holder, now)
      ensures !thrown && found.Some? ==>
        forall i :: 0 <= i < IndexOf(slots, found.value.path) ==> Passes(slots[i], path, holder, now)
      ensures old(Clear(slots, path, holder, now)) ==> !thrown && found.None? && State() == old(State())
      decreases Expired(slots, now), 0
    {
      hide Inv, Evolves, CapKept, Serves, HeadsBlocked, Strands, PathsConflict, SlotsEvolve, Freed;
      var i := 0;
      ghost var s := State();
      MovesRefl(s, now);
      while i < |slots|
        invariant i <= |slots|
        invariant Valid() && Moves(s, State(), {}, now)
        invariant Scanned(s, State(), now)
        invariant Expired(s.slots, now) == {} ==> State() == s
        invariant forall j :: 0 <= j < i ==> Passes(slots[j], path, holder, now)
        invariant Clear(s.slots, path, holder, now) ==> State() == s
        invariant Expired(slots, now) <= Expired(s.slots, now)
        decreases Expired(slots, now), |slots| - i
      {
        if slots[i].Some? && !Own(slots[i].value, holder) {
          var lock := slots[i].value;
          FoundUnderItsPath(State(), i);
          if !Live(lock, now) {
            assert !Passes(slots[i], path, holder, now) && i in Expired(slots, now);
            ghost var v := State();
            thrown := ReleaseAt(i, now, s);
            ScannedFurther(s, v, State(), now, i);
            if thrown { return true, None; }
            PassesPersist(v.slots, slots, i, path, holder, now, v.token);
            Dwindles(s, State(), now);
          } else if PathsConflict(path, lock.path) {
            return false, Some(lock);
          }
        }
        i := i + 1;
      }
      return false, None;
    }

    /** Releases the expired lock an iteration has come to. */
    method ReleaseAt(i: nat, now: int, ghost s: View) returns (thrown: bool)
      requires Valid() && i < |slots| && slots[i].Some? && !Live(slots[i].value, now)
      requires Moves(s, State(), {}, now) && shifted == s.shifted
      modifies this
      ensures Valid() && Moves(s, State(), {}, now)
      ensures old(tokenCounter) <= tokenCounter && SlotsEvolve(old(slots), slots, now, old(tokenCounter))
      ensures thrown ==> Strands(s, State())
      ensures !thrown ==> HeadsBlocked(State(), now) && shifted == s.shifted
      ensures i < |slots| && slots[i].None? && Freed(s.slots, slots)
      ensures Expired(slots, now) < Expired(old(slots), now)
      decreases Expired(slots, now) - {i}, 7
    {
      ghost var v := State();
      var lock := slots[i].value;
      GetFinds(slots, lock.path, i);
      DeleteExpiredEvolves(slots, lock.path, now, tokenCounter);
      Dwindles(s, v, now);
      thrown := ReleaseExpired(lock.path, now);
      FreedByIndex(s.slots, slots, i);
      MovesTrans(s, v, State(), {}, now);
      if thrown {
        StrandsSooner(s, v, State(), now);
      }
    }

    /** Grants, renews or denies a lock on `path`. */
    method Acquire(path: string, holder: string, name: string, requested: Option<int>, now: int) returns (r: Attempt)
      requires Valid() && GoodLease(requested)
      modifies this
      ensures Valid() && Evolves(old(State()), State(), now)
      ensures Serves(old(State()), State(), Extra(path, holder, r.Response? && r.granted))
      ensures Dated(old(slots), slots, now)
      ensures r.MaxLocksReached? ==>
        || (State() == old(State()) && Get(slots, path).None? && Size(slots) >= MAX_LOCKS)
        || (Strands(old(State()), State()) && old(Demand(State())) > MAX_LOCKS + 1)
      ensures r.Response? ==> shifted == old(shifted)
      ensures r.Response? && r.granted ==> GrantedAfter(old(State()), State(), r.lock, now)
      ensures r.Response? && !r.granted ==> Moves(old(State()), State(), {}, now) && Scanned(old(State()), State(), now)
      ensures old(Expired(slots, now)) == {} && (old(Get(slots, path)).Some? || old(Size(slots)) < MAX_LOCKS) ==>
        r.Response? && State() == if r.granted then GrantView(old(State()), r.lock) else old(State())
      ensures r.Response? && r.granted ==>
        && Get(slots, path) == Some(r.lock)
        && r.lock.token == tokenCounter > old(tokenCounter)
        && r.lock.path == path && r.lock.holder == holder && r.lock.name == name
        && r.lock.lease == LeaseFor(requested) && r.lock.expiresAt == now + r.lock.lease
        && r.lock.acquiredAt == if old(Get(slots, path)).Some? && old(Get(slots, path)).value.holder == holder
                                then old(Get(slots, path)).value.acquiredAt else now
      ensures r.Response? && !r.granted ==>
        && Get(slots, r.lock.path) == Some(r.lock) && Live(r.lock, now)
        && PathsConflict(path, r.lock.path) && (r.lock.holder != holder || holder == "")
      ensures old(Expired(slots, now)) == {} && r.Response? && r.granted ==> old(Clear(slots, path, holder, now))
      ensures (var existing := old(Get(slots, path));
               existing.Some? && existing.value.holder != holder && now < existing.value.expiresAt) ==>
        r == Response(false, old(Get(slots, path)).value) && State() == old(State())
      ensures old(Clear(slots, path, holder, now)) && (old(Get(slots, path)).Some? || old(Size(slots)) < MAX_LOCKS) ==>
        r.Response? && r.granted && State() == GrantView(old(State()), r.lock) && CanGrant(old(State()), r.lock, now)
      ensures old(Get(slots, path)).None? && old(Size(slots)) >= MAX_LOCKS ==>
        r.MaxLocksReached? && State() == old(State())
      decreases Expired(slots, now), 1, 1
    {
      hide Evolves, CapKept, Serves, HeadsBlocked, Strands, GrantedAfter, Freed, Demand;
      var existing := Get(slots, path);
      ghost var s := State();
      MovesRefl(s, now);
      ConflictSymmetric(path, path);
      if existing.None? && Size(slots) >= MAX_LOCKS {
        return MaxLocksReached;
      }
      var lease := LeaseFor(requested);
      if existing.Some? && existing.value.holder != holder {
        if !Live(existing.value, now) {
          assert !Passes(slots[IndexOf(slots, path)], path, holder, now);
          DeleteExpiredEvolves(slots, path, now, tokenCounter);
          var thrown := ReleaseExpired(path, now);
          FreedByIndex(s.slots, slots, IndexOf(s.slots, path));
          if thrown {
            StrandingNeedsDemand(s, State(), now);
            return MaxLocksReached;
          }
          Dwindles(s, State(), now);
          var next := Get(slots, path);
          if next.Some? && next.value.holder != holder {
            ReplacementIsLive(s, State(), path, now);
            return Response(false, next.value);
          }
        } else {
          assert !Passes(slots[IndexOf(slots, path)], path, holder, now);
          return Response(false, existing.value);
        }
      }
      var acquiredAt := if existing.Some? && existing.value.holder == holder then existing.value.acquiredAt else now;
      r := GrantOrDeny(path, holder, name, lease, acquiredAt, now, s);
      if r.MaxLocksReached? { StrandingNeedsDemand(s, State(), now); }
    }

    /** The second half of `acquire`: grant unless a live conflicting lock is found. */
    method GrantOrDeny(path: string, holder: string, name: string, lease: int, acquiredAt: int, now: int, ghost s: View)
      returns (r: Attempt)
      requires Valid() && 0 < lease <= MAX_LEASE_MS
      requires Inv(s) && Moves(s, State(), {}, now) && shifted == s.shifted && Scanned(s, State(), now)
      requires Get(s.slots, path).Some? || Size(s.slots) < MAX_LOCKS
      requires forall l: Lock :: l.path == path && l.holder == holder && l.acquiredAt == acquiredAt ==>
        DatedBy(s.slots, l, now)
      modifies this
      ensures Valid() && Evolves(s, State(), now)
      ensures Serves(s, State(), Extra(path, holder, r.Response? && r.granted))
      ensures Dated(s.slots, slots, now)
      ensures r.MaxLocksReached? ==> Strands(s, State()) && Moves(s, State(), {}, now) && Freed(s.slots, slots)
      ensures r.Response? ==> shifted == s.shifted
      ensures r.Response? && r.granted ==> GrantedAfter(s, State(), r.lock, now)
      ensures r.Response? && !r.granted ==> Moves(s, State(), {}, now) && Scanned(s, State(), now)
      ensures old(Expired(slots, now)) == {} ==>
        r.Response? && State() == if r.granted then GrantView(old(State()), r.lock) else old(State())
      ensures r.Response? && r.granted ==>
        && Get(slots, path) == Some(r.lock)
        && r.lock.token == tokenCounter > old(tokenCounter)
        && r.lock == Lock(path, holder, name, r.lock.token, acquiredAt, now + lease, lease)
      ensures r.Response? && !r.granted ==>
        Get(slots, r.lock.path) == Some(r.lock) && Blocks(Some(r.lock), path, holder, now)
      ensures old(Expired(slots, now)) == {} && r.Response? && r.granted ==> old(Clear(slots, path, holder, now))
      ensures old(Clear(slots, path, holder, now)) ==>
        r.Response? && r.granted && State() == GrantView(old(State()), r.lock) && CanGrant(old(State()), r.lock, now)
      decreases Expired(slots, now), 1, 0
    {
      hide Inv, Evolves, CapKept, Serves, HeadsBlocked, Strands, PathsConflict, Scanned, GrantedAfter, Freed;
      ghost var v := State();
      var thrown, conflicting := GetConflictingLock(path, holder, now);
      ghost var m := State();
      MovesTrans(s, v, m, {}, now);
      Dwindles(v, m, now);
      TableEvolves(v, m, now);
      ScannedTrans(s, v, m, now);
      if thrown {
        StrandsSooner(s, v, m, now);
        return MaxLocksReached;
      }
      if conflicting.Some? {
        return Response(false, conflicting.value);
      }
      var lock := Lock(path, holder, name, tokenCounter + 1, acquiredAt, now + lease, lease);
      GrantFollows(s, m, lock, now);
      GrantIsAfter(s, m, lock, now);
      slots, tokenCounter := Put(slots, lock), tokenCounter + 1;
      assert State() == GrantView(m, lock);
      return Response(true, lock);
    }

    /** The heads of all queues, in waiter order. */
    method Candidates() returns (candidates: seq<Waiter>)
      requires Valid()
      ensures Sorted(candidates)
      ensures forall w :: w in candidates <==> IsHead(queues, w)
    {
      candidates := [];
      var paths := queues.Keys;
      while paths != {}
        invariant paths <= queues.Keys
        invariant Sorted(candidates)
        invariant forall w :: w in candidates <==> IsHead(queues, w) && w.path !in paths
        decreases paths
      {
        var p :| p in paths;
        assert GoodQueue(p, queues[p]);
        ghost var was := candidates;
        HeadsAreComparable(State(), candidates, queues[p][0]);
        candidates := InsertSorted(candidates, queues[p][0]);
        paths := paths - {p};
      }
    }

    /** Repeats passes over the heads of the queues until a pass serves nobody. */
    method GrantEligibleWaiters(now: int) returns (thrown: bool)
      requires Valid()
      modifies this
      ensures Valid() && Moves(old(State()), State(), {}, now)
      ensures !thrown ==> HeadsBlocked(State(), now) && shifted == old(shifted)
      ensures thrown ==> Strands(old(State()), State())
      decreases Expired(slots, now), 4
    {
      hide Inv, Evolves, CapKept, Serves, HeadsBlocked, Strands;
      ghost var s := State();
      MovesRefl(s, now);
      var progressed := true;
      while progressed
        invariant Valid() && Moves(s, State(), {}, now) && shifted == s.shifted
        invariant !progressed ==> HeadsBlocked(State(), now)
        decreases Waiting(State()), progressed
      {
        ghost var v := State();
        Dwindles(s, v, now);
        thrown, progressed := GrantPass(now);
        MovesTrans(s, v, State(), {}, now);
        Dwindles(v, State(), now);
        if thrown {
          StrandsSooner(s, v, State(), now);
          return;
        }
      }
      thrown := false;
    }

    /** One pass: tries the heads of all queues in waiter order. */
    method GrantPass(now: int) returns (thrown: bool, progressed: bool)
      requires Valid()
      modifies this
      ensures Valid() && Moves(old(State()), State(), {}, now)
      ensures thrown ==> Strands(old(State()), State())
      ensures !thrown ==> shifted == old(shifted)
      ensures !thrown && !progressed ==> HeadsBlocked(State(), now)
      ensures !thrown && progressed ==> Waiting(State()) < Waiting(old(State()))
      decreases Expired(slots, now), 3
    {
      hide Inv, Evolves, CapKept, Serves, HeadsBlocked, PassInv, Tried, NoneBefore, Strands;
      ghost var s := State();
      MovesRefl(s, now);
      progressed := false;
      var candidates := Candidates();
      PassStart(s, candidates, now);
      var k := 0;
      while k < |candidates|
        invariant k <= |candidates|
        invariant Valid() && Moves(s, State(), {}, now) && shifted == s.shifted
        invariant PassInv(State(), candidates[k..], progressed, now)
        invariant progressed ==> Waiting(State()) < Waiting(s)
      {
        ghost var v := State();
        var w := candidates[k];
        ghost var rest := candidates[k..];
        NextCandidateIsFirst(v, rest, progressed, now);
        CandidateWasQueued(s, w);
        CandidateNow(s, v, w, now);
        Dwindles(s, v, now);
        var served;
        thrown, served := TryGrant(w, now);
        MovesTrans(s, v, State(), Extra(w.path, w.holder, served), now);
        if served { ServedAnew(s, State(), w, now); }
        if thrown {
          StrandsSooner(s, v, State(), now);
          return;
        }
        PassStep(v, State(), rest, progressed, served, now);
        Dwindles(v, State(), now);
        if served { ServedIsGone(v, State(), w, now); }
        assert rest[1..] == candidates[k + 1..];
        progressed := progressed || served;
        k := k + 1;
      }
      assert candidates[k..] == [];
      PassEnd(State(), progressed, now);
      thrown := false;
    }

    /** Grants one candidate unless somebody else's lock stands in its way. */
    method TryGrant(w: Waiter, now: int) returns (thrown: bool, served: bool)
      requires Valid() && w in ever && GoodLease(w.lease)
      requires if IsQueued(queues, w) then IsHead(queues, w)
               else w in settled && OwnedLive(slots, w.path, w.holder, now)
      requires NoneBefore(State(), w, now)
      modifies this
      ensures Valid() && Moves(old(State()), State(), Extra(w.path, w.holder, served), now)
      ensures thrown ==> Strands(old(State()), State())
      ensures served ==> w in settled
      ensures !thrown ==> shifted == old(shifted) && Tried(old(State()), State(), w, served, now)
      decreases Expired(slots, now), 2
    {
      hide Inv, Evolves, CapKept, Serves, HeadsBlocked, NoneBefore, FairGrant, Strands;
      ghost var s := State();
      Dwindles(s, s, now) by { EvolvesRefl(s, now); }
      var conflicting;
      thrown, conflicting := GetConflictingLock(w.path, w.holder, now);
      if thrown { return true, false; }
      ghost var m := State();
      Dwindles(s, m, now);
      if conflicting.Some? {
        TriedInVain(s, m, w, conflicting.value, now);
        return false, false;
      }
      if IsQueued(queues, w) {
        assert w in Waiting(m);
        ClearHeadIsUntouched(s, m, w, now);
        FairNow(m, w, now);
      } else {
        ServedMeanwhile(s, m, w, now);
      }
      thrown := Serve(w, now);
      MovesTrans(s, m, State(), Extra(w.path, w.holder, !thrown), now);
      if thrown { StrandsSooner(s, m, State(), now); } else { TriedServed(s, m, State(), w, now); }
      served := !thrown;
    }

    /** Shifts a candidate whose path is clear, grants it the lock and settles its promise. A
        candidate that a nested release has served meanwhile only has its lock renewed. */
    method Serve(w: Waiter, now: int) returns (thrown: bool)
      requires Valid() && w in ever && GoodLease(w.lease)
      requires Clear(slots, w.path, w.holder, now)
      requires if IsQueued(queues, w) then FairGrant(w, Moment(State(), now))
               else w in settled && OwnedLive(slots, w.path, w.holder, now)
      modifies this
      ensures Valid() && Moves(old(State()), State(), Extra(w.path, w.holder, !thrown), now)
      ensures thrown ==> Strands(old(State()), State())
      ensures !thrown ==> w in settled
      ensures !thrown ==> shifted == old(shifted) && OwnedLive(slots, w.path, w.holder, now) && !IsQueued(queues, w)
      ensures queues == WithoutWaiter(old(queues), w.path, w.id)
      decreases Expired(slots, now), 2, 0
    {
      hide Inv, Evolves, CapKept, Serves, Strands, PathsConflict;
      ghost var v := State();
      ghost var queued := IsQueued(queues, w);
      ShiftWaiter(w);
      var r := Acquire(w.path, w.holder, w.name, w.lease, now);
      if r.MaxLocksReached? {
        ShiftStrands(v, w, now);
        return true;
      }
      Resolve(w, r.lock, Moment(v, now));
      if queued {
        assert v.shifted + {w} - {w} == v.shifted;
        ServeKeeps(v, w, r.lock, now);
      } else {
        RenewalKeeps(v, r.lock, now);
      }
      return false;
    }

    /** Takes a candidate off its queue, if it is still there. */
    method ShiftWaiter(w: Waiter)
      requires Valid() && w in ever
      requires if IsQueued(queues, w) then IsHead(queues, w)
               else w in settled && exists holder, now :: OwnedLive(slots, w.path, holder, now)
      modifies `queues, `shifted
      ensures Valid()
      ensures old(IsQueued(queues, w)) ==>
        State() == ShiftView(old(State()), w) && w !in settled && w !in old(shifted)
      ensures !old(IsQueued(queues, w)) ==> State() == old(State()) && Get(slots, w.path).Some?
      ensures queues == WithoutWaiter(old(queues), w.path, w.id)
    {
      ghost var v := State();
      if IsQueued(queues, w) {
        ShiftKeeps(v, w);
        GoneFromItsQueue(v, w);
        shifted := shifted + {w};
      } else {
        StaleIsAbsent(v, w);
        ghost var holder, now :| OwnedLive(slots, w.path, holder, now);
        OwnedIsFound(slots, w.path, holder, now);
      }
      queues := WithoutWaiter(queues, w.path, w.id);
    }

    /** Settles a waiter's promise; settling it again has no effect. */
    method Resolve(w: Waiter, lock: Lock, ghost c: Context)
      modifies `settled, `shifted, `contexts
      ensures if w in old(settled) then State() == old(State())
              else State() == SettleView(old(State()), w, Granted(lock), c)
    {
      if w !in settled {
        settled := settled[w := Granted(lock)];
        shifted, contexts := shifted - {w}, contexts[w := c];
      }
    }

    // ---- Entry points ----

    /** Number of waiters in all queues. */
    method TotalWaiters() returns (total: nat)
      requires Valid()
      ensures total == |Waiting(State())|
    {
      total := 0;
      var paths := queues.Keys;
      assert WaitingFor(State(), {}) == {};
      while paths != {}
        invariant paths <= queues.Keys
        invariant total == |WaitingFor(State(), queues.Keys - paths)|
        decreases paths
      {
        var p :| p in paths;
        QueueCounts(State(), queues.Keys - paths, p);
        assert queues.Keys - (paths - {p}) == (queues.Keys - paths) + {p};
        total := total + |queues[p]|;
        paths := paths - {p};
      }
      assert WaitingFor(State(), queues.Keys - {}) == Waiting(State());
    }

    /** A waiter that joined its queue after the scan of its request. */
    static ghost predicate JoinsAfter(s: View, m: View, t: View, w: Waiter, now: int) {
      Moves(s, m, {}, now) && Scanned(s, m, now) && t == EnqueueView(m, w)
    }

    /** `acquire`, and on denial a place in the wait queue of the path. */
    method AcquireQueued(path: string, holder: string, name: string, requested: Option<int>,
                         wait: bool, timeout: Option<int>, priority: Option<int>, now: int)
      returns (r: Request)
      requires Valid() && GoodLease(requested)
      modifies this
      ensures Valid() && Steps(old(State()), State(), now)
      ensures !r.Waits? ==> Evolves(old(State()), State(), now)
      ensures r.Threw? ==>
        || (State() == old(State()) && Get(slots, path).None? && Size(slots) >= MAX_LOCKS)
        || (Strands(old(State()), State()) && old(Demand(State())) > MAX_LOCKS + 1)
      ensures r.Immediate? && r.granted ==>
        && Evolves(old(State()), State(), now) && GrantedAfter(old(State()), State(), r.lock, now)
        && Get(slots, path) == Some(r.lock)
        && r.lock == Lock(path, holder, name, tokenCounter, r.lock.acquiredAt,
                          now + LeaseFor(requested), LeaseFor(requested))
        && r.lock.acquiredAt == (if old(Get(slots, path)).Some? && old(Get(slots, path)).value.holder == holder
                                 then old(Get(slots, path)).value.acquiredAt else now)
        && tokenCounter > old(tokenCounter)
      ensures r.Immediate? && !r.granted ==>
        && !wait && Moves(old(State()), State(), {}, now) && Scanned(old(State()), State(), now)
        && Blocked(slots, path, holder, now)
      ensures old(Expired(slots, now)) == {} && (old(Get(slots, path)).Some? || old(Size(slots)) < MAX_LOCKS) ==>
        State() == match r
                   case Threw => State()
                   case WaitersFull => old(State())
                   case Immediate(granted, lock) => if granted then GrantView(old(State()), lock) else old(State())
                   case Waits(w) => EnqueueView(old(State()), w)
      ensures r.WaitersFull? ==>
        && wait && |Waiting(State())| == 100 && Blocked(slots, path, holder, now)
        && Moves(old(State()), State(), {}, now) && Scanned(old(State()), State(), now)
      ensures old(Get(slots, path)).None? && old(Size(slots)) >= MAX_LOCKS ==> r.Threw? && State() == old(State())
      ensures r.Waits? ==>
        && wait && Blocked(slots, path, holder, now)
        && r.waiter == Waiter(path, waiterCounter, holder, name, ClampPriority(priority), now,
                              now + WaitTimeout(timeout), requested)
        && waiterCounter == old(waiterCounter) + 1
        && exists m :: JoinsAfter(old(State()), m, State(), r.waiter, now)
      ensures ArrivalsInOrder(old(ever)) && (forall w :: w in old(ever) ==> w.requestedAt <= now) ==>
        ArrivalsInOrder(ever)
      ensures forall w :: w in ever && w !in old(ever) ==> w.requestedAt == now
    {
      hide Inv, Evolves, Serves, Strands, Steps, InsertSorted, IsQueued, PathsConflict, Scanned;
      hide GrantedAfter, Demand, LeaseFor, CapKept;
      ghost var s := State();
      var immediate := Acquire(path, holder, name, requested, now);
      MovesSteps(s, State(), now);
      Dwindles(s, State(), now);
      if immediate.MaxLocksReached? { return Threw; }
      if immediate.granted { return Immediate(true, immediate.lock); }
      BlockedByFound(State(), path, holder, immediate.lock, now);
      if !wait { return Immediate(false, immediate.lock); }
      ghost var m := State();
      r := JoinQueue(path, holder, name, requested, timeout, priority, now, s);
      if r.Waits? {
        ArrivalKeepsOrder(m, r.waiter);
        assert JoinsAfter(s, m, State(), r.waiter, now);
      }
    }

    /** A denied request takes its place in the wait queue, if the wait list is not full. */
    method JoinQueue(path: string, holder: string, name: string, requested: Option<int>,
                     timeout: Option<int>, priority: Option<int>, now: int, ghost s: View)
      returns (r: Request)
      requires Valid() && GoodLease(requested) && Blocked(slots, path, holder, now)
      requires Inv(s) && Moves(s, State(), {}, now)
      modifies this
      ensures Valid() && Steps(s, State(), now) && slots == old(slots)
      ensures r.WaitersFull? || r.Waits?
      ensures r.WaitersFull? ==> State() == old(State()) && |Waiting(State())| == MAX_LOCK_WAITERS
      ensures r.Waits? ==>
        && r.waiter == Waiter(path, old(waiterCounter) + 1, holder, name, ClampPriority(priority), now,
                              now + WaitTimeout(timeout), requested)
        && State() == EnqueueView(old(State()), r.waiter)
    {
      hide Inv, Evolves, Serves, Steps, InsertSorted, IsQueued;
      MovesSteps(s, State(), now);
      var total := TotalWaiters();
      WithinLimits(State());
      if total >= MAX_LOCK_WAITERS { return WaitersFull; }
      var w := Waiter(path, waiterCounter + 1, holder, name, ClampPriority(priority), now,
                      now + WaitTimeout(timeout), requested);
      ghost var m := State();
      EnqueueKeeps(m, w);
      QueuedSteps(s, m, w, now);
      Enqueue(w);
      return Waits(w);
    }

    /** Puts a waiter into the queue of its path, which stays sorted. */
    method Enqueue(w: Waiter)
      modifies this
      ensures w.id == old(waiterCounter) + 1 ==> State() == EnqueueView(old(State()), w)
    {
      var queue := QueueFor(queues, w.path);
      queues := queues[w.path := InsertSorted(queue, w)];
      waiterCounter, ever := waiterCounter + 1, ever + {w};
    }

    /** Releases a lock for its holder, or for anybody with `force`. */
    method Release(path: string, caller: string, force: bool, now: int) returns (thrown: bool, released: bool)
      requires Valid()
      modifies this
      ensures Valid() && Steps(old(State()), State(), now)
      ensures var lock := old(Get(slots, path));
        if lock.None? then !thrown && released && State() == old(State())
        else if !force && lock.value.holder != caller then !thrown && !released && State() == old(State())
        else
          && Moves(DeleteView(old(State()), path), State(), {}, now)
          && (!thrown ==> released && HeadsBlocked(State(), now) && shifted == old(shifted))
          && (thrown ==> Strands(DeleteView(old(State()), path), State()))
      ensures old(Demand(State())) <= 101 ==> !thrown
    {
      hide Inv, Evolves, CapKept, Serves, Strands, Steps, Demand;
      var lock := Get(slots, path);
      ghost var s := State();
      StandingStill(s, now);
      if lock.None? { return false, true; }
      if !force && lock.value.holder != caller { return false, false; }
      thrown := ReleaseLock(path, now);
      ReleaseSteps(s, path, State(), now);
      DeleteKeeps(s, path);
      DeleteLowersDemand(s, path);
      if thrown { StrandingNeedsDemand(DeleteView(s, path), State(), now); }
      released := !thrown;
    }

    /** A waiter's timer fires. The timer of a waiter taken off its queue has been cleared, and
        does nothing. */
    method TimerFires(w: Waiter)
      requires Valid()
      modifies this
      ensures Valid() && forall now :: Steps(old(State()), State(), now)
      ensures State() == if old(IsQueued(queues, w)) then GiveUpView(old(State()), w, TimedOut) else old(State())
      ensures forall x :: IsQueued(queues, x) <==> old(IsQueued(queues, x)) && x != w
      ensures slots == old(slots)
      ensures settled == if old(IsQueued(queues, w)) then old(settled)[w := TimedOut] else old(settled)
    {
      hide Inv, Steps;
      ghost var v := State();
      forall now ensures Steps(v, v, now) { StandingStill(v, now); }
      if IsQueued(queues, w) {
        GiveUpKeeps(v, w, TimedOut);
        WithoutMember(v, w);
        forall now ensures Steps(v, GiveUpView(v, w, TimedOut), now) { GivingUpSteps(v, w, TimedOut, now); }
        queues := WithoutWaiter(queues, w.path, w.id);
        settled := settled[w := TimedOut];
        assert State() == GiveUpView(v, w, TimedOut);
      }
    }

    /** Is the path locked by a peer other than this one? */
    method IsLockedByOther(path: string, peer: string, now: int) returns (thrown: bool, locked: bool)
      requires Valid()
      modifies this
      ensures Valid() && Moves(old(State()), State(), {}, now) && Steps(old(State()), State(), now)
      ensures thrown ==> Strands(old(State()), State()) && old(Demand(State())) > MAX_LOCKS + 1
      ensures !thrown ==> Scanned(old(State()), State(), now)
      ensures !thrown && locked ==> Blocked(slots, path, peer, now)
      ensures !thrown && !locked && peer != "" ==> Clear(slots, path, peer, now)
    {
      hide Inv, Evolves, CapKept, Serves, Strands, Steps, Demand;
      ghost var s := State();
      var lock;
      thrown, lock := GetConflictingLock(path, peer, now);
      MovesSteps(s, State(), now);
      if thrown { StrandingNeedsDemand(s, State(), now); }
      if thrown || lock.None? { return thrown, false; }
      BlockedByFound(State(), path, peer, lock.value, now);
      locked := lock.value.holder != peer;
    }

    /** The lock on a path, or any live lock that conflicts with it. */
    method GetLock(path: string, now: int) returns (thrown: bool, found: Option<Lock>)
      requires Valid()
      modifies this
      ensures Valid() && Moves(old(State()), State(), {}, now) && Steps(old(State()), State(), now)
      ensures thrown ==> Strands(old(State()), State()) && old(Demand(State())) > MAX_LOCKS + 1
      ensures !thrown ==> Scanned(old(State()), State(), now)
      ensures !thrown && found.Some? ==>
        Get(slots, found.value.path) == found && now < found.value.expiresAt && PathsConflict(path, found.value.path)
      ensures !thrown && found.None? ==>
        || (old(Get(slots, path)).Some? && old(Get(slots, path)).value.expiresAt <= now)
        || (old(Get(slots, path)).None? &&
            forall i :: 0 <= i < |slots| && slots[i].Some? ==>
              now < slots[i].value.expiresAt && !PathsConflict(path, slots[i].value.path))
      ensures old(Get(slots, path)).Some? && now < old(Get(slots, path)).value.expiresAt ==>
        !thrown && found == old(Get(slots, path)) && State() == old(State())
      ensures old(Get(slots, path)).Some? && old(Get(slots, path)).value.expiresAt <= now ==> found.None?
    {
      hide Inv, Evolves, CapKept, Serves, Strands, Steps, Demand;
      ghost var s := State();
      MovesRefl(s, now);
      thrown, found := false, Get(slots, path);
      if found.Some? {
        ConflictSymmetric(path, path);
        if !Live(found.value, now) {
          ghost var i := IndexOf(slots, path);
          thrown := ReleaseExpired(path, now);
          FreedByIndex(s.slots, slots, i);
          found := None;
        }
      } else {
        thrown, found := GetConflictingLock(path, "", now);
        if !thrown && found.None? { ClearOfAll(slots, path, now); }
      }
      MovesSteps(s, State(), now);
      if thrown { StrandingNeedsDemand(s, State(), now); }
    }

    /** Releases every expired lock. */
    method CleanExpired(now: int) returns (thrown: bool)
      requires Valid()
      modifies this
      ensures Valid() && Moves(old(State()), State(), {}, now) && Steps(old(State()), State(), now)
      ensures thrown ==> Strands(old(State()), State()) && old(Demand(State())) > MAX_LOCKS + 1
      ensures !thrown ==> Scanned(old(State()), State(), now)
      ensures !thrown ==> forall i :: 0 <= i < |slots| && slots[i].Some? ==> now < slots[i].value.expiresAt
    {
      hide Inv, Evolves, CapKept, Serves, Strands, Steps, Demand, HeadsBlocked, Freed;
      ghost var s := State();
      MovesRefl(s, now);
      var i := 0;
      while i < |slots|
        invariant i <= |slots|
        invariant Valid() && Moves(s, State(), {}, now) && Scanned(s, State(), now)
        invariant forall j :: 0 <= j < i && slots[j].Some? ==> Live(slots[j].value, now)
        decreases Expired(slots, now), |slots| - i
      {
        ghost var v := State();
        if slots[i].Some? && !Live(slots[i].value, now) {
          thrown := ReleaseAt(i, now, s);
          if thrown {
            MovesSteps(s, State(), now);
            StrandingNeedsDemand(s, State(), now);
            return;
          }
          LiveEntriesPersist(v.slots, slots, i, now, v.token);
        }
        i := i + 1;
      }
      thrown := false;
      MovesSteps(s, State(), now);
    }

    /** All locks that have not expired, releasing those that have. */
    method GetAll(now: int) returns (thrown: bool, all: seq<Lock>)
      requires Valid()
      modifies this
      ensures Valid() && Moves(old(State()), State(), {}, now) && Steps(old(State()), State(), now)
      ensures thrown ==> Strands(old(State()), State()) && old(Demand(State())) > MAX_LOCKS + 1
      ensures !thrown ==> Scanned(old(State()), State(), now)
      ensures !thrown ==> forall i :: 0 <= i < |slots| && slots[i].Some? ==> now < slots[i].value.expiresAt
      ensures !thrown ==> KeysOf(all) == Keys(slots)
      ensures forall lock :: lock in all ==> now < lock.expiresAt
    {
      hide Inv, Evolves, CapKept, Serves, Strands, Steps, Demand, HeadsBlocked, Freed, SlotsEvolve, Keys, KeysOf;
      ghost var s := State();
      MovesRefl(s, now);
      KeysOfNothing(slots);
      all := [];
      var i := 0;
      while i < |slots|
        invariant i <= |slots|
        invariant Valid() && Moves(s, State(), {}, now) && Scanned(s, State(), now)
        invariant forall j :: 0 <= j < i && slots[j].Some? ==> Live(slots[j].value, now)
        invariant KeysOf(all) == Keys(slots[..i])
        invariant forall lock :: lock in all ==> Live(lock, now)
        decreases Expired(slots, now), |slots| - i
      {
        ghost var v := State();
        if slots[i].Some? {
          if !Live(slots[i].value, now) {
            thrown := ReleaseAt(i, now, s);
            if thrown {
              MovesSteps(s, State(), now);
              StrandingNeedsDemand(s, State(), now);
              return;
            }
            LiveEntriesPersist(v.slots, slots, i, now, v.token);
            KeysPersist(v.slots, slots, i, now, v.token);
          } else {
            all := all + [slots[i].value];
            KeysOfAppend(all[..|all| - 1], slots[i].value);
          }
        }
        KeysStep(slots, i);
        i := i + 1;
      }
      thrown := false;
      MovesSteps(s, State(), now);
      assert slots[..|slots|] == slots;
    }

    /** Rejects every waiter and forgets all locks. */
    method Dispose()
      requires Valid()
      modifies this
      ensures Valid() && State() == DisposeView(old(State()))
      ensures slots == [] && queues == map[]
      ensures forall w :: w in settled <==> w in old(settled) || old(IsQueued(queues, w))
      ensures forall w :: w in settled ==> settled[w] == if old(IsQueued(queues, w)) then Disposed else old(settled)[w]
      ensures forall now :: Steps(old(State()), State(), now)
    {
      hide Inv, IsQueued, Steps, RejectAll;
      ghost var v := State();
      var paths := queues.Keys;
      NothingRejected(v);
      while paths != {}
        invariant paths <= queues.Keys
        invariant State() == v.(settled := settled)
        invariant settled == RejectAll(v, WaitingFor(v, v.queues.Keys - paths))
        decreases paths
      {
        var p :| p in paths;
        RejectOneMore(v, v.queues.Keys - paths, p);
        RejectQueue(queues[p]);
        assert v.queues.Keys - (paths - {p}) == v.queues.Keys - paths + {p};
        paths := paths - {p};
      }
      AllWaitSomewhere(v);
      queues, slots := map[], [];
      DisposeKeeps(v);
      RejectedAre(v);
    }

    method RejectQueue(q: seq<Waiter>)
      modifies `settled
      ensures settled == old(settled) + map w | w in q :: Disposed
    {
      for i := 0 to |q|
        invariant settled == old(settled) + map w | w in q[..i] :: Disposed
      {
        assert q[..i + 1] == q[..i] + [q[i]];
        settled := settled[q[i] := Disposed];
      }
      assert q[..|q|] == q;
    }
  }
}
