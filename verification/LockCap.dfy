/** The cap of 100 locks and the grant loop, in states where those who wait do not hinder each other:
    when a release throws and loses a waiter, and how large a request can make the table. */
module LockCap {
  import opened FiniteSets
  import opened Options
  import opened Scopes
  import opened LockTable
  import opened LockState
  import opened LockGrowth
  import opened LockRuns
  import opened FileLockManagement

  // ---- Independent waiters ----

  /** No lock is on a path that somebody waits for, and no live one conflicts with such a path. */
  predicate Aside(slot: Option<Lock>, path: string, now: int) {
    slot.Some? ==> slot.value.path != path && (Live(slot.value, now) ==> !PathsConflict(path, slot.value.path))
  }

  /** Nothing live is in the way of any queue, and queues for different paths do not conflict. */
  ghost predicate Independent(slots: Slots, queues: Queues, now: int) {
    && (forall p, i :: p in queues && 0 <= i < |slots| ==> Aside(slots[i], p, now))
    && forall p, q :: p in queues && q in queues && p != q ==> !PathsConflict(p, q)
  }

  lemma QueueHead(v: View, p: string)
    requires Inv(v) && p in v.queues
    ensures v.queues[p] != [] && v.queues[p][0].path == p && IsQueued(v.queues, v.queues[p][0])
  {
    assert GoodQueue(p, v.queues[p]);
  }

  /** An old entry is left alone, or deleted once expired: nobody waited for its path. */
  lemma OldEntryIsUntouched(s: View, t: View, now: int, i: nat)
    requires Inv(s) && Inv(t) && Moves(s, t, {}, now) && Independent(s.slots, s.queues, now) && i < |s.slots|
    ensures i < |t.slots| && (t.slots[i] == s.slots[i] || (t.slots[i].None? && !Live(s.slots[i].value, now)))
  {
    hide Inv, CapKept, PathsConflict;
    EverybodyIsAccounted(s);
    EverybodyIsAccounted(t);
    assert SlotEvolves(s.slots[i], t.slots[i], now, s.token) && SlotAccounted(s, t, {}, i);
    assert s.slots[i].Some? ==> s.slots[i].value.path !in s.queues by {
      assert forall p :: p in s.queues ==> Aside(s.slots[i], p, now);
    }
    if t.slots[i].Some? {
      forall x ensures !SettledFor(s, t, x, t.slots[i].value.path, t.slots[i].value.holder) {
        if x in t.settled && x !in s.settled { ServedHadWaited(s, t, x); }
      }
    }
  }

  /** Once granting is done, every path that somebody waited for is locked, by an entry behind the
      old table. */
  lemma PathIsServed(s: View, t: View, now: int, p: string) returns (i: nat)
    requires Inv(s) && Inv(t) && Moves(s, t, {}, now) && Independent(s.slots, s.queues, now)
    requires HeadsBlocked(t, now) && t.shifted == s.shifted && p in s.queues
    ensures |s.slots| <= i < |t.slots| && t.slots[i].Some? && t.slots[i].value.path == p
  {
    hide Inv, CapKept, Serves, Evolves, PathsConflict;
    SlotsEvolved(s, t, now);
    QueueHead(s, p);
    var w := s.queues[p][0];
    if p in t.queues {
      QueueHead(t, p);
      i :| 0 <= i < |t.slots| && Blocks(t.slots[i], p, t.queues[p][0].holder, now);
    } else {
      LeftQueueWasGranted(s, t, w, now);
      i :| 0 <= i < |t.slots| && OwnedBy(t.slots[i], p, w.holder, now);
    }
    assert |s.slots| <= i by {
      forall k | 0 <= k < |s.slots|
        ensures k < |t.slots| && Aside(t.slots[k], p, now)
      {
        OldEntryIsUntouched(s, t, now, k);
        assert Aside(s.slots[k], p, now);
      }
    }
    NewEntryIsServed(s, t, now, i);
  }

  lemma PathsFewerThanEntries(slots: Slots, from: nat, paths: set<string>)
    requires from <= |slots| && forall i :: from <= i < |slots| ==> slots[i].Some?
    requires forall p :: p in paths ==> from <= IndexOf(slots, p) < |slots|
    ensures |paths| <= |slots| - from
  {
    BehindSize(slots, from);
    InjectionSize(paths, Behind(slots, from), map p | p in paths :: IndexOf(slots, p));
  }

  /** Once granting is done, it has grown by exactly one entry for each path waited for. */
  lemma GrowthExactly(s: View, t: View, now: int)
    requires Inv(s) && Inv(t) && Moves(s, t, {}, now) && Independent(s.slots, s.queues, now)
    requires HeadsBlocked(t, now) && t.shifted == s.shifted
    ensures |t.slots| == |s.slots| + |s.queues|
  {
    hide Inv, CapKept, Serves, Evolves, HeadsBlocked, Independent;
    GrowthAtMost(s, t, now, {});
    assert s.queues.Keys - {} == s.queues.Keys;
    TableIsOrdered(t);
    forall p | p in s.queues ensures |s.slots| <= IndexOf(t.slots, p) < |t.slots| {
      var i := PathIsServed(s, t, now, p);
      GetFinds(t.slots, p, i);
    }
    forall i | |s.slots| <= i < |t.slots| ensures t.slots[i].Some? {
      NewEntryIsServed(s, t, now, i);
    }
    PathsFewerThanEntries(t.slots, |s.slots|, s.queues.Keys);
  }

  function LiveEntries(slots: Slots, now: int): set<nat> {
    set i | 0 <= i < |slots| && slots[i].Some? && Live(slots[i].value, now)
  }

  /** When nothing expired is left, the table holds what was live before and the new entries. */
  lemma SizeByGrowth(s: View, t: View, now: int)
    requires Inv(s) && Inv(t) && Moves(s, t, {}, now) && Independent(s.slots, s.queues, now)
    requires forall i :: 0 <= i < |s.slots| && i < |t.slots| && t.slots[i].Some? ==> Live(t.slots[i].value, now)
    ensures |s.slots| <= |t.slots| && Size(t.slots) == |LiveEntries(s.slots, now)| + |t.slots| - |s.slots|
  {
    hide Inv, CapKept, Serves, Evolves, Independent;
    SlotsEvolved(s, t, now);
    var kept, added := LiveEntries(s.slots, now), Behind(t.slots, |s.slots|);
    forall i: nat | i < |s.slots| ensures i in Occupied(t.slots) <==> i in kept {
      OldEntryIsUntouched(s, t, now, i);
    }
    forall i | |s.slots| <= i < |t.slots| ensures t.slots[i].Some? {
      NewEntryIsServed(s, t, now, i);
    }
    BehindSize(t.slots, |s.slots|);
    assert Occupied(t.slots) == kept + added;
    assert kept !! added;
  }

  // ---- When a release loses a waiter ----

  /** In these states a release throws, and strands a waiter, if and only if the locks left and the
      paths waited for are together more than the cap. */
  lemma StrandsIff(s: View, t: View, now: int)
    requires Inv(s) && Inv(t) && Moves(s, t, {}, now) && Independent(s.slots, s.queues, now)
    requires Expired(s.slots, now) == {}
    requires Strands(s, t) || (HeadsBlocked(t, now) && t.shifted == s.shifted)
    ensures Strands(s, t) <==> s.queues != map[] && Demand(s) > MAX_LOCKS
  {
    hide Inv, Serves, Evolves, HeadsBlocked, Independent;
    NothingExpires(s, t, now);
    SizeByGrowth(s, t, now);
    if Strands(s, t) {
      var w :| StrandsOne(s, t, w);
      assert w.path in s.queues;
      forall i | |s.slots| <= i < |t.slots| && t.slots[i].Some? ensures t.slots[i].value.path !in {w.path} {
        assert IndexOf(t.slots, w.path) == |t.slots|;
      }
      GrowthAtMost(s, t, now, {w.path});
      assert |s.queues.Keys - {w.path}| == |s.queues| - 1;
    } else {
      GrowthExactly(s, t, now);
    }
  }

  lemma NothingExpires(s: View, t: View, now: int)
    requires Evolves(s, t, now) && Expired(s.slots, now) == {}
    ensures LiveEntries(s.slots, now) == Occupied(s.slots)
    ensures forall i :: 0 <= i < |s.slots| && i < |t.slots| && t.slots[i].Some? ==> Live(t.slots[i].value, now)
  {
    ExpiredShrinks(s.slots, t.slots, now, s.token);
    forall i | i in Occupied(s.slots) ensures i in LiveEntries(s.slots, now) {
      assert i !in Expired(s.slots, now);
    }
    forall i | 0 <= i < |s.slots| && i < |t.slots| && t.slots[i].Some? ensures Live(t.slots[i].value, now) {
      assert i !in Expired(t.slots, now);
    }
  }

  // ---- How large a request makes the table ----

  /** A request that meets an expired lock and is granted leaves, in such states, a lock for every
      path waited for, and its own, beside the live ones: the cap of 100 is passed if and only if
      these are more than 100. */
  lemma RequestSize(s: View, t: View, lock: Lock, now: int)
    requires Inv(s) && GrantedAfter(s, t, lock, now) && Independent(s.slots, s.queues, now)
    requires Get(s.slots, lock.path).None? && lock.path !in s.queues
    requires exists i :: 0 <= i < |s.slots| && !Passes(s.slots[i], lock.path, lock.holder, now)
    requires forall i :: i in Expired(s.slots, now) ==> !Own(s.slots[i].value, lock.holder)
    ensures Size(t.slots) == |LiveEntries(s.slots, now)| + |s.queues| + 1
  {
    hide Inv, Evolves, CapKept, Serves, HeadsBlocked, Independent, PathsConflict;
    var m :| GrantStep(s, m, t, lock, now);
    SlotsEvolved(s, m, now);
    OthersAreLive(s, m, lock, now);
    SizeByGrowth(s, m, now);
    GrowthExactly(s, m, now);
    NotInTable(s, m, lock.path, now);
    PutSize(m.slots, lock);
  }

  lemma OthersAreLive(s: View, m: View, lock: Lock, now: int)
    requires SlotsEvolve(s.slots, m.slots, now, s.token) && Clear(m.slots, lock.path, lock.holder, now)
    requires forall i :: i in Expired(s.slots, now) ==> !Own(s.slots[i].value, lock.holder)
    ensures forall i :: 0 <= i < |s.slots| && i < |m.slots| && m.slots[i].Some? ==> Live(m.slots[i].value, now)
  {
    hide PathsConflict;
    forall i | 0 <= i < |s.slots| && i < |m.slots| && m.slots[i].Some? ensures Live(m.slots[i].value, now) {
      assert SlotEvolves(s.slots[i], m.slots[i], now, s.token) && Passes(m.slots[i], lock.path, lock.holder, now);
      assert s.slots[i].Some? && !Live(s.slots[i].value, now) ==> i in Expired(s.slots, now);
    }
  }

  /** A path that nothing live and nobody waiting conflicts with stays free of conflicts. */
  lemma NothingInTheWay(s: View, t: View, path: string, now: int)
    requires Inv(s) && Inv(t) && Moves(s, t, {}, now) && Independent(s.slots, s.queues, now)
    requires forall i :: 0 <= i < |s.slots| ==> Aside(s.slots[i], path, now)
    requires forall p :: p in s.queues ==> !PathsConflict(path, p)
    ensures forall i :: 0 <= i < |t.slots| && t.slots[i].Some? && Live(t.slots[i].value, now) ==>
      !PathsConflict(path, t.slots[i].value.path)
  {
    hide Inv, Evolves, CapKept, Serves, Independent, PathsConflict;
    forall i | 0 <= i < |t.slots| && t.slots[i].Some? && Live(t.slots[i].value, now)
      ensures !PathsConflict(path, t.slots[i].value.path)
    {
      if i < |s.slots| {
        OldEntryIsUntouched(s, t, now, i);
        assert Aside(s.slots[i], path, now);
      } else {
        NewEntryIsServed(s, t, now, i);
      }
    }
  }

  lemma NotInTable(s: View, m: View, path: string, now: int)
    requires Inv(s) && Inv(m) && Moves(s, m, {}, now) && Independent(s.slots, s.queues, now)
    requires Get(s.slots, path).None? && path !in s.queues
    ensures Get(m.slots, path).None?
  {
    hide Inv, Evolves, CapKept, Serves, Independent;
    var i := IndexOf(m.slots, path);
    if i < |s.slots| {
      OldEntryIsUntouched(s, m, now, i);
    } else if i < |m.slots| {
      NewEntryIsServed(s, m, now, i);
    }
  }

  /** The release itself, in such a state. */
  method ReleaseIndependent(m: FileLockManager, path: string, caller: string, force: bool, now: int)
    returns (thrown: bool, released: bool)
    requires m.Valid() && Get(m.slots, path).Some? && (force || Get(m.slots, path).value.holder == caller)
    requires Independent(Delete(m.slots, path), m.queues, now) && Expired(Delete(m.slots, path), now) == {}
    modifies m
    ensures m.Valid() && Steps(old(m.State()), m.State(), now)
    ensures thrown <==> old(m.queues) != map[] && old(Demand(m.State())) > MAX_LOCKS + 1
    ensures thrown ==> Strands(DeleteView(old(m.State()), path), m.State())
    ensures !thrown ==> released && HeadsBlocked(m.State(), now) && m.shifted == old(m.shifted)
  {
    hide Inv, Moves, HeadsBlocked, Strands, Independent, Steps;
    ghost var v := m.State();
    DeleteKeeps(v, path);
    DeleteSize(v.slots, path);
    thrown, released := m.Release(path, caller, force, now);
    StrandsIff(DeleteView(v, path), m.State(), now);
    if !thrown { NotStranded(DeleteView(v, path), m.State()); }
  }

  lemma NotStranded(s: View, t: View)
    requires t.shifted == s.shifted
    ensures !Strands(s, t)
  {
  }
}
