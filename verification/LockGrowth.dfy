/** How far the table can grow while waiters are served, and what that says of the cap. */
module LockGrowth {
  import opened FiniteSets
  import opened Options
  import opened Scopes
  import opened LockTable
  import opened LockState

  /** Whoever was served on the way had waited before. */
  lemma ServedHadWaited(s: View, t: View, x: Waiter)
    requires Accounted(s, x) && Accounted(t, x) && s.ever == t.ever && s.shifted <= t.shifted
    requires x in t.settled && x !in s.settled
    ensures x.path in s.queues
  {
  }

  lemma EverybodyIsAccounted(v: View)
    requires Inv(v)
    ensures forall x :: Accounted(v, x)
  {
  }

  /** Every entry behind the old table is a lock on a path that somebody waited for. */
  lemma NewEntryIsServed(s: View, t: View, now: int, i: nat)
    requires Inv(s) && Inv(t) && Moves(s, t, {}, now) && |s.slots| <= i < |t.slots|
    ensures t.slots[i].Some? && t.slots[i].value.path in s.queues
  {
    hide Inv, CapKept;
    EverybodyIsAccounted(s);
    EverybodyIsAccounted(t);
    assert FreshSlot(t.slots[i], now, s.token) && SlotAccounted(s, t, {}, i);
    var x :| SettledFor(s, t, x, t.slots[i].value.path, t.slots[i].value.holder);
    ServedHadWaited(s, t, x);
  }

  lemma SlotsEvolved(s: View, t: View, now: int)
    requires Evolves(s, t, now)
    ensures SlotsEvolve(s.slots, t.slots, now, s.token) && QueuesShrink(s.queues, t.queues)
  {
  }

  function Behind(slots: Slots, from: nat): set<nat> {
    set i | from <= i < |slots| && slots[i].Some?
  }

  lemma {:induction false} BehindSize(slots: Slots, from: nat)
    requires from <= |slots| && forall i :: from <= i < |slots| ==> slots[i].Some?
    ensures |Behind(slots, from)| == |slots| - from
    decreases |slots|
  {
    if from == |slots| {
      assert Behind(slots, from) == {};
    } else {
      var n := |slots| - 1;
      BehindSize(slots[..n], from);
      assert Behind(slots, from) == Behind(slots[..n], from) + {n};
    }
  }

  /** Entries on different paths are no more than the paths. */
  lemma EntriesFewerThanPaths(slots: Slots, from: nat, paths: set<string>)
    requires DistinctPaths(slots) && from <= |slots|
    requires forall i :: from <= i < |slots| ==> slots[i].Some? && slots[i].value.path in paths
    ensures |slots| - from <= |paths|
  {
    BehindSize(slots, from);
    InjectionSize(Behind(slots, from), paths, map i | i in Behind(slots, from) :: slots[i].value.path);
  }

  /** The table grows by at most one entry for each path waited for, and not for one left unlocked. */
  lemma GrowthAtMost(s: View, t: View, now: int, without: set<string>)
    requires Inv(s) && Inv(t) && Moves(s, t, {}, now)
    requires forall i :: |s.slots| <= i < |t.slots| && t.slots[i].Some? ==> t.slots[i].value.path !in without
    ensures |s.slots| <= |t.slots| && |t.slots| - |s.slots| <= |s.queues.Keys - without|
  {
    hide Inv, CapKept, Serves, Evolves;
    SlotsEvolved(s, t, now);
    forall i | |s.slots| <= i < |t.slots|
      ensures t.slots[i].Some? && t.slots[i].value.path in s.queues.Keys - without
    {
      NewEntryIsServed(s, t, now, i);
    }
    TableIsOrdered(t);
    EntriesFewerThanPaths(t.slots, |s.slots|, s.queues.Keys - without);
  }

  /** The paths that somebody waits for, and the locks there are. */
  function Demand(v: View): nat {
    Size(v.slots) + |v.queues|
  }

  function Old(slots: Slots, upTo: nat): set<nat> {
    set i | 0 <= i < |slots| && i < upTo && slots[i].Some?
  }

  /** The table holds no more than what is left of the old entries, and the new ones. */
  lemma SizeAtMost(s: View, t: View, now: int, without: set<string>)
    requires Inv(s) && Inv(t) && Moves(s, t, {}, now)
    requires forall i :: |s.slots| <= i < |t.slots| && t.slots[i].Some? ==> t.slots[i].value.path !in without
    ensures Size(t.slots) <= Size(s.slots) + |s.queues.Keys - without|
    ensures Freed(s.slots, t.slots) ==> Size(t.slots) < Size(s.slots) + |s.queues.Keys - without|
  {
    hide Inv, CapKept, Serves, Evolves, Freed;
    SlotsEvolved(s, t, now);
    GrowthAtMost(s, t, now, without);
    forall i | |s.slots| <= i < |t.slots| ensures t.slots[i].Some? {
      NewEntryIsServed(s, t, now, i);
    }
    BehindSize(t.slots, |s.slots|);
    var kept, added := Old(t.slots, |s.slots|), Behind(t.slots, |s.slots|);
    assert Occupied(t.slots) == kept + added && kept !! added;
    OldAreFewer(s.slots, t.slots, now, s.token);
  }

  lemma OldAreFewer(a: Slots, b: Slots, now: int, token: nat)
    requires SlotsEvolve(a, b, now, token)
    ensures |Old(b, |a|)| <= Size(a)
    ensures Freed(a, b) ==> |Old(b, |a|)| < Size(a)
  {
    forall i | i in Old(b, |a|) ensures i in Occupied(a) {
      assert SlotEvolves(a[i], b[i], now, token);
    }
    SubsetSize(Old(b, |a|), Occupied(a));
    if Freed(a, b) {
      var i :| 0 <= i < |a| && FreedAt(a, b, i);
      assert i in Occupied(a) && i !in Old(b, |a|);
    }
  }

  /** A waiter can be stranded only if the locks there are and the paths waited for are together more
      than the cap, and by one more if an entry was released on the way. */
  lemma StrandingNeedsDemand(s: View, t: View, now: int)
    requires Inv(s) && Inv(t) && Moves(s, t, {}, now) && Strands(s, t)
    ensures Demand(s) > MAX_LOCKS
    ensures Freed(s.slots, t.slots) ==> Demand(s) > MAX_LOCKS + 1
  {
    hide Inv, Evolves, CapKept, Serves, Freed, Size;
    var w :| StrandsOne(s, t, w);
    assert w.path in s.queues;
    forall i | |s.slots| <= i < |t.slots| && t.slots[i].Some? ensures t.slots[i].value.path !in {w.path} {
      assert IndexOf(t.slots, w.path) == |t.slots|;
    }
    SizeAtMost(s, t, now, {w.path});
    assert |s.queues.Keys - {w.path}| == |s.queues| - 1;
  }

  /** The cap and nested grants: a request keeps the table within the cap of 100 locks if the locks
      there are and the paths waited for are together at most 100 before, or if no expired lock is
      released on the way. */
  lemma GrantKeepsCap(s: View, t: View, lock: Lock, now: int)
    requires Inv(s) && GrantedAfter(s, t, lock, now)
    requires Get(s.slots, lock.path).Some? || Size(s.slots) < MAX_LOCKS
    ensures Demand(s) <= MAX_LOCKS ==> Size(t.slots) <= MAX_LOCKS
    ensures t == GrantView(s, lock) && Size(s.slots) <= MAX_LOCKS ==> Size(t.slots) <= MAX_LOCKS
  {
    hide Inv, Moves, Freed, Size;
    var m :| GrantStep(s, m, t, lock, now);
    PutSize(m.slots, lock);
    PutSize(s.slots, lock);
    SizeAtMost(s, m, now, {});
    assert s.queues.Keys - {} == s.queues.Keys;
  }

  lemma DeleteLowersDemand(v: View, path: string)
    ensures Demand(DeleteView(v, path)) == Demand(v) - if Get(v.slots, path).Some? then 1 else 0
  {
    DeleteSize(v.slots, path);
  }

  /** Releases and grants alone never lift the table above the cap. */
  lemma MovesKeepCap(s: View, t: View, now: int)
    requires Moves(s, t, {}, now) && Size(s.slots) <= MAX_LOCKS
    ensures Size(t.slots) <= MAX_LOCKS
  {
    if |s.slots| == |t.slots| { SizeWithoutGrowth(s.slots, t.slots, now, s.token); }
  }
}
