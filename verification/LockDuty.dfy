/** Every call of the lock manager does its duty by those who wait; see `Attends`. */
module LockDuty {
  import opened Options
  import opened Scopes
  import opened LockTable
  import opened LockState
  import opened LockGrowth
  import opened LockRuns

  lemma HeadIsPending(v: View, w: Waiter)
    requires Inv(v) && IsHead(v.queues, w)
    ensures w !in v.settled && IsQueued(v.queues, w)
  {
    assert Accounted(v, w);
  }

  /** Where nobody new has timed out, no timeout frees anybody. */
  lemma NoTimeout(s: View, t: View)
    requires Inv(s)
    requires forall w :: w in t.settled && w !in s.settled ==> !t.settled[w].TimedOut?
    ensures !TimeoutFrees(s, t)
  {
    hide Inv, Hindered;
    forall w ensures !FreedByTimeout(s, t, w) {
      if IsHead(s.queues, w) { HeadIsPending(s, w); }
    }
  }

  lemma OnlyGrants(s: View, t: View, now: int)
    requires Evolves(s, t, now)
    ensures forall w :: w in t.settled && w !in s.settled ==> t.settled[w].Granted?
  {
    forall w | w in t.settled && w !in s.settled ensures t.settled[w].Granted? {
      assert NewlyGranted(s, t, w, now);
    }
  }

  /** Blocked heads are hindered. */
  lemma BlockedIsHindered(v: View, now: int)
    requires HeadsBlocked(v, now)
    ensures HeadsHindered(v)
  {
    forall w | IsHead(v.queues, w) ensures Hindered(v.slots, w.path, w.holder) {
      assert w.path in v.queues && v.queues[w.path] != [];
      var i :| 0 <= i < |v.slots| && Blocks(v.slots[i], w.path, w.holder, now);
      assert Hinders(v.slots[i], w.path, w.holder);
    }
  }

  lemma ScanKeepsHeads(s: View, t: View, now: int)
    requires Scanned(s, t, now)
    ensures t.shifted == s.shifted && (HeadsHindered(s) ==> HeadsHindered(t))
  {
    hide HeadsBlocked, HeadsHindered;
    if t != s { BlockedIsHindered(t, now); }
  }

  lemma ScanAttends(s: View, t: View, now: int)
    requires Inv(s) && Evolves(s, t, now) && Scanned(s, t, now)
    ensures Attends(s, t)
  {
    hide Inv, Evolves, Scanned, HeadsHindered, TimeoutFrees;
    ScanKeepsHeads(s, t, now);
    OnlyGrants(s, t, now);
    NoTimeout(s, t);
  }

  lemma StrandingAttends(s: View, t: View)
    requires t.shifted != s.shifted && Demand(s) > MAX_LOCKS + 1
    ensures Attends(s, t)
  {
  }

  /** A release serves whom it can, or fails at a full table. */
  lemma ReleaseAttends(s: View, path: string, t: View, thrown: bool, now: int)
    requires Inv(s) && Inv(t) && Get(s.slots, path).Some? && Moves(DeleteView(s, path), t, {}, now)
    requires if thrown then Strands(DeleteView(s, path), t) else HeadsBlocked(t, now) && t.shifted == s.shifted
    ensures Attends(s, t)
  {
    hide Inv, Evolves, CapKept, Serves, HeadsBlocked, HeadsHindered, TimeoutFrees, Demand;
    var d := DeleteView(s, path);
    if thrown {
      DeleteKeeps(s, path);
      StrandingNeedsDemand(d, t, now);
      DeleteLowersDemand(s, path);
      StrandingAttends(s, t);
    } else {
      BlockedIsHindered(t, now);
      OnlyGrants(d, t, now);
      NoTimeout(s, t);
    }
  }

  /** The other direction of granting: while every head is blocked, releases serve nobody. */
  lemma NobodyIsServed(d: View, t: View, now: int)
    requires Inv(d) && Inv(t) && Moves(d, t, {}, now) && t.shifted == d.shifted && HeadsBlocked(d, now)
    ensures t.queues == d.queues && t.settled == d.settled
    ensures |t.slots| == |d.slots| && forall i :: 0 <= i < |t.slots| && t.slots[i].Some? ==> t.slots[i] == d.slots[i]
  {
    hide Inv, Evolves, Serves, HeadsBlocked;
    TableEvolves(d, t, now);
    BlockedHeadsStay(d, t, now);
    assert t.settled == d.settled by { NobodyLeft(d, t, now); }
    forall i | 0 <= i < |t.slots| && t.slots[i].Some? ensures i < |d.slots| && t.slots[i] == d.slots[i] {
      assert SlotAccounted(d, t, {}, i) by { AllAccounted(d, t); }
    }
    assert |d.slots| < |t.slots| ==> FreshSlot(t.slots[|d.slots|], now, d.token);
  }

  lemma AllAccounted(d: View, t: View)
    requires Serves(d, t, {})
    ensures forall i :: 0 <= i < |t.slots| ==> SlotAccounted(d, t, {}, i)
  {
  }

  lemma BlockedHeadsStay(d: View, t: View, now: int)
    requires Inv(d) && Inv(t) && Evolves(d, t, now) && t.shifted == d.shifted && HeadsBlocked(d, now)
    ensures t.queues == d.queues
  {
    hide Inv, Evolves, HeadsBlocked;
    forall p | p in d.queues ensures p in t.queues && t.queues[p] == d.queues[p] {
      QueueStays(d, t, p, now);
    }
    assert forall p :: p in t.queues ==> p in d.queues by { QueuesOnlyShrink(d, t, now); }
  }

  lemma QueuesOnlyShrink(d: View, t: View, now: int)
    requires Evolves(d, t, now)
    ensures QueuesShrink(d.queues, t.queues) && SlotsEvolve(d.slots, t.slots, now, d.token)
  {
  }

  lemma QueueStays(d: View, t: View, p: string, now: int)
    requires Inv(d) && Inv(t) && Evolves(d, t, now) && t.shifted == d.shifted && HeadsBlocked(d, now)
    requires p in d.queues
    ensures p in t.queues && t.queues[p] == d.queues[p]
  {
    hide Evolves, FairGrant, GoodTable, GoodIds, Size, Accounted;
    assert GoodQueue(p, d.queues[p]);
    var w := d.queues[p][0];
    if IsQueued(t.queues, w) {
      QueuesOnlyShrink(d, t, now);
      SuffixWithHead(t.queues[p], d.queues[p]);
    } else {
      LeftQueueWasGranted(d, t, w, now);
      ClearAtGrant(t, w);
      BlockedIsNotClear(d, t.contexts[w], w, now);
      assert false;
    }
  }

  lemma SuffixWithHead(b: seq<Waiter>, a: seq<Waiter>)
    requires IsSuffix(b, a) && Sorted(a) && a != [] && a[0] in b
    ensures b == a
  {
    var j :| 0 <= j < |b| && b[j] == a[0];
    assert a[|a| - |b| + j] == a[0];
    assert forall k :: 0 < k < |a| ==> Before(a[0], a[k]);
  }

  /** Whoever was blocked before was not granted at a moment in between. */
  lemma BlockedIsNotClear(d: View, c: Context, w: Waiter, now: int)
    requires SlotsEvolve(d.slots, c.slots, now, d.token) && Blocked(d.slots, w.path, w.holder, now)
    ensures !Clear(c.slots, w.path, w.holder, now)
  {
    BlockedPersists(d.slots, c.slots, w.path, w.holder, now, d.token);
    var i :| 0 <= i < |c.slots| && Blocks(c.slots[i], w.path, w.holder, now);
    assert !Passes(c.slots[i], w.path, w.holder, now);
  }

  lemma ClearAtGrant(v: View, w: Waiter)
    requires Inv(v) && w in v.settled && v.settled[w].Granted?
    ensures w in v.contexts && Clear(v.contexts[w].slots, w.path, w.holder, v.contexts[w].now)
  {
    FairFromInv(v, w);
  }

  lemma NobodyLeft(d: View, t: View, now: int)
    requires Inv(d) && Inv(t) && Evolves(d, t, now) && t.shifted == d.shifted && t.queues == d.queues
    ensures t.settled == d.settled
  {
    forall w | w in t.settled ensures w in d.settled {
      assert Accounted(d, w) && Accounted(t, w);
    }
  }

  /** A lock put into the table takes nothing out of anybody's way: it replaces none but its
      holder's own. */
  lemma PutHinders(slots: Slots, lock: Lock, now: int, path: string, holder: string)
    requires Clear(slots, lock.path, lock.holder, now) && Hindered(slots, path, holder)
    ensures Hindered(Put(slots, lock), path, holder)
  {
    var i :| 0 <= i < |slots| && Hinders(slots[i], path, holder);
    var after, k := Put(slots, lock), IndexOf(slots, lock.path);
    if k < |slots| {
      assert Passes(slots[k], lock.path, lock.holder, now);
      ConflictSymmetric(lock.path, lock.path);
    }
    assert Hinders(after[i], path, holder);
  }

  lemma GrantAttends(s: View, t: View, lock: Lock, now: int)
    requires Inv(s) && GrantedAfter(s, t, lock, now)
    ensures Attends(s, t)
  {
    hide Inv, Evolves, CapKept, Serves, Scanned, TimeoutFrees, Clear, Hindered, PathsConflict;
    var m :| GrantStep(s, m, t, lock, now);
    ScanKeepsHeads(s, m, now);
    OnlyGrants(s, m, now);
    NoTimeout(s, t);
    if HeadsHindered(m) {
      forall w | IsHead(t.queues, w) ensures Hindered(t.slots, w.path, w.holder) {
        PutHinders(m.slots, lock, now, w.path, w.holder);
      }
    }
  }

  /** Who joins a queue does so because a lock is in the way. */
  lemma JoinAttends(s: View, m: View, w: Waiter, now: int)
    requires Inv(s) && Evolves(s, m, now) && Scanned(s, m, now)
    requires Blocked(m.slots, w.path, w.holder, now)
    ensures Attends(s, EnqueueView(m, w))
  {
    hide Inv, Evolves, Scanned, TimeoutFrees, PathsConflict;
    var t := EnqueueView(m, w);
    ScanKeepsHeads(s, m, now);
    OnlyGrants(s, m, now);
    NoTimeout(s, t);
    if HeadsHindered(m) {
      forall x | IsHead(t.queues, x) ensures Hindered(t.slots, x.path, x.holder) {
        if x == w {
          var i :| 0 <= i < |m.slots| && Blocks(m.slots[i], w.path, w.holder, now);
          assert Hinders(t.slots[i], w.path, w.holder);
        } else {
          assert IsHead(m.queues, x);
        }
      }
    }
  }

  /** Only in the queue of the waiter that timed out is there a new head, if it was the head. */
  lemma HeadsAfterTimeout(v: View, w: Waiter, x: Waiter)
    requires Inv(v) && IsQueued(v.queues, w)
    ensures var q, t := v.queues[w.path], GiveUpView(v, w, TimedOut).queues;
      IsHead(t, x) <==> if x.path == w.path && IsHead(v.queues, w) then |q| > 1 && x == q[1] else IsHead(v.queues, x)
  {
    var q := v.queues[w.path];
    assert GoodQueue(w.path, q);
    var i := IndexById(q, w.id);
    forall y | y in q && y.id == w.id ensures y == w {
      assert Accounted(v, w) && IsQueued(v.queues, y) && Accounted(v, y);
    }
    assert i < |q| && q[i] == w && (i == 0 <==> q[0] == w);
    assert |q| > 1 ==> q[1].path == w.path;
  }

  lemma WhoTimedOut(v: View, w: Waiter)
    requires Inv(v) && IsQueued(v.queues, w)
    ensures TimeoutFrees(v, GiveUpView(v, w, TimedOut)) <==>
      IsHead(v.queues, w) && |v.queues[w.path]| > 1 && !Hindered(v.slots, w.path, v.queues[w.path][1].holder)
  {
    hide Inv, Hindered, WithoutWaiter;
    var t := GiveUpView(v, w, TimedOut);
    forall x | FreedByTimeout(v, t, x) ensures x == w {
      HeadIsPending(v, x);
    }
    if IsHead(v.queues, w) && |v.queues[w.path]| > 1 && !Hindered(v.slots, w.path, v.queues[w.path][1].holder) {
      assert FreedByTimeout(v, t, w);
    }
  }

  /** A timeout serves nobody: it leaves the heads hindered if and only if it took no head, or the
      last of a queue, or one in front of a waiter that is hindered itself. */
  lemma TimeoutKeepsHeadsIff(v: View, w: Waiter)
    requires Inv(v) && IsQueued(v.queues, w) && HeadsHindered(v)
    ensures HeadsHindered(GiveUpView(v, w, TimedOut)) <==>
      (IsHead(v.queues, w) && |v.queues[w.path]| > 1 ==> Hindered(v.slots, w.path, v.queues[w.path][1].holder))
  {
    hide Inv, Hindered, WithoutWaiter;
    var t, q := GiveUpView(v, w, TimedOut), v.queues[w.path];
    if IsHead(v.queues, w) && |q| > 1 {
      HeadsAfterTimeout(v, w, q[1]);
      NextIsForPath(v, w);
    }
    forall x ensures IsHead(t.queues, x) ==>
      IsHead(v.queues, x) || (IsHead(v.queues, w) && |q| > 1 && x == q[1])
    {
      HeadsAfterTimeout(v, w, x);
    }
  }

  lemma NextIsForPath(v: View, w: Waiter)
    requires Inv(v) && IsHead(v.queues, w) && |v.queues[w.path]| > 1
    ensures v.queues[w.path][1].path == w.path
  {
    assert GoodQueue(w.path, v.queues[w.path]);
  }

  lemma TimeoutAttends(v: View, w: Waiter)
    requires Inv(v) && IsQueued(v.queues, w)
    ensures Attends(v, GiveUpView(v, w, TimedOut))
  {
    hide Inv, HeadsHindered, TimeoutFrees, Demand, WithoutWaiter;
    WhoTimedOut(v, w);
    if HeadsHindered(v) { TimeoutKeepsHeadsIff(v, w); }
  }

  lemma DisposeAttends(v: View)
    requires Inv(v)
    ensures Attends(v, DisposeView(v))
  {
    hide Inv, Hindered, TimeoutFrees;
    NoTimeout(v, DisposeView(v));
  }

  lemma StandingStillAttends(v: View)
    requires Inv(v)
    ensures Attends(v, v)
  {
    hide Inv, HeadsHindered, TimeoutFrees;
    NoTimeout(v, v);
  }
}
