/** Moves between the top-level calls of a lock manager, and laws of whole runs. */
module LockRuns {
  import opened Options
  import opened Scopes
  import opened LockTable
  import opened LockState
  import opened LockGrowth

  // ---- Joining and leaving a queue ----

  function QueueFor(queues: Queues, path: string): seq<Waiter> {
    if path in queues then queues[path] else []
  }

  function EnqueueView(v: View, w: Waiter): View {
    v.(queues := v.queues[w.path := InsertSorted(QueueFor(v.queues, w.path), w)],
       minted := v.minted + 1, ever := v.ever + {w})
  }

  predicate CanEnqueue(v: View, w: Waiter) {
    && w.id == v.minted + 1
    && MIN_LOCK_PRIORITY <= w.priority <= MAX_LOCK_PRIORITY
    && GoodLease(w.lease)
    && |Waiting(v)| < MAX_LOCK_WAITERS
  }

  lemma EnqueueQueues(v: View, w: Waiter)
    requires Inv(v) && CanEnqueue(v, w)
    ensures GoodQueues(EnqueueView(v, w).queues)
    ensures forall x :: IsQueued(EnqueueView(v, w).queues, x) <==> IsQueued(v.queues, x) || x == w
    ensures w !in v.ever
  {
    var q := QueueFor(v.queues, w.path);
    var t := EnqueueView(v, w);
    if w.path in v.queues { assert GoodQueue(w.path, q); }
    forall x | x in q ensures x.id != w.id && x.path == w.path && GoodWaiter(x) {
      assert IsQueued(v.queues, x) && Accounted(v, x);
    }
    InsertSortedSorts(q, w);
    var r := InsertSorted(q, w);
    forall i | 0 <= i < |r| ensures r[i].path == w.path && GoodWaiter(r[i]) {
      assert r[i] in r;
    }
    assert GoodQueue(w.path, r);
    forall p | p in t.queues ensures GoodQueue(p, t.queues[p]) {
      if p != w.path { assert GoodQueue(p, v.queues[p]); }
    }
  }

  lemma EnqueueIds(ever: set<Waiter>, minted: nat, w: Waiter)
    requires GoodIds(ever, minted) && w.id == minted + 1
    ensures w !in ever && GoodIds(ever + {w}, minted + 1)
  {
  }

  lemma EnqueueAccounts(v: View, t: View, w: Waiter)
    requires forall x :: Accounted(v, x)
    requires w !in v.ever && t.ever == v.ever + {w} && t.settled == v.settled && t.shifted == v.shifted
    requires forall x :: IsQueued(t.queues, x) <==> IsQueued(v.queues, x) || x == w
    ensures forall x :: Accounted(t, x)
    ensures Waiting(t) == Waiting(v) + {w}
  {
    assert Accounted(v, w);
    forall x ensures Accounted(t, x) {
      assert Accounted(v, x);
    }
  }

  lemma EnqueueKeeps(v: View, w: Waiter)
    requires Inv(v) && CanEnqueue(v, w)
    ensures Inv(EnqueueView(v, w)) && Waiting(EnqueueView(v, w)) == Waiting(v) + {w}
  {
    hide GoodTable, FairGrant, InsertSorted, GoodQueues, GoodIds, Accounted, IsQueued;
    EnqueueQueues(v, w);
    EnqueueIds(v.ever, v.minted, w);
    EnqueueAccounts(v, EnqueueView(v, w), w);
  }

  /** A waiter that leaves its queue without a lock. */
  function GiveUpView(v: View, w: Waiter, outcome: Outcome): View {
    v.(queues := WithoutWaiter(v.queues, w.path, w.id), settled := v.settled[w := outcome])
  }

  lemma RemovalKeepsOrder(q: seq<Waiter>, i: nat)
    requires Sorted(q) && i < |q|
    ensures Sorted(q[..i] + q[i + 1..])
  {
    hide Before;
    var r := q[..i] + q[i + 1..];
    forall j, k | 0 <= j < k < |r| ensures Before(r[j], r[k]) {
      var x, y := if j < i then j else j + 1, if k < i then k else k + 1;
      assert r[j] == q[x] && r[k] == q[y];
    }
  }

  lemma RemovalDropsOne<T>(q: seq<T>, i: nat)
    requires i < |q| && forall j :: 0 <= j < |q| && j != i ==> q[j] != q[i]
    ensures forall x :: x in q[..i] + q[i + 1..] <==> x in q && x != q[i]
  {
    var r := q[..i] + q[i + 1..];
    assert q == q[..i] + [q[i]] + q[i + 1..];
    forall j | 0 <= j < |r| ensures r[j] in q && r[j] != q[i] {
      assert r[j] == if j < i then q[j] else q[j + 1];
    }
  }

  lemma WithoutMember(v: View, w: Waiter)
    requires Inv(v) && IsQueued(v.queues, w)
    ensures GoodQueues(WithoutWaiter(v.queues, w.path, w.id))
    ensures forall x :: IsQueued(WithoutWaiter(v.queues, w.path, w.id), x) <==> IsQueued(v.queues, x) && x != w
  {
    hide GoodTable, Fair, InsertSorted;
    var q := v.queues[w.path];
    assert GoodQueue(w.path, q);
    forall x | x in q && x.id == w.id ensures x == w {
      assert IsQueued(v.queues, x) && Accounted(v, x) && Accounted(v, w);
    }
    var i := IndexById(q, w.id);
    assert i < |q| && q[i] in q;
    RemovalKeepsOrder(q, i);
    assert forall j, k :: 0 <= j < k < |q| ==> Before(q[j], q[k]);
    RemovalDropsOne(q, i);
    var r := q[..i] + q[i + 1..];
    forall j | 0 <= j < |r| ensures r[j].path == w.path && GoodWaiter(r[j]) {
      assert r[j] in q;
    }
    var t := WithoutWaiter(v.queues, w.path, w.id);
    forall p | p in t ensures GoodQueue(p, t[p]) {
      assert GoodQueue(p, v.queues[p]);
    }
  }

  lemma GiveUpKeeps(v: View, w: Waiter, outcome: Outcome)
    requires Inv(v) && IsQueued(v.queues, w) && !outcome.Granted?
    ensures Inv(GiveUpView(v, w, outcome)) && w in v.ever && w !in v.settled
    ensures Waiting(GiveUpView(v, w, outcome)) == Waiting(v) - {w}
  {
    hide GoodTable, FairGrant, WithoutWaiter, GoodQueue;
    var t := GiveUpView(v, w, outcome);
    WithoutMember(v, w);
    assert Accounted(v, w);
    forall x ensures Accounted(t, x) {
      assert Accounted(v, x);
    }
    assert Waiting(t) == Waiting(v) - {w};
  }

  // ---- Runs ----

  predicate OldOrNew(s: View, t: View, i: nat)
    requires i < |t.slots|
  {
    t.slots[i].Some? ==> t.slots[i] in s.slots || s.token < t.slots[i].value.token
  }

  /** Out of the queue for good other than by giving up. */
  predicate Promoted(v: View, w: Waiter) {
    (w in v.settled && v.settled[w].Granted?) || w in v.shifted
  }

  /** `w` was not taken off its queue in front of a better waiter for the same path. */
  predicate InTurn(s: View, t: View, w: Waiter, x: Waiter) {
    IsQueued(s.queues, w) && IsQueued(s.queues, x) && w.path == x.path && Promoted(t, w) && IsQueued(t.queues, x) ==>
      Before(w, x)
  }

  /** What any number of calls, at any times, may do: the token counter and the registers only
      grow, a settled promise stays as it is, a lock not seen before has a token above all tokens
      issued before, and nobody is overtaken. */
  ghost predicate Advances(s: View, t: View) {
    && s.token <= t.token && s.minted <= t.minted && s.ever <= t.ever && s.shifted <= t.shifted
    && (forall w :: w in s.settled ==> w in t.settled && t.settled[w] == s.settled[w])
    && (forall w :: w in t.settled && w !in s.settled && t.settled[w].Granted? ==> s.token < t.settled[w].lock.token)
    && (forall i :: 0 <= i < |t.slots| ==> OldOrNew(s, t, i))
    && forall w, x :: InTurn(s, t, w, x)
  }

  /** The entry was in the first table, or its token was issued since. */
  predicate KnownOrNew(s: View, slot: Option<Lock>) {
    slot.Some? ==> slot in s.slots || s.token < slot.value.token
  }

  predicate StaysHeld(slot: Option<Lock>, slots: Slots, i: nat, now: int) {
    slot.Some? && Live(slot.value, now) ==>
      i < |slots| && OwnedBy(slots[i], slot.value.path, slot.value.holder, now)
  }

  /** The live entries of the first table are all held in the second, but for one that was released. */
  ghost predicate HeldBut(a: Slots, b: Slots, gone: int, now: int) {
    && |a| <= |b|
    && forall i :: 0 <= i < |a| ==> if i == gone then b[i].None? else StaysHeld(a[i], b, i, now)
  }

  /** A grant within one call, as recorded: at a moment of this call whose queues came from those
      before it and still held everybody who waits after it; whose table held only known and new
      locks, among them all that were live before but for one that was released; and whose live
      locks are all still held afterwards. The waiter's holder owns the path when the call ends. */
  ghost predicate GrantSeen(s: View, t: View, w: Waiter, lock: Lock, c: Context, now: int) {
    && c.now == now && s.token <= c.token < lock.token <= t.token
    && QueuesShrink(s.queues, c.queues)
    && (forall x :: IsQueued(s.queues, x) && IsQueued(t.queues, x) ==> IsQueued(c.queues, x))
    && (forall i :: 0 <= i < |c.slots| ==> KnownOrNew(s, c.slots[i]) && StaysHeld(c.slots[i], t.slots, i, now))
    && (exists gone :: HeldBut(s.slots, c.slots, gone, now))
    && OwnedLive(t.slots, w.path, w.holder, now)
  }

  ghost predicate GrantsSeen(s: View, t: View, now: int) {
    forall w :: w in t.settled && w !in s.settled && t.settled[w].Granted? ==>
      w in t.contexts && GrantSeen(s, t, w, t.settled[w].lock, t.contexts[w], now)
  }

  /** What one call, at the time `now`, may do. */
  ghost predicate Steps(s: View, t: View, now: int) {
    Advances(s, t) && GrantsSeen(s, t, now) && Dated(s.slots, t.slots, now)
  }

  // ---- What a call owes to those who wait ----

  predicate Hinders(slot: Option<Lock>, path: string, holder: string) {
    slot.Some? && !Own(slot.value, holder) && PathsConflict(path, slot.value.path)
  }

  /** An entry of somebody else, live or expired, stands in the way of `path`. */
  ghost predicate Hindered(slots: Slots, path: string, holder: string) {
    exists i :: 0 <= i < |slots| && Hinders(slots[i], path, holder)
  }

  /** Nobody who is first in line waits for nothing. */
  ghost predicate HeadsHindered(v: View) {
    forall w :: IsHead(v.queues, w) ==> Hindered(v.slots, w.path, w.holder)
  }

  /** The head `w` of a queue timed out, and nothing stands in the way of the next in line. */
  ghost predicate FreedByTimeout(s: View, t: View, w: Waiter) {
    && IsHead(s.queues, w) && w in t.settled && t.settled[w].TimedOut?
    && |s.queues[w.path]| > 1 && !Hindered(s.slots, w.path, s.queues[w.path][1].holder)
  }

  ghost predicate TimeoutFrees(s: View, t: View) {
    exists w :: FreedByTimeout(s, t, w)
  }

  /** What every call owes to those who wait: it strands nobody unless the locks and the paths waited
      for are together more than 101; and if it strands nobody, it leaves a head waiting for nothing
      only if there was one before, or by a timeout of the head in front of it. */
  ghost predicate Attends(s: View, t: View) {
    && (t.shifted == s.shifted || Demand(s) > MAX_LOCKS + 1)
    && (t.shifted == s.shifted && HeadsHindered(s) ==> (HeadsHindered(t) <==> !TimeoutFrees(s, t)))
  }

  // ---- Calls are steps ----

  lemma StillQueuedBetween(c: Context, t: View)
    requires QueuesShrink(c.queues, t.queues)
    ensures forall x :: IsQueued(t.queues, x) ==> IsQueued(c.queues, x)
  {
    forall x | IsQueued(t.queues, x) ensures IsQueued(c.queues, x) {
      assert IsSuffix(t.queues[x.path], c.queues[x.path]);
    }
  }

  /** A state that differs from `s` at most by the entry taken out of the table at `gone`. */
  ghost predicate LessOneEntry(s: View, d: View, gone: int) {
    && d.(slots := s.slots) == s && |d.slots| == |s.slots|
    && forall i :: 0 <= i < |d.slots| ==> d.slots[i] == if i == gone then None else s.slots[i]
  }

  lemma TablesAdvance(s: View, d: View, gone: int, a: Slots, now: int)
    requires LessOneEntry(s, d, gone) && SlotsEvolve(d.slots, a, now, d.token)
    ensures forall i :: 0 <= i < |a| ==> KnownOrNew(s, a[i])
  {
    forall i | 0 <= i < |a| ensures KnownOrNew(s, a[i]) {
      if i < |d.slots| {
        assert SlotEvolves(d.slots[i], a[i], now, d.token);
      } else {
        assert FreshSlot(a[i], now, d.token);
      }
    }
  }

  lemma LiveLocksStay(a: Slots, b: Slots, now: int, token: nat)
    requires SlotsEvolve(a, b, now, token)
    ensures forall i :: 0 <= i < |a| ==> StaysHeld(a[i], b, i, now)
  {
    forall i | 0 <= i < |a| ensures StaysHeld(a[i], b, i, now) {
      assert SlotEvolves(a[i], b[i], now, token);
    }
  }

  lemma AllButOneStay(s: View, d: View, gone: int, a: Slots, now: int)
    requires LessOneEntry(s, d, gone) && SlotsEvolve(d.slots, a, now, d.token)
    ensures HeldBut(s.slots, a, gone, now)
  {
    LiveLocksStay(d.slots, a, now, d.token);
    forall i | 0 <= i < |s.slots| ensures if i == gone then a[i].None? else StaysHeld(s.slots[i], a, i, now) {
      assert SlotEvolves(d.slots[i], a[i], now, d.token) && StaysHeld(d.slots[i], a, i, now);
    }
  }

  lemma GrantIsSeen(s: View, d: View, gone: int, t: View, w: Waiter, now: int)
    requires LessOneEntry(s, d, gone) && NewlyGranted(d, t, w, now)
    ensures GrantSeen(s, t, w, t.settled[w].lock, t.contexts[w], now)
  {
    hide SlotsEvolve, QueuesShrink, OwnedLive, LessOneEntry, IsQueued, StaysHeld, KnownOrNew, HeldBut;
    var c := t.contexts[w];
    assert d.queues == s.queues && d.token == s.token by { OnlyTableDiffers(s, d, gone); }
    TablesAdvance(s, d, gone, c.slots, now);
    LiveLocksStay(c.slots, t.slots, now, c.token);
    AllButOneStay(s, d, gone, c.slots, now);
    StillQueuedBetween(c, t);
  }

  lemma OnlyTableDiffers(s: View, d: View, gone: int)
    requires LessOneEntry(s, d, gone)
    ensures d.queues == s.queues && d.token == s.token && d.settled == s.settled && d.contexts == s.contexts
    ensures d.ever == s.ever && d.minted == s.minted && d.shifted == s.shifted
  {
  }

  lemma NobodyOvertaken(s: View, t: View, now: int)
    requires Inv(s) && Inv(t) && Evolves(s, t, now)
    ensures forall w, x :: InTurn(s, t, w, x)
  {
    hide Evolves, Before;
    EverybodyIsAccounted(t);
    hide Inv;
    forall w, x ensures InTurn(s, t, w, x) {
      assert Accounted(t, w);
      if IsQueued(s.queues, w) && w.path == x.path && Promoted(t, w) && IsQueued(t.queues, x) {
        NoOvertaking(s, t, x, w, now);
      }
    }
  }

  lemma EntryLessSteps(s: View, d: View, gone: int, t: View, now: int)
    requires Inv(d) && Inv(t) && LessOneEntry(s, d, gone) && Evolves(d, t, now) && Dated(d.slots, t.slots, now)
    ensures Steps(s, t, now)
  {
    hide Inv, LessOneEntry, InTurn, GrantSeen, NewlyGranted, SlotsEvolve, QueuesShrink, Dated;
    OnlyTableDiffers(s, d, gone);
    TablesAdvance(s, d, gone, t.slots, now);
    NobodyOvertaken(d, t, now);
    SameTurns(s, d, t);
    DatedAfterRelease(s, d, gone, t, now);
    forall w | w in t.settled && w !in s.settled
      ensures t.settled[w].Granted? ==> w in t.contexts && GrantSeen(s, t, w, t.settled[w].lock, t.contexts[w], now)
      ensures t.settled[w].Granted? ==> s.token < t.settled[w].lock.token
    {
      assert NewlyGranted(d, t, w, now);
      GrantIsSeen(s, d, gone, t, w, now);
      GrantHasToken(d, t, w, now);
    }
  }

  lemma DatedAfterRelease(s: View, d: View, gone: int, t: View, now: int)
    requires LessOneEntry(s, d, gone) && SlotsEvolve(d.slots, t.slots, now, d.token) && Dated(d.slots, t.slots, now)
    ensures Dated(s.slots, t.slots, now)
  {
    assert Dated(s.slots, d.slots, now);
    DatedTrans(s.slots, d.slots, t.slots, now);
  }

  lemma GrantHasToken(s: View, t: View, w: Waiter, now: int)
    requires NewlyGranted(s, t, w, now)
    ensures w in t.contexts && t.settled[w].Granted? && s.token < t.settled[w].lock.token
  {
  }

  lemma SameTurns(s: View, d: View, t: View)
    requires d.queues == s.queues && forall w, x :: InTurn(d, t, w, x)
    ensures forall w, x :: InTurn(s, t, w, x)
  {
    forall w, x ensures InTurn(s, t, w, x) {
      assert InTurn(d, t, w, x);
    }
  }

  lemma MovesSteps(s: View, t: View, now: int)
    requires Inv(s) && Inv(t) && Evolves(s, t, now) && Dated(s.slots, t.slots, now)
    ensures Steps(s, t, now)
  {
    hide Inv, Evolves, Steps;
    assert LessOneEntry(s, s, -1);
    EntryLessSteps(s, s, -1, t, now);
  }

  lemma ReleaseSteps(s: View, path: string, t: View, now: int)
    requires Inv(s) && Inv(t) && Evolves(DeleteView(s, path), t, now)
    requires Dated(Delete(s.slots, path), t.slots, now)
    ensures Steps(s, t, now)
  {
    hide Inv, Evolves, Steps;
    DeleteKeeps(s, path);
    var gone := IndexOf(s.slots, path);
    assert LessOneEntry(s, DeleteView(s, path), gone);
    EntryLessSteps(s, DeleteView(s, path), gone, t, now);
  }

  lemma QueuedSteps(s: View, m: View, w: Waiter, now: int)
    requires Inv(s) && Inv(m) && Evolves(s, m, now) && Dated(s.slots, m.slots, now) && CanEnqueue(m, w)
    ensures Steps(s, EnqueueView(m, w), now)
  {
    hide Inv, Evolves, InTurn, GrantSeen, CanEnqueue, InsertSorted;
    MovesSteps(s, m, now);
    EnqueueQueues(m, w);
    var t := EnqueueView(m, w);
    NotQueuedYet(s, m, w, now);
    forall a, x ensures InTurn(s, t, a, x) {
      TurnsWithOneMore(s, m, t, w, a, x);
    }
    forall i | 0 <= i < |t.slots| ensures OldOrNew(s, t, i) {
      assert OldOrNew(s, m, i);
    }
    forall a | a in t.settled && a !in s.settled && t.settled[a].Granted?
      ensures GrantSeen(s, t, a, t.settled[a].lock, t.contexts[a], now)
    {
      GrantSeenWithOneMore(s, m, t, w, a, now);
    }
  }

  lemma NotQueuedYet(s: View, m: View, w: Waiter, now: int)
    requires Inv(s) && Evolves(s, m, now) && w !in m.ever
    ensures !IsQueued(s.queues, w)
  {
    assert Accounted(s, w);
  }

  lemma TurnsWithOneMore(s: View, m: View, t: View, w: Waiter, a: Waiter, x: Waiter)
    requires InTurn(s, m, a, x) && t.settled == m.settled && t.shifted == m.shifted
    requires IsQueued(t.queues, x) <==> IsQueued(m.queues, x) || x == w
    requires !IsQueued(s.queues, w)
    ensures InTurn(s, t, a, x)
  {
  }

  lemma GrantSeenWithOneMore(s: View, m: View, t: View, w: Waiter, a: Waiter, now: int)
    requires a in m.settled && m.settled[a].Granted? && a in m.contexts
    requires GrantSeen(s, m, a, m.settled[a].lock, m.contexts[a], now)
    requires t.settled == m.settled && t.contexts == m.contexts && t.slots == m.slots && t.token == m.token
    requires forall x :: IsQueued(t.queues, x) <==> IsQueued(m.queues, x) || x == w
    requires !IsQueued(s.queues, w)
    ensures GrantSeen(s, t, a, t.settled[a].lock, t.contexts[a], now)
  {
    hide QueuesShrink, OwnedLive, IsQueued, StaysHeld, KnownOrNew, HeldBut;
  }

  /** Giving up promotes nobody. */
  lemma GivingUpSteps(v: View, w: Waiter, outcome: Outcome, now: int)
    requires Inv(v) && IsQueued(v.queues, w) && !outcome.Granted?
    ensures Steps(v, GiveUpView(v, w, outcome), now)
  {
    GiveUpKeeps(v, w, outcome);
    DatedRefl(v.slots, now);
    NoPromotions(v, GiveUpView(v, w, outcome));
  }

  lemma NoPromotions(s: View, t: View)
    requires Inv(s) && t.shifted == s.shifted
    requires forall w :: w in t.settled && w !in s.settled ==> !t.settled[w].Granted?
    requires forall w :: w in s.settled ==> w in t.settled && t.settled[w] == s.settled[w]
    ensures forall w, x :: InTurn(s, t, w, x)
  {
    EverybodyIsAccounted(s);
    hide Inv, Before;
    forall w, x ensures InTurn(s, t, w, x) {
      assert Accounted(s, w);
    }
  }

  lemma StandingStill(v: View, now: int)
    requires Inv(v)
    ensures Steps(v, v, now)
  {
    MovesRefl(v, now);
    MovesSteps(v, v, now);
  }

  // ---- Runs ----

  /** A run: the states between the calls of one manager, and the times of the calls. */
  ghost predicate Run(states: seq<View>, times: seq<int>) {
    && |states| == |times| + 1
    && (forall i :: 0 <= i < |states| ==> Inv(states[i]))
    && forall i :: 0 <= i < |times| ==> Steps(states[i], states[i + 1], times[i]) && Attends(states[i], states[i + 1])
  }

  lemma AdvancesRefl(s: View)
    requires Inv(s)
    ensures Advances(s, s)
  {
    NoPromotions(s, s);
  }

  lemma AdvancesTrans(s: View, t: View, u: View)
    requires Inv(s) && Inv(t) && Inv(u) && Advances(s, t) && Advances(t, u)
    ensures Advances(s, u)
  {
    forall i | 0 <= i < |u.slots| ensures OldOrNew(s, u, i) {
      assert OldOrNew(t, u, i);
      if u.slots[i].Some? && u.slots[i] in t.slots {
        var j :| 0 <= j < |t.slots| && t.slots[j] == u.slots[i];
        assert OldOrNew(s, t, j);
      }
    }
    TurnsTrans(s, t, u);
  }

  lemma TurnsTrans(s: View, t: View, u: View)
    requires Inv(s) && Inv(t) && Inv(u) && Advances(s, t) && Advances(t, u)
    ensures forall w, x :: InTurn(s, u, w, x)
  {
    hide Inv, Before;
    EverybodyIsAccounted(s);
    EverybodyIsAccounted(t);
    EverybodyIsAccounted(u);
    forall w, x ensures InTurn(s, u, w, x) {
      assert InTurn(s, t, w, x) && InTurn(t, u, w, x);
      assert Accounted(s, x) && Accounted(t, x) && Accounted(u, x);
      assert Accounted(s, w) && Accounted(t, w) && Accounted(u, w);
    }
  }

  lemma {:induction false} RunAdvances(states: seq<View>, times: seq<int>, i: nat, j: nat)
    requires Run(states, times) && i <= j < |states|
    ensures Advances(states[i], states[j])
    decreases j - i
  {
    hide Advances, Inv;
    if i < j {
      RunAdvances(states, times, i, j - 1);
      assert Steps(states[j - 1], states[j - 1 + 1], times[j - 1]);
      AdvancesTrans(states[i], states[j - 1], states[j]);
    } else {
      AdvancesRefl(states[i]);
    }
  }

  /** Priority over whole runs: if two waiters for one path were both queued at some moment, and
      later one has been granted, or stranded, while the other still waits, the first goes before
      the second. */
  lemma NobodyIsOvertaken(states: seq<View>, times: seq<int>, i: nat, j: nat, w: Waiter, x: Waiter)
    requires Run(states, times) && i <= j < |states| && w.path == x.path
    requires IsQueued(states[i].queues, w) && IsQueued(states[i].queues, x)
    requires Promoted(states[j], w) && IsQueued(states[j].queues, x)
    ensures Before(w, x)
  {
    hide Before;
    RunAdvances(states, times, i, j);
    assert InTurn(states[i], states[j], w, x);
  }

  /** First come, first served: under a clock that never runs backwards, of two waiters of equal
      priority for one path the one granted while the other still waits is the one that came first. */
  lemma EqualPriorityIsFifo(states: seq<View>, times: seq<int>, i: nat, j: nat, w: Waiter, x: Waiter)
    requires Run(states, times) && i <= j < |states| && w.path == x.path && w.priority == x.priority
    requires IsQueued(states[i].queues, w) && IsQueued(states[i].queues, x)
    requires Promoted(states[j], w) && IsQueued(states[j].queues, x)
    requires ArrivalsInOrder(states[j].ever)
    ensures w.id < x.id
  {
    NobodyIsOvertaken(states, times, i, j, w, x);
    RunAdvances(states, times, i, j);
    assert Accounted(states[i], w) && Accounted(states[i], x);
    assert w in states[j].ever && x in states[j].ever;
  }

  /** The circumstances of a grant, in any run: the call that granted `w` had a moment at which `w`
      headed its queue, which held everybody who waited before the call and still waits after it;
      every other head that goes before `w` was blocked by a live lock, or its path was locked; all
      locks live at that moment are held when the call ends; and then the holder of `w` owns its
      path, at the time of the call. */
  lemma GrantsAreFair(states: seq<View>, times: seq<int>, i: nat, w: Waiter) returns (c: Context)
    requires Run(states, times) && i < |times|
    requires w in states[i + 1].settled && w !in states[i].settled && states[i + 1].settled[w].Granted?
    ensures FairGrant(w, c) && GrantSeen(states[i], states[i + 1], w, states[i + 1].settled[w].lock, c, times[i])
    ensures IsQueued(states[i].queues, w) && !IsQueued(states[i + 1].queues, w)
    ensures OwnedLive(states[i + 1].slots, w.path, w.holder, times[i])
  {
    hide FairGrant, Advances, OwnedLive;
    var s, t := states[i], states[i + 1];
    assert Steps(s, t, times[i]);
    c := t.contexts[w];
    assert Accounted(t, w);
    FairFromInv(t, w);
    HeadWasQueued(s, w, c);
  }

  lemma FairFromInv(v: View, w: Waiter)
    requires Inv(v) && w in v.settled && v.settled[w].Granted?
    ensures w in v.contexts && FairGrant(w, v.contexts[w])
  {
  }

  lemma HeadWasQueued(s: View, w: Waiter, c: Context)
    requires FairGrant(w, c) && QueuesShrink(s.queues, c.queues)
    ensures IsQueued(s.queues, w)
  {
    assert IsSuffix(c.queues[w.path], s.queues[w.path]);
    assert c.queues[w.path][0] == s.queues[w.path][|s.queues[w.path]| - |c.queues[w.path]|];
  }

  /** Fencing over a whole run: a lock that was not in the table at an earlier moment carries a token
      above every token issued by then, so above those of the table and of all waiters served. */
  lemma FencingTokensGrow(states: seq<View>, times: seq<int>, i: nat, j: nat, lock: Lock)
    requires Run(states, times) && i <= j < |states|
    requires Some(lock) in states[j].slots && Some(lock) !in states[i].slots
    ensures states[i].token < lock.token <= states[j].token
    ensures forall k :: 0 <= k < |states[i].slots| && states[i].slots[k].Some? ==>
      states[i].slots[k].value.token < lock.token
    ensures forall w :: w in states[i].settled && states[i].settled[w].Granted? ==>
      states[i].settled[w].lock.token < lock.token
  {
    RunAdvances(states, times, i, j);
    var k :| 0 <= k < |states[j].slots| && states[j].slots[k] == Some(lock);
    assert OldOrNew(states[i], states[j], k);
    assert GoodSlot(states[j].slots[k], states[j].token);
    forall l | 0 <= l < |states[i].slots| && states[i].slots[l].Some?
      ensures states[i].slots[l].value.token < lock.token
    {
      assert GoodSlot(states[i].slots[l], states[i].token);
    }
    forall w | w in states[i].settled && states[i].settled[w].Granted?
      ensures states[i].settled[w].lock.token < lock.token
    {
      assert GrantFor(w, states[i].settled[w].lock, states[i].token);
    }
  }

  /** Over any run, while an entry stays in the table, whatever is renewed or granted meanwhile, its path,
      holder and time of acquisition do not change. */
  lemma {:induction false} EntryKeepsTime(states: seq<View>, times: seq<int>, i: nat, j: nat, k: nat)
    requires Run(states, times) && i <= j < |states|
    requires forall n :: i <= n <= j ==> k < |states[n].slots| && states[n].slots[k].Some?
    ensures SameAge(states[i].slots[k], states[j].slots[k])
    decreases j - i
  {
    hide Inv, Advances, GrantsSeen, Attends;
    if i < j {
      EntryKeepsTime(states, times, i, j - 1, k);
      assert Steps(states[j - 1], states[j - 1 + 1], times[j - 1]);
    }
  }

  /** A lock after a call was acquired at the time of the call, or renews one of the same path and holder
      that was there before, and keeps its time. A new holder's lock was acquired in the call. */
  lemma AcquisitionTimes(states: seq<View>, times: seq<int>, i: nat, lock: Lock)
    requires Run(states, times) && i < |times| && Some(lock) in states[i + 1].slots
    ensures lock.acquiredAt == times[i] || HasAge(states[i].slots, Some(lock))
    ensures (forall l :: Some(l) in states[i].slots && l.path == lock.path ==> l.holder != lock.holder) ==>
      lock.acquiredAt == times[i]
  {
    hide Inv, Advances, GrantsSeen, Attends;
    var s, t := states[i], states[i + 1];
    assert Steps(s, t, times[i]);
    var k :| 0 <= k < |t.slots| && t.slots[k] == Some(lock);
    if k < |s.slots| { assert SameAge(s.slots[k], t.slots[k]); }
    if j :| 0 <= j < |s.slots| && SameAge(s.slots[j], Some(lock)) {
      assert s.slots[j] == Some(s.slots[j].value);
    }
  }

  /** Where a waiter can be. */
  datatype Place = InQueue | HasLock(lock: Lock) | GaveUp | Rejected | Stranded

  ghost predicate At(v: View, w: Waiter, place: Place) {
    match place
    case InQueue => IsQueued(v.queues, w)
    case HasLock(lock) => w in v.settled && v.settled[w] == Granted(lock) && GrantFor(w, lock, v.token)
    case GaveUp => w in v.settled && v.settled[w] == TimedOut
    case Rejected => w in v.settled && v.settled[w] == Disposed
    case Stranded => w in v.shifted
  }

  /** Nobody is stranded by calls made while locks and paths waited for are together at most 101. */
  lemma {:induction false} NobodyIsStranded(states: seq<View>, times: seq<int>, i: nat, j: nat)
    requires Run(states, times) && i <= j < |states|
    requires forall k :: i <= k < j ==> Demand(states[k]) <= MAX_LOCKS + 1
    ensures states[j].shifted == states[i].shifted
    decreases j - i
  {
    hide Steps, Inv, Demand, HeadsHindered, TimeoutFrees;
    if i < j {
      NobodyIsStranded(states, times, i, j - 1);
      assert Attends(states[j - 1], states[j - 1 + 1]);
    }
  }

  /** Work conservation: from a state where nobody first in line waits for nothing, as in a new manager,
      it stays so over any run, as long as nobody is stranded and no timeout of a head leaves behind it
      somebody whom nothing hinders. */
  lemma {:induction false} NobodyWaitsForNothing(states: seq<View>, times: seq<int>, i: nat, j: nat)
    requires Run(states, times) && i <= j < |states| && HeadsHindered(states[i])
    requires states[j].shifted == states[i].shifted
    requires forall k :: i <= k < j ==> !TimeoutFrees(states[k], states[k + 1])
    ensures HeadsHindered(states[j])
    decreases j - i
  {
    hide Inv, Demand, HeadsHindered, TimeoutFrees, Advances, GrantsSeen;
    if i < j {
      RunAdvances(states, times, i, j - 1);
      var s, t := states[j - 1], states[j - 1 + 1];
      assert Steps(s, t, times[j - 1]) && Attends(s, t);
      assert s.shifted == states[i].shifted by { ShiftedGrows(states[i], s); ShiftedGrows(s, t); }
      NobodyWaitsForNothing(states, times, i, j - 1);
    }
  }

  lemma ShiftedGrows(s: View, t: View)
    requires Advances(s, t)
    ensures s.shifted <= t.shifted
  {
  }

  lemma PlaceIsUnique(v: View, w: Waiter) returns (place: Place)
    requires Inv(v) && w in v.ever
    ensures At(v, w, place) && forall other :: At(v, w, other) ==> other == place
  {
    hide Size, GoodTable, GoodIds, GoodQueues;
    assert Accounted(v, w);
    if IsQueued(v.queues, w) {
      place := InQueue;
    } else if w in v.shifted {
      place := Stranded;
    } else {
      match v.settled[w]
      case Granted(lock) => place := HasLock(lock);
      case TimedOut => place := GaveUp;
      case Disposed => place := Rejected;
    }
  }

  /** Waiter conservation over a run: whoever was ever queued is in exactly one place: in its queue,
      granted a lock on its path for its holder, timed out, rejected, or stranded; once out of its
      queue it stays in that place for good; and it is not stranded by calls made while locks and
      paths waited for are together at most 101, so that only the four other places are left. */
  lemma WaitersAreConserved(states: seq<View>, times: seq<int>, i: nat, j: nat, w: Waiter) returns (place: Place)
    requires Run(states, times) && i <= j < |states| && w in states[j].ever
    ensures At(states[j], w, place) && forall other :: At(states[j], w, other) ==> other == place
    ensures forall earlier :: At(states[i], w, earlier) && !earlier.InQueue? ==> earlier == place
    ensures !At(states[i], w, Stranded) && (forall k :: i <= k < j ==> Demand(states[k]) <= MAX_LOCKS + 1) ==>
      !place.Stranded?
  {
    hide Inv, Demand;
    RunAdvances(states, times, i, j);
    place := PlaceIsUnique(states[j], w);
    forall earlier | At(states[i], w, earlier) && !earlier.InQueue? ensures earlier == place {
      assert At(states[j], w, earlier);
    }
    if forall k :: i <= k < j ==> Demand(states[k]) <= MAX_LOCKS + 1 {
      NobodyIsStranded(states, times, i, j);
    }
  }

  /** No plain file is ever spoken for by two holders. */
  lemma OneHolderPerFile(v: View, i: nat, j: nat, file: string)
    requires Inv(v) && i < |v.slots| && j < |v.slots| && v.slots[i].Some? && v.slots[j].Some?
    requires !IsScope(file)
    requires Covers(v.slots[i].value.path, file) && Covers(v.slots[j].value.path, file)
    ensures v.slots[i].value.holder == v.slots[j].value.holder
  {
    CommonFileConflicts(v.slots[i].value.path, v.slots[j].value.path, file);
    assert Compatible(v.slots[i], v.slots[j]);
  }

  /** With a clock that never runs backwards, waiters of equal priority leave in order of arrival. */
  ghost predicate ArrivalsInOrder(ever: set<Waiter>) {
    forall a, b :: a in ever && b in ever && a.id < b.id ==> a.requestedAt <= b.requestedAt
  }

  lemma ArrivalKeepsOrder(v: View, w: Waiter)
    requires Inv(v) && w.id == v.minted + 1
    ensures ArrivalsInOrder(v.ever) && (forall x :: x in v.ever ==> x.requestedAt <= w.requestedAt) ==>
      ArrivalsInOrder(v.ever + {w})
  {
  }

  // ---- Helpers of the entry points ----

  lemma BlockedByFound(v: View, path: string, holder: string, lock: Lock, now: int)
    requires Get(v.slots, lock.path) == Some(lock) && Live(lock, now) && PathsConflict(path, lock.path)
    requires !Own(lock, holder)
    ensures Blocked(v.slots, path, holder, now)
  {
    assert Blocks(v.slots[IndexOf(v.slots, lock.path)], path, holder, now);
  }

  lemma WithinLimits(v: View)
    requires Inv(v)
    ensures |Waiting(v)| <= MAX_LOCK_WAITERS
  {
  }

  function WaitingFor(v: View, paths: set<string>): set<Waiter> {
    set w | w in v.ever && IsQueued(v.queues, w) && w.path in paths
  }

  lemma {:induction false} DistinctCount(q: seq<Waiter>)
    requires forall i, j :: 0 <= i < j < |q| ==> q[i] != q[j]
    ensures |set w | w in q| == |q|
  {
    if q != [] {
      DistinctCount(q[1..]);
      assert (set w | w in q) == {q[0]} + (set w | w in q[1..]);
      assert q[0] !in q[1..];
    } else {
      assert (set w | w in q) == {};
    }
  }

  /** Each queue contributes as many waiters as it is long. */
  lemma QueueCounts(v: View, paths: set<string>, p: string)
    requires Inv(v) && p in v.queues && p !in paths
    ensures |WaitingFor(v, paths + {p})| == |WaitingFor(v, paths)| + |v.queues[p]|
  {
    hide GoodTable, Fair, GoodIds;
    var q := v.queues[p];
    assert GoodQueue(p, q);
    assert forall i, j :: 0 <= i < j < |q| ==> Before(q[i], q[j]);
    DistinctCount(q);
    var here := set w | w in q;
    forall w | w in q ensures w in WaitingFor(v, {p}) {
      assert Accounted(v, w);
    }
    assert WaitingFor(v, paths + {p}) == WaitingFor(v, paths) + here;
  }

  // ---- Dispose ----

  function RejectAll(v: View, ws: set<Waiter>): map<Waiter, Outcome> {
    v.settled + map w | w in ws :: Disposed
  }

  function DisposeView(v: View): View {
    v.(slots := [], queues := map[], settled := RejectAll(v, Waiting(v)))
  }

  lemma QueueMembers(v: View, p: string)
    requires Inv(v) && p in v.queues
    ensures WaitingFor(v, {p}) == set w | w in v.queues[p]
  {
    assert GoodQueue(p, v.queues[p]);
    forall w | w in v.queues[p] ensures w in WaitingFor(v, {p}) {
      assert Accounted(v, w);
    }
  }

  lemma NothingRejected(v: View)
    ensures RejectAll(v, WaitingFor(v, v.queues.Keys - v.queues.Keys)) == v.settled
  {
    assert WaitingFor(v, v.queues.Keys - v.queues.Keys) == {};
  }

  lemma RejectOneMore(v: View, paths: set<string>, p: string)
    requires Inv(v) && p in v.queues
    ensures RejectAll(v, WaitingFor(v, paths + {p})) ==
      RejectAll(v, WaitingFor(v, paths)) + map w | w in v.queues[p] :: Disposed
  {
    hide Inv, IsQueued;
    QueueMembers(v, p);
    var before, here, after := WaitingFor(v, paths), WaitingFor(v, {p}), WaitingFor(v, paths + {p});
    assert after == before + here;
    RejectMore(v.settled, before, here);
    assert (map w | w in v.queues[p] :: Disposed) == map w | w in here :: Disposed;
  }

  lemma RejectMore(m: map<Waiter, Outcome>, a: set<Waiter>, b: set<Waiter>)
    ensures m + (map w | w in a + b :: Disposed) == m + (map w | w in a :: Disposed) + map w | w in b :: Disposed
  {
  }

  lemma AllWaitSomewhere(v: View)
    ensures WaitingFor(v, v.queues.Keys - {}) == Waiting(v)
  {
  }

  lemma RejectedAre(v: View)
    requires Inv(v)
    ensures var settled := DisposeView(v).settled;
      && (forall w :: w in settled <==> w in v.settled || IsQueued(v.queues, w))
      && forall w :: w in settled ==> settled[w] == if IsQueued(v.queues, w) then Disposed else v.settled[w]
  {
    forall w ensures w in Waiting(v) <==> IsQueued(v.queues, w) {
      assert Accounted(v, w);
    }
  }

  lemma DisposeKeeps(v: View)
    requires Inv(v)
    ensures Inv(DisposeView(v)) && forall now :: Steps(v, DisposeView(v), now)
  {
    hide FairGrant, GoodIds;
    var t := DisposeView(v);
    assert Waiting(t) == {};
    assert Occupied(t.slots) == {};
    forall w ensures Accounted(t, w) {
      assert Accounted(v, w);
    }
    forall w | w in v.settled ensures w in t.settled && t.settled[w] == v.settled[w] {
      assert Accounted(v, w);
    }
    NoPromotions(v, t);
    forall now ensures Dated(v.slots, [], now) { DatedRefl(v.slots, now); }
  }
}
