/** The values a file lock manager works on, and how they may change while time stands still.

    The lock table is the entry list behind a JavaScript `Map`: deleting a key leaves a
    hole, setting a present key keeps its place, and setting a new key appends. An
    iteration therefore is an index that also reaches entries appended behind it. */
module LockTable {
  import opened FiniteSets
  import opened Options
  import opened Scopes

  const DEFAULT_LEASE_MS := 30_000
  const MAX_LEASE_MS := 120_000
  const MAX_LOCKS := 100
  const MAX_LOCK_WAITERS := 100
  const DEFAULT_LOCK_WAIT_TIMEOUT_MS := 60_000
  const MAX_LOCK_WAIT_TIMEOUT_MS := 300_000
  const MIN_LOCK_PRIORITY := 0
  const MAX_LOCK_PRIORITY := 9

  datatype Lock = Lock(path: string, holder: string, name: string, token: nat,
                       acquiredAt: int, expiresAt: int, lease: int)

  datatype Waiter = Waiter(path: string, id: nat, holder: string, name: string, priority: int,
                           requestedAt: int, expiresAt: int, lease: Option<int>)

  /** How a waiter's promise was settled. */
  datatype Outcome = Granted(lock: Lock) | TimedOut | Disposed

  type Slots = seq<Option<Lock>>
  type Queues = map<string, seq<Waiter>>

  // ---- The lock table ----

  predicate Live(lock: Lock, now: int) {
    now < lock.expiresAt
  }

  ghost predicate DistinctPaths(slots: Slots) {
    forall i, j :: 0 <= i < j < |slots| && slots[i].Some? && slots[j].Some? ==>
      slots[i].value.path != slots[j].value.path
  }

  /** The index of the entry for `path`, or the length of the table. */
  function IndexOf(slots: Slots, path: string): (i: nat)
    ensures i <= |slots|
    ensures i < |slots| ==> slots[i].Some? && slots[i].value.path == path
    ensures forall j :: 0 <= j < i ==> slots[j].Some? ==> slots[j].value.path != path
  {
    if slots == [] then 0
    else if slots[0].Some? && slots[0].value.path == path then 0
    else 1 + IndexOf(slots[1..], path)
  }

  function Get(slots: Slots, path: string): Option<Lock> {
    var i := IndexOf(slots, path);
    if i < |slots| then slots[i] else None
  }

  function Delete(slots: Slots, path: string): Slots {
    var i := IndexOf(slots, path);
    if i < |slots| then slots[i := None] else slots
  }

  function Put(slots: Slots, lock: Lock): Slots {
    var i := IndexOf(slots, lock.path);
    if i < |slots| then slots[i := Some(lock)] else slots + [Some(lock)]
  }

  function Occupied(slots: Slots): set<nat> {
    set i | 0 <= i < |slots| && slots[i].Some?
  }

  function Size(slots: Slots): nat {
    |Occupied(slots)|
  }

  /** The holes a release may still make at `now`. */
  function Expired(slots: Slots, now: int): set<nat> {
    set i | 0 <= i < |slots| && slots[i].Some? && !Live(slots[i].value, now)
  }

  // ---- Conflicts ----

  /** Locks a scan on behalf of `holder` skips. An absent or empty holder skips none. */
  predicate Own(lock: Lock, holder: string) {
    holder != "" && lock.holder == holder
  }

  predicate Blocks(slot: Option<Lock>, path: string, holder: string, now: int) {
    slot.Some? && !Own(slot.value, holder) && Live(slot.value, now) && PathsConflict(path, slot.value.path)
  }

  predicate Passes(slot: Option<Lock>, path: string, holder: string, now: int) {
    slot.Some? && !Own(slot.value, holder) ==> Live(slot.value, now) && !PathsConflict(path, slot.value.path)
  }

  /** A live lock of somebody else stands in the way of `path`. */
  ghost predicate Blocked(slots: Slots, path: string, holder: string, now: int) {
    exists i :: 0 <= i < |slots| && Blocks(slots[i], path, holder, now)
  }

  /** Every lock of somebody else is live and away from `path`. */
  ghost predicate Clear(slots: Slots, path: string, holder: string, now: int) {
    forall i :: 0 <= i < |slots| ==> Passes(slots[i], path, holder, now)
  }

  predicate HoldsLive(slot: Option<Lock>, path: string, now: int) {
    slot.Some? && slot.value.path == path && Live(slot.value, now)
  }

  ghost predicate LockedLive(slots: Slots, path: string, now: int) {
    exists i :: 0 <= i < |slots| && HoldsLive(slots[i], path, now)
  }

  predicate Compatible(x: Option<Lock>, y: Option<Lock>) {
    x.Some? && y.Some? && x.value.holder != y.value.holder ==> !PathsConflict(x.value.path, y.value.path)
  }

  /** Mutual exclusion: locks of different holders never conflict. */
  ghost predicate Exclusive(slots: Slots) {
    forall i, j :: 0 <= i < |slots| && 0 <= j < |slots| ==> Compatible(slots[i], slots[j])
  }

  predicate GoodSlot(slot: Option<Lock>, token: nat) {
    slot.Some? ==> slot.value.token <= token && 0 < slot.value.lease <= MAX_LEASE_MS
  }

  ghost predicate DistinctTokens(slots: Slots) {
    forall i, j :: 0 <= i < j < |slots| && slots[i].Some? && slots[j].Some? ==>
      slots[i].value.token != slots[j].value.token
  }

  ghost predicate GoodTable(slots: Slots, token: nat) {
    && DistinctPaths(slots)
    && Exclusive(slots)
    && DistinctTokens(slots)
    && forall i :: 0 <= i < |slots| ==> GoodSlot(slots[i], token)
  }

  predicate OwnedBy(slot: Option<Lock>, path: string, holder: string, now: int) {
    HoldsLive(slot, path, now) && slot.value.holder == holder
  }

  ghost predicate OwnedLive(slots: Slots, path: string, holder: string, now: int) {
    exists i :: 0 <= i < |slots| && OwnedBy(slots[i], path, holder, now)
  }

  // ---- Change of the table at a fixed time ----

  /** An entry stays, is renewed by its holder, or goes because it had expired. */
  predicate SlotEvolves(x: Option<Lock>, y: Option<Lock>, now: int, token: nat) {
    || y == x
    || (x.Some? && y.None? && !Live(x.value, now))
    || (x.Some? && y.Some? && y.value.path == x.value.path && y.value.holder == x.value.holder &&
        Live(y.value, now) && token < y.value.token)
  }

  predicate FreshSlot(y: Option<Lock>, now: int, token: nat) {
    y.Some? && Live(y.value, now) && token < y.value.token
  }

  ghost predicate SlotsEvolve(a: Slots, b: Slots, now: int, token: nat) {
    && |a| <= |b|
    && (forall i :: 0 <= i < |a| ==> SlotEvolves(a[i], b[i], now, token))
    && (forall i :: |a| <= i < |b| ==> FreshSlot(b[i], now, token))
  }

  // ---- Times of acquisition ----

  /** The same lock, perhaps renewed: path, holder and time of acquisition agree. */
  predicate SameAge(x: Option<Lock>, y: Option<Lock>) {
    && x.Some? && y.Some? && x.value.path == y.value.path && x.value.holder == y.value.holder
    && x.value.acquiredAt == y.value.acquiredAt
  }

  ghost predicate HasAge(a: Slots, y: Option<Lock>) {
    exists i :: 0 <= i < |a| && SameAge(a[i], y)
  }

  /** An entry that stays keeps its time of acquisition; any other was acquired now, or renews a lock of
      the same path and holder that was there before. */
  ghost predicate Dated(a: Slots, b: Slots, now: int) {
    && (forall i :: 0 <= i < |a| && i < |b| && b[i].Some? ==> SameAge(a[i], b[i]))
    && forall i :: |a| <= i < |b| && b[i].Some? ==> b[i].value.acquiredAt == now || HasAge(a, b[i])
  }

  /** A request keeps the time of the lock its holder has on the path. */
  predicate DatedBy(slots: Slots, lock: Lock, now: int) {
    var existing := Get(slots, lock.path);
    lock.acquiredAt ==
      if existing.Some? && existing.value.holder == lock.holder then existing.value.acquiredAt else now
  }

  lemma DatedTrans(a: Slots, b: Slots, c: Slots, now: int)
    requires Dated(a, b, now) && Dated(b, c, now) && |a| <= |b| <= |c|
    ensures Dated(a, c, now)
  {
    forall i | 0 <= i < |a| && c[i].Some? ensures SameAge(a[i], c[i]) {
      assert SameAge(b[i], c[i]) && SameAge(a[i], b[i]);
    }
    forall i | |a| <= i < |c| && c[i].Some? && c[i].value.acquiredAt != now ensures HasAge(a, c[i]) {
      if i < |b| {
        assert SameAge(b[i], c[i]) && HasAge(a, b[i]);
        HasAgeToo(a, b[i], c[i]);
      } else {
        var j :| 0 <= j < |b| && SameAge(b[j], c[i]);
        assert j < |a| ==> SameAge(a[j], b[j]);
        HasAgeToo(a, b[j], c[i]);
      }
    }
  }

  lemma HasAgeToo(a: Slots, x: Option<Lock>, y: Option<Lock>)
    requires HasAge(a, x) && SameAge(x, y)
    ensures HasAge(a, y)
  {
    var i :| 0 <= i < |a| && SameAge(a[i], x);
    assert SameAge(a[i], y);
  }

  lemma DatedRefl(a: Slots, now: int)
    ensures Dated(a, a, now) && Dated(a, [], now)
    ensures forall path :: Dated(a, Delete(a, path), now)
  {
  }

  /** A grant that keeps the time its holder's lock had before nested releases and grants. */
  lemma PutDated(a: Slots, b: Slots, lock: Lock, now: int)
    requires DistinctPaths(a) && |a| <= |b| && Dated(a, b, now) && DatedBy(a, lock, now)
    requires Clear(b, lock.path, lock.holder, now)
    ensures Dated(a, Put(b, lock), now)
  {
    var k, after := IndexOf(b, lock.path), Put(b, lock);
    ConflictSymmetric(lock.path, lock.path);
    if k < |b| { assert Passes(b[k], lock.path, lock.holder, now); }
    if k < |a| {
      assert SameAge(a[k], b[k]);
      GetFinds(a, lock.path, k);
      assert SameAge(a[k], after[k]);
    } else if lock.acquiredAt != now {
      var i := IndexOf(a, lock.path);
      assert SameAge(a[i], after[k]);
    }
    forall i | 0 <= i < |after| && i != k && after[i].Some?
      ensures if i < |a| then SameAge(a[i], after[i]) else after[i].value.acquiredAt == now || HasAge(a, after[i])
    {
      assert after[i] == b[i];
    }
  }

  lemma SlotsEvolveTrans(a: Slots, b: Slots, c: Slots, now: int, s: nat, t: nat)
    requires s <= t && SlotsEvolve(a, b, now, s) && SlotsEvolve(b, c, now, t)
    ensures SlotsEvolve(a, c, now, s)
  {
    forall i | 0 <= i < |a| ensures SlotEvolves(a[i], c[i], now, s) {
      assert SlotEvolves(a[i], b[i], now, s) && SlotEvolves(b[i], c[i], now, t);
    }
    forall i | |a| <= i < |c| ensures FreshSlot(c[i], now, s) {
      if i < |b| {
        assert FreshSlot(b[i], now, s) && SlotEvolves(b[i], c[i], now, t);
      }
    }
  }

  /** While time stands still no lock expires, so the expired entries only dwindle. */
  lemma ExpiredShrinks(a: Slots, b: Slots, now: int, token: nat)
    requires SlotsEvolve(a, b, now, token)
    ensures Expired(b, now) <= Expired(a, now)
  {
    forall i | i in Expired(b, now) ensures i in Expired(a, now) {
      if i < |a| {
        assert SlotEvolves(a[i], b[i], now, token);
      } else {
        assert FreshSlot(b[i], now, token);
      }
    }
  }

  lemma BlockedPersists(a: Slots, b: Slots, path: string, holder: string, now: int, token: nat)
    requires SlotsEvolve(a, b, now, token)
    requires Blocked(a, path, holder, now)
    ensures Blocked(b, path, holder, now)
  {
    var i :| 0 <= i < |a| && Blocks(a[i], path, holder, now);
    assert SlotEvolves(a[i], b[i], now, token);
    assert Blocks(b[i], path, holder, now);
  }

  /** Entries a scan has passed stay passed. */
  lemma PassesPersist(a: Slots, b: Slots, i: nat, path: string, holder: string, now: int, token: nat)
    requires SlotsEvolve(a, b, now, token) && i <= |a|
    requires forall j :: 0 <= j < i ==> Passes(a[j], path, holder, now)
    ensures forall j :: 0 <= j < i ==> Passes(b[j], path, holder, now)
  {
    forall j | 0 <= j < i ensures Passes(b[j], path, holder, now) {
      assert Passes(a[j], path, holder, now) && SlotEvolves(a[j], b[j], now, token);
    }
  }

  lemma LockedPersists(a: Slots, b: Slots, path: string, now: int, token: nat)
    requires SlotsEvolve(a, b, now, token)
    requires LockedLive(a, path, now)
    ensures LockedLive(b, path, now)
  {
    var i :| 0 <= i < |a| && HoldsLive(a[i], path, now);
    assert SlotEvolves(a[i], b[i], now, token);
    assert HoldsLive(b[i], path, now);
  }

  lemma OwnedPersists(a: Slots, b: Slots, path: string, holder: string, now: int, token: nat)
    requires SlotsEvolve(a, b, now, token)
    requires OwnedLive(a, path, holder, now)
    ensures OwnedLive(b, path, holder, now) && LockedLive(b, path, now)
  {
    var i :| 0 <= i < |a| && OwnedBy(a[i], path, holder, now);
    assert SlotEvolves(a[i], b[i], now, token);
    assert OwnedBy(b[i], path, holder, now) && HoldsLive(b[i], path, now);
  }

  /** A table that has not grown can only have lost entries. */
  lemma SizeWithoutGrowth(a: Slots, b: Slots, now: int, token: nat)
    requires SlotsEvolve(a, b, now, token) && |a| == |b|
    ensures Occupied(b) <= Occupied(a) && Size(b) <= Size(a)
  {
    forall i | i in Occupied(b) ensures i in Occupied(a) {
      assert SlotEvolves(a[i], b[i], now, token);
    }
    SubsetSize(Occupied(b), Occupied(a));
  }

  lemma DeleteSize(slots: Slots, path: string)
    ensures Size(Delete(slots, path)) == Size(slots) - if Get(slots, path).Some? then 1 else 0
  {
    if Get(slots, path).Some? {
      assert Occupied(Delete(slots, path)) == Occupied(slots) - {IndexOf(slots, path)};
    }
  }

  lemma PutSize(slots: Slots, lock: Lock)
    ensures Size(Put(slots, lock)) == Size(slots) + if Get(slots, lock.path).Some? then 0 else 1
  {
    var i := IndexOf(slots, lock.path);
    var after := Put(slots, lock);
    forall j: nat ensures j in Occupied(after) <==> j in Occupied(slots) || j == i {
      if j < |after| && j != i { assert after[j] == slots[j]; }
    }
    assert Occupied(after) == Occupied(slots) + {i};
  }

  lemma ClearOfAll(slots: Slots, path: string, now: int)
    requires Clear(slots, path, "", now)
    ensures forall i :: 0 <= i < |slots| && slots[i].Some? ==>
      now < slots[i].value.expiresAt && !PathsConflict(path, slots[i].value.path)
  {
    hide PathsConflict;
    forall i | 0 <= i < |slots| && slots[i].Some?
      ensures now < slots[i].value.expiresAt && !PathsConflict(path, slots[i].value.path)
    {
      assert Passes(slots[i], path, "", now);
    }
  }

  lemma GetFinds(slots: Slots, path: string, i: nat)
    requires DistinctPaths(slots)
    requires i < |slots| && slots[i].Some? && slots[i].value.path == path
    ensures IndexOf(slots, path) == i
  {
  }

  lemma DeleteGood(slots: Slots, path: string, token: nat)
    requires GoodTable(slots, token)
    ensures GoodTable(Delete(slots, path), token)
  {
    var i := IndexOf(slots, path);
    var after := Delete(slots, path);
    if i < |slots| {
      forall j, k | 0 <= j < |after| && 0 <= k < |after| ensures Compatible(after[j], after[k]) {
        assert Compatible(slots[j], slots[k]);
      }
      forall j | 0 <= j < |after| ensures GoodSlot(after[j], token) {
        assert GoodSlot(slots[j], token);
      }
    }
  }

  lemma DeleteExpiredEvolves(slots: Slots, path: string, now: int, token: nat)
    requires Get(slots, path).Some? && !Live(Get(slots, path).value, now)
    ensures SlotsEvolve(slots, Delete(slots, path), now, token)
    ensures Expired(Delete(slots, path), now) == Expired(slots, now) - {IndexOf(slots, path)}
    ensures IndexOf(slots, path) in Expired(slots, now)
  {
    var i := IndexOf(slots, path);
    var after := Delete(slots, path);
    forall j | 0 <= j < |slots| ensures SlotEvolves(slots[j], after[j], now, token) {
    }
  }

  lemma PutGood(slots: Slots, lock: Lock, now: int, token: nat)
    requires GoodTable(slots, token)
    requires Clear(slots, lock.path, lock.holder, now)
    requires token < lock.token && 0 < lock.lease <= MAX_LEASE_MS && Live(lock, now)
    ensures GoodTable(Put(slots, lock), lock.token)
  {
    var i := IndexOf(slots, lock.path);
    var after := Put(slots, lock);
    forall j | 0 <= j < |after| ensures GoodSlot(after[j], lock.token) {
      if j != i { assert GoodSlot(slots[j], token); }
    }
    forall j, k | 0 <= j < |after| && 0 <= k < |after| ensures Compatible(after[j], after[k]) {
      if j != i && k != i {
        assert Compatible(slots[j], slots[k]);
      } else {
        var o := if j == i then k else j;
        if o != i {
          assert Passes(slots[o], lock.path, lock.holder, now);
          if slots[o].Some? { ConflictSymmetric(lock.path, slots[o].value.path); }
        }
      }
    }
    PutDistinct(slots, lock, token);
  }

  lemma PutDistinct(slots: Slots, lock: Lock, token: nat)
    requires DistinctPaths(slots) && DistinctTokens(slots) && token < lock.token
    requires forall i :: 0 <= i < |slots| ==> GoodSlot(slots[i], token)
    ensures DistinctPaths(Put(slots, lock)) && DistinctTokens(Put(slots, lock))
  {
    var i := IndexOf(slots, lock.path);
    var after := Put(slots, lock);
    forall j, k | 0 <= j < k < |after| && after[j].Some? && after[k].Some?
      ensures after[j].value.token != after[k].value.token
      ensures after[j].value.path != after[k].value.path
    {
      if j != i { assert GoodSlot(slots[j], token); }
      if k != i { assert GoodSlot(slots[k], token); }
    }
  }

  /** A grant onto a clear path evolves the table; an entry already there is the holder's own. */
  lemma PutEvolves(slots: Slots, lock: Lock, now: int, token: nat)
    requires DistinctPaths(slots)
    requires Clear(slots, lock.path, lock.holder, now)
    requires token < lock.token && Live(lock, now)
    ensures SlotsEvolve(slots, Put(slots, lock), now, token)
    ensures OwnedLive(Put(slots, lock), lock.path, lock.holder, now)
    ensures LockedLive(Put(slots, lock), lock.path, now)
    ensures Get(Put(slots, lock), lock.path) == Some(lock)
  {
    var i := IndexOf(slots, lock.path);
    var after := Put(slots, lock);
    if i < |slots| {
      assert Passes(slots[i], lock.path, lock.holder, now);
      ConflictSymmetric(lock.path, lock.path);
    }
    forall j | 0 <= j < |slots| ensures SlotEvolves(slots[j], after[j], now, token) {
    }
    assert OwnedBy(after[i], lock.path, lock.holder, now) && HoldsLive(after[i], lock.path, now);
    assert IndexOf(after, lock.path) <= i;
  }

  // ---- What an iteration lists ----

  function KeyOf(lock: Lock): (string, string) {
    (lock.path, lock.holder)
  }

  /** Path and holder of every lock, in table order. */
  function Keys(slots: Slots): seq<(string, string)> {
    if slots == [] then []
    else
      var last := slots[|slots| - 1];
      Keys(slots[..|slots| - 1]) + (if last.Some? then [KeyOf(last.value)] else [])
  }

  function KeysOf(locks: seq<Lock>): seq<(string, string)> {
    if locks == [] then [] else KeysOf(locks[..|locks| - 1]) + [KeyOf(locks[|locks| - 1])]
  }

  lemma KeysOfNothing(slots: Slots)
    ensures Keys(slots[..0]) == [] && KeysOf([]) == []
  {
  }

  lemma KeysStep(slots: Slots, i: nat)
    requires i < |slots|
    ensures Keys(slots[..i + 1]) == Keys(slots[..i]) + if slots[i].Some? then [KeyOf(slots[i].value)] else []
  {
    assert slots[..i + 1][..i] == slots[..i];
  }

  lemma KeysOfAppend(locks: seq<Lock>, lock: Lock)
    ensures KeysOf(locks + [lock]) == KeysOf(locks) + [KeyOf(lock)]
  {
    assert (locks + [lock])[..|locks|] == locks;
  }

  lemma LiveEntriesPersist(a: Slots, b: Slots, i: nat, now: int, token: nat)
    requires SlotsEvolve(a, b, now, token) && i <= |a|
    requires forall j :: 0 <= j < i && a[j].Some? ==> Live(a[j].value, now)
    ensures forall j :: 0 <= j < i && b[j].Some? ==> Live(b[j].value, now)
  {
    forall j | 0 <= j < i && b[j].Some? ensures Live(b[j].value, now) {
      assert SlotEvolves(a[j], b[j], now, token);
    }
  }

  /** Live entries already passed keep their path and holder, whatever a nested grant renews. */
  lemma {:induction false} KeysPersist(a: Slots, b: Slots, i: nat, now: int, token: nat)
    requires SlotsEvolve(a, b, now, token) && i <= |a|
    requires forall j :: 0 <= j < i && a[j].Some? ==> Live(a[j].value, now)
    ensures Keys(b[..i]) == Keys(a[..i])
  {
    if i > 0 {
      KeysPersist(a, b, i - 1, now, token);
      KeysStep(a, i - 1);
      KeysStep(b, i - 1);
      assert SlotEvolves(a[i - 1], b[i - 1], now, token);
    }
  }
}
