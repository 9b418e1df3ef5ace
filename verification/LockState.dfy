/** The whole state of a lock manager, its invariant, and how nested releases and grants may
    move it. Everything here is a value; the class in FileLockManager.dfy is proved against it. */
module LockState {
  import opened FiniteSets
  import opened Options
  import opened Scopes
  import opened LockTable

  /** What a waiter saw when it was granted: the table and the queues just before, and the time. */
  datatype Context = Context(slots: Slots, queues: Queues, token: nat, now: int)

  /** `settled` are the promises settled so far, `shifted` the waiters taken off their queue
      whose promise is not settled, `ever` all waiters ever queued, and `contexts` the
      circumstances of every grant to a waiter. */
  datatype View = View(slots: Slots, queues: Queues, token: nat, minted: nat,
                       settled: map<Waiter, Outcome>, shifted: set<Waiter>,
                       ever: set<Waiter>, contexts: map<Waiter, Context>)

  /** What there is to see in a state. */
  function Moment(v: View, now: int): Context {
    Context(v.slots, v.queues, v.token, now)
  }

  // ---- Waiters and queues ----

  /** Order of waiters: higher priority first, then earlier request, then smaller id. */
  predicate Before(a: Waiter, b: Waiter) {
    if a.priority != b.priority then a.priority > b.priority
    else if a.requestedAt != b.requestedAt then a.requestedAt < b.requestedAt
    else a.id < b.id
  }

  lemma BeforeIsStrictTotal(a: Waiter, b: Waiter, c: Waiter)
    ensures !Before(a, a)
    ensures Before(a, b) && Before(b, c) ==> Before(a, c)
    ensures a.id != b.id ==> Before(a, b) != Before(b, a)
    ensures a.priority > b.priority ==> Before(a, b)
    ensures a.priority == b.priority && a.requestedAt < b.requestedAt ==> Before(a, b)
    ensures a.priority == b.priority && a.requestedAt == b.requestedAt && a.id < b.id ==> Before(a, b)
  {
  }

  ghost predicate Sorted(q: seq<Waiter>) {
    forall i, j :: 0 <= i < j < |q| ==> Before(q[i], q[j])
  }

  /** Requested lease durations are positive when given. */
  predicate GoodLease(lease: Option<int>) {
    lease.Some? ==> 0 < lease.value
  }

  /** Where sorting leaves a waiter that joins a sorted queue. */
  function InsertSorted(q: seq<Waiter>, w: Waiter): (r: seq<Waiter>)
    ensures |r| == |q| + 1
    ensures forall x :: x in r <==> x in q || x == w
  {
    if q == [] then [w]
    else if Before(w, q[0]) then [w] + q
    else [q[0]] + InsertSorted(q[1..], w)
  }

  lemma {:induction false} InsertSortedSorts(q: seq<Waiter>, w: Waiter)
    requires Sorted(q) && forall x :: x in q ==> x.id != w.id
    ensures Sorted(InsertSorted(q, w))
  {
    var r := InsertSorted(q, w);
    if q == [] {
    } else if Before(w, q[0]) {
    } else {
      InsertSortedSorts(q[1..], w);
      forall j | 0 < j < |r| ensures Before(r[0], r[j]) {
        assert r[j] in InsertSorted(q[1..], w);
        if r[j] != w {
          var i :| 0 <= i < |q[1..]| && q[1..][i] == r[j];
          assert Before(q[0], q[i + 1]);
        }
      }
    }
  }

  predicate GoodWaiter(w: Waiter) {
    MIN_LOCK_PRIORITY <= w.priority <= MAX_LOCK_PRIORITY && GoodLease(w.lease)
  }

  ghost predicate GoodQueue(path: string, q: seq<Waiter>) {
    && q != []
    && Sorted(q)
    && forall i :: 0 <= i < |q| ==>
         q[i].path == path && GoodWaiter(q[i])
  }

  predicate IsQueued(queues: Queues, w: Waiter) {
    w.path in queues && w in queues[w.path]
  }

  predicate IsHead(queues: Queues, w: Waiter) {
    w.path in queues && queues[w.path] != [] && queues[w.path][0] == w
  }

  function IndexById(q: seq<Waiter>, id: nat): (i: nat)
    ensures i <= |q|
    ensures i < |q| ==> q[i].id == id
    ensures forall j :: 0 <= j < i ==> q[j].id != id
  {
    if q == [] then 0 else if q[0].id == id then 0 else 1 + IndexById(q[1..], id)
  }

  /** Takes the waiter with this id out of the queue for `path`; an emptied queue is dropped. */
  function WithoutWaiter(queues: Queues, path: string, id: nat): Queues {
    if path !in queues then queues
    else
      var q := queues[path];
      var i := IndexById(q, id);
      if i == |q| then queues
      else if |q| == 1 then queues - {path}
      else queues[path := q[..i] + q[i + 1..]]
  }

  // ---- Invariant ----

  predicate One(a: bool, b: bool, c: bool) {
    (a || b || c) && !(a && b) && !(a && c) && !(b && c)
  }

  /** A waiter that was ever queued is in exactly one place, and no other waiter is anywhere. */
  predicate Accounted(v: View, w: Waiter) {
    if w in v.ever then One(IsQueued(v.queues, w), w in v.settled, w in v.shifted)
    else !IsQueued(v.queues, w) && w !in v.settled && w !in v.shifted
  }

  function Waiting(v: View): set<Waiter> {
    set w | w in v.ever && IsQueued(v.queues, w)
  }

  ghost predicate GoodIds(ever: set<Waiter>, minted: nat) {
    && |ever| == minted
    && (forall w :: w in ever ==> 1 <= w.id <= minted)
    && forall a, b :: a in ever && b in ever && a.id == b.id ==> a == b
  }

  /** `w` was at the head of its queue with nothing in its way, and every other head that
      goes before it was itself blocked, or waited for a path that was just granted. */
  ghost predicate FairGrant(w: Waiter, c: Context) {
    && IsHead(c.queues, w)
    && Clear(c.slots, w.path, w.holder, c.now)
    && forall p :: p in c.queues && c.queues[p] != [] && Before(c.queues[p][0], w) ==>
         Blocked(c.slots, c.queues[p][0].path, c.queues[p][0].holder, c.now) || LockedLive(c.slots, p, c.now)
  }

  /** A lock handed to a waiter is for its path and its holder. */
  predicate GrantFor(w: Waiter, lock: Lock, token: nat) {
    lock.path == w.path && lock.holder == w.holder && lock.name == w.name && lock.token <= token
  }

  ghost predicate Fair(v: View) {
    && (forall w :: w in v.settled && v.settled[w].Granted? ==> GrantFor(w, v.settled[w].lock, v.token))
    && v.contexts.Keys <= v.settled.Keys
    && forall w :: w in v.settled && v.settled[w].Granted? ==> w in v.contexts && FairGrant(w, v.contexts[w])
  }

  ghost predicate GoodQueues(queues: Queues) {
    forall p :: p in queues ==> GoodQueue(p, queues[p])
  }

  ghost predicate Inv(v: View) {
    && GoodTable(v.slots, v.token)
    && GoodQueues(v.queues)
    && (forall w :: Accounted(v, w))
    && GoodIds(v.ever, v.minted)
    && |Waiting(v)| <= MAX_LOCK_WAITERS
    && Size(v.slots) <= MAX_LOCKS + 1
    && Fair(v)
  }

  // ---- Change at a fixed time ----

  /** The lease a request gets: the default when none is asked for, and at most the maximum. */
  function LeaseFor(requested: Option<int>): (lease: int)
    requires GoodLease(requested)
    ensures 0 < lease <= MAX_LEASE_MS
    ensures requested.None? ==> lease == 30_000
    ensures requested.Some? && requested.value <= 120_000 ==> lease == requested.value
    ensures requested.Some? && requested.value > 120_000 ==> lease == 120_000
  {
    var wanted := if requested.Some? then requested.value else DEFAULT_LEASE_MS;
    if wanted < MAX_LEASE_MS then wanted else MAX_LEASE_MS
  }

  predicate IsSuffix(a: seq<Waiter>, b: seq<Waiter>) {
    |a| <= |b| && a == b[|b| - |a|..]
  }

  ghost predicate QueuesShrink(a: Queues, b: Queues) {
    forall p :: p in b ==> p in a && IsSuffix(b[p], a[p])
  }

  /** The recorded moment lies between the two states: the table and the queues were reached from
      the first, and the second was reached from them. */
  ghost predicate Between(s: View, c: Context, t: View, now: int) {
    && c.now == now && s.token <= c.token <= t.token
    && SlotsEvolve(s.slots, c.slots, now, s.token) && SlotsEvolve(c.slots, t.slots, now, c.token)
    && QueuesShrink(s.queues, c.queues) && QueuesShrink(c.queues, t.queues)
  }

  /** A waiter settled on the way was granted its path at a moment in between, with a new token, and
      still owns it. */
  ghost predicate NewlyGranted(s: View, t: View, w: Waiter, now: int) {
    w in t.settled && t.settled[w].Granted? &&
    var lock := t.settled[w].lock;
    lock.path == w.path && lock.holder == w.holder && lock.name == w.name &&
    GoodLease(w.lease) && lock.lease == LeaseFor(w.lease) && lock.expiresAt == now + lock.lease &&
    s.token < lock.token <= t.token &&
    OwnedLive(t.slots, w.path, w.holder, now) &&
    w in t.contexts && t.contexts[w].token < lock.token && Between(s, t.contexts[w], t, now)
  }

  ghost predicate SettledGrows(s: View, t: View, now: int) {
    && (forall w :: w in s.settled ==> w in t.settled && t.settled[w] == s.settled[w])
    && (forall w :: w in t.settled && w !in s.settled ==> NewlyGranted(s, t, w, now))
    && (forall w :: w in s.contexts ==> w in t.contexts && t.contexts[w] == s.contexts[w])
  }

  /** All that nested releases and grants may do while time stands still. */
  ghost predicate Evolves(s: View, t: View, now: int) {
    && SlotsEvolve(s.slots, t.slots, now, s.token)
    && s.token <= t.token
    && s.minted == t.minted
    && s.ever == t.ever
    && s.shifted <= t.shifted
    && QueuesShrink(s.queues, t.queues)
    && SettledGrows(s, t, now)
  }

  /** A waiter settled on the way that asked for this path on behalf of this holder. */
  predicate SettledFor(s: View, t: View, w: Waiter, path: string, holder: string) {
    w in t.settled && w !in s.settled && w.path == path && w.holder == holder
  }

  ghost predicate SlotAccounted(s: View, t: View, extra: set<(string, string)>, i: nat)
    requires i < |t.slots|
  {
    || t.slots[i].None?
    || (i < |s.slots| && t.slots[i] == s.slots[i])
    || (t.slots[i].value.path, t.slots[i].value.holder) in extra
    || exists w :: SettledFor(s, t, w, t.slots[i].value.path, t.slots[i].value.holder)
  }

  /** Every lock that is new or renewed belongs to a waiter served on the way, or to one of the
      (path, holder) pairs in `extra`. */
  ghost predicate Serves(s: View, t: View, extra: set<(string, string)>) {
    forall i :: 0 <= i < |t.slots| ==> SlotAccounted(s, t, extra, i)
  }

  lemma ServesTrans(s: View, t: View, u: View, now: int, a: set<(string, string)>, b: set<(string, string)>)
    requires Evolves(s, t, now) && Evolves(t, u, now)
    requires Serves(s, t, a) && Serves(t, u, b)
    ensures Serves(s, u, a + b)
  {
    forall i | 0 <= i < |u.slots| ensures SlotAccounted(s, u, a + b, i) {
      assert SlotAccounted(t, u, b, i);
      if u.slots[i].Some? {
        var path, holder := u.slots[i].value.path, u.slots[i].value.holder;
        if i < |t.slots| && u.slots[i] == t.slots[i] {
          assert SlotAccounted(s, t, a, i);
          if w :| SettledFor(s, t, w, path, holder) {
            assert SettledFor(s, u, w, path, holder);
          }
        } else if w :| SettledFor(t, u, w, path, holder) {
          assert SettledFor(s, u, w, path, holder);
        }
      }
    }
  }

  /** A pair that a waiter served on the way asked for need not be listed. */
  lemma ServesWithout(s: View, t: View, w: Waiter)
    requires Serves(s, t, {(w.path, w.holder)})
    requires w in t.settled && w !in s.settled
    ensures Serves(s, t, {})
  {
    forall i | 0 <= i < |t.slots| ensures SlotAccounted(s, t, {}, i) {
      assert SlotAccounted(s, t, {(w.path, w.holder)}, i);
      assert SettledFor(s, t, w, w.path, w.holder);
    }
  }

  /** The pair to account for when a request was granted. */
  function Extra(path: string, holder: string, granted: bool): set<(string, string)> {
    if granted then {(path, holder)} else {}
  }

  lemma ServedAnew(s: View, t: View, w: Waiter, now: int)
    requires Inv(s) && IsHead(s.queues, w) && w in t.settled
    requires Moves(s, t, Extra(w.path, w.holder, true), now)
    ensures Moves(s, t, {}, now)
  {
    CandidateWasQueued(s, w);
    assert Accounted(s, w);
    ServesWithout(s, t, w);
  }

  lemma ServesSameTable(s: View, q: View, t: View, u: View, extra: set<(string, string)>)
    requires Serves(s, t, extra) && q.slots == s.slots && u.slots == t.slots
    requires q.settled.Keys <= s.settled.Keys && t.settled.Keys <= u.settled.Keys
    ensures Serves(q, u, extra)
  {
    forall i | 0 <= i < |u.slots| ensures SlotAccounted(q, u, extra, i) {
      assert SlotAccounted(s, t, extra, i);
      if t.slots[i].Some? {
        if w :| SettledFor(s, t, w, t.slots[i].value.path, t.slots[i].value.holder) {
          assert SettledFor(q, u, w, t.slots[i].value.path, t.slots[i].value.holder);
        }
      }
    }
  }

  lemma TableIsOrdered(v: View)
    requires Inv(v)
    ensures DistinctPaths(v.slots)
  {
  }

  lemma GrantServes(v: View, lock: Lock)
    ensures Serves(v, GrantView(v, lock), {(lock.path, lock.holder)})
  {
  }

  /** Grants respect the cap, so a table above it has not grown. */
  predicate CapKept(s: View, t: View) {
    Size(t.slots) > MAX_LOCKS ==> |t.slots| == |s.slots|
  }

  /** What a release or a round of granting does; see the four parts. */
  ghost predicate Moves(s: View, t: View, extra: set<(string, string)>, now: int) {
    Evolves(s, t, now) && CapKept(s, t) && Serves(s, t, extra) && Dated(s.slots, t.slots, now)
  }

  /** What a scan of the table leaves: nothing happened, or expired locks were released and all
      granting that follows is done. */
  ghost predicate Scanned(s: View, t: View, now: int) {
    t == s || (HeadsBlocked(t, now) && t.shifted == s.shifted && Freed(s.slots, t.slots))
  }

  /** An entry of the first table is gone in the second. */
  ghost predicate Freed(a: Slots, b: Slots) {
    exists i :: 0 <= i < |a| && FreedAt(a, b, i)
  }

  predicate FreedAt(a: Slots, b: Slots, i: nat)
    requires i < |a|
  {
    i < |b| && a[i].Some? && b[i].None?
  }

  lemma FreedByIndex(a: Slots, b: Slots, i: nat)
    requires i < |a| && FreedAt(a, b, i)
    ensures Freed(a, b)
  {
  }

  lemma TableEvolves(s: View, t: View, now: int)
    requires Evolves(s, t, now)
    ensures SlotsEvolve(s.slots, t.slots, now, s.token)
  {
  }

  /** While time stands still a hole stays a hole. */
  lemma FreedPersists(a: Slots, b: Slots, c: Slots, now: int, token: nat)
    requires Freed(a, b) && SlotsEvolve(b, c, now, token)
    ensures Freed(a, c)
  {
    var i :| 0 <= i < |a| && FreedAt(a, b, i);
    assert SlotEvolves(b[i], c[i], now, token);
    assert FreedAt(a, c, i);
  }

  /** A scan that goes on after releasing the entry at `i`. */
  lemma ScannedFurther(s: View, t: View, u: View, now: int, i: nat)
    requires Scanned(s, t, now) && SlotsEvolve(t.slots, u.slots, now, t.token)
    requires i < |t.slots| && i < |u.slots| && t.slots[i].Some? && u.slots[i].None?
    ensures Freed(s.slots, u.slots)
    ensures HeadsBlocked(u, now) && u.shifted == s.shifted ==> Scanned(s, u, now)
  {
    hide SlotsEvolve;
    if t == s {
      assert FreedAt(s.slots, u.slots, i);
    } else {
      FreedPersists(s.slots, t.slots, u.slots, now, t.token);
    }
  }

  /** A lock granted after such a scan, onto a path it left clear. */
  ghost predicate GrantedAfter(s: View, t: View, lock: Lock, now: int) {
    exists m :: GrantStep(s, m, t, lock, now)
  }

  ghost predicate GrantStep(s: View, m: View, t: View, lock: Lock, now: int) {
    && Inv(m) && Moves(s, m, {}, now) && Scanned(s, m, now)
    && CanGrant(m, lock, now) && Clear(m.slots, lock.path, lock.holder, now)
    && t == GrantView(m, lock)
  }

  lemma GrantIsAfter(s: View, m: View, lock: Lock, now: int)
    requires Inv(m) && Moves(s, m, {}, now) && Scanned(s, m, now)
    requires CanGrant(m, lock, now) && Clear(m.slots, lock.path, lock.holder, now)
    ensures GrantedAfter(s, GrantView(m, lock), lock, now)
  {
    assert GrantStep(s, m, GrantView(m, lock), lock, now);
  }

  lemma ScannedTrans(s: View, t: View, u: View, now: int)
    requires Scanned(s, t, now) && SlotsEvolve(t.slots, u.slots, now, t.token)
    ensures Scanned(t, u, now) ==> Scanned(s, u, now) && u.shifted == t.shifted
    ensures Freed(t.slots, u.slots) ==> Freed(s.slots, u.slots)
  {
    hide SlotsEvolve;
    if t != s { FreedPersists(s.slots, t.slots, u.slots, now, t.token); }
  }

  /** Fixpoint of granting: whoever is first in line waits for a live lock of somebody else. */
  ghost predicate HeadsBlocked(v: View, now: int) {
    forall p :: p in v.queues && v.queues[p] != [] ==>
      Blocked(v.slots, v.queues[p][0].path, v.queues[p][0].holder, now)
  }

  /** The cap was hit inside the grant loop: a waiter left its queue and was never settled. */
  ghost predicate Strands(s: View, t: View) {
    exists w :: StrandsOne(s, t, w)
  }

  predicate StrandsOne(s: View, t: View, w: Waiter) {
    && w in Waiting(s)
    && t.shifted == s.shifted + {w} && w !in s.shifted
    && Size(t.slots) >= MAX_LOCKS && Get(t.slots, w.path).None?
  }

  lemma EvolvesRefl(s: View, now: int)
    ensures Evolves(s, s, now) && CapKept(s, s)
  {
  }

  lemma QueuesShrinkTrans(a: Queues, b: Queues, c: Queues)
    requires QueuesShrink(a, b) && QueuesShrink(b, c)
    ensures QueuesShrink(a, c)
  {
    forall p | p in c ensures p in a && IsSuffix(c[p], a[p]) {
      assert IsSuffix(c[p], b[p]) && IsSuffix(b[p], a[p]);
    }
  }

  lemma BetweenLater(s: View, c: Context, t: View, u: View, now: int)
    requires Between(s, c, t, now) && t.token <= u.token
    requires SlotsEvolve(t.slots, u.slots, now, t.token) && QueuesShrink(t.queues, u.queues)
    ensures Between(s, c, u, now)
  {
    hide SlotsEvolve, QueuesShrink;
    SlotsEvolveTrans(c.slots, t.slots, u.slots, now, c.token, t.token);
    QueuesShrinkTrans(c.queues, t.queues, u.queues);
  }

  lemma BetweenSooner(s: View, t: View, c: Context, u: View, now: int)
    requires Between(t, c, u, now) && s.token <= t.token
    requires SlotsEvolve(s.slots, t.slots, now, s.token) && QueuesShrink(s.queues, t.queues)
    ensures Between(s, c, u, now)
  {
    hide SlotsEvolve, QueuesShrink;
    SlotsEvolveTrans(s.slots, t.slots, c.slots, now, s.token, t.token);
    QueuesShrinkTrans(s.queues, t.queues, c.queues);
  }

  lemma EvolvesTrans(s: View, t: View, u: View, now: int)
    requires Evolves(s, t, now) && Evolves(t, u, now)
    ensures Evolves(s, u, now)
    ensures CapKept(s, t) && CapKept(t, u) ==> CapKept(s, u)
  {
    hide SlotsEvolve, QueuesShrink, OwnedLive, Size;
    SlotsEvolveTrans(s.slots, t.slots, u.slots, now, s.token, t.token);
    QueuesShrinkTrans(s.queues, t.queues, u.queues);
    forall w | w in u.settled && w !in s.settled ensures NewlyGranted(s, u, w, now) {
      if w in t.settled {
        assert NewlyGranted(s, t, w, now);
        OwnedPersists(t.slots, u.slots, w.path, w.holder, now, t.token);
        BetweenLater(s, t.contexts[w], t, u, now);
      } else {
        assert NewlyGranted(t, u, w, now);
        BetweenSooner(s, t, u.contexts[w], u, now);
      }
    }
    if |t.slots| == |u.slots| {
      SizeWithoutGrowth(t.slots, u.slots, now, t.token);
    }
  }

  lemma MovesRefl(s: View, now: int)
    ensures Moves(s, s, {}, now)
  {
    DatedRefl(s.slots, now);
    EvolvesRefl(s, now);
  }

  lemma MovesTrans(s: View, t: View, u: View, extra: set<(string, string)>, now: int)
    requires Moves(s, t, {}, now) && Moves(t, u, extra, now)
    ensures Moves(s, u, extra, now)
  {
    hide Dated, Serves;
    EvolvesTrans(s, t, u, now);
    ServesTrans(s, t, u, now, {}, extra);
    assert {} + extra == extra;
    DatedTrans(s.slots, t.slots, u.slots, now);
  }

  /** With no waiter stranded, whoever left a queue was granted: the settled promises say to whom. */
  lemma LeftQueueWasGranted(s: View, t: View, w: Waiter, now: int)
    requires Inv(s) && Inv(t) && Evolves(s, t, now) && s.shifted == t.shifted
    requires IsQueued(s.queues, w) && !IsQueued(t.queues, w)
    ensures NewlyGranted(s, t, w, now)
  {
    assert Accounted(s, w) && Accounted(t, w);
  }

  /** Waiters leave a queue from its head, so nobody is overtaken by a later or lesser waiter. */
  lemma NoOvertaking(s: View, t: View, w: Waiter, left: Waiter, now: int)
    requires Inv(s) && Evolves(s, t, now)
    requires w.path == left.path && IsQueued(s.queues, left) && !IsQueued(t.queues, left)
    requires IsQueued(t.queues, w)
    ensures Before(left, w)
  {
    var a, b := s.queues[w.path], t.queues[w.path];
    assert IsSuffix(b, a) && GoodQueue(w.path, a);
    LeftBefore(a, b, left, w);
  }

  lemma LeftBefore(a: seq<Waiter>, b: seq<Waiter>, left: Waiter, w: Waiter)
    requires Sorted(a) && IsSuffix(b, a) && left in a && left !in b && w in b
    ensures Before(left, w)
  {
    var i :| 0 <= i < |a| && a[i] == left;
    var j :| 0 <= j < |b| && b[j] == w;
    assert i < |a| - |b| by {
      assert forall k :: |a| - |b| <= k < |a| ==> a[k] == b[k - (|a| - |b|)];
    }
    assert a[|a| - |b| + j] == w;
  }

  // ---- The elementary moves ----

  lemma StrandsSooner(s: View, t: View, u: View, now: int)
    requires Evolves(s, t, now) && CapKept(s, t) && s.shifted == t.shifted
    requires Strands(t, u)
    ensures Strands(s, u)
  {
    WaitingShrinks(s, t);
    var w :| StrandsOne(t, u, w);
    assert StrandsOne(s, u, w);
  }

  /** The parts of `Evolves` that bound the recursion and the loops. */
  lemma Dwindles(s: View, t: View, now: int)
    requires Evolves(s, t, now)
    ensures s.ever == t.ever && s.minted == t.minted && Waiting(t) <= Waiting(s) && s.token <= t.token
    ensures Expired(t.slots, now) <= Expired(s.slots, now)
  {
    WaitingShrinks(s, t);
    ExpiredShrinks(s.slots, t.slots, now, s.token);
  }

  lemma WaitingShrinks(s: View, t: View)
    requires s.ever == t.ever && QueuesShrink(s.queues, t.queues)
    ensures Waiting(t) <= Waiting(s)
  {
    forall w | w in Waiting(t) ensures w in Waiting(s) {
      assert IsSuffix(t.queues[w.path], s.queues[w.path]);
    }
  }

  function DeleteView(v: View, path: string): View {
    v.(slots := Delete(v.slots, path))
  }

  lemma DeleteKeeps(v: View, path: string)
    requires Inv(v)
    ensures Inv(DeleteView(v, path))
  {
    var t := DeleteView(v, path);
    DeleteGood(v.slots, path, v.token);
    DeleteSize(v.slots, path);
    assert Waiting(t) == Waiting(v);
    forall w ensures Accounted(t, w) {
      assert Accounted(v, w);
    }
  }

  lemma ExpiryEvolves(v: View, path: string, now: int)
    requires Get(v.slots, path).Some? && !Live(Get(v.slots, path).value, now)
    ensures Moves(v, DeleteView(v, path), {}, now)
  {
    DeleteExpiredEvolves(v.slots, path, now, v.token);
    DeleteSize(v.slots, path);
    DatedRefl(v.slots, now);
    assert Waiting(DeleteView(v, path)) == Waiting(v);
  }

  function GrantView(v: View, lock: Lock): View {
    v.(slots := Put(v.slots, lock), token := lock.token)
  }

  predicate CanGrant(v: View, lock: Lock, now: int) {
    lock.token == v.token + 1 && 0 < lock.lease <= MAX_LEASE_MS && Live(lock, now)
  }

  lemma GrantKeeps(v: View, lock: Lock, now: int)
    requires Inv(v) && CanGrant(v, lock, now)
    requires Clear(v.slots, lock.path, lock.holder, now)
    requires Get(v.slots, lock.path).Some? || Size(v.slots) <= MAX_LOCKS
    ensures Inv(GrantView(v, lock)) && Evolves(v, GrantView(v, lock), now)
  {
    var t := GrantView(v, lock);
    PutGood(v.slots, lock, now, v.token);
    PutEvolves(v.slots, lock, now, v.token);
    PutSize(v.slots, lock);
    assert Waiting(t) == Waiting(v);
    forall w ensures Accounted(t, w) {
      assert Accounted(v, w);
    }
  }

  function ShiftView(v: View, w: Waiter): View {
    v.(queues := WithoutWaiter(v.queues, w.path, w.id), shifted := v.shifted + {w})
  }

  lemma TailMembers(q: seq<Waiter>, x: Waiter)
    requires q != [] && Sorted(q)
    ensures x in q[1..] <==> x in q && x != q[0]
  {
    assert q == [q[0]] + q[1..];
    if x in q[1..] {
      var i :| 0 <= i < |q[1..]| && q[1..][i] == x;
      assert Before(q[0], q[i + 1]);
    }
  }

  lemma WithoutHeadIs(queues: Queues, w: Waiter)
    requires IsHead(queues, w)
    ensures var q := queues[w.path];
      WithoutWaiter(queues, w.path, w.id) == if |q| == 1 then queues - {w.path} else queues[w.path := q[1..]]
  {
    var q := queues[w.path];
    assert IndexById(q, w.id) == 0;
    assert q[..0] + q[1..] == q[1..];
  }

  /** Taking the head off leaves the rest of its queue and all other queues. */
  lemma WithoutHead(queues: Queues, w: Waiter)
    requires GoodQueues(queues) && IsHead(queues, w)
    ensures GoodQueues(WithoutWaiter(queues, w.path, w.id)) && QueuesShrink(queues, WithoutWaiter(queues, w.path, w.id))
    ensures forall x :: IsQueued(WithoutWaiter(queues, w.path, w.id), x) <==> IsQueued(queues, x) && x != w
  {
    hide WithoutWaiter, IndexById, Before;
    var t := WithoutWaiter(queues, w.path, w.id);
    var q := queues[w.path];
    assert GoodQueue(w.path, q);
    WithoutHeadIs(queues, w);
    forall x ensures IsQueued(t, x) <==> IsQueued(queues, x) && x != w {
      if x.path == w.path { TailMembers(q, x); }
    }
    forall p | p in t ensures GoodQueue(p, t[p]) {
      assert GoodQueue(p, queues[p]);
    }
  }

  lemma ShiftKeeps(v: View, w: Waiter)
    requires Inv(v) && IsHead(v.queues, w)
    ensures Inv(ShiftView(v, w))
    ensures w in Waiting(v) && Waiting(ShiftView(v, w)) == Waiting(v) - {w} && w !in v.shifted
  {
    hide GoodTable, FairGrant, WithoutWaiter, InsertSorted;
    var t := ShiftView(v, w);
    WithoutHead(v.queues, w);
    assert GoodQueue(w.path, v.queues[w.path]);
    assert Accounted(v, w);
    forall x ensures Accounted(t, x) {
      assert Accounted(v, x);
    }
    assert Waiting(t) == Waiting(v) - {w};
  }

  function SettleView(v: View, w: Waiter, outcome: Outcome, c: Context): View {
    v.(settled := v.settled[w := outcome], shifted := v.shifted - {w},
       contexts := if outcome.Granted? then v.contexts[w := c] else v.contexts)
  }

  lemma SettleKeeps(v: View, w: Waiter, outcome: Outcome, c: Context)
    requires Inv(v) && w in v.shifted
    requires outcome.Granted? ==> FairGrant(w, c) && GrantFor(w, outcome.lock, v.token)
    ensures Inv(SettleView(v, w, outcome, c))
  {
    hide GoodTable, FairGrant, WithoutWaiter, GoodQueue;
    var t := SettleView(v, w, outcome, c);
    assert Waiting(t) == Waiting(v);
    forall x ensures Accounted(t, x) {
      assert Accounted(v, x);
    }
  }

  /** One turn of the grant loop: shift the head, grant it its path, settle its promise. */
  function ServeView(v: View, w: Waiter, lock: Lock, now: int): View {
    SettleView(GrantView(ShiftView(v, w), lock), w, Granted(lock), Moment(v, now))
  }

  predicate CanServe(v: View, w: Waiter, lock: Lock, now: int) {
    lock.path == w.path && lock.holder == w.holder && lock.name == w.name &&
    GoodLease(w.lease) && lock.lease == LeaseFor(w.lease) && lock.expiresAt == now + lock.lease &&
    CanGrant(v, lock, now) && DatedBy(v.slots, lock, now) &&
    (Get(v.slots, lock.path).Some? || Size(v.slots) < MAX_LOCKS)
  }

  lemma ServeInv(v: View, w: Waiter, lock: Lock, now: int)
    requires Inv(v) && CanServe(v, w, lock, now)
    requires FairGrant(w, Moment(v, now))
    ensures Inv(ServeView(v, w, lock, now))
    ensures w in Waiting(v) && Waiting(ServeView(v, w, lock, now)) == Waiting(v) - {w}
  {
    ShiftKeeps(v, w);
    var m := GrantView(ShiftView(v, w), lock);
    GrantKeeps(ShiftView(v, w), lock, now);
    SettleKeeps(m, w, Granted(lock), Moment(v, now));
    assert Waiting(ServeView(v, w, lock, now)) == Waiting(m) == Waiting(ShiftView(v, w));
  }

  /** The recorded moment is the state the turn began in. */
  lemma ServedBetween(v: View, w: Waiter, lock: Lock, now: int)
    requires Inv(v) && CanServe(v, w, lock, now) && IsHead(v.queues, w)
    requires Clear(v.slots, lock.path, lock.holder, now)
    ensures Between(v, Moment(v, now), ServeView(v, w, lock, now), now)
  {
    WithoutHead(v.queues, w);
    PutEvolves(v.slots, lock, now, v.token);
    EvolvesRefl(v, now);
  }

  lemma ServedIsNew(v: View, w: Waiter, lock: Lock, now: int)
    requires Inv(v) && CanServe(v, w, lock, now) && IsHead(v.queues, w)
    requires Clear(v.slots, lock.path, lock.holder, now)
    ensures NewlyGranted(v, ServeView(v, w, lock, now), w, now)
  {
    hide Inv, Between, Clear, WithoutWaiter, OwnedLive;
    TableIsOrdered(v);
    PutEvolves(v.slots, lock, now, v.token);
    ServedBetween(v, w, lock, now);
  }

  lemma NotSettledYet(v: View, w: Waiter)
    requires Inv(v) && IsHead(v.queues, w)
    ensures w !in v.settled && w !in v.shifted && w !in v.contexts
  {
    assert GoodQueue(w.path, v.queues[w.path]);
    assert Accounted(v, w);
  }

  lemma ServeEvolves(v: View, w: Waiter, lock: Lock, now: int)
    requires Inv(v) && CanServe(v, w, lock, now) && IsHead(v.queues, w)
    requires Clear(v.slots, lock.path, lock.holder, now)
    ensures Evolves(v, ServeView(v, w, lock, now), now)
  {
    hide Inv, NewlyGranted, Clear, WithoutWaiter, SlotsEvolve, QueuesShrink;
    QueuesAreGood(v);
    TableIsOrdered(v);
    WithoutHead(v.queues, w);
    PutEvolves(v.slots, lock, now, v.token);
    NotSettledYet(v, w);
    ServedIsNew(v, w, lock, now);
  }

  lemma ServeKeepsCap(v: View, w: Waiter, lock: Lock, now: int)
    requires CanServe(v, w, lock, now) && w in Waiting(v)
    requires Waiting(ServeView(v, w, lock, now)) == Waiting(v) - {w}
    ensures CapKept(v, ServeView(v, w, lock, now))
  {
    PutSize(v.slots, lock);
  }

  lemma ServeKeeps(v: View, w: Waiter, lock: Lock, now: int)
    requires Inv(v) && CanServe(v, w, lock, now)
    requires FairGrant(w, Moment(v, now))
    ensures Inv(ServeView(v, w, lock, now))
    ensures Moves(v, ServeView(v, w, lock, now), Extra(w.path, w.holder, true), now)
    ensures OwnedLive(ServeView(v, w, lock, now).slots, w.path, w.holder, now)
    ensures !IsQueued(ServeView(v, w, lock, now).queues, w)
  {
    hide Inv, Evolves, CapKept, Serves, SlotsEvolve, Dated, DatedBy;
    ServeInv(v, w, lock, now);
    ServeEvolves(v, w, lock, now);
    ServeKeepsCap(v, w, lock, now);
    GrantServes(ShiftView(v, w), lock);
    var shifted := ShiftView(v, w);
    ServesSameTable(shifted, v, GrantView(shifted, lock), ServeView(v, w, lock, now), Extra(w.path, w.holder, true));
    TableIsOrdered(v);
    PutEvolves(v.slots, lock, now, v.token);
    DatedRefl(v.slots, now);
    PutDated(v.slots, v.slots, lock, now);
    assert w in v.ever && w !in Waiting(ServeView(v, w, lock, now));
  }

  /** Who was blocked stays blocked while time stands still. */
  lemma HeadsStayBlocked(s: View, t: View, now: int)
    requires HeadsBlocked(s, now) && Evolves(s, t, now) && t.queues == s.queues
    ensures HeadsBlocked(t, now)
  {
    forall p | p in t.queues && t.queues[p] != []
      ensures Blocked(t.slots, t.queues[p][0].path, t.queues[p][0].holder, now)
    {
      BlockedPersists(s.slots, t.slots, t.queues[p][0].path, t.queues[p][0].holder, now, s.token);
    }
  }

  /** A lock that took an expired one's place within the same instant is live. */
  lemma ReplacementIsLive(s: View, t: View, path: string, now: int)
    requires DistinctPaths(s.slots) && Evolves(s, t, now)
    requires Get(s.slots, path).Some?
    requires t.slots[IndexOf(s.slots, path)].None?
    requires Get(t.slots, path).Some?
    ensures Live(Get(t.slots, path).value, now)
  {
    var i, k := IndexOf(s.slots, path), IndexOf(t.slots, path);
    if k < |s.slots| {
      assert SlotEvolves(s.slots[k], t.slots[k], now, s.token);
      GetFinds(s.slots, path, k);
    } else {
      assert FreshSlot(t.slots[k], now, s.token);
    }
  }

  /** The cap test at the start of a request leaves room for one lock at its end. */
  lemma RoomToGrant(s: View, t: View, path: string, now: int)
    requires Inv(s) && Evolves(s, t, now) && CapKept(s, t)
    requires Get(s.slots, path).Some? || Size(s.slots) < MAX_LOCKS
    requires Get(t.slots, path).None?
    ensures Size(t.slots) <= MAX_LOCKS
  {
    if |t.slots| == |s.slots| {
      SizeWithoutGrowth(s.slots, t.slots, now, s.token);
      var i := IndexOf(s.slots, path);
      if i < |s.slots| {
        assert SlotEvolves(s.slots[i], t.slots[i], now, s.token);
        assert IndexOf(t.slots, path) == |t.slots|;
        assert i in Occupied(s.slots) && i !in Occupied(t.slots);
        SubsetSize(Occupied(t.slots), Occupied(s.slots));
      }
    }
  }

  // ---- One pass of the grant loop ----

  /** Each head is still to be looked at, or is blocked, or waits for a path this pass granted. */
  ghost predicate PassInv(v: View, rest: seq<Waiter>, progressed: bool, now: int) {
    forall p :: p in v.queues && v.queues[p] != [] ==> HeadDealtWith(v, rest, progressed, now, p)
  }

  ghost predicate HeadDealtWith(v: View, rest: seq<Waiter>, progressed: bool, now: int, p: string)
    requires p in v.queues && v.queues[p] != []
  {
    var head := v.queues[p][0];
    || head in rest
    || Blocked(v.slots, head.path, head.holder, now)
    || (progressed && LockedLive(v.slots, p, now))
  }

  /** No head that goes before `w` is free to be granted. */
  ghost predicate NoneBefore(v: View, w: Waiter, now: int) {
    forall p :: p in v.queues && v.queues[p] != [] && Before(v.queues[p][0], w) ==>
      Blocked(v.slots, v.queues[p][0].path, v.queues[p][0].holder, now) || LockedLive(v.slots, p, now)
  }

  lemma NextCandidateIsFirst(v: View, rest: seq<Waiter>, progressed: bool, now: int)
    requires rest != [] && Sorted(rest) && PassInv(v, rest, progressed, now)
    ensures NoneBefore(v, rest[0], now)
  {
    forall p | p in v.queues && v.queues[p] != [] && Before(v.queues[p][0], rest[0])
      ensures Blocked(v.slots, v.queues[p][0].path, v.queues[p][0].holder, now) || LockedLive(v.slots, p, now)
    {
      var head := v.queues[p][0];
      assert HeadDealtWith(v, rest, progressed, now, p);
      assert head !in rest by {
        assert forall j :: 0 < j < |rest| ==> Before(rest[0], rest[j]);
      }
    }
  }

  /** What trying one candidate does to the heads. */
  ghost predicate Tried(s: View, t: View, w: Waiter, served: bool, now: int) {
    && (served ==> !IsQueued(t.queues, w) && LockedLive(t.slots, w.path, now))
    && (!served ==> Blocked(t.slots, w.path, w.holder, now))
    && (HeadsBlocked(t, now) || t.queues == s.queues || (served && t.queues == WithoutWaiter(s.queues, w.path, w.id)))
  }

  lemma PassStep(s: View, t: View, rest: seq<Waiter>, progressed: bool, served: bool, now: int)
    requires Inv(s) && Inv(t) && Evolves(s, t, now) && rest != []
    requires PassInv(s, rest, progressed, now) && Tried(s, t, rest[0], served, now)
    ensures PassInv(t, rest[1..], progressed || served, now)
  {
    if !HeadsBlocked(t, now) {
      var w := rest[0];
      forall p | p in t.queues && t.queues[p] != []
        ensures HeadDealtWith(t, rest[1..], progressed || served, now, p)
      {
        var head := t.queues[p][0];
        assert GoodQueue(p, t.queues[p]);
        if p == w.path && t.queues != s.queues {
        } else {
          assert p in s.queues && s.queues[p] == t.queues[p];
          assert HeadDealtWith(s, rest, progressed, now, p);
          HeadPersists(s, t, rest, progressed, now, p);
        }
      }
    }
  }

  lemma HeadPersists(s: View, t: View, rest: seq<Waiter>, progressed: bool, now: int, p: string)
    requires Evolves(s, t, now) && rest != []
    requires p in s.queues && s.queues[p] != [] && p in t.queues && t.queues[p] == s.queues[p]
    requires t.queues[p][0].path == p
    requires HeadDealtWith(s, rest, progressed, now, p)
    requires !IsQueued(t.queues, rest[0]) || Blocked(t.slots, rest[0].path, rest[0].holder, now)
    ensures HeadDealtWith(t, rest[1..], progressed, now, p)
  {
    var head := s.queues[p][0];
    if Blocked(s.slots, head.path, head.holder, now) {
      BlockedPersists(s.slots, t.slots, head.path, head.holder, now, s.token);
    } else if progressed && LockedLive(s.slots, p, now) {
      LockedPersists(s.slots, t.slots, p, now, s.token);
    } else if head != rest[0] {
      assert rest == [rest[0]] + rest[1..];
    }
  }

  /** A candidate of a pass that is still queued is still at the head. */
  lemma HeadStaysHead(s: View, t: View, w: Waiter, now: int)
    requires Inv(s) && Evolves(s, t, now)
    requires IsHead(s.queues, w) && IsQueued(t.queues, w)
    ensures IsHead(t.queues, w)
  {
    var a, b := s.queues[w.path], t.queues[w.path];
    assert IsSuffix(b, a) && GoodQueue(w.path, a);
    var j :| 0 <= j < |b| && b[j] == w;
    assert a[|a| - |b| + j] == w == a[0];
    assert forall k :: 0 < k < |a| ==> Before(a[0], a[k]);
  }

  /** A waiter already served is not found in its queue again. */
  lemma StaleIsAbsent(v: View, w: Waiter)
    requires Inv(v) && w in v.ever && !IsQueued(v.queues, w)
    ensures WithoutWaiter(v.queues, w.path, w.id) == v.queues
  {
    if w.path in v.queues {
      var q := v.queues[w.path];
      assert GoodQueue(w.path, q);
      forall x | x in q ensures x.id != w.id {
        assert IsQueued(v.queues, x) && Accounted(v, x);
      }
    }
  }

  lemma CandidateWasQueued(v: View, w: Waiter)
    requires Inv(v) && IsHead(v.queues, w)
    ensures w in Waiting(v) && GoodLease(w.lease)
  {
    assert GoodQueue(w.path, v.queues[w.path]);
    assert Accounted(v, w);
  }

  /** Heads of different queues have different ids. */
  lemma HeadsAreComparable(v: View, others: seq<Waiter>, w: Waiter)
    requires Inv(v) && IsHead(v.queues, w)
    requires forall x :: x in others ==> IsHead(v.queues, x) && x != w
    requires Sorted(others)
    ensures Sorted(InsertSorted(others, w))
  {
    CandidateWasQueued(v, w);
    forall x | x in others ensures x.id != w.id {
      CandidateWasQueued(v, x);
    }
    InsertSortedSorts(others, w);
  }

  /** A request that found its path clear ends with the lock in the table. */
  lemma GrantFollows(s: View, m: View, lock: Lock, now: int)
    requires Inv(s) && Inv(m) && Moves(s, m, {}, now) && CanGrant(m, lock, now)
    requires Get(s.slots, lock.path).Some? || Size(s.slots) < MAX_LOCKS
    requires Clear(m.slots, lock.path, lock.holder, now) && DatedBy(s.slots, lock, now)
    ensures Inv(GrantView(m, lock)) && Evolves(s, GrantView(m, lock), now)
    ensures Dated(s.slots, GrantView(m, lock).slots, now)
    ensures Serves(s, GrantView(m, lock), Extra(lock.path, lock.holder, true))
    ensures Get(GrantView(m, lock).slots, lock.path) == Some(lock)
  {
    hide Inv, Evolves, Serves, Clear, CapKept, Dated, DatedBy;
    TableIsOrdered(s);
    TableIsOrdered(m);
    TableEvolves(s, m, now);
    PutDated(s.slots, m.slots, lock, now);
    if Get(m.slots, lock.path).None? {
      RoomToGrant(s, m, lock.path, now);
    }
    GrantKeeps(m, lock, now);
    PutEvolves(m.slots, lock, now, m.token);
    EvolvesTrans(s, m, GrantView(m, lock), now);
    GrantServes(m, lock);
    ServesTrans(s, m, GrantView(m, lock), now, {}, Extra(lock.path, lock.holder, true));
    assert {} + Extra(lock.path, lock.holder, true) == Extra(lock.path, lock.holder, true);
  }

  /** The entry of a holder who owns a clear path is found under that path. */
  lemma OwnedIsFound(slots: Slots, path: string, holder: string, now: int)
    requires OwnedLive(slots, path, holder, now)
    ensures Get(slots, path).Some?
  {
    var i :| 0 <= i < |slots| && OwnedBy(slots[i], path, holder, now);
    assert IndexOf(slots, path) <= i;
  }

  /** If a nested release happened and the path is clear, the candidate has been served already. */
  lemma ClearHeadIsUntouched(s: View, m: View, w: Waiter, now: int)
    requires Inv(s) && Evolves(s, m, now)
    requires m == s || HeadsBlocked(m, now)
    requires Clear(m.slots, w.path, w.holder, now)
    requires IsHead(s.queues, w) && IsQueued(m.queues, w)
    ensures m == s
  {
    HeadStaysHead(s, m, w, now);
    assert !Blocked(m.slots, w.path, w.holder, now) by {
      assert forall i :: 0 <= i < |m.slots| ==> Passes(m.slots[i], w.path, w.holder, now);
    }
  }

  lemma ServedMeanwhile(s: View, m: View, w: Waiter, now: int)
    requires Inv(s) && Inv(m) && Evolves(s, m, now) && m.shifted == s.shifted
    requires IsQueued(s.queues, w) || (w in s.settled && OwnedLive(s.slots, w.path, w.holder, now))
    requires !IsQueued(m.queues, w)
    ensures w in m.settled && OwnedLive(m.slots, w.path, w.holder, now)
  {
    if IsQueued(s.queues, w) {
      LeftQueueWasGranted(s, m, w, now);
    } else {
      OwnedPersists(s.slots, m.slots, w.path, w.holder, now, s.token);
    }
  }

  lemma QueuesAreGood(v: View)
    requires Inv(v)
    ensures GoodQueues(v.queues)
  {
  }

  /** The cap was hit after the shift: the waiter is in no queue and its promise never settles. */
  lemma ShiftStrands(v: View, w: Waiter, now: int)
    requires Inv(v) && IsHead(v.queues, w)
    requires Size(v.slots) >= MAX_LOCKS && Get(v.slots, w.path).None?
    ensures Inv(ShiftView(v, w)) && Moves(v, ShiftView(v, w), {}, now)
    ensures Strands(v, ShiftView(v, w))
  {
    hide Inv, WithoutWaiter, GoodQueues, SlotsEvolve;
    ShiftKeeps(v, w);
    QueuesAreGood(v);
    WithoutHead(v.queues, w);
    EvolvesRefl(v, now);
    DatedRefl(v.slots, now);
    assert StrandsOne(v, ShiftView(v, w), w);
  }

  lemma RenewalKeeps(v: View, lock: Lock, now: int)
    requires Inv(v) && CanGrant(v, lock, now) && Clear(v.slots, lock.path, lock.holder, now)
    requires Get(v.slots, lock.path).Some? && DatedBy(v.slots, lock, now)
    ensures Inv(GrantView(v, lock)) && Moves(v, GrantView(v, lock), Extra(lock.path, lock.holder, true), now)
    ensures OwnedLive(GrantView(v, lock).slots, lock.path, lock.holder, now)
  {
    hide Dated, DatedBy;
    GrantKeeps(v, lock, now);
    DatedRefl(v.slots, now);
    PutDated(v.slots, v.slots, lock, now);
    PutEvolves(v.slots, lock, now, v.token);
    PutSize(v.slots, lock);
    assert Waiting(GrantView(v, lock)) == Waiting(v);
  }

  lemma PassStart(v: View, candidates: seq<Waiter>, now: int)
    requires Inv(v) && forall w :: IsHead(v.queues, w) ==> w in candidates
    ensures PassInv(v, candidates, false, now)
  {
    forall p | p in v.queues && v.queues[p] != [] ensures HeadDealtWith(v, candidates, false, now, p) {
      assert GoodQueue(p, v.queues[p]);
      assert IsHead(v.queues, v.queues[p][0]);
    }
  }

  lemma PassEnd(v: View, progressed: bool, now: int)
    requires PassInv(v, [], progressed, now)
    ensures !progressed ==> HeadsBlocked(v, now)
  {
    if !progressed {
      forall p | p in v.queues && v.queues[p] != []
        ensures Blocked(v.slots, v.queues[p][0].path, v.queues[p][0].holder, now)
      {
        assert HeadDealtWith(v, [], progressed, now, p);
      }
    }
  }

  /** A candidate of the pass is by now still the head of its queue, or it was served. */
  lemma CandidateNow(s: View, v: View, w: Waiter, now: int)
    requires Inv(s) && Inv(v) && Evolves(s, v, now) && v.shifted == s.shifted
    requires IsHead(s.queues, w)
    ensures if IsQueued(v.queues, w) then IsHead(v.queues, w)
            else w in v.settled && OwnedLive(v.slots, w.path, w.holder, now)
  {
    if IsQueued(v.queues, w) {
      HeadStaysHead(s, v, w, now);
    } else {
      ServedMeanwhile(s, v, w, now);
    }
  }

  lemma ServedIsGone(s: View, t: View, w: Waiter, now: int)
    requires Tried(s, t, w, true, now)
    ensures w !in Waiting(t)
  {
  }

  lemma TriedInVain(s: View, m: View, w: Waiter, lock: Lock, now: int)
    requires m == s || HeadsBlocked(m, now)
    requires Some(lock) == Get(m.slots, lock.path) && Blocks(Some(lock), w.path, w.holder, now)
    ensures Tried(s, m, w, false, now)
  {
    assert Blocks(m.slots[IndexOf(m.slots, lock.path)], w.path, w.holder, now);
  }

  lemma TriedServed(s: View, m: View, t: View, w: Waiter, now: int)
    requires Inv(m) && Inv(t) && w in m.ever && Evolves(m, t, now)
    requires m == s || (HeadsBlocked(m, now) && !IsQueued(m.queues, w))
    requires OwnedLive(t.slots, w.path, w.holder, now) && !IsQueued(t.queues, w)
    requires t.queues == WithoutWaiter(m.queues, w.path, w.id)
    ensures Tried(s, t, w, true, now)
  {
    EvolvesRefl(t, now);
    OwnedPersists(t.slots, t.slots, w.path, w.holder, now, t.token);
    if m != s {
      StaleIsAbsent(m, w);
      HeadsStayBlocked(m, t, now);
    }
  }

  lemma FairNow(v: View, w: Waiter, now: int)
    requires IsHead(v.queues, w) && Clear(v.slots, w.path, w.holder, now) && NoneBefore(v, w, now)
    ensures FairGrant(w, Moment(v, now))
  {
  }

  lemma FoundUnderItsPath(v: View, i: nat)
    requires Inv(v) && i < |v.slots| && v.slots[i].Some?
    ensures IndexOf(v.slots, v.slots[i].value.path) == i
  {
    GetFinds(v.slots, v.slots[i].value.path, i);
  }

  lemma GoneFromItsQueue(v: View, w: Waiter)
    requires Inv(v) && IsHead(v.queues, w)
    ensures !IsQueued(WithoutWaiter(v.queues, w.path, w.id), w)
    ensures w !in v.settled
  {
    WithoutHead(v.queues, w);
    assert Accounted(v, w);
  }
}
