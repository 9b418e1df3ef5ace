/** The relay's sliding-window rate limiter, against the full history of accepted requests. */
module RateLimits {
  const WINDOW_MS := 60_000

  datatype Bucket = Bucket(timestamps: seq<int>, violations: nat)

  datatype Verdict = Verdict(allowed: bool, shouldDisconnect: bool)

  type Store = map<string, Bucket>

  /** The times after `start`, in order. */
  function After(times: seq<int>, start: int): seq<int> {
    if times == [] then []
    else
      var n := |times| - 1;
      if times[n] > start then After(times[..n], start) + [times[n]] else After(times[..n], start)
  }

  function Recent(times: seq<int>, now: int): seq<int> {
    After(times, now - WINDOW_MS)
  }

  /** The requests of the 60 seconds before `now`. */
  function InLastMinute(times: seq<int>, now: int): set<nat> {
    set i | 0 <= i < |times| && now - times[i] < 60_000
  }

  lemma {:induction false} RecentAre(times: seq<int>, now: int)
    ensures |Recent(times, now)| == |InLastMinute(times, now)|
    ensures forall t :: t in Recent(times, now) <==> t in times && now - t < 60_000
  {
    if times != [] {
      var n := |times| - 1;
      RecentAre(times[..n], now);
      assert times == times[..n] + [times[n]];
      var before := InLastMinute(times[..n], now);
      assert InLastMinute(times, now) == if now - times[n] < 60_000 then before + {n} else before;
    }
  }

  function TimesOf(store: Store, ip: string): seq<int> {
    if ip in store then store[ip].timestamps else []
  }

  function ViolationsOf(store: Store, ip: string): nat {
    if ip in store then store[ip].violations else 0
  }

  function HistoryOf(history: map<string, seq<int>>, ip: string): seq<int> {
    if ip in history then history[ip] else []
  }

  /** One request of `ip` against one store. */
  method Check(store: Store, ip: string, limit: nat, disconnectAfter: nat, now: int)
    returns (after: Store, verdict: Verdict)
    ensures verdict.allowed <==> |Recent(TimesOf(store, ip), now)| < limit
    ensures after.Keys == store.Keys + {ip}
    ensures forall x :: x in store && x != ip ==> after[x] == store[x]
    ensures var recent := Recent(TimesOf(store, ip), now);
            TimesOf(after, ip) == if verdict.allowed then recent + [now] else recent
    ensures ViolationsOf(after, ip) == ViolationsOf(store, ip) + if verdict.allowed then 0 else 1
    ensures verdict.shouldDisconnect <==> !verdict.allowed && ViolationsOf(after, ip) >= disconnectAfter
  {
    var bucket := if ip in store then store[ip] else Bucket([], 0);
    bucket := bucket.(timestamps := Recent(bucket.timestamps, now));
    if |bucket.timestamps| >= limit {
      bucket := bucket.(violations := bucket.violations + 1);
      return store[ip := bucket], Verdict(false, bucket.violations >= disconnectAfter);
    }
    bucket := bucket.(timestamps := bucket.timestamps + [now]);
    return store[ip := bucket], Verdict(true, false);
  }

  /** Forgets times outside the window, and buckets left without any. */
  method Sweep(store: Store, now: int) returns (after: Store)
    ensures forall ip :: ip in after <==> ip in store && Recent(store[ip].timestamps, now) != []
    ensures forall ip :: ip in after ==> after[ip] == Bucket(Recent(store[ip].timestamps, now), store[ip].violations)
  {
    after := store;
    var ips := store.Keys;
    while ips != {}
      invariant ips <= store.Keys
      invariant forall ip :: ip in ips ==> ip in after && after[ip] == store[ip]
      invariant forall ip :: ip in after <==> ip in ips || (ip in store && Recent(store[ip].timestamps, now) != [])
      invariant forall ip :: ip in after && ip !in ips ==>
        after[ip] == Bucket(Recent(store[ip].timestamps, now), store[ip].violations)
      decreases ips
    {
      var ip :| ip in ips;
      var bucket := after[ip].(timestamps := Recent(after[ip].timestamps, now));
      after := if bucket.timestamps == [] then after - {ip} else after[ip := bucket];
      ips := ips - {ip};
    }
  }

  // ---- The history ----

  /** Accepted requests are in time order, and each is a full window after the one `limit` places before it. */
  ghost predicate Paced(h: seq<int>, limit: nat) {
    && (forall i, j :: 0 <= i < j < |h| ==> h[i] <= h[j])
    && forall j :: limit <= j < |h| ==> h[j - limit] + WINDOW_MS <= h[j]
  }

  /** A bucket knows everything of the history that can still matter. */
  ghost predicate Tracks(store: Store, history: map<string, seq<int>>, ip: string, clock: int, limit: nat) {
    var h := HistoryOf(history, ip);
    && Recent(TimesOf(store, ip), clock) == Recent(h, clock)
    && Paced(h, limit)
    && forall i :: 0 <= i < |h| ==> h[i] <= clock
  }

  lemma {:induction false} AfterAfter(times: seq<int>, a: int, b: int)
    requires a <= b
    ensures After(After(times, a), b) == After(times, b)
  {
    if times != [] {
      var n := |times| - 1;
      AfterAfter(times[..n], a, b);
      if times[n] > a {
        AfterPlus(After(times[..n], a), times[n], b);
      }
    }
  }

  lemma {:induction false} AfterPlus(times: seq<int>, t: int, start: int)
    ensures After(times + [t], start) == if t > start then After(times, start) + [t] else After(times, start)
  {
    assert (times + [t])[..|times|] == times;
  }

  lemma {:induction false} AtMost(h: seq<int>, k: int, start: int)
    requires -1 <= k < |h| && (k >= 0 ==> h[k] <= start)
    requires forall i, j :: 0 <= i < j < |h| ==> h[i] <= h[j]
    ensures |After(h, start)| <= |h| - (k + 1)
  {
    if |h| == k + 1 {
      AllBefore(h, start);
    } else {
      AtMost(h[..|h| - 1], k, start);
    }
  }

  lemma {:induction false} AllBefore(h: seq<int>, start: int)
    requires forall i :: 0 <= i < |h| ==> h[i] <= start
    ensures After(h, start) == []
  {
    if h != [] {
      AllBefore(h[..|h| - 1], start);
    }
  }

  lemma {:induction false} AtLeast(h: seq<int>, k: nat, start: int)
    requires k < |h| && h[k] > start
    requires forall i, j :: 0 <= i < j < |h| ==> h[i] <= h[j]
    ensures |After(h, start)| >= |h| - k
  {
    if |h| > k + 1 {
      AtLeast(h[..|h| - 1], k, start);
    }
  }

  /** Accepting while the window has room keeps the pace. */
  lemma AcceptKeepsPace(h: seq<int>, limit: nat, now: int)
    requires Paced(h, limit) && |Recent(h, now)| < limit
    requires forall i :: 0 <= i < |h| ==> h[i] <= now
    ensures Paced(h + [now], limit)
  {
    if |h| >= limit && h[|h| - limit] > now - WINDOW_MS {
      AtLeast(h, |h| - limit, now - WINDOW_MS);
    }
  }

  /** The accepted requests of a window of 60 seconds that ends at `end`. */
  function InWindow(h: seq<int>, end: int): seq<int> {
    if h == [] then []
    else
      var n := |h| - 1;
      if end - 60_000 < h[n] <= end then InWindow(h[..n], end) + [h[n]] else InWindow(h[..n], end)
  }

  /** No window of 60 seconds, wherever it lies, holds more accepted requests than the limit. */
  lemma {:induction false} NoWindowOverflows(h: seq<int>, limit: nat, end: int)
    requires Paced(h, limit)
    ensures |InWindow(h, end)| <= limit
  {
    if h != [] {
      var n := |h| - 1;
      if h[n] > end {
        NoWindowOverflows(h[..n], limit, end);
      } else {
        WindowIsAfter(h, end);
        AtMost(h, if n >= limit then n - limit else -1, end - WINDOW_MS);
      }
    }
  }

  lemma {:induction false} WindowIsAfter(h: seq<int>, end: int)
    requires forall i :: 0 <= i < |h| ==> h[i] <= end
    ensures InWindow(h, end) == After(h, end - WINDOW_MS)
  {
    if h != [] {
      WindowIsAfter(h[..|h| - 1], end);
    }
  }

  /** A check against the bucket decides as the full history would, and goes on tracking it. */
  lemma CheckTracks(store: Store, after: Store, history: map<string, seq<int>>, ip: string,
                    clock: int, now: int, limit: nat, allowed: bool)
    requires clock <= now && Tracks(store, history, ip, clock, limit)
    requires allowed <==> |Recent(TimesOf(store, ip), now)| < limit
    requires var recent := Recent(TimesOf(store, ip), now);
             TimesOf(after, ip) == if allowed then recent + [now] else recent
    ensures allowed <==> |Recent(HistoryOf(history, ip), now)| < limit
    ensures Tracks(after, Accept(history, ip, now, allowed), ip, now, limit)
  {
    hide After;
    StaysTracked(store, history, ip, clock, now, limit);
    var h, ts := HistoryOf(history, ip), TimesOf(store, ip);
    AfterAfter(ts, now - WINDOW_MS, now - WINDOW_MS);
    if allowed {
      AcceptKeepsPace(h, limit, now);
      AfterPlus(h, now, now - WINDOW_MS);
      AfterPlus(Recent(ts, now), now, now - WINDOW_MS);
    }
  }

  /** The history after a request at `now`. */
  function Accept(history: map<string, seq<int>>, ip: string, now: int, allowed: bool): map<string, seq<int>> {
    if allowed then history[ip := HistoryOf(history, ip) + [now]] else history
  }

  lemma StaysTracked(store: Store, history: map<string, seq<int>>, ip: string, clock: int, now: int, limit: nat)
    requires clock <= now && Tracks(store, history, ip, clock, limit)
    ensures Tracks(store, history, ip, now, limit)
  {
    hide After, Paced;
    AfterAfter(TimesOf(store, ip), clock - WINDOW_MS, now - WINDOW_MS);
    AfterAfter(HistoryOf(history, ip), clock - WINDOW_MS, now - WINDOW_MS);
  }

  /** Requests of one address leave the others' history and bucket alone. */
  lemma OthersStayTracked(store: Store, after: Store, history: map<string, seq<int>>, ip: string, x: string,
                          clock: int, now: int, limit: nat, allowed: bool)
    requires clock <= now && Tracks(store, history, x, clock, limit)
    requires x != ip && TimesOf(after, x) == TimesOf(store, x)
    ensures Tracks(after, Accept(history, ip, now, allowed), x, now, limit)
  {
    hide After, Paced;
    StaysTracked(store, history, x, clock, now, limit);
  }

  /** Violations are kept while an accepted request lies in the window, and reset otherwise. */
  ghost predicate Forgives(before: Store, after: Store, history: map<string, seq<int>>, ip: string, now: int) {
    ViolationsOf(after, ip) == if InLastMinute(HistoryOf(history, ip), now) != {} then ViolationsOf(before, ip) else 0
  }

  lemma AllForgiven(before: Store, after: Store, history: map<string, seq<int>>, now: int)
    requires forall ip :: Forgives(before, after, history, ip, now)
    ensures forall ip ::
      ViolationsOf(after, ip) ==
        if InLastMinute(HistoryOf(history, ip), now) != {} then ViolationsOf(before, ip) else 0
  {
    forall ip
      ensures ViolationsOf(after, ip) ==
        if InLastMinute(HistoryOf(history, ip), now) != {} then ViolationsOf(before, ip) else 0
    {
      assert Forgives(before, after, history, ip, now);
    }
  }

  lemma SweepTracks(store: Store, after: Store, history: map<string, seq<int>>, ip: string,
                    clock: int, now: int, limit: nat)
    requires clock <= now && Tracks(store, history, ip, clock, limit)
    requires ip in after <==> ip in store && Recent(store[ip].timestamps, now) != []
    requires ip in after ==> after[ip] == Bucket(Recent(store[ip].timestamps, now), store[ip].violations)
    ensures Tracks(after, history, ip, now, limit) && Forgives(store, after, history, ip, now)
  {
    hide InLastMinute;
    StaysTracked(store, history, ip, clock, now, limit);
    AfterAfter(TimesOf(store, ip), now - WINDOW_MS, now - WINDOW_MS);
    RecentAre(HistoryOf(history, ip), now);
    assert InLastMinute(HistoryOf(history, ip), now) == {} <==> Recent(HistoryOf(history, ip), now) == [];
  }

  /** Two independent stores, one for joins and one for all messages. */
  class RateLimiter {
    const joinLimit: nat
    const messageLimit: nat
    const disconnectAfter: nat
    var joins: Store
    var messages: Store
    ghost var acceptedJoins: map<string, seq<int>>
    ghost var acceptedMessages: map<string, seq<int>>
    ghost var clock: int

    ghost predicate Valid()
      reads this
    {
      && (forall ip :: Tracks(joins, acceptedJoins, ip, clock, joinLimit))
      && forall ip :: Tracks(messages, acceptedMessages, ip, clock, messageLimit)
    }

    constructor (joinLimit: nat, messageLimit: nat, disconnectAfter: nat, ghost now: int)
      ensures Valid() && acceptedJoins == map[] && acceptedMessages == map[] && clock == now
    {
      this.joinLimit, this.messageLimit, this.disconnectAfter := joinLimit, messageLimit, disconnectAfter;
      joins, messages, acceptedJoins, acceptedMessages, clock := map[], map[], map[], map[], now;
    }

    /** A join is accepted exactly when fewer than the limit were accepted in the last 60 seconds. */
    method CheckJoin(ip: string, now: int) returns (verdict: Verdict)
      requires Valid() && clock <= now
      modifies this
      ensures Valid() && clock == now && acceptedMessages == old(acceptedMessages)
      ensures verdict.allowed <==> |InLastMinute(HistoryOf(old(acceptedJoins), ip), now)| < joinLimit
      ensures acceptedJoins == Accept(old(acceptedJoins), ip, now, verdict.allowed)
      ensures forall x :: x != ip ==> ViolationsOf(joins, x) == ViolationsOf(old(joins), x)
      ensures ViolationsOf(joins, ip) == ViolationsOf(old(joins), ip) + if verdict.allowed then 0 else 1
      ensures verdict.shouldDisconnect <==> !verdict.allowed && ViolationsOf(joins, ip) >= disconnectAfter
      ensures messages == old(messages)
    {
      hide Tracks, Recent, InLastMinute;
      ghost var store, history := joins, acceptedJoins;
      joins, verdict := Check(joins, ip, joinLimit, disconnectAfter, now);
      acceptedJoins := Accept(history, ip, now, verdict.allowed);
      RecentAre(HistoryOf(history, ip), now);
      CheckTracks(store, joins, history, ip, clock, now, joinLimit, verdict.allowed);
      forall x ensures Tracks(joins, acceptedJoins, x, now, joinLimit) {
        if x != ip { OthersStayTracked(store, joins, history, ip, x, clock, now, joinLimit, verdict.allowed); }
      }
      forall x ensures Tracks(messages, acceptedMessages, x, now, messageLimit) {
        StaysTracked(messages, acceptedMessages, x, clock, now, messageLimit);
      }
      clock := now;
    }

    /** The same for messages of any kind. */
    method CheckMessage(ip: string, now: int) returns (verdict: Verdict)
      requires Valid() && clock <= now
      modifies this
      ensures Valid() && clock == now && acceptedJoins == old(acceptedJoins)
      ensures verdict.allowed <==> |InLastMinute(HistoryOf(old(acceptedMessages), ip), now)| < messageLimit
      ensures acceptedMessages == Accept(old(acceptedMessages), ip, now, verdict.allowed)
      ensures forall x :: x != ip ==> ViolationsOf(messages, x) == ViolationsOf(old(messages), x)
      ensures ViolationsOf(messages, ip) == ViolationsOf(old(messages), ip) + if verdict.allowed then 0 else 1
      ensures verdict.shouldDisconnect <==> !verdict.allowed && ViolationsOf(messages, ip) >= disconnectAfter
      ensures joins == old(joins)
    {
      hide Tracks, Recent, InLastMinute;
      ghost var store, history := messages, acceptedMessages;
      messages, verdict := Check(messages, ip, messageLimit, disconnectAfter, now);
      acceptedMessages := Accept(history, ip, now, verdict.allowed);
      RecentAre(HistoryOf(history, ip), now);
      CheckTracks(store, messages, history, ip, clock, now, messageLimit, verdict.allowed);
      forall x ensures Tracks(messages, acceptedMessages, x, now, messageLimit) {
        if x != ip { OthersStayTracked(store, messages, history, ip, x, clock, now, messageLimit, verdict.allowed); }
      }
      forall x ensures Tracks(joins, acceptedJoins, x, now, joinLimit) {
        StaysTracked(joins, acceptedJoins, x, clock, now, joinLimit);
      }
      clock := now;
    }

    /** Cleanup at any moment changes no later acceptance. It forgives the violations of an address
        without accepted requests in the window, and of no other. */
    method Cleanup(now: int)
      requires Valid() && clock <= now
      modifies this
      ensures Valid() && clock == now
      ensures acceptedJoins == old(acceptedJoins) && acceptedMessages == old(acceptedMessages)
      ensures forall ip :: ip in joins <==> ip in old(joins) && Recent(old(joins)[ip].timestamps, now) != []
      ensures forall ip :: ip in messages <==> ip in old(messages) && Recent(old(messages)[ip].timestamps, now) != []
      ensures forall ip ::
        ViolationsOf(joins, ip) ==
          if InLastMinute(HistoryOf(acceptedJoins, ip), now) != {} then ViolationsOf(old(joins), ip) else 0
      ensures forall ip ::
        ViolationsOf(messages, ip) ==
          if InLastMinute(HistoryOf(acceptedMessages, ip), now) != {} then ViolationsOf(old(messages), ip) else 0
    {
      hide Tracks, Recent, After, InLastMinute, ViolationsOf;
      var j := Sweep(joins, now);
      var m := Sweep(messages, now);
      forall ip ensures Tracks(j, acceptedJoins, ip, now, joinLimit) && Forgives(joins, j, acceptedJoins, ip, now) {
        SweepTracks(joins, j, acceptedJoins, ip, clock, now, joinLimit);
      }
      forall ip
        ensures Tracks(m, acceptedMessages, ip, now, messageLimit) && Forgives(messages, m, acceptedMessages, ip, now)
      {
        SweepTracks(messages, m, acceptedMessages, ip, clock, now, messageLimit);
      }
      AllForgiven(joins, j, acceptedJoins, now);
      AllForgiven(messages, m, acceptedMessages, now);
      joins, messages, clock := j, m, now;
    }
  }

  /** At any time, for every address and wherever a window of 60 seconds lies: the limiter has
      accepted no more joins and no more messages in it than the limits allow. */
  lemma LimitsAreKept(limiter: RateLimiter, ip: string, end: int)
    requires limiter.Valid()
    ensures |InWindow(HistoryOf(limiter.acceptedJoins, ip), end)| <= limiter.joinLimit
    ensures |InWindow(HistoryOf(limiter.acceptedMessages, ip), end)| <= limiter.messageLimit
  {
    hide After, InWindow;
    assert Tracks(limiter.joins, limiter.acceptedJoins, ip, limiter.clock, limiter.joinLimit);
    assert Tracks(limiter.messages, limiter.acceptedMessages, ip, limiter.clock, limiter.messageLimit);
    NoWindowOverflows(HistoryOf(limiter.acceptedJoins, ip), limiter.joinLimit, end);
    NoWindowOverflows(HistoryOf(limiter.acceptedMessages, ip), limiter.messageLimit, end);
  }
}
