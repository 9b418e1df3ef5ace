/** Replay protection of the relay transport: what one daemon sends and accepts, over a relay that
    may drop, repeat and reorder frames, with its asynchronous steps finishing in any order. */
module Replay {
  import opened Bytes
  import opened Nonces
  import opened Frames

  const MIN_FRAME_SIZE := 15

  const FRAME_TYPE_YJS_UPDATE: byte := 1
  const FRAME_TYPE_AWARENESS: byte := 2

  /** A frame on its way through the receiver, with the peer the relay names as its sender. */
  datatype Arrival = Arrival(from: PeerId, frame: Frame)

  /** `checking` waits for the digest of the sender's id, `opening` for the decryption; `accepted`,
      `delivered` and `sealed` record what was validated, handed to callbacks and sent. */
  datatype Link = Link(
    counters: map<PeerId, nat>,
    checking: seq<Arrival>,
    opening: seq<Arrival>,
    accepted: seq<Arrival>,
    delivered: seq<Arrival>,
    sealed: seq<nat>)

  function Fresh(): Link {
    Link(map[], [], [], [], [], [])
  }

  function Remove(s: seq<Arrival>, k: nat): seq<Arrival>
    requires k < |s|
  {
    s[..k] + s[k + 1..]
  }

  // ---- Steps ----

  function Send(l: Link, self: PeerId): Link {
    var next := Last(l.counters, self) + 1;
    l.(counters := l.counters[self := next], sealed := l.sealed + [next])
  }

  function Arrive(l: Link, from: PeerId, raw: seq<byte>): Link {
    if |raw| < MIN_FRAME_SIZE || !Parsed(raw).Whole? then l
    else l.(checking := l.checking + [Arrival(from, Parsed(raw).frame)])
  }

  /** The digest for the k-th waiting frame is there: prefix and counter are checked at once. */
  function Check(l: Link, k: nat, prefix: seq<byte>): Link {
    if k >= |l.checking| then l
    else
      var a := l.checking[k];
      var left := l.(checking := Remove(l.checking, k));
      if |a.frame.nonce| != NONCE_TOTAL_BYTES || !(prefix <= a.frame.nonce[..NONCE_PEER_PREFIX_BYTES]) then left
      else if CounterOf(a.frame.nonce) <= Last(l.counters, a.from) then left
      else
        left.(counters := l.counters[a.from := CounterOf(a.frame.nonce)],
              opening := l.opening + [a],
              accepted := l.accepted + [a])
  }

  predicate Deliverable(kind: byte) {
    kind == FRAME_TYPE_YJS_UPDATE || kind == FRAME_TYPE_AWARENESS
  }

  /** The k-th decryption has ended; `good` says that it opened to something well formed. */
  function Opened(l: Link, k: nat, good: bool): Link {
    if k >= |l.opening| then l
    else
      var a := l.opening[k];
      var left := l.(opening := Remove(l.opening, k));
      if good && Deliverable(a.frame.kind) then left.(delivered := l.delivered + [a]) else left
  }

  datatype Event =
    | Sending
    | Arriving(from: PeerId, raw: seq<byte>)
    | Checking(k: nat)
    | Opening(k: nat, good: bool)

  function Step(l: Link, self: PeerId, prefixOf: PeerId -> seq<byte>, e: Event): Link {
    match e
    case Sending => Send(l, self)
    case Arriving(from, raw) => Arrive(l, from, raw)
    case Checking(k) => Check(l, k, if k < |l.checking| then prefixOf(l.checking[k].from) else [])
    case Opening(k, good) => Opened(l, k, good)
  }

  function Run(l: Link, self: PeerId, prefixOf: PeerId -> seq<byte>, events: seq<Event>): Link
    decreases events
  {
    if events == [] then l else Run(Step(l, self, prefixOf, events[0]), self, prefixOf, events[1..])
  }

  // ---- The invariant ----

  ghost predicate Numbered(a: Arrival) {
    |a.frame.nonce| == NONCE_TOTAL_BYTES
  }

  function Counter(a: Arrival): nat {
    if |a.frame.nonce| == NONCE_TOTAL_BYTES then CounterOf(a.frame.nonce) else 0
  }

  ghost predicate SameKey(a: Arrival, b: Arrival) {
    a.from == b.from && Counter(a) == Counter(b)
  }

  ghost predicate Distinct(s: seq<Arrival>) {
    forall i, j :: 0 <= i < j < |s| ==> !SameKey(s[i], s[j])
  }

  ghost predicate Apart(s: seq<Arrival>, t: seq<Arrival>) {
    forall i, j :: 0 <= i < |s| && 0 <= j < |t| ==> !SameKey(s[i], t[j])
  }

  ghost predicate Below(s: seq<Arrival>, counters: map<PeerId, nat>) {
    forall i :: 0 <= i < |s| ==> Counter(s[i]) <= Last(counters, s[i].from)
  }

  /** Of one sender, later acceptances have higher counters. */
  ghost predicate Increasing(s: seq<Arrival>) {
    forall i, j :: 0 <= i < j < |s| && s[i].from == s[j].from ==> Counter(s[i]) < Counter(s[j])
  }

  ghost predicate Rising(s: seq<nat>) {
    forall i, j :: 0 <= i < j < |s| ==> s[i] < s[j]
  }

  ghost predicate SealedBelow(s: seq<nat>, top: int) {
    forall i :: 0 <= i < |s| ==> s[i] <= top
  }

  /** What is kept of an accepted frame: a whole nonce, carrying the sender's prefix. */
  ghost predicate Genuine(s: seq<Arrival>, prefixOf: PeerId -> seq<byte>) {
    forall i :: 0 <= i < |s| ==> Numbered(s[i]) && prefixOf(s[i].from) <= s[i].frame.nonce[..NONCE_PEER_PREFIX_BYTES]
  }

  ghost predicate Inv(l: Link, self: PeerId, prefixOf: PeerId -> seq<byte>) {
    && (forall i :: 0 <= i < |l.checking| ==> Numbered(l.checking[i]))
    && Increasing(l.accepted) && Below(l.accepted, l.counters) && Genuine(l.accepted, prefixOf)
    && (forall i :: 0 <= i < |l.opening| ==> l.opening[i] in l.accepted)
    && (forall i :: 0 <= i < |l.delivered| ==> l.delivered[i] in l.accepted)
    && Distinct(l.opening) && Distinct(l.delivered) && Apart(l.opening, l.delivered)
    && Rising(l.sealed) && SealedBelow(l.sealed, Last(l.counters, self))
  }

  lemma AcceptedMore(s: seq<Arrival>, counters: map<PeerId, nat>, a: Arrival)
    requires Increasing(s) && Below(s, counters) && Counter(a) > Last(counters, a.from)
    ensures Increasing(s + [a]) && Below(s + [a], counters[a.from := Counter(a)])
    ensures forall i :: 0 <= i < |s| ==> !SameKey(s[i], a)
  {
  }

  lemma KeptBySubset(s: seq<Arrival>, accepted: seq<Arrival>, a: Arrival)
    requires forall i :: 0 <= i < |s| ==> s[i] in accepted
    requires forall i :: 0 <= i < |accepted| ==> !SameKey(accepted[i], a)
    ensures forall i :: 0 <= i < |s| ==> !SameKey(s[i], a) && s[i] in accepted + [a]
  {
  }

  lemma RemoveKeeps(s: seq<Arrival>, t: seq<Arrival>, accepted: seq<Arrival>, k: nat)
    requires k < |s| && Distinct(s) && Apart(s, t) && forall i :: 0 <= i < |s| ==> s[i] in accepted
    ensures Distinct(Remove(s, k)) && Apart(Remove(s, k), t)
    ensures forall i :: 0 <= i < |Remove(s, k)| ==> Remove(s, k)[i] in accepted
    ensures Apart(Remove(s, k), t + [s[k]])
  {
    var r := Remove(s, k);
    forall i | 0 <= i < |r| ensures r[i] == s[if i < k then i else i + 1] && r[i] in accepted {
    }
  }

  lemma RemoveIsInside(s: seq<Arrival>, k: nat)
    requires k < |s|
    ensures forall i :: 0 <= i < |Remove(s, k)| ==> Remove(s, k)[i] in s
  {
  }

  lemma CheckKeeps(l: Link, self: PeerId, prefixOf: PeerId -> seq<byte>, k: nat)
    requires Inv(l, self, prefixOf) && k < |l.checking|
    ensures Inv(Check(l, k, prefixOf(l.checking[k].from)), self, prefixOf)
  {
    hide Remove, CounterOf;
    var a := l.checking[k];
    var after := Check(l, k, prefixOf(a.from));
    RemoveIsInside(l.checking, k);
    if after.accepted != l.accepted {
      AcceptedMore(l.accepted, l.counters, a);
      KeptBySubset(l.opening, l.accepted, a);
      KeptBySubset(l.delivered, l.accepted, a);
    }
  }

  lemma OpenedKeeps(l: Link, self: PeerId, prefixOf: PeerId -> seq<byte>, k: nat, good: bool)
    requires Inv(l, self, prefixOf)
    ensures Inv(Opened(l, k, good), self, prefixOf)
  {
    if k < |l.opening| {
      RemoveKeeps(l.opening, l.delivered, l.accepted, k);
    }
  }

  lemma StepKeeps(l: Link, self: PeerId, prefixOf: PeerId -> seq<byte>, e: Event)
    requires Inv(l, self, prefixOf)
    ensures Inv(Step(l, self, prefixOf, e), self, prefixOf)
  {
    match e
    case Sending =>
    case Arriving(from, raw) => AcceptedIff(raw);
    case Checking(k) => if k < |l.checking| { CheckKeeps(l, self, prefixOf, k); }
    case Opening(k, good) => OpenedKeeps(l, self, prefixOf, k, good);
  }

  lemma {:induction false} RunKeeps(l: Link, self: PeerId, prefixOf: PeerId -> seq<byte>, events: seq<Event>)
    requires Inv(l, self, prefixOf)
    ensures Inv(Run(l, self, prefixOf, events), self, prefixOf)
    decreases events
  {
    if events != [] {
      StepKeeps(l, self, prefixOf, events[0]);
      RunKeeps(Step(l, self, prefixOf, events[0]), self, prefixOf, events[1..]);
    }
  }

  ghost predicate KindsKnown(s: seq<Arrival>) {
    forall i :: 0 <= i < |s| ==> s[i].frame.kind == 1 || s[i].frame.kind == 2
  }

  lemma {:induction false} KindsStayKnown(l: Link, self: PeerId, prefixOf: PeerId -> seq<byte>, events: seq<Event>)
    requires KindsKnown(l.delivered)
    ensures KindsKnown(Run(l, self, prefixOf, events).delivered)
    decreases events
  {
    if events != [] {
      KindsStayKnown(Step(l, self, prefixOf, events[0]), self, prefixOf, events[1..]);
    }
  }

  /** Only update frames and awareness frames reach the callbacks. */
  lemma DeliveredKinds(self: PeerId, prefixOf: PeerId -> seq<byte>, events: seq<Event>)
    ensures var delivered := Run(Fresh(), self, prefixOf, events).delivered;
      forall i :: 0 <= i < |delivered| ==> delivered[i].frame.kind in {1, 2}
  {
    KindsStayKnown(Fresh(), self, prefixOf, events);
  }

  // ---- What each asynchronous step decides ----

  /** A message is kept for checking if and only if it holds the announced id and a whole nonce; then as
      the frame it encodes, and otherwise nothing changes. */
  lemma ArrivalIsKeptIff(l: Link, from: PeerId, raw: seq<byte>)
    ensures var t := Arrive(l, from, raw);
      if |raw| >= 3 && |raw| >= 15 + (256 * raw[1] as nat + raw[2] as nat) then
        && |t.checking| == |l.checking| + 1 && t.checking[..|l.checking|] == l.checking
        && t.checking[|l.checking|].from == from && Encoded(t.checking[|l.checking|].frame) == raw
        && t.(checking := l.checking) == l
      else t == l
  {
    AcceptedIff(raw);
    if Parsed(raw).Whole? { EncodeUndoesParse(raw); }
  }

  /** A frame is accepted if and only if its nonce begins with the sender's prefix and its counter is above
      all accepted of the sender; what is not accepted changes nothing but that it waits no more. */
  lemma CheckAcceptsIff(l: Link, k: nat, prefix: seq<byte>)
    requires k < |l.checking| && |l.checking[k].frame.nonce| == 12 && |prefix| == 4
    ensures var t, a := Check(l, k, prefix), l.checking[k];
      && t.checking == l.checking[..k] + l.checking[k + 1..] && t.delivered == l.delivered && t.sealed == l.sealed
      && if a.frame.nonce[..4] == prefix
            && (a.from in l.counters ==> CounterOf(a.frame.nonce) > l.counters[a.from])
         then
           && t.accepted == l.accepted + [a] && t.opening == l.opening + [a]
           && t.counters == l.counters[a.from := CounterOf(a.frame.nonce)]
         else t.accepted == l.accepted && t.opening == l.opening && t.counters == l.counters
  {
    var head := l.checking[k].frame.nonce[..4];
    assert prefix <= head <==> head == prefix;
  }

  /** A frame reaches the callbacks if and only if it opens to something well formed and is an update or
      awareness frame; either way it waits no more, and nothing else changes. */
  lemma OpeningDeliversIff(l: Link, k: nat, good: bool)
    requires k < |l.opening|
    ensures var a := l.opening[k];
      Opened(l, k, good) == l.(
        opening := l.opening[..k] + l.opening[k + 1..],
        delivered := if good && (a.frame.kind == 1 || a.frame.kind == 2) then l.delivered + [a] else l.delivered)
  {
  }

  // ---- Results ----

  /** However frames are dropped, repeated and reordered and however the asynchronous steps
      interleave: the counters accepted of each sender strictly increase, every callback was for an
      accepted frame under its sender's prefix, and no counter of a sender ran callbacks twice. */
  lemma AtMostOnce(self: PeerId, prefixOf: PeerId -> seq<byte>, events: seq<Event>)
    ensures var l := Run(Fresh(), self, prefixOf, events);
      && (forall i :: 0 <= i < |l.accepted| ==> Numbered(l.accepted[i]))
      && (forall i, j :: 0 <= i < j < |l.accepted| && l.accepted[i].from == l.accepted[j].from ==>
            CounterOf(l.accepted[i].frame.nonce) < CounterOf(l.accepted[j].frame.nonce))
      && (forall i :: 0 <= i < |l.delivered| ==> l.delivered[i] in l.accepted)
      && (forall i, j :: 0 <= i < j < |l.delivered| && l.delivered[i].from == l.delivered[j].from ==>
            CounterOf(l.delivered[i].frame.nonce) != CounterOf(l.delivered[j].frame.nonce))
      && forall i :: 0 <= i < |l.delivered| ==>
           prefixOf(l.delivered[i].from) <= l.delivered[i].frame.nonce[..NONCE_PEER_PREFIX_BYTES]
  {
    RunKeeps(Fresh(), self, prefixOf, events);
  }

  lemma SealedRise(l: Link, self: PeerId, prefixOf: PeerId -> seq<byte>)
    requires Inv(l, self, prefixOf)
    ensures Rising(l.sealed)
  {
  }

  /** Two frames of one daemon share a nonce if and only if their counters agree modulo 2^64, in any
      run; the counters themselves always rise. */
  lemma NoncesRepeatIff(self: PeerId, prefixOf: PeerId -> seq<byte>, events: seq<Event>, i: nat, j: nat)
    requires |prefixOf(self)| == NONCE_PEER_PREFIX_BYTES
    requires i < j < |Run(Fresh(), self, prefixOf, events).sealed|
    ensures var sealed := Run(Fresh(), self, prefixOf, events).sealed;
      && sealed[i] < sealed[j]
      && (Nonce(prefixOf(self), sealed[i]) == Nonce(prefixOf(self), sealed[j]) <==>
            sealed[i] % COUNTER_LIMIT == sealed[j] % COUNTER_LIMIT)
  {
    hide Run, Nonce, Inv, Fresh;
    InvAtStart(self, prefixOf);
    RunKeeps(Fresh(), self, prefixOf, events);
    var sealed := Run(Fresh(), self, prefixOf, events).sealed;
    SealedRise(Run(Fresh(), self, prefixOf, events), self, prefixOf);
    NoncesDiffer(prefixOf(self), sealed[i], prefixOf(self), sealed[j]);
  }

  lemma InvAtStart(self: PeerId, prefixOf: PeerId -> seq<byte>)
    ensures Inv(Fresh(), self, prefixOf)
  {
  }

  // ---- Frames under the daemon's own name ----

  /** Every frame that arrives under the daemon's own name carries a counter below `bound`. */
  ghost predicate OwnBelow(events: seq<Event>, self: PeerId, bound: nat) {
    forall i :: 0 <= i < |events| ==> OwnEventBelow(events[i], self, bound)
  }

  predicate OwnEventBelow(e: Event, self: PeerId, bound: nat) {
    e.Arriving? && e.from == self && Parsed(e.raw).Whole? ==> CounterOf(Parsed(e.raw).frame.nonce) < bound
  }

  /** No frame arrives under the daemon's own name. */
  ghost predicate NoOwn(events: seq<Event>, self: PeerId) {
    forall i :: 0 <= i < |events| && events[i].Arriving? ==> events[i].from != self
  }

  function Sendings(events: seq<Event>): nat {
    if events == [] then 0 else (if events[0].Sending? then 1 else 0) + Sendings(events[1..])
  }

  /** The daemon's own counter runs ahead of the frames it has sealed by at most `bound`. */
  ghost predicate Within(l: Link, self: PeerId, bound: nat) {
    && Last(l.counters, self) < bound + |l.sealed|
    && (forall i :: 0 <= i < |l.sealed| ==> l.sealed[i] <= bound + i)
    && (forall i :: 0 <= i < |l.checking| ==> l.checking[i].from == self ==> Counter(l.checking[i]) < bound)
  }

  lemma StepWithin(l: Link, self: PeerId, prefixOf: PeerId -> seq<byte>, e: Event, bound: nat)
    requires Within(l, self, bound) && OwnEventBelow(e, self, bound)
    ensures Within(Step(l, self, prefixOf, e), self, bound)
    ensures |Step(l, self, prefixOf, e).sealed| == |l.sealed| + if e.Sending? then 1 else 0
  {
    if e.Checking? && e.k < |l.checking| {
      hide Remove, CounterOf;
      RemoveIsInside(l.checking, e.k);
    }
  }

  lemma {:induction false} RunWithin(l: Link, self: PeerId, prefixOf: PeerId -> seq<byte>,
                                     events: seq<Event>, bound: nat)
    requires Within(l, self, bound) && OwnBelow(events, self, bound)
    ensures Within(Run(l, self, prefixOf, events), self, bound)
    ensures |Run(l, self, prefixOf, events).sealed| == |l.sealed| + Sendings(events)
    decreases events
  {
    if events != [] {
      assert forall i :: 0 <= i < |events[1..]| ==> events[1..][i] == events[i + 1];
      StepWithin(l, self, prefixOf, events[0], bound);
      RunWithin(Step(l, self, prefixOf, events[0]), self, prefixOf, events[1..], bound);
    }
  }

  lemma {:induction false} RisesFromZero(s: seq<nat>, i: nat)
    requires Rising(s) && i < |s|
    ensures i <= s[i]
  {
    if i > 0 {
      RisesFromZero(s, i - 1);
      assert s[i - 1] < s[i];
    }
  }

  /** The counters of a run: one for each frame sent, the i-th at least i and at most `bound` ahead. */
  lemma SealedWithin(self: PeerId, prefixOf: PeerId -> seq<byte>, events: seq<Event>, bound: nat)
    requires OwnBelow(events, self, bound)
    ensures var sealed := Run(Fresh(), self, prefixOf, events).sealed;
      && |sealed| == Sendings(events) && Rising(sealed)
      && forall i :: 0 <= i < |sealed| ==> i <= sealed[i] <= bound + i
  {
    hide Run, Inv;
    InvAtStart(self, prefixOf);
    RunKeeps(Fresh(), self, prefixOf, events);
    SealedRise(Run(Fresh(), self, prefixOf, events), self, prefixOf);
    RunWithin(Fresh(), self, prefixOf, events, bound);
    var sealed := Run(Fresh(), self, prefixOf, events).sealed;
    forall i | 0 <= i < |sealed| ensures i <= sealed[i] {
      RisesFromZero(sealed, i);
    }
  }

  ghost predicate NoncesDistinct(prefix: seq<byte>, sealed: seq<nat>) {
    forall i, j :: 0 <= i < j < |sealed| ==> Nonce(prefix, sealed[i]) != Nonce(prefix, sealed[j])
  }

  /** Nonces are unique when the counters that arrive under the daemon's own name and the number of
      frames it sends leave room below 2^64, whatever else arrives and however steps interleave. */
  lemma NoncesUnique(self: PeerId, prefixOf: PeerId -> seq<byte>, events: seq<Event>, bound: nat)
    requires |prefixOf(self)| == NONCE_PEER_PREFIX_BYTES
    requires OwnBelow(events, self, bound) && bound + Sendings(events) <= COUNTER_LIMIT
    ensures NoncesDistinct(prefixOf(self), Run(Fresh(), self, prefixOf, events).sealed)
  {
    hide Run, Nonce, OwnBelow;
    SealedWithin(self, prefixOf, events, bound);
    var sealed := Run(Fresh(), self, prefixOf, events).sealed;
    forall i, j | 0 <= i < j < |sealed|
      ensures Nonce(prefixOf(self), sealed[i]) != Nonce(prefixOf(self), sealed[j])
    {
      SmallCountersDiffer(prefixOf(self), sealed[i], sealed[j]);
    }
  }

  /** Without frames under its own name a daemon numbers its frames 0, 1, 2 and so on, and its nonces
      are unique if and only if it sends at most 2^64 frames. */
  lemma NoncesUniqueIff(self: PeerId, prefixOf: PeerId -> seq<byte>, events: seq<Event>)
    requires |prefixOf(self)| == NONCE_PEER_PREFIX_BYTES && NoOwn(events, self)
    ensures var sealed := Run(Fresh(), self, prefixOf, events).sealed;
      && |sealed| == Sendings(events)
      && (forall i :: 0 <= i < |sealed| ==> sealed[i] == i)
      && (NoncesDistinct(prefixOf(self), sealed) <==> Sendings(events) <= COUNTER_LIMIT)
  {
    hide Run, Nonce;
    assert OwnBelow(events, self, 0);
    SealedWithin(self, prefixOf, events, 0);
    var sealed := Run(Fresh(), self, prefixOf, events).sealed;
    if Sendings(events) <= COUNTER_LIMIT {
      NoncesUnique(self, prefixOf, events, 0);
    } else {
      NoncesDiffer(prefixOf(self), sealed[0], prefixOf(self), sealed[COUNTER_LIMIT]);
    }
  }

  /** And with them two frames are enough: sending and receiving share one table of counters, which
      is written before decryption. A frame under the daemon's own name and prefix with the highest
      counter makes the next nonce wrap around to the first. */
  lemma OwnFrameRepeatsNonce(self: PeerId, prefixOf: PeerId -> seq<byte>)
    requires |prefixOf(self)| == NONCE_PEER_PREFIX_BYTES
    ensures var echo := Frame(FRAME_TYPE_YJS_UPDATE, [], Nonce(prefixOf(self), COUNTER_LIMIT - 1), []);
      var sealed := Run(Fresh(), self, prefixOf, [Sending, Arriving(self, Encoded(echo)), Checking(0), Sending]).sealed;
      sealed == [0, COUNTER_LIMIT] && !NoncesDistinct(prefixOf(self), sealed)
  {
    hide Arrive, Check, Encoded, Nonce, Parsed, CounterOf, Run;
    var echo := Frame(FRAME_TYPE_YJS_UPDATE, [], Nonce(prefixOf(self), COUNTER_LIMIT - 1), []);
    var sent := Send(Fresh(), self);
    var arrived := sent.(checking := [Arrival(self, echo)]);
    EchoArrives(sent, self, echo);
    assert [] + [Arrival(self, echo)] == [Arrival(self, echo)];
    EchoIsAccepted(self, prefixOf(self), echo);
    RunFour(Fresh(), self, prefixOf, Sending, Arriving(self, Encoded(echo)), Checking(0), Sending);
    NoncesDiffer(prefixOf(self), 0, prefixOf(self), COUNTER_LIMIT);
    WrappedTwice(prefixOf(self), [0] + [COUNTER_LIMIT]);
  }

  lemma WrappedTwice(prefix: seq<byte>, sealed: seq<nat>)
    requires |sealed| == 2 && Nonce(prefix, sealed[0]) == Nonce(prefix, sealed[1])
    ensures !NoncesDistinct(prefix, sealed)
  {
  }

  lemma RunFour(l: Link, self: PeerId, prefixOf: PeerId -> seq<byte>, a: Event, b: Event, c: Event, d: Event)
    ensures Run(l, self, prefixOf, [a, b, c, d]) ==
      Step(Step(Step(Step(l, self, prefixOf, a), self, prefixOf, b), self, prefixOf, c), self, prefixOf, d)
  {
    hide Step, Run;
    assert [a, b, c, d][1..] == [b, c, d] && [b, c, d][1..] == [c, d] && [c, d][1..] == [d] && [d][1..] == [];
    var k := Step(l, self, prefixOf, a);
    var m := Step(k, self, prefixOf, b);
    RunFirst(l, self, prefixOf, [a, b, c, d]);
    RunFirst(k, self, prefixOf, [b, c, d]);
    RunFirst(m, self, prefixOf, [c, d]);
    RunFirst(Step(m, self, prefixOf, c), self, prefixOf, [d]);
  }

  lemma RunFirst(l: Link, self: PeerId, prefixOf: PeerId -> seq<byte>, events: seq<Event>)
    requires events != []
    ensures Run(l, self, prefixOf, events) == Run(Step(l, self, prefixOf, events[0]), self, prefixOf, events[1..])
    ensures Run(l, self, prefixOf, []) == l
    ensures events[1..] == [] ==> Run(l, self, prefixOf, events) == Step(l, self, prefixOf, events[0])
  {
  }

  lemma EchoArrives(l: Link, from: PeerId, echo: Frame)
    requires |echo.nonce| == NONCE_TOTAL_BYTES && |echo.fileId| < ID_LIMIT
    ensures Arrive(l, from, Encoded(echo)) == l.(checking := l.checking + [Arrival(from, echo)])
  {
    ParseUndoesEncodeIff(echo);
    AcceptedIff(Encoded(echo));
  }

  lemma EchoIsAccepted(self: PeerId, prefix: seq<byte>, echo: Frame)
    requires |prefix| == NONCE_PEER_PREFIX_BYTES && echo.nonce == Nonce(prefix, COUNTER_LIMIT - 1)
    ensures var checked := Check(Send(Fresh(), self).(checking := [Arrival(self, echo)]), 0, prefix);
      checked.counters == map[self := COUNTER_LIMIT - 1] && checked.sealed == [0]
  {
    NonceRoundTrip(prefix, COUNTER_LIMIT - 1);
  }

  /** Two daemons with different prefixes never share a nonce, whatever their counters. */
  lemma NoncesApart(p: PeerId, q: PeerId, prefixOf: PeerId -> seq<byte>, c: nat, d: nat)
    requires |prefixOf(p)| == |prefixOf(q)| == NONCE_PEER_PREFIX_BYTES && prefixOf(p) != prefixOf(q)
    ensures Nonce(prefixOf(p), c) != Nonce(prefixOf(q), d)
  {
    NoncesDiffer(prefixOf(p), c, prefixOf(q), d);
  }

  /** A frame in order is not lost: a frame sealed with a counter above all accepted so far passes
      the checks and is handed on once its decryption succeeds. */
  lemma InOrderIsDelivered(l: Link, prefixOf: PeerId -> seq<byte>, from: PeerId, f: Frame, counter: nat)
    requires |prefixOf(from)| == NONCE_PEER_PREFIX_BYTES && |f.fileId| < ID_LIMIT && (f.kind == 1 || f.kind == 2)
    requires f.nonce == Nonce(prefixOf(from), counter) && Last(l.counters, from) < counter < COUNTER_LIMIT
    ensures var arrived := Arrive(l, from, Encoded(f));
      var checked := Check(arrived, |l.checking|, prefixOf(from));
      var done := Opened(checked, |l.opening|, true);
      && done.delivered == l.delivered + [Arrival(from, f)] && done.counters == l.counters[from := counter]
      && done.checking == l.checking && done.opening == l.opening
  {
    ParseUndoesEncodeIff(f);
    AcceptedIff(Encoded(f));
    NonceRoundTrip(prefixOf(from), counter);
  }

  // ---- The transport's own steps ----

  /** The receiving and sending half of the transport while it holds its key. */
  class FrameLink {
    const self: PeerId
    const nonceCounter: NonceCounter
    var checking: seq<Arrival>
    var opening: seq<Arrival>
    var accepted: seq<Arrival>
    var delivered: seq<Arrival>
    var sealed: seq<nat>

    ghost function State(): Link
      reads this, nonceCounter
    {
      Link(nonceCounter.counters, checking, opening, accepted, delivered, sealed)
    }

    /** Frames that wait to be checked have whole nonces. */
    ghost predicate Valid()
      reads this
    {
      forall i :: 0 <= i < |checking| ==> Numbered(checking[i])
    }

    constructor (self: PeerId)
      ensures Valid() && fresh(nonceCounter) && this.self == self && State() == Fresh()
    {
      this.self := self;
      nonceCounter := new NonceCounter();
      checking, opening, accepted, delivered, sealed := [], [], [], [], [];
    }

    /** Takes the next counter; encryption and sending follow, each under its own nonce. */
    method SendUpdate(kind: byte, fileId: seq<byte>, ciphertext: seq<byte>, prefix: seq<byte>)
      returns (encoded: array<byte>)
      requires Valid() && |prefix| == NONCE_PEER_PREFIX_BYTES
      modifies this, nonceCounter
      ensures Valid() && State() == Send(old(State()), self)
      ensures encoded[..] == Encoded(Frame(kind, fileId, Nonce(prefix, sealed[|sealed| - 1]), ciphertext))
    {
      var counter := nonceCounter.Increment(self);
      sealed := sealed + [counter];
      var nonce := BuildNonce(prefix, counter);
      encoded := EncodeFrame(kind, fileId, nonce[..], ciphertext);
    }

    method HandleRelayMessage(from: PeerId, raw: array<byte>)
      requires Valid()
      modifies this
      ensures Valid() && State() == Arrive(old(State()), from, raw[..])
    {
      AcceptedIff(raw[..]);
      if raw.Length < MIN_FRAME_SIZE { return; }
      var decoded := DecodeFrame(raw);
      if decoded.Whole? {
        checking := checking + [Arrival(from, decoded.frame)];
      }
    }

    method PrefixKnown(k: nat, prefix: seq<byte>)
      requires Valid() && k < |checking|
      modifies this, nonceCounter
      ensures Valid() && State() == Check(old(State()), k, prefix)
    {
      var a := checking[k];
      checking := Remove(checking, k);
      if !(prefix <= a.frame.nonce[..NONCE_PEER_PREFIX_BYTES]) { return; }
      var nonce := new byte[NONCE_TOTAL_BYTES](i requires 0 <= i < |a.frame.nonce| => a.frame.nonce[i]);
      assert nonce[..] == a.frame.nonce;
      var counter := ExtractCounter(nonce);
      var ok := nonceCounter.Validate(a.from, counter);
      if !ok { return; }
      opening := opening + [a];
      accepted := accepted + [a];
    }

    method DecryptionEnds(k: nat, good: bool)
      requires Valid() && k < |opening|
      modifies this
      ensures Valid() && State() == Opened(old(State()), k, good)
    {
      var a := opening[k];
      opening := Remove(opening, k);
      if good && Deliverable(a.frame.kind) {
        delivered := delivered + [a];
      }
    }
  }
}
