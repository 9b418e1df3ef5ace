/** The relay's room index and the messages it sends, as values. `S` is the type of sockets. */
module Rooms {
  import opened FiniteSets
  import opened Options

  datatype Info = Info(name: string, agent: bool)

  /** What the relay sends to a client. */
  datatype Message =
    | Joined(peers: map<string, Info>)
    | PeerJoined(id: string, info: Info)
    | PeerLeft(id: string)
    | Relayed(sender: string, to: string, data: string)
    | Failed(code: Code)

  datatype Code = AuthFailed | PeerIdTaken | RoomFull | PeerNotFound

  /** A socket's context, the joins it has completed, and everything sent to it so far. */
  datatype Ctx = Ctx(roomId: Option<string>, peerId: string, info: Info, joins: nat, sent: seq<Message>)

  datatype Room<S> = Room(secretHash: string, peers: map<string, S>, lastActivityAt: int)

  datatype Limits = Limits(maxPeersPerRoom: nat, maxActiveRooms: nat, idleRoomTtlMs: int)

  datatype Net<S> = Net(ctx: map<S, Ctx>, rooms: map<string, Room<S>>)

  // ---- The client's view of its room ----

  /** What a client does to its peer map on one message. */
  function Handle(self: string, view: map<string, Info>, m: Message): map<string, Info> {
    match m
    case Joined(peers) => view + map id | id in peers && id != self :: peers[id]
    case PeerJoined(id, info) => if id == self then view else view[id := info]
    case PeerLeft(id) => view - {id}
    case Relayed(_, _, _) => view
    case Failed(_) => view
  }

  function HandleAll(self: string, view: map<string, Info>, ms: seq<Message>): map<string, Info> {
    if ms == [] then view
    else Handle(self, HandleAll(self, view, ms[..|ms| - 1]), ms[|ms| - 1])
  }

  lemma HandleOneMore(self: string, view: map<string, Info>, ms: seq<Message>, m: Message)
    ensures HandleAll(self, view, ms + [m]) == Handle(self, HandleAll(self, view, ms), m)
  {
    assert (ms + [m])[..|ms|] == ms;
  }

  lemma {:induction false} HandleInParts(self: string, view: map<string, Info>, a: seq<Message>, b: seq<Message>)
    ensures HandleAll(self, HandleAll(self, view, a), b) == HandleAll(self, view, a + b)
  {
    if b == [] {
      assert a + b == a;
    } else {
      var n := |b| - 1;
      HandleInParts(self, view, a, b[..n]);
      assert a + b == (a + b[..n]) + [b[n]];
      HandleOneMore(self, view, a + b[..n], b[n]);
    }
  }

  predicate IsNews(m: Message) {
    m.Joined? || m.PeerJoined? || m.PeerLeft?
  }

  lemma {:induction false} NoNewsNoView(self: string, ms: seq<Message>)
    requires forall i :: 0 <= i < |ms| ==> !IsNews(ms[i])
    ensures HandleAll(self, map[], ms) == map[]
  {
    if ms != [] {
      NoNewsNoView(self, ms[..|ms| - 1]);
    }
  }

  // ---- Invariant ----

  /** The recorded room and id of a socket, and the peer map of that room, agree. */
  ghost predicate Indexed<S>(n: Net<S>, s: S)
    requires s in n.ctx
  {
    n.ctx[s].roomId.Some? ==>
      var r := n.ctx[s].roomId.value;
      r in n.rooms && n.ctx[s].peerId in n.rooms[r].peers && n.rooms[r].peers[n.ctx[s].peerId] == s
  }

  ghost predicate Recorded<S>(n: Net<S>, r: string, id: string)
    requires r in n.rooms && id in n.rooms[r].peers
  {
    var s := n.rooms[r].peers[id];
    s in n.ctx && n.ctx[s].roomId == Some(r) && n.ctx[s].peerId == id
  }

  ghost predicate Index<S>(n: Net<S>) {
    && (forall s :: s in n.ctx ==> Indexed(n, s))
    && (forall r, id :: r in n.rooms && id in n.rooms[r].peers ==> Recorded(n, r, id))
  }

  ghost predicate Capped<S>(n: Net<S>, limits: Limits) {
    && |n.rooms| <= limits.maxActiveRooms
    && forall r :: r in n.rooms ==> 0 < |n.rooms[r].peers| <= limits.maxPeersPerRoom
  }

  /** The members of a room, as a client should know them. */
  ghost function Known<S>(n: Net<S>, r: string): map<string, Info> {
    if r in n.rooms then
      map id | id in n.rooms[r].peers && n.rooms[r].peers[id] in n.ctx :: n.ctx[n.rooms[r].peers[id]].info
    else map[]
  }

  ghost function Others<S>(n: Net<S>, r: string, self: string): map<string, Info> {
    Known(n, r) - {self}
  }

  /** A client that joined once, and is in a room, will know exactly the other members once it
      has handled everything sent to it; one that never joined was told nothing. */
  ghost predicate Agrees<S>(n: Net<S>, s: S)
    requires s in n.ctx
  {
    var c := n.ctx[s];
    && (c.joins == 0 ==> c.roomId.None? && forall i :: 0 <= i < |c.sent| ==> !IsNews(c.sent[i]))
    && (c.joins == 1 && c.roomId.Some? ==>
         HandleAll(c.peerId, map[], c.sent) == Others(n, c.roomId.value, c.peerId))
  }

  ghost predicate Inv<S>(n: Net<S>, limits: Limits) {
    && Index(n)
    && Capped(n, limits)
    && forall s :: s in n.ctx ==> Agrees(n, s)
  }

  // ---- Steps ----

  /** Sends one message to each of some sockets. */
  ghost function Post<S>(n: Net<S>, targets: set<S>, m: Message): Net<S> {
    n.(ctx := map s | s in n.ctx :: if s in targets then n.ctx[s].(sent := n.ctx[s].sent + [m]) else n.ctx[s])
  }

  /** `leave`: the socket's entry goes, and an emptied room with it. */
  ghost function Leave<S>(n: Net<S>, s: S): Net<S>
    requires s in n.ctx
  {
    var c := n.ctx[s];
    if c.roomId.None? || c.roomId.value !in n.rooms then n
    else
      var r := c.roomId.value;
      var left := n.rooms[r].peers - {c.peerId};
      Net(n.ctx[s := c.(roomId := None)],
          if left == map[] then n.rooms - {r} else n.rooms[r := n.rooms[r].(peers := left)])
  }

  ghost function Remaining<S>(n: Net<S>, s: S): set<S>
    requires s in n.ctx
  {
    var c := n.ctx[s];
    if c.roomId.None? || c.roomId.value !in n.rooms then {}
    else (n.rooms[c.roomId.value].peers - {c.peerId}).Values
  }

  /** A socket leaves and the rest of its room is told: the close handler, and the first half of a join. */
  ghost function Depart<S>(n: Net<S>, s: S): Net<S>
    requires s in n.ctx
  {
    Post(Leave(n, s), Remaining(n, s), PeerLeft(n.ctx[s].peerId))
  }

  predicate Idle<S>(room: Room<S>, now: int, limits: Limits) {
    now - room.lastActivityAt > limits.idleRoomTtlMs
  }

  /** Some rooms go, and their sockets are in no room any more. Nobody is told. */
  ghost function Drop<S>(n: Net<S>, dropped: set<string>): Net<S> {
    Net(map s | s in n.ctx :: if Evicted(n, s, dropped) then n.ctx[s].(roomId := None) else n.ctx[s],
        n.rooms - dropped)
  }

  ghost predicate Evicted<S>(n: Net<S>, s: S, dropped: set<string>) {
    exists r :: r in dropped && r in n.rooms && s in n.rooms[r].peers.Values
  }

  ghost function IdleRooms<S>(n: Net<S>, now: int, limits: Limits): set<string> {
    set r | r in n.rooms && Idle(n.rooms[r], now, limits)
  }

  /** `cleanupIdleRooms`. */
  ghost function Cleanup<S>(n: Net<S>, now: int, limits: Limits): Net<S> {
    Drop(n, IdleRooms(n, now, limits))
  }

  ghost function Refusal<S>(n: Net<S>, s: S, r: string, hash: string, id: string, limits: Limits): Option<Code> {
    if r in n.rooms then
      if n.rooms[r].secretHash != hash then Some(AuthFailed)
      else if id in n.rooms[r].peers && n.rooms[r].peers[id] != s then Some(PeerIdTaken)
      else if |n.rooms[r].peers| >= limits.maxPeersPerRoom then Some(RoomFull)
      else None
    else if |n.rooms| >= limits.maxActiveRooms then Some(RoomFull)
    else None
  }

  /** The entry made by an admitted join. */
  ghost function Enter<S>(n: Net<S>, s: S, r: string, hash: string, id: string, info: Info, now: int): Net<S>
    requires s in n.ctx
  {
    var room := if r in n.rooms then n.rooms[r] else Room(hash, map[], now);
    Net(n.ctx[s := n.ctx[s].(roomId := Some(r), peerId := id, info := info, joins := n.ctx[s].joins + 1)],
        n.rooms[r := room.(peers := room.peers[id := s], lastActivityAt := now)])
  }

  /** `RoomManager.join`: idle rooms are cleaned up only when a new room is wanted. */
  ghost function Prepare<S>(n: Net<S>, r: string, now: int, limits: Limits): Net<S> {
    if r in n.rooms then n else Cleanup(n, now, limits)
  }

  /** An admitted join with its messages: the list to the newcomer, the news to the others. */
  ghost function Welcome<S>(n: Net<S>, s: S, r: string, hash: string, id: string, info: Info, now: int): Net<S>
    requires s in n.ctx
  {
    var others := if r in n.rooms then n.rooms[r].peers.Values else {};
    Post(Post(Enter(n, s, r, hash, id, info, now), {s}, Joined(Known(n, r))), others, PeerJoined(id, info))
  }

  // ---- Each step keeps the invariant ----

  lemma LeaveIndex<S>(n: Net<S>, s: S)
    requires Index(n) && s in n.ctx
    ensures Index(Leave(n, s)) && Leave(n, s).ctx[s].roomId.None?
  {
    assert Indexed(n, s);
    var t := Leave(n, s);
    forall x | x in t.ctx ensures Indexed(t, x) {
      assert Indexed(n, x);
      if x != s && n.ctx[s].roomId.Some? && n.ctx[x].roomId == n.ctx[s].roomId {
        assert n.ctx[x].peerId in n.rooms[n.ctx[s].roomId.value].peers - {n.ctx[s].peerId};
      }
    }
    forall r, id | r in t.rooms && id in t.rooms[r].peers ensures Recorded(t, r, id) {
      assert Recorded(n, r, id);
    }
  }

  lemma LeaveCaps<S>(n: Net<S>, s: S, limits: Limits)
    requires Index(n) && Capped(n, limits) && s in n.ctx
    ensures Capped(Leave(n, s), limits)
  {
    hide Recorded;
    assert Indexed(n, s);
    var t := Leave(n, s);
    if n.ctx[s].roomId.Some? {
      var r := n.ctx[s].roomId.value;
      var left := n.rooms[r].peers - {n.ctx[s].peerId};
      assert left.Keys == n.rooms[r].peers.Keys - {n.ctx[s].peerId};
      if left == map[] {
        assert t.rooms.Keys == n.rooms.Keys - {r};
      } else {
        assert left.Keys != {};
        assert t.rooms.Keys == n.rooms.Keys;
      }
    }
  }

  /** Sending changes nothing but what was sent. */
  lemma PostKeepsIndex<S>(n: Net<S>, targets: set<S>, m: Message, limits: Limits)
    requires Index(n)
    ensures Index(Post(n, targets, m))
    ensures Capped(n, limits) ==> Capped(Post(n, targets, m), limits)
  {
    var t := Post(n, targets, m);
    forall x | x in t.ctx ensures Indexed(t, x) {
      assert Indexed(n, x);
    }
    forall r, id | r in t.rooms && id in t.rooms[r].peers ensures Recorded(t, r, id) {
      assert Recorded(n, r, id);
    }
  }

  /** A message that is no news leaves every client's view as it is. */
  lemma PostNoNewsAgrees<S>(n: Net<S>, targets: set<S>, m: Message, limits: Limits)
    requires Inv(n, limits) && !IsNews(m)
    ensures Inv(Post(n, targets, m), limits)
  {
    hide Index, Capped, Agrees;
    PostKeepsIndex(n, targets, m, limits);
    forall x | x in Post(n, targets, m).ctx ensures Agrees(Post(n, targets, m), x) {
      PostNoNewsView(n, targets, m, x);
    }
  }

  lemma PostNoNewsView<S>(n: Net<S>, targets: set<S>, m: Message, x: S)
    requires x in n.ctx && Agrees(n, x) && !IsNews(m)
    ensures Agrees(Post(n, targets, m), x)
  {
    hide Known;
    HandleOneMore(n.ctx[x].peerId, map[], n.ctx[x].sent, m);
    if n.ctx[x].roomId.Some? { PostKnown(n, targets, m, n.ctx[x].roomId.value); }
  }

  lemma PostKnown<S>(n: Net<S>, targets: set<S>, m: Message, r: string)
    ensures Known(Post(n, targets, m), r) == Known(n, r)
  {
  }

  /** Who is left in the room is exactly who is told. */
  lemma RemainingAre<S>(n: Net<S>, s: S, x: S)
    requires Index(n) && s in n.ctx && x in n.ctx
    ensures x in Remaining(n, s) <==> x != s && n.ctx[s].roomId.Some? && n.ctx[x].roomId == n.ctx[s].roomId
  {
    assert Indexed(n, s) && Indexed(n, x);
    if n.ctx[s].roomId.Some? {
      var r := n.ctx[s].roomId.value;
      var left := n.rooms[r].peers - {n.ctx[s].peerId};
      if x in left.Values {
        var id :| id in left && left[id] == x;
        assert Recorded(n, r, id);
      }
      if n.ctx[x].roomId == Some(r) && x != s {
        assert n.ctx[x].peerId in left && left[n.ctx[x].peerId] == x;
      }
    }
  }

  /** A departure: every remaining member's view loses exactly the one who left. */
  lemma DepartKeeps<S>(n: Net<S>, s: S, limits: Limits)
    requires Inv(n, limits) && s in n.ctx
    ensures Inv(Depart(n, s), limits) && InNoRoom(Depart(n, s), s)
  {
    hide Capped;
    LeaveIndex(n, s);
    LeaveCaps(n, s, limits);
    var m := PeerLeft(n.ctx[s].peerId);
    var t := Depart(n, s);
    PostKeepsIndex(Leave(n, s), Remaining(n, s), m, limits);
    RemainingAre(n, s, s);
    forall x | x in t.ctx ensures Agrees(t, x) {
      DepartAgrees(n, s, x);
    }
  }

  lemma DepartKnown<S>(n: Net<S>, s: S, r: string)
    requires Index(n) && s in n.ctx
    ensures Known(Depart(n, s), r) ==
      if n.ctx[s].roomId == Some(r) then Known(n, r) - {n.ctx[s].peerId} else Known(n, r)
  {
    hide Post, Remaining;
    assert Indexed(n, s);
    PostKnown(Leave(n, s), Remaining(n, s), PeerLeft(n.ctx[s].peerId), r);
    if r in n.rooms {
      forall id | id in n.rooms[r].peers ensures Recorded(n, r, id) {
      }
    }
  }

  /** What a departure sends to whom. */
  lemma DepartSent<S>(n: Net<S>, s: S, x: S)
    requires Index(n) && s in n.ctx && x in n.ctx
    ensures x in Depart(n, s).ctx && Depart(n, s).ctx[s] == n.ctx[s].(roomId := None)
    ensures x != s && n.ctx[s].roomId.Some? && n.ctx[x].roomId == n.ctx[s].roomId ==>
      Depart(n, s).ctx[x] == n.ctx[x].(sent := n.ctx[x].sent + [PeerLeft(n.ctx[s].peerId)])
    ensures x != s && !(n.ctx[s].roomId.Some? && n.ctx[x].roomId == n.ctx[s].roomId) ==> Depart(n, s).ctx[x] == n.ctx[x]
  {
    hide Remaining, Recorded;
    assert Indexed(n, s);
    RemainingAre(n, s, x);
    RemainingAre(n, s, s);
  }

  lemma DepartAgrees<S>(n: Net<S>, s: S, x: S)
    requires Index(n) && s in n.ctx && x in n.ctx && Agrees(n, x)
    ensures x in Depart(n, s).ctx && Agrees(Depart(n, s), x)
  {
    hide Index, Known, Depart;
    var c := n.ctx[x];
    DepartSent(n, s, x);
    HandleOneMore(c.peerId, map[], c.sent, PeerLeft(n.ctx[s].peerId));
    if c.roomId.Some? {
      DepartKnown(n, s, c.roomId.value);
      var known, gone := Known(n, c.roomId.value), n.ctx[s].peerId;
      assert known - {gone} - {c.peerId} == known - {c.peerId} - {gone};
    }
  }

  // ---- Idle cleanup ----

  /** A socket is evicted exactly when the room it is in is dropped. */
  lemma EvictedAre<S>(n: Net<S>, s: S, dropped: set<string>)
    requires Index(n) && s in n.ctx
    ensures Evicted(n, s, dropped) <==> n.ctx[s].roomId.Some? && n.ctx[s].roomId.value in dropped
  {
    assert Indexed(n, s);
    if Evicted(n, s, dropped) {
      var r :| r in dropped && r in n.rooms && s in n.rooms[r].peers.Values;
      var id :| id in n.rooms[r].peers && n.rooms[r].peers[id] == s;
      assert Recorded(n, r, id);
    }
    if n.ctx[s].roomId.Some? {
      assert n.ctx[s].peerId in n.rooms[n.ctx[s].roomId.value].peers;
    }
  }

  lemma DropIndex<S>(n: Net<S>, dropped: set<string>, limits: Limits)
    requires Index(n)
    ensures Index(Drop(n, dropped))
    ensures Capped(n, limits) ==> Capped(Drop(n, dropped), limits)
  {
    hide Evicted, Capped;
    var t := Drop(n, dropped);
    forall x | x in t.ctx ensures Indexed(t, x) {
      assert Indexed(n, x);
      EvictedAre(n, x, dropped);
    }
    forall r, id | r in t.rooms && id in t.rooms[r].peers ensures Recorded(t, r, id) {
      assert Recorded(n, r, id);
      EvictedAre(n, n.rooms[r].peers[id], dropped);
    }
    DropCaps(n, dropped, limits);
  }

  lemma DropCaps<S>(n: Net<S>, dropped: set<string>, limits: Limits)
    ensures Capped(n, limits) ==> Capped(Drop(n, dropped), limits)
  {
    assert (n.rooms - dropped).Keys <= n.rooms.Keys;
    SubsetSize((n.rooms - dropped).Keys, n.rooms.Keys);
  }

  lemma DropKeeps<S>(n: Net<S>, dropped: set<string>, limits: Limits)
    requires Inv(n, limits)
    ensures Inv(Drop(n, dropped), limits)
  {
    hide Capped, Evicted;
    DropIndex(n, dropped, limits);
    var t := Drop(n, dropped);
    forall x | x in t.ctx ensures Agrees(t, x) {
      assert Agrees(n, x);
      EvictedAre(n, x, dropped);
      if t.ctx[x].roomId.Some? {
        assert Known(t, n.ctx[x].roomId.value) == Known(n, n.ctx[x].roomId.value);
      }
    }
  }

  lemma DropInTurn<S>(n: Net<S>, a: set<string>, r: string)
    requires r in n.rooms && r !in a
    ensures Drop(Drop(n, a), {r}) == Drop(n, a + {r})
  {
    var t, u := Drop(Drop(n, a), {r}), Drop(n, a + {r});
    assert n.rooms - a - {r} == n.rooms - (a + {r});
    assert r in n.rooms - a && (n.rooms - a)[r] == n.rooms[r];
    forall s | s in n.ctx ensures t.ctx[s] == u.ctx[s] {
      assert Evicted(n, s, a + {r}) <==> Evicted(n, s, a) || s in n.rooms[r].peers.Values;
      assert Evicted(Drop(n, a), s, {r}) <==> s in n.rooms[r].peers.Values;
    }
    assert t.ctx == u.ctx;
  }

  // ---- Joining ----

  predicate InNoRoom<S>(n: Net<S>, s: S) {
    s in n.ctx && n.ctx[s].roomId.None?
  }

  lemma EnterIndex<S>(n: Net<S>, s: S, r: string, hash: string, id: string, info: Info, now: int, limits: Limits)
    requires Index(n) && InNoRoom(n, s)
    requires Refusal(n, s, r, hash, id, limits).None? && 0 < limits.maxPeersPerRoom
    ensures Index(Enter(n, s, r, hash, id, info, now))
    ensures r in n.rooms ==> id !in n.rooms[r].peers
    ensures Capped(n, limits) ==> Capped(Enter(n, s, r, hash, id, info, now), limits)
  {
    var t := Enter(n, s, r, hash, id, info, now);
    forall y | r in n.rooms && y in n.rooms[r].peers ensures y != id {
      assert Recorded(n, r, y);
    }
    forall x | x in t.ctx ensures Indexed(t, x) {
      assert Indexed(n, x);
    }
    forall q, y | q in t.rooms && y in t.rooms[q].peers ensures Recorded(t, q, y) {
      if q in n.rooms && y in n.rooms[q].peers {
        assert Recorded(n, q, y);
      }
    }
    EnterCaps(n, s, r, hash, id, info, now, limits);
  }

  lemma EnterCaps<S>(n: Net<S>, s: S, r: string, hash: string, id: string, info: Info, now: int, limits: Limits)
    requires s in n.ctx && (r in n.rooms ==> id !in n.rooms[r].peers)
    requires Refusal(n, s, r, hash, id, limits).None? && 0 < limits.maxPeersPerRoom
    ensures Capped(n, limits) ==> Capped(Enter(n, s, r, hash, id, info, now), limits)
  {
    var was := if r in n.rooms then n.rooms[r].peers else map[];
    var room := if r in n.rooms then n.rooms[r] else Room(hash, map[], now);
    MapGrows(was, id, s);
    if r !in n.rooms { MapGrows(n.rooms, r, room.(peers := was[id := s], lastActivityAt := now)); }
    assert r in n.rooms ==> n.rooms[r := room.(peers := was[id := s], lastActivityAt := now)].Keys == n.rooms.Keys;
  }

  lemma MapGrows<K, V>(m: map<K, V>, k: K, v: V)
    requires k !in m
    ensures |m[k := v]| == |m| + 1
  {
    assert m[k := v].Keys == m.Keys + {k};
  }

  /** Whom the news of a join reaches: the members the room had before. */
  lemma MembersAre<S>(n: Net<S>, r: string, x: S)
    requires Index(n) && r in n.rooms && x in n.ctx
    ensures x in n.rooms[r].peers.Values <==> n.ctx[x].roomId == Some(r)
  {
    assert Indexed(n, x);
    if x in n.rooms[r].peers.Values {
      var id :| id in n.rooms[r].peers && n.rooms[r].peers[id] == x;
      assert Recorded(n, r, id);
    }
  }

  lemma EnterKnown<S>(n: Net<S>, s: S, r: string, hash: string, id: string, info: Info, now: int, q: string)
    requires Index(n) && InNoRoom(n, s) && (r in n.rooms ==> id !in n.rooms[r].peers)
    ensures Known(Enter(n, s, r, hash, id, info, now), q) == if q == r then Known(n, r)[id := info] else Known(n, q)
  {
    if q in n.rooms {
      forall y | y in n.rooms[q].peers ensures Recorded(n, q, y) {
      }
    }
  }

  /** A room's secret is that of its first member, and is required of everybody who enters later;
      an id is given to one member only. */
  lemma EntryNeedsSecret<S>(n: Net<S>, s: S, r: string, hash: string, id: string, info: Info, now: int, limits: Limits)
    requires s in n.ctx && Refusal(n, s, r, hash, id, limits).None?
    ensures var t := Enter(n, s, r, hash, id, info, now);
      && r in t.rooms && t.rooms[r].secretHash == hash && (r in n.rooms ==> n.rooms[r].secretHash == hash)
      && (r in n.rooms ==> forall y :: y in n.rooms[r].peers && y != id ==>
            y in t.rooms[r].peers && t.rooms[r].peers[y] == n.rooms[r].peers[y])
      && (r in n.rooms && id in n.rooms[r].peers ==> n.rooms[r].peers[id] == s)
      && forall q :: q in n.rooms && q != r ==> q in t.rooms && t.rooms[q] == n.rooms[q]
  {
  }

  /** A join: the newcomer is told of everybody in the room, and everybody of the newcomer. */
  lemma WelcomeKeeps<S>(n: Net<S>, s: S, r: string, hash: string, id: string, info: Info, now: int, limits: Limits)
    requires Inv(n, limits) && InNoRoom(n, s)
    requires Refusal(n, s, r, hash, id, limits).None? && 0 < limits.maxPeersPerRoom
    ensures Inv(Welcome(n, s, r, hash, id, info, now), limits)
  {
    hide Capped, Refusal;
    EnterIndex(n, s, r, hash, id, info, now, limits);
    var e := Enter(n, s, r, hash, id, info, now);
    PostKeepsIndex(e, {s}, Joined(Known(n, r)), limits);
    var others := if r in n.rooms then n.rooms[r].peers.Values else {};
    PostKeepsIndex(Post(e, {s}, Joined(Known(n, r))), others, PeerJoined(id, info), limits);
    var t := Welcome(n, s, r, hash, id, info, now);
    forall x | x in t.ctx ensures Agrees(t, x) {
      WelcomeAgrees(n, s, r, hash, id, info, now, x);
    }
  }

  lemma WelcomeKnown<S>(n: Net<S>, s: S, r: string, hash: string, id: string, info: Info, now: int, q: string)
    requires Index(n) && InNoRoom(n, s) && (r in n.rooms ==> id !in n.rooms[r].peers)
    ensures Known(Welcome(n, s, r, hash, id, info, now), q) == if q == r then Known(n, r)[id := info] else Known(n, q)
  {
    hide Known;
    var e := Enter(n, s, r, hash, id, info, now);
    var others := if r in n.rooms then n.rooms[r].peers.Values else {};
    EnterKnown(n, s, r, hash, id, info, now, q);
    PostKnown(e, {s}, Joined(Known(n, r)), q);
    PostKnown(Post(e, {s}, Joined(Known(n, r))), others, PeerJoined(id, info), q);
  }

  /** What a join sends to whom. */
  lemma WelcomeSent<S>(n: Net<S>, s: S, r: string, hash: string, id: string, info: Info, now: int, x: S)
    requires Index(n) && InNoRoom(n, s) && x in n.ctx
    ensures x in Welcome(n, s, r, hash, id, info, now).ctx
    ensures var told := n.ctx[x].(sent := n.ctx[x].sent + [PeerJoined(id, info)]);
            var after := Welcome(n, s, r, hash, id, info, now).ctx[x];
            x != s ==> after == if n.ctx[x].roomId == Some(r) then told else n.ctx[x]
    ensures Welcome(n, s, r, hash, id, info, now).ctx[s] ==
      Ctx(Some(r), id, info, n.ctx[s].joins + 1, n.ctx[s].sent + [Joined(Known(n, r))])
  {
    hide Known;
    assert Indexed(n, x) && Indexed(n, s);
    if r in n.rooms { MembersAre(n, r, x); MembersAre(n, r, s); }
  }

  lemma WelcomeAgrees<S>(n: Net<S>, s: S, r: string, hash: string, id: string, info: Info, now: int, x: S)
    requires Index(n) && InNoRoom(n, s) && x in n.ctx && Agrees(n, x)
    requires r in n.rooms ==> id !in n.rooms[r].peers
    ensures x in Welcome(n, s, r, hash, id, info, now).ctx && Agrees(Welcome(n, s, r, hash, id, info, now), x)
  {
    hide Index, Known, Welcome;
    var c := n.ctx[x];
    WelcomeSent(n, s, r, hash, id, info, now, x);
    if x == s {
      WelcomeKnown(n, s, r, hash, id, info, now, r);
      HandleOneMore(id, map[], c.sent, Joined(Known(n, r)));
      if c.joins == 0 { NoNewsNoView(id, c.sent); }
      ListedWithoutSelf(id, Known(n, r), info);
    } else if c.roomId.Some? {
      WelcomeKnown(n, s, r, hash, id, info, now, c.roomId.value);
      HandleOneMore(c.peerId, map[], c.sent, PeerJoined(id, info));
      var others := Known(n, r) - {c.peerId};
      assert Known(n, r)[id := info] - {c.peerId} == if id == c.peerId then others else others[id := info];
    }
  }

  lemma ListedWithoutSelf(id: string, known: map<string, Info>, info: Info)
    ensures Handle(id, map[], Joined(known)) == known[id := info] - {id}
  {
  }

  // ---- Relaying ----

  ghost function OthersThan<S>(n: Net<S>, peers: map<string, S>, self: string): map<string, S> {
    map id | id in peers && peers[id] in n.ctx && n.ctx[peers[id]].peerId != self :: peers[id]
  }

  /** `relayData`: to everybody in the room with another id, or to one named member. */
  ghost function RelayTargets<S>(n: Net<S>, s: S, to: string): Option<set<S>>
    requires s in n.ctx
  {
    var c := n.ctx[s];
    if c.roomId.None? then None
    else
      var peers := if c.roomId.value in n.rooms then n.rooms[c.roomId.value].peers else map[];
      if to == "*" then Some(OthersThan(n, peers, c.peerId).Values)
      else if to in peers then Some({peers[to]})
      else None
  }

  /** A broadcast goes to every other member of the sender's room and to nobody else. */
  lemma BroadcastReachesOthers<S>(n: Net<S>, s: S, x: S)
    requires Index(n) && s in n.ctx && x in n.ctx && n.ctx[s].roomId.Some?
    ensures RelayTargets(n, s, "*").Some?
    ensures x in RelayTargets(n, s, "*").value <==> x != s && n.ctx[x].roomId == n.ctx[s].roomId
  {
    assert Indexed(n, s) && Indexed(n, x);
    var r := n.ctx[s].roomId.value;
    var peers := n.rooms[r].peers;
    forall id | id in peers ensures Recorded(n, r, id) {
    }
    if n.ctx[x].roomId == Some(r) && x != s {
      assert peers[n.ctx[x].peerId] == x;
      assert n.ctx[x].peerId != n.ctx[s].peerId;
      assert n.ctx[x].peerId in OthersThan(n, peers, n.ctx[s].peerId);
    }
  }

  /** A message to one peer goes to the member of the sender's room with that id, or to nobody. */
  lemma UnicastReachesNamed<S>(n: Net<S>, s: S, to: string, x: S)
    requires Index(n) && s in n.ctx && x in n.ctx && n.ctx[s].roomId.Some? && to != "*"
    ensures var targets := RelayTargets(n, s, to);
      (targets.Some? && x in targets.value) <==> n.ctx[x].roomId == n.ctx[s].roomId && n.ctx[x].peerId == to
  {
    assert Indexed(n, s) && Indexed(n, x);
    var r := n.ctx[s].roomId.value;
    if to in n.rooms[r].peers { assert Recorded(n, r, to); }
  }

  ghost function Relay<S>(n: Net<S>, s: S, to: string, data: string): Net<S>
    requires s in n.ctx
  {
    var targets := RelayTargets(n, s, to);
    if targets.None? then Post(n, {s}, Failed(PeerNotFound))
    else Post(n, targets.value, Relayed(n.ctx[s].peerId, to, data))
  }

  /** What a broadcast does to every channel: one message more for each other member of the sender's
      room, nothing for anybody else. */
  lemma BroadcastDelivers<S>(n: Net<S>, s: S, data: string, now: int, x: S)
    requires Index(n) && s in n.ctx && x in n.ctx && n.ctx[s].roomId.Some?
    ensures x in HandleRelay(n, s, "*", data, now).ctx
    ensures var m := Relayed(n.ctx[s].peerId, "*", data);
      HandleRelay(n, s, "*", data, now).ctx[x].sent ==
        if x != s && n.ctx[x].roomId == n.ctx[s].roomId then n.ctx[x].sent + [m] else n.ctx[x].sent
  {
    BroadcastReachesOthers(n, s, x);
  }

  /** No socket is in two rooms, or in one room under two ids. */
  lemma OneRoomEach<S>(n: Net<S>, r: string, id: string, q: string, other: string)
    requires Index(n) && r in n.rooms && id in n.rooms[r].peers && q in n.rooms && other in n.rooms[q].peers
    requires n.rooms[r].peers[id] == n.rooms[q].peers[other]
    ensures r == q && id == other
  {
    assert Recorded(n, r, id) && Recorded(n, q, other);
  }

  ghost function Touch<S>(n: Net<S>, r: string, now: int): Net<S> {
    if r in n.rooms then n.(rooms := n.rooms[r := n.rooms[r].(lastActivityAt := now)]) else n
  }

  lemma TouchKeeps<S>(n: Net<S>, r: string, now: int, limits: Limits)
    requires Inv(n, limits)
    ensures Inv(Touch(n, r, now), limits)
  {
    hide Capped;
    var t := Touch(n, r, now);
    TouchCaps(n, r, now, limits);
    forall x | x in t.ctx ensures Indexed(t, x) {
      assert Indexed(n, x);
    }
    forall x | x in t.ctx ensures Agrees(t, x) {
      assert Agrees(n, x);
      if n.ctx[x].roomId.Some? {
        assert Known(t, n.ctx[x].roomId.value) == Known(n, n.ctx[x].roomId.value);
      }
    }
    forall q, id | q in t.rooms && id in t.rooms[q].peers ensures Recorded(t, q, id) {
      assert Recorded(n, q, id);
    }
  }

  lemma TouchCaps<S>(n: Net<S>, r: string, now: int, limits: Limits)
    ensures Capped(n, limits) ==> Capped(Touch(n, r, now), limits)
  {
    assert Touch(n, r, now).rooms.Keys == n.rooms.Keys;
  }

  ghost function HandleRelay<S>(n: Net<S>, s: S, to: string, data: string, now: int): Net<S>
    requires s in n.ctx
  {
    var t := Relay(n, s, to, data);
    if n.ctx[s].roomId.Some? then Touch(t, n.ctx[s].roomId.value, now) else t
  }

  lemma HandleRelayKeeps<S>(n: Net<S>, s: S, to: string, data: string, now: int, limits: Limits)
    requires Inv(n, limits) && s in n.ctx
    ensures Inv(HandleRelay(n, s, to, data, now), limits)
  {
    hide Inv;
    var targets := RelayTargets(n, s, to);
    if targets.None? {
      PostNoNewsAgrees(n, {s}, Failed(PeerNotFound), limits);
    } else {
      PostNoNewsAgrees(n, targets.value, Relayed(n.ctx[s].peerId, to, data), limits);
    }
    if n.ctx[s].roomId.Some? {
      TouchKeeps(Relay(n, s, to, data), n.ctx[s].roomId.value, now, limits);
    }
  }

  /** A whole join message: leave, clean up if a new room is wanted, then enter or be refused. */
  ghost function HandleJoin<S>(n: Net<S>, s: S, r: string, hash: string, id: string, info: Info,
                               now: int, limits: Limits): Net<S>
    requires s in n.ctx
  {
    var d := Prepare(Depart(n, s), r, now, limits);
    var refusal := Refusal(d, s, r, hash, id, limits);
    if refusal.Some? then Post(d, {s}, Failed(refusal.value)) else Welcome(d, s, r, hash, id, info, now)
  }

  lemma HandleJoinKeeps<S>(n: Net<S>, s: S, r: string, hash: string, id: string, info: Info, now: int, limits: Limits)
    requires Inv(n, limits) && s in n.ctx && 0 < limits.maxPeersPerRoom
    ensures Inv(HandleJoin(n, s, r, hash, id, info, now, limits), limits)
  {
    hide Inv, Depart, Welcome, Refusal;
    DepartKeeps(n, s, limits);
    var d := Depart(n, s);
    DropKeeps(d, IdleRooms(d, now, limits), limits);
    assert InNoRoom(Drop(d, IdleRooms(d, now, limits)), s);
    var p := Prepare(d, r, now, limits);
    var refusal := Refusal(p, s, r, hash, id, limits);
    if refusal.Some? {
      PostNoNewsAgrees(p, {s}, Failed(refusal.value), limits);
    } else {
      WelcomeKeeps(p, s, r, hash, id, info, now, limits);
    }
  }

  // ---- What a client sees ----

  /** A client that has handled a first part of what was sent to it, in order, and joined once:
      handling the rest turns its present view into exactly the other members of its room. */
  lemma ViewsConverge<S>(n: Net<S>, limits: Limits, s: S, handled: nat)
    requires Inv(n, limits) && s in n.ctx && handled <= |n.ctx[s].sent|
    requires n.ctx[s].joins == 1 && n.ctx[s].roomId.Some?
    ensures var c := n.ctx[s];
      HandleAll(c.peerId, HandleAll(c.peerId, map[], c.sent[..handled]), c.sent[handled..])
        == Others(n, c.roomId.value, c.peerId)
  {
    var c := n.ctx[s];
    assert Agrees(n, s);
    HandleInParts(c.peerId, map[], c.sent[..handled], c.sent[handled..]);
    assert c.sent[..handled] + c.sent[handled..] == c.sent;
  }

  // ---- Facts the server's methods use ----

  lemma PeersDistinct<S>(n: Net<S>, r: string)
    requires Index(n) && r in n.rooms
    ensures n.rooms[r].peers.Values <= n.ctx.Keys
    ensures forall a, b :: a in n.rooms[r].peers && b in n.rooms[r].peers && a != b ==>
      n.rooms[r].peers[a] != n.rooms[r].peers[b]
  {
    forall id | id in n.rooms[r].peers ensures Recorded(n, r, id) {
    }
  }

  lemma PostNobody<S>(n: Net<S>, m: Message)
    ensures Post(n, {}, m) == n
  {
  }

  lemma DropNothing<S>(n: Net<S>)
    ensures Drop(n, {}) == n
  {
    assert n.rooms - {} == n.rooms;
  }

  ghost function Open<S>(n: Net<S>, s: S): Net<S> {
    n.(ctx := n.ctx[s := Ctx(None, "", Info("", false), 0, [])])
  }

  lemma OpenKeeps<S>(n: Net<S>, s: S, limits: Limits)
    requires Inv(n, limits) && s !in n.ctx
    ensures Inv(Open(n, s), limits)
  {
    var t := Open(n, s);
    forall r, id | r in t.rooms && id in t.rooms[r].peers ensures Recorded(t, r, id) {
      assert Recorded(n, r, id);
    }
    forall x | x in t.ctx ensures Indexed(t, x) {
      assert x != s ==> Indexed(n, x);
    }
    forall x | x in t.ctx ensures Agrees(t, x) {
      if x != s {
        assert Agrees(n, x);
        if n.ctx[x].roomId.Some? { OpenKnown(n, s, n.ctx[x].roomId.value); }
      }
    }
  }

  lemma OpenKnown<S>(n: Net<S>, s: S, r: string)
    requires Index(n) && s !in n.ctx
    ensures Known(Open(n, s), r) == Known(n, r)
  {
    if r in n.rooms {
      forall id | id in n.rooms[r].peers ensures Recorded(n, r, id) {
      }
    }
  }

  lemma IndexHolds<S>(n: Net<S>, limits: Limits)
    requires Inv(n, limits)
    ensures Index(n)
  {
  }

  lemma RoomsAfterDrop<S>(n: Net<S>, dropped: set<string>)
    ensures Drop(n, dropped).rooms == n.rooms - dropped
  {
  }

  lemma PrepareKeeps<S>(n: Net<S>, s: S, r: string, now: int, limits: Limits)
    requires Inv(n, limits) && InNoRoom(n, s)
    ensures Inv(Prepare(n, r, now, limits), limits) && InNoRoom(Prepare(n, r, now, limits), s)
  {
    DropKeeps(n, IdleRooms(n, now, limits), limits);
  }

  /** After an admitted entry, everybody in the room but the newcomer is who was there before. */
  lemma EnterFacts<S>(n: Net<S>, s: S, r: string, hash: string, id: string, info: Info, now: int, limits: Limits)
    requires Inv(n, limits) && InNoRoom(n, s)
    requires Refusal(n, s, r, hash, id, limits).None? && 0 < limits.maxPeersPerRoom
    ensures var e := Enter(n, s, r, hash, id, info, now);
      && r in e.rooms && e.rooms[r].peers.Values <= e.ctx.Keys
      && (forall a, b :: a in e.rooms[r].peers && b in e.rooms[r].peers && a != b ==>
            e.rooms[r].peers[a] != e.rooms[r].peers[b])
      && (e.rooms[r].peers - {id}).Values == if r in n.rooms then n.rooms[r].peers.Values else {}
  {
    hide Index, Capped;
    EnterIndex(n, s, r, hash, id, info, now, limits);
    var e := Enter(n, s, r, hash, id, info, now);
    PeersDistinct(e, r);
    assert e.rooms[r].peers - {id} == if r in n.rooms then n.rooms[r].peers else map[];
  }

  lemma OthersAreSome<S>(n: Net<S>, peers: map<string, S>, self: string)
    ensures OthersThan(n, peers, self).Values <= peers.Values
  {
    var others := OthersThan(n, peers, self);
    forall s | s in others.Values ensures s in peers.Values {
      var id :| id in others && others[id] == s;
      assert id in peers;
    }
  }

  lemma FewerPeers<S>(peers: map<string, S>, ids: set<string>)
    ensures (peers - ids).Values <= peers.Values
  {
    forall s | s in (peers - ids).Values ensures s in peers.Values {
      var id :| id in peers - ids && (peers - ids)[id] == s;
      assert id in peers;
    }
  }

  lemma EnteredIs<S>(p: Net<S>, t: Net<S>, s: S, r: string, hash: string, id: string, info: Info, now: int)
    requires s in p.ctx
    requires t.ctx == p.ctx[s := Ctx(Some(r), id, info, p.ctx[s].joins + 1, p.ctx[s].sent)]
    requires var room := if r in p.rooms then p.rooms[r] else Room(hash, map[], now);
      t.rooms == p.rooms[r := room.(peers := room.peers[id := s], lastActivityAt := now)]
    ensures t == Enter(p, s, r, hash, id, info, now)
  {
  }

  // ---- Whole runs ----

  datatype Event<S> =
    | Opens(s: S)
    | Joins(s: S, r: string, hash: string, id: string, info: Info, now: int)
    | Relays(s: S, to: string, data: string, now: int)
    | Closes(s: S)
    | Ticks(now: int)

  ghost predicate Possible<S>(n: Net<S>, e: Event<S>) {
    match e
    case Opens(s) => s !in n.ctx
    case Joins(s, _, _, _, _, _) => s in n.ctx
    case Relays(s, _, _, _) => s in n.ctx
    case Closes(s) => s in n.ctx
    case Ticks(_) => true
  }

  ghost function Next<S>(n: Net<S>, e: Event<S>, limits: Limits): Net<S>
    requires Possible(n, e)
  {
    match e
    case Opens(s) => Open(n, s)
    case Joins(s, r, hash, id, info, now) => HandleJoin(n, s, r, hash, id, info, now, limits)
    case Relays(s, to, data, now) => HandleRelay(n, s, to, data, now)
    case Closes(s) => Depart(n, s)
    case Ticks(now) => Cleanup(n, now, limits)
  }

  ghost predicate IsRun<S>(states: seq<Net<S>>, events: seq<Event<S>>, limits: Limits) {
    && |states| == |events| + 1
    && states[0] == Net(map[], map[])
    && forall i :: 0 <= i < |events| ==>
         Possible(states[i], events[i]) && states[i + 1] == Next(states[i], events[i], limits)
  }

  /** Runs begin with nobody connected, and go on with any event that is possible. */
  lemma RunsGrow<S>(states: seq<Net<S>>, events: seq<Event<S>>, limits: Limits, e: Event<S>)
    ensures IsRun<S>([Net(map[], map[])], [], limits)
    ensures IsRun(states, events, limits) && Possible(states[|states| - 1], e) ==>
      IsRun(states + [Next(states[|states| - 1], e, limits)], events + [e], limits)
  {
    hide Next;
    if IsRun(states, events, limits) && Possible(states[|states| - 1], e) {
      var longer, more := states + [Next(states[|states| - 1], e, limits)], events + [e];
      forall i | 0 <= i < |more|
        ensures Possible(longer[i], more[i]) && longer[i + 1] == Next(longer[i], more[i], limits)
      {
        if i < |events| { assert longer[i] == states[i] && longer[i + 1] == states[i + 1] && more[i] == events[i]; }
      }
    }
  }

  /** Every state of every run, whatever the order of connections, joins, relays, closes and
      cleanups, keeps the index, the caps and the agreement of the clients' views. */
  lemma {:induction false} EveryRunKeeps<S>(states: seq<Net<S>>, events: seq<Event<S>>, limits: Limits, i: nat)
    requires IsRun(states, events, limits) && 0 < limits.maxPeersPerRoom && i < |states|
    ensures Inv(states[i], limits)
  {
    hide Inv, HandleJoin, HandleRelay, Depart, Cleanup, Open;
    if i == 0 {
      EmptyIsGood<S>(limits);
    } else {
      EveryRunKeeps(states, events, limits, i - 1);
      var n := states[i - 1];
      match events[i - 1]
      case Opens(s) => OpenKeeps(n, s, limits);
      case Joins(s, r, hash, id, info, now) => HandleJoinKeeps(n, s, r, hash, id, info, now, limits);
      case Relays(s, to, data, now) => HandleRelayKeeps(n, s, to, data, now, limits);
      case Closes(s) => DepartKeeps(n, s, limits);
      case Ticks(now) => CleanupKeeps(n, now, limits);
    }
  }

  lemma EmptyIsGood<S>(limits: Limits)
    ensures Inv(Net<S>.Net(map[], map[]), limits)
  {
  }

  lemma CleanupKeeps<S>(n: Net<S>, now: int, limits: Limits)
    requires Inv(n, limits)
    ensures Inv(Cleanup(n, now, limits), limits)
  {
    DropKeeps(n, IdleRooms(n, now, limits), limits);
  }

  // ---- Secrets over runs ----

  ghost predicate SoleMember<S>(n: Net<S>, s: S, r: string)
    requires s in n.ctx && r in n.rooms
  {
    n.ctx[s].roomId == Some(r) && n.rooms[r].peers.Keys == {n.ctx[s].peerId}
  }

  /** The one event that ends a room and starts another of the same name: its only member joins it
      again, with the secret it names now. */
  ghost predicate Refounds<S>(n: Net<S>, e: Event<S>, r: string)
    requires Possible(n, e) && r in n.rooms
  {
    e.Joins? && e.r == r && SoleMember(n, e.s, r)
  }

  lemma LeaveSecret<S>(n: Net<S>, s: S, r: string)
    requires Index(n) && s in n.ctx && r in n.rooms
    ensures r in Leave(n, s).rooms <==> !SoleMember(n, s, r)
    ensures r in Leave(n, s).rooms ==> Leave(n, s).rooms[r].secretHash == n.rooms[r].secretHash
  {
    hide Recorded;
    assert Indexed(n, s);
    if n.ctx[s].roomId == Some(r) {
      var id, peers := n.ctx[s].peerId, n.rooms[r].peers;
      assert (peers - {id}).Keys == peers.Keys - {id};
      if peers.Keys - {id} == {} { assert peers.Keys == {id}; }
      assert (peers - {id} == map[]) <==> (peers - {id}).Keys == {};
    }
  }

  lemma JoinSecret<S>(n: Net<S>, s: S, r: string, hash: string, id: string, info: Info, now: int,
                      limits: Limits, q: string)
    requires Inv(n, limits) && s in n.ctx && q in n.rooms
    requires q in HandleJoin(n, s, r, hash, id, info, now, limits).rooms
    ensures HandleJoin(n, s, r, hash, id, info, now, limits).rooms[q].secretHash ==
      if r == q && SoleMember(n, s, q) then hash else n.rooms[q].secretHash
  {
    hide Inv, Capped, Agrees, Leave, SoleMember, Index;
    IndexHolds(n, limits);
    LeaveSecret(n, s, q);
    var d := Depart(n, s);
    assert d.rooms == Leave(n, s).rooms;
    var p := Prepare(d, r, now, limits);
    assert q in p.rooms ==> q in d.rooms && p.rooms[q] == d.rooms[q];
  }

  /** Over one event a room that exists before and after has another secret if and only if its only
      member joined it again with another one. */
  lemma SecretChangesIff<S>(n: Net<S>, e: Event<S>, limits: Limits, r: string)
    requires Inv(n, limits) && Possible(n, e) && r in n.rooms && r in Next(n, e, limits).rooms
    ensures Next(n, e, limits).rooms[r].secretHash != n.rooms[r].secretHash <==>
      Refounds(n, e, r) && e.hash != n.rooms[r].secretHash
  {
    hide Inv, HandleJoin, SoleMember;
    match e
    case Opens(s) =>
    case Joins(s, q, hash, id, info, now) => JoinSecret(n, s, q, hash, id, info, now, limits, r);
    case Relays(s, to, data, now) =>
    case Closes(s) =>
      IndexHolds(n, limits);
      LeaveSecret(n, s, r);
    case Ticks(now) =>
  }

  /** Over any run, a room keeps its secret while it exists. */
  lemma {:induction false} RoomKeepsSecret<S>(states: seq<Net<S>>, events: seq<Event<S>>, limits: Limits,
                                              r: string, i: nat, j: nat)
    requires IsRun(states, events, limits) && 0 < limits.maxPeersPerRoom && i <= j < |states|
    requires forall k :: i <= k <= j ==> r in states[k].rooms
    requires forall k :: i <= k < j ==> !Refounds(states[k], events[k], r)
    ensures states[j].rooms[r].secretHash == states[i].rooms[r].secretHash
    decreases j - i
  {
    hide Inv, Refounds, Next;
    if i < j {
      RoomKeepsSecret(states, events, limits, r, i, j - 1);
      EveryRunKeeps(states, events, limits, j - 1);
      assert states[j - 1 + 1] == Next(states[j - 1], events[j - 1], limits);
      SecretChangesIff(states[j - 1], events[j - 1], limits, r);
    }
  }
}
