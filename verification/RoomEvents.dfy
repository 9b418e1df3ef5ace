/** What each event does at the relay, said of the state before it alone: who is admitted, what every
    socket is sent, which rooms remain and when they were last active. */
module RoomEvents {
  import opened FiniteSets
  import opened Options
  import opened Rooms

  // ---- After a departure ----

  /** The ids of a room's members other than `s`. */
  ghost function OtherIds<S>(n: Net<S>, s: S, r: string): set<string>
    requires r in n.rooms
  {
    set y | y in n.rooms[r].peers && n.rooms[r].peers[y] != s
  }

  /** The room has a member other than `s`. */
  ghost predicate Outlasts<S>(n: Net<S>, s: S, r: string) {
    r in n.rooms && OtherIds(n, s, r) != {}
  }

  lemma PeersWithout<S>(n: Net<S>, s: S, r: string)
    requires Index(n) && s in n.ctx && r in n.rooms
    ensures forall y :: y in n.rooms[r].peers ==>
      (n.rooms[r].peers[y] == s <==> n.ctx[s].roomId == Some(r) && n.ctx[s].peerId == y)
  {
    assert Indexed(n, s);
    forall y | y in n.rooms[r].peers ensures Recorded(n, r, y) {
    }
  }

  lemma RoomAfterLeave<S>(n: Net<S>, s: S, r: string, limits: Limits)
    requires Index(n) && Capped(n, limits) && s in n.ctx
    ensures r in Leave(n, s).rooms <==> Outlasts(n, s, r)
    ensures r in Leave(n, s).rooms ==>
      var room := Leave(n, s).rooms[r];
      && room.secretHash == n.rooms[r].secretHash && room.lastActivityAt == n.rooms[r].lastActivityAt
      && room.peers.Keys == OtherIds(n, s, r)
      && forall y :: y in room.peers ==> room.peers[y] == n.rooms[r].peers[y]
  {
    assert Indexed(n, s);
    if r in n.rooms {
      PeersWithout(n, s, r);
      var peers := n.rooms[r].peers;
      assert peers.Keys != {};
      if n.ctx[s].roomId == Some(r) {
        assert (peers - {n.ctx[s].peerId}).Keys == OtherIds(n, s, r);
      } else {
        assert peers.Keys == OtherIds(n, s, r);
      }
    }
  }

  // ---- Joining ----

  /** The rooms that remain when `s` has left and the idle ones are gone. */
  ghost function RoomsLeft<S>(n: Net<S>, s: S, now: int, limits: Limits): set<string> {
    set q | q in n.rooms && Outlasts(n, s, q) && now - n.rooms[q].lastActivityAt <= limits.idleRoomTtlMs
  }

  ghost predicate WrongSecret<S>(n: Net<S>, s: S, r: string, hash: string) {
    Outlasts(n, s, r) && n.rooms[r].secretHash != hash
  }

  ghost predicate IdTaken<S>(n: Net<S>, s: S, r: string, hash: string, id: string) {
    Outlasts(n, s, r) && n.rooms[r].secretHash == hash && id in OtherIds(n, s, r)
  }

  /** No place left in the room, or no room left for a new one. */
  ghost predicate NoPlace<S>(n: Net<S>, s: S, r: string, hash: string, id: string, now: int, limits: Limits) {
    if Outlasts(n, s, r) then
      n.rooms[r].secretHash == hash && id !in OtherIds(n, s, r) && |OtherIds(n, s, r)| >= limits.maxPeersPerRoom
    else |RoomsLeft(n, s, now, limits)| >= limits.maxActiveRooms
  }

  ghost predicate MemberAs<S>(n: Net<S>, s: S, r: string, id: string) {
    s in n.ctx && n.ctx[s].roomId == Some(r) && n.ctx[s].peerId == id
  }

  lemma RoomsAfterPrepare<S>(n: Net<S>, s: S, r: string, now: int, limits: Limits)
    requires Index(n) && Capped(n, limits) && s in n.ctx
    ensures r in Depart(n, s).rooms <==> Outlasts(n, s, r)
    ensures var p := Prepare(Depart(n, s), r, now, limits);
      && (r in p.rooms <==> Outlasts(n, s, r))
      && (r in p.rooms ==> p.rooms[r] == Leave(n, s).rooms[r])
      && (r !in p.rooms ==> p.rooms.Keys == RoomsLeft(n, s, now, limits))
  {
    hide Index, Capped, Remaining, Evicted, Leave, Outlasts;
    var d := Depart(n, s);
    assert d.rooms == Leave(n, s).rooms;
    forall q ensures q in d.rooms <==> Outlasts(n, s, q)
      ensures q in d.rooms ==> q in n.rooms && d.rooms[q].lastActivityAt == n.rooms[q].lastActivityAt
    {
      RoomAfterLeave(n, s, q, limits);
      OutlastsIsThere(n, s, q);
    }
  }

  lemma OutlastsIsThere<S>(n: Net<S>, s: S, r: string)
    ensures Outlasts(n, s, r) ==> r in n.rooms
  {
  }

  /** Which refusal a join gets, if any. */
  lemma RefusalIs<S>(n: Net<S>, s: S, r: string, hash: string, id: string, now: int, limits: Limits)
    requires Index(n) && Capped(n, limits) && s in n.ctx
    ensures var refusal := Refusal(Prepare(Depart(n, s), r, now, limits), s, r, hash, id, limits);
      refusal ==
        if WrongSecret(n, s, r, hash) then Some(AuthFailed)
        else if IdTaken(n, s, r, hash, id) then Some(PeerIdTaken)
        else if NoPlace(n, s, r, hash, id, now, limits) then Some(RoomFull)
        else None
  {
    hide Index, Capped, Prepare, Depart, Leave;
    RoomsAfterPrepare(n, s, r, now, limits);
    var p := Prepare(Depart(n, s), r, now, limits);
    if r in p.rooms {
      RoomAfterLeave(n, s, r, limits);
      assert |p.rooms[r].peers| == |p.rooms[r].peers.Keys| == |OtherIds(n, s, r)|;
    } else {
      assert |p.rooms| == |p.rooms.Keys|;
    }
  }

  /** The socket's room is idle. */
  ghost predicate InIdleRoom<S>(n: Net<S>, x: S, now: int, limits: Limits)
    requires x in n.ctx
  {
    && n.ctx[x].roomId.Some? && n.ctx[x].roomId.value in n.rooms
    && now - n.rooms[n.ctx[x].roomId.value].lastActivityAt > limits.idleRoomTtlMs
  }

  lemma CleanupContext<S>(n: Net<S>, x: S, now: int, limits: Limits)
    requires Index(n) && x in n.ctx
    ensures var t := Cleanup(n, now, limits);
      x in t.ctx && t.ctx[x] == if InIdleRoom(n, x, now, limits) then n.ctx[x].(roomId := None) else n.ctx[x]
  {
    EvictedAre(n, x, IdleRooms(n, now, limits));
  }

  /** Idle cleanup: exactly the rooms active within the limit remain, as they are; the members of the
      others are in no room; and nothing else changes. */
  lemma CleanupKeepsActive<S>(n: Net<S>, now: int, limits: Limits, x: S, r: string)
    requires Index(n) && x in n.ctx
    ensures var t := Cleanup(n, now, limits);
      && (r in t.rooms <==> r in n.rooms && now - n.rooms[r].lastActivityAt <= limits.idleRoomTtlMs)
      && (r in t.rooms ==> t.rooms[r] == n.rooms[r]) && t.ctx.Keys == n.ctx.Keys
      && t.ctx[x] == if InIdleRoom(n, x, now, limits) then n.ctx[x].(roomId := None) else n.ctx[x]
  {
    CleanupContext(n, x, now, limits);
  }

  /** Two sockets share a room. */
  ghost predicate Together<S>(n: Net<S>, s: S, x: S)
    requires s in n.ctx && x in n.ctx
  {
    n.ctx[s].roomId.Some? && n.ctx[x].roomId == n.ctx[s].roomId
  }

  lemma PreparedContext<S>(n: Net<S>, s: S, r: string, now: int, limits: Limits, x: S)
    requires Inv(n, limits) && s in n.ctx && x in n.ctx
    ensures var p := Prepare(Depart(n, s), r, now, limits);
      && Index(p) && InNoRoom(p, s) && x in p.ctx && p.ctx[s] == n.ctx[s].(roomId := None)
      && (x != s ==> p.ctx[x] == n.ctx[x].(
            roomId := if !Outlasts(n, s, r) && InIdleRoom(n, x, now, limits) then None else n.ctx[x].roomId,
            sent := n.ctx[x].sent + if Together(n, s, x) then [PeerLeft(n.ctx[s].peerId)] else []))
  {
    hide Agrees, Capped, Index, Depart, Leave, Outlasts, Cleanup;
    DepartKeeps(n, s, limits);
    DepartSent(n, s, x);
    PrepareKeeps(Depart(n, s), s, r, now, limits);
    RoomsAfterPrepare(n, s, r, now, limits);
    CleanupContext(Depart(n, s), x, now, limits);
    CleanupContext(Depart(n, s), s, now, limits);
    if x != s && n.ctx[x].roomId.Some? { RoomsOfOthers(n, s, x, limits); }
  }

  lemma RoomsOfOthers<S>(n: Net<S>, s: S, x: S, limits: Limits)
    requires Inv(n, limits) && s in n.ctx && x in n.ctx && x != s && n.ctx[x].roomId.Some?
    ensures var r := n.ctx[x].roomId.value;
      r in n.rooms && r in Depart(n, s).rooms && Depart(n, s).rooms[r].lastActivityAt == n.rooms[r].lastActivityAt
  {
    hide Leave;
    var r := n.ctx[x].roomId.value;
    assert Indexed(n, x);
    assert n.ctx[x].peerId in OtherIds(n, s, r);
    RoomAfterLeave(n, s, r, limits);
  }

  /** Admission: a join gets in if and only if, of a room that others are in, it names the secret and a
      free id and finds a place, or there is room for a new one once the idle ones are gone. */
  lemma JoinAdmits<S>(n: Net<S>, s: S, r: string, hash: string, id: string, info: Info, now: int, limits: Limits)
    requires Inv(n, limits) && s in n.ctx
    ensures var t := HandleJoin(n, s, r, hash, id, info, now, limits);
      MemberAs(t, s, r, id) <==>
        && !WrongSecret(n, s, r, hash) && !IdTaken(n, s, r, hash, id) && !NoPlace(n, s, r, hash, id, now, limits)
  {
    JoinAnswers(n, s, r, hash, id, info, now, limits);
  }

  /** The infos of a room's members other than `s`. */
  ghost function OtherInfos<S>(n: Net<S>, s: S, r: string): map<string, Info>
    requires r in n.rooms
  {
    map y | y in OtherIds(n, s, r) && n.rooms[r].peers[y] in n.ctx :: n.ctx[n.rooms[r].peers[y]].info
  }

  /** What the joining socket is told, and where it is afterwards: the first reason to refuse it, or
      everybody else in the room. */
  lemma JoinAnswers<S>(n: Net<S>, s: S, r: string, hash: string, id: string, info: Info, now: int, limits: Limits)
    requires Inv(n, limits) && s in n.ctx
    ensures var t, c := HandleJoin(n, s, r, hash, id, info, now, limits), n.ctx[s];
      s in t.ctx && t.ctx[s] ==
        if WrongSecret(n, s, r, hash) then c.(roomId := None, sent := c.sent + [Failed(AuthFailed)])
        else if IdTaken(n, s, r, hash, id) then c.(roomId := None, sent := c.sent + [Failed(PeerIdTaken)])
        else if NoPlace(n, s, r, hash, id, now, limits) then c.(roomId := None, sent := c.sent + [Failed(RoomFull)])
        else Ctx(Some(r), id, info, c.joins + 1,
                 c.sent + [Joined(if Outlasts(n, s, r) then OtherInfos(n, s, r) else map[])])
  {
    hide Capped, Index, Agrees, Prepare, Depart, Refusal, Welcome, Known;
    RefusalIs(n, s, r, hash, id, now, limits);
    PreparedContext(n, s, r, now, limits, s);
    var p := Prepare(Depart(n, s), r, now, limits);
    var refusal := Refusal(p, s, r, hash, id, limits);
    if refusal.None? {
      WelcomeSent(p, s, r, hash, id, info, now, s);
      KnownThen(n, s, r, now, limits);
    }
  }

  lemma KnownThen<S>(n: Net<S>, s: S, r: string, now: int, limits: Limits)
    requires Inv(n, limits) && s in n.ctx
    ensures Known(Prepare(Depart(n, s), r, now, limits), r) ==
      if Outlasts(n, s, r) then OtherInfos(n, s, r) else map[]
  {
    hide Capped, Index, Agrees, Prepare, Depart, Leave;
    RoomsAfterPrepare(n, s, r, now, limits);
    var p := Prepare(Depart(n, s), r, now, limits);
    if r in p.rooms {
      RoomAfterLeave(n, s, r, limits);
      forall y | y in OtherIds(n, s, r)
        ensures n.rooms[r].peers[y] in n.ctx && n.rooms[r].peers[y] in p.ctx
        ensures p.ctx[n.rooms[r].peers[y]].info == n.ctx[n.rooms[r].peers[y]].info
      {
        MemberIsKnown(n, r, y);
        PreparedContext(n, s, r, now, limits, n.rooms[r].peers[y]);
      }
    }
  }

  lemma MemberIsKnown<S>(n: Net<S>, r: string, y: string)
    requires Index(n) && r in n.rooms && y in n.rooms[r].peers
    ensures n.rooms[r].peers[y] in n.ctx
  {
    assert Recorded(n, r, y);
  }

  /** What a join means for everybody else: those the socket leaves are told so, those it joins are told
      of it, and the members of idle rooms are put out if a new room was wanted. */
  lemma JoinTells<S>(n: Net<S>, s: S, r: string, hash: string, id: string, info: Info, now: int, limits: Limits, x: S)
    requires Inv(n, limits) && s in n.ctx && x in n.ctx && x != s
    ensures var t, c := HandleJoin(n, s, r, hash, id, info, now, limits), n.ctx[x];
      var left := if Together(n, s, x) then [PeerLeft(n.ctx[s].peerId)] else [];
      var joined := if c.roomId == Some(r) && MemberAs(t, s, r, id) then [PeerJoined(id, info)] else [];
      x in t.ctx && t.ctx[x] == c.(
        roomId := if !Outlasts(n, s, r) && InIdleRoom(n, x, now, limits) then None else c.roomId,
        sent := c.sent + left + joined)
  {
    hide Capped, Index, Agrees, Prepare, Depart, Refusal, Welcome, Known, Outlasts, OtherInfos;
    hide WrongSecret, IdTaken, NoPlace;
    JoinAnswers(n, s, r, hash, id, info, now, limits);
    RefusalIs(n, s, r, hash, id, now, limits);
    PreparedContext(n, s, r, now, limits, x);
    OthersOutlast(n, s, x, limits);
    var p := Prepare(Depart(n, s), r, now, limits);
    if Refusal(p, s, r, hash, id, limits).None? {
      WelcomeSent(p, s, r, hash, id, info, now, x);
    }
  }

  lemma OthersOutlast<S>(n: Net<S>, s: S, x: S, limits: Limits)
    requires Inv(n, limits) && s in n.ctx && x in n.ctx && x != s
    ensures n.ctx[x].roomId.Some? ==> Outlasts(n, s, n.ctx[x].roomId.value)
  {
    assert Indexed(n, x);
    if n.ctx[x].roomId.Some? { assert n.ctx[x].peerId in OtherIds(n, s, n.ctx[x].roomId.value); }
  }

  // ---- Relaying ----

  /** The message is for `x`: somebody else of the sender's room, or whoever is named there. */
  ghost predicate Addressed<S>(n: Net<S>, s: S, to: string, x: S)
    requires s in n.ctx && x in n.ctx
  {
    Together(n, s, x) && if to == "*" then x != s else n.ctx[x].peerId == to
  }

  /** Nobody can be meant: the sender is in no room, or nobody there has the id named. */
  ghost predicate NobodyMeant<S>(n: Net<S>, s: S, to: string)
    requires s in n.ctx
  {
    n.ctx[s].roomId.None? || (to != "*" && forall x :: x in n.ctx ==> !Addressed(n, s, to, x))
  }

  /** Relaying, to everybody or to one: who is addressed gets the message under the sender's id, once;
      the sender gets an error if nobody can be meant; nobody gets anything else, and nobody moves. */
  lemma RelayDelivers<S>(n: Net<S>, s: S, to: string, data: string, now: int, x: S)
    requires Index(n) && s in n.ctx && x in n.ctx
    ensures var t, c := HandleRelay(n, s, to, data, now), n.ctx[x];
      x in t.ctx && t.ctx[x] == c.(sent := c.sent +
        if Addressed(n, s, to, x) then [Relayed(n.ctx[s].peerId, to, data)]
        else if x == s && NobodyMeant(n, s, to) then [Failed(PeerNotFound)]
        else [])
  {
    hide Index, RelayTargets;
    if n.ctx[s].roomId.None? {
      NoRoomNoTargets(n, s, to);
    } else if to == "*" {
      BroadcastReachesOthers(n, s, x);
    } else {
      UnicastReachesNamed(n, s, to, x);
      OneOrNobody(n, s, to);
    }
  }

  lemma NoRoomNoTargets<S>(n: Net<S>, s: S, to: string)
    requires s in n.ctx && n.ctx[s].roomId.None?
    ensures RelayTargets(n, s, to).None?
  {
  }

  lemma OneOrNobody<S>(n: Net<S>, s: S, to: string)
    requires Index(n) && s in n.ctx && n.ctx[s].roomId.Some? && to != "*"
    ensures RelayTargets(n, s, to).None? <==> NobodyMeant(n, s, to)
  {
    assert Indexed(n, s);
    var r := n.ctx[s].roomId.value;
    if to in n.rooms[r].peers {
      assert Recorded(n, r, to);
      assert Addressed(n, s, to, n.rooms[r].peers[to]);
    }
    forall x | x in n.ctx ensures Addressed(n, s, to, x) ==> to in n.rooms[r].peers {
      assert Indexed(n, x);
    }
  }

  // ---- Activity ----

  /** The event counts as activity of the room: a join it admits, or a message of a member. */
  ghost predicate ActiveBy<S>(n: Net<S>, e: Event<S>, r: string, limits: Limits)
    requires Possible(n, e)
  {
    match e
    case Opens(_) => false
    case Joins(s, _, _, _, _, _) => s in Next(n, e, limits).ctx && Next(n, e, limits).ctx[s].roomId == Some(r)
    case Relays(s, _, _, _) => n.ctx[s].roomId == Some(r)
    case Closes(_) => false
    case Ticks(_) => false
  }

  /** When a room was last active: over one event that moves to the time of an event that is its
      activity, and stays as it was otherwise. */
  lemma LastActivityIs<S>(n: Net<S>, e: Event<S>, limits: Limits, r: string)
    requires Inv(n, limits) && Possible(n, e) && r in Next(n, e, limits).rooms
    ensures ActiveBy(n, e, r, limits) ==> (e.Joins? || e.Relays?) && Next(n, e, limits).rooms[r].lastActivityAt == e.now
    ensures !ActiveBy(n, e, r, limits) ==>
      r in n.rooms && Next(n, e, limits).rooms[r].lastActivityAt == n.rooms[r].lastActivityAt
  {
    hide Inv, HandleJoin;
    IndexHolds(n, limits);
    match e
    case Opens(s) =>
    case Joins(s, q, hash, id, info, now) => JoinActivity(n, s, q, hash, id, info, now, limits, r);
    case Relays(s, to, data, now) =>
    case Closes(s) => LeaveActivity(n, s, r, limits);
    case Ticks(now) =>
  }

  lemma LeaveActivity<S>(n: Net<S>, s: S, r: string, limits: Limits)
    requires Inv(n, limits) && s in n.ctx && r in Leave(n, s).rooms
    ensures r in n.rooms && Leave(n, s).rooms[r].lastActivityAt == n.rooms[r].lastActivityAt
  {
    hide Index, Leave;
    RoomAfterLeave(n, s, r, limits);
  }

  lemma JoinActivity<S>(n: Net<S>, s: S, q: string, hash: string, id: string, info: Info, now: int,
                        limits: Limits, r: string)
    requires Inv(n, limits) && s in n.ctx && r in HandleJoin(n, s, q, hash, id, info, now, limits).rooms
    ensures var t := HandleJoin(n, s, q, hash, id, info, now, limits);
      s in t.ctx &&
      if t.ctx[s].roomId == Some(r) then t.rooms[r].lastActivityAt == now
      else r in n.rooms && t.rooms[r].lastActivityAt == n.rooms[r].lastActivityAt
  {
    hide Inv, Index, Refusal, Leave, Known;
    JoinAnswers(n, s, q, hash, id, info, now, limits);
    RefusalIs(n, s, q, hash, id, now, limits) by { InvParts(n, limits); }
    assert Depart(n, s).rooms == Leave(n, s).rooms;
    if r in Leave(n, s).rooms { LeaveActivity(n, s, r, limits); }
  }

  lemma InvParts<S>(n: Net<S>, limits: Limits)
    requires Inv(n, limits)
    ensures Index(n) && Capped(n, limits)
  {
  }

  // ---- The client's view ----

  /** The message says something of the peer `id`. */
  predicate Announces(m: Message, id: string) {
    (m.Joined? && id in m.peers) || (m.PeerJoined? && m.id == id)
  }

  predicate Concerns(m: Message, id: string) {
    Announces(m, id) || (m.PeerLeft? && m.id == id)
  }

  function Announced(m: Message, id: string): Info
    requires Announces(m, id)
  {
    if m.Joined? then m.peers[id] else m.info
  }

  /** The message at `i` announces `id`, and none after it concerns it. */
  ghost predicate LastAnnounces(ms: seq<Message>, id: string, i: int) {
    0 <= i < |ms| && Announces(ms[i], id) && forall j :: i < j < |ms| ==> !Concerns(ms[j], id)
  }

  lemma OneMoreMessage(ms: seq<Message>, id: string, i: int)
    requires ms != []
    ensures var n := |ms| - 1;
      LastAnnounces(ms, id, i) <==>
        if Concerns(ms[n], id) then i == n && Announces(ms[n], id) else LastAnnounces(ms[..n], id, i)
  {
  }

  /** A client knows a peer other than itself if and only if the last message about it announced it, and
      then knows what that message said. */
  lemma {:induction false} ClientKnows(self: string, ms: seq<Message>, id: string)
    ensures id in HandleAll(self, map[], ms) <==> id != self && exists i :: LastAnnounces(ms, id, i)
    ensures forall i :: LastAnnounces(ms, id, i) && id != self ==>
      id in HandleAll(self, map[], ms) && HandleAll(self, map[], ms)[id] == Announced(ms[i], id)
  {
    if ms != [] {
      var n := |ms| - 1;
      ClientKnows(self, ms[..n], id);
      forall i ensures LastAnnounces(ms, id, i) <==>
        if Concerns(ms[n], id) then i == n && Announces(ms[n], id) else LastAnnounces(ms[..n], id, i)
      {
        OneMoreMessage(ms, id, i);
      }
      assert Announces(ms[n], id) ==> LastAnnounces(ms, id, n);
      assert !Concerns(ms[n], id) ==> forall i :: LastAnnounces(ms[..n], id, i) ==> LastAnnounces(ms, id, i);
      LastInside(ms, id);
      LastInside(ms[..n], id);
    }
  }

  lemma LastInside(ms: seq<Message>, id: string)
    ensures forall i :: LastAnnounces(ms, id, i) ==> 0 <= i < |ms| && Announces(ms[i], id)
  {
  }
}
