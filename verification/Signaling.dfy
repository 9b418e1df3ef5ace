/** The signaling relay and its clients as objects, proved against the values of Rooms.dfy. */
module Signaling {
  import opened Options
  import opened Rooms

  datatype JoinResult = Admitted(peers: map<string, Info>) | Refused(code: Code)

  /** A server-side socket: its context, and the channel of messages sent to the client. */
  class Socket {
    var roomId: Option<string>
    var peerId: string
    var info: Info
    var sent: seq<Message>
    ghost var joins: nat

    ghost function Context(): Ctx
      reads this
    {
      Ctx(roomId, peerId, info, joins, sent)
    }

    constructor ()
      ensures Context() == Ctx(None, "", Info("", false), 0, [])
    {
      roomId, peerId, info, sent, joins := None, "", Info("", false), [], 0;
    }

    method Send(m: Message)
      modifies `sent
      ensures sent == old(sent) + [m]
    {
      sent := sent + [m];
    }
  }

  class RelayServer {
    const limits: Limits
    var rooms: map<string, Room<Socket>>
    ghost var sockets: set<Socket>

    ghost function State(): Net<Socket>
      reads this, sockets
    {
      Net(map s | s in sockets :: s.Context(), rooms)
    }

    ghost predicate Valid()
      reads this, sockets
    {
      Inv(State(), limits) && 0 < limits.maxPeersPerRoom
    }

    constructor (limits: Limits)
      requires 0 < limits.maxPeersPerRoom
      ensures Valid() && fresh(sockets) && rooms == map[]
    {
      this.limits := limits;
      rooms, sockets := map[], {};
    }

    /** Sends to every socket of a peer map. */
    method SendAll(peers: map<string, Socket>, m: Message)
      requires peers.Values <= sockets
      requires forall a, b :: a in peers && b in peers && a != b ==> peers[a] != peers[b]
      modifies peers.Values`sent
      ensures State() == Post(old(State()), peers.Values, m)
    {
      var ids := peers.Keys;
      while ids != {}
        invariant ids <= peers.Keys
        invariant forall id :: id in ids ==> peers[id].sent == old(peers[id].sent)
        invariant forall id :: id in peers.Keys - ids ==> peers[id].sent == old(peers[id].sent) + [m]
        decreases ids
      {
        var id :| id in ids;
        peers[id].Send(m);
        ids := ids - {id};
      }
    }

    method SendTo(ws: Socket, m: Message)
      requires ws in sockets
      modifies ws`sent
      ensures State() == Post(old(State()), {ws}, m)
    {
      ws.Send(m);
    }

    /** A connection opens, in no room yet. */
    method Accept() returns (ws: Socket)
      requires Valid()
      modifies this`sockets
      ensures Valid() && fresh(ws) && sockets == old(sockets) + {ws}
      ensures State() == Open(old(State()), ws)
    {
      hide Inv;
      ghost var n := State();
      ws := new Socket();
      sockets := sockets + {ws};
      assert State() == Open(n, ws);
      OpenKeeps(n, ws, limits);
    }

    /** Takes a socket out of its room and reports who remains there. */
    method LeaveRoom(ws: Socket) returns (found: bool, id: string, remaining: map<string, Socket>)
      requires Valid() && ws in sockets
      modifies `rooms, ws`roomId
      ensures State() == Leave(old(State()), ws) && Index(State())
      ensures remaining.Values == Remaining(old(State()), ws) <= sockets
      ensures forall a, b :: a in remaining && b in remaining && a != b ==> remaining[a] != remaining[b]
      ensures if found then id == old(ws.peerId) else remaining == map[]
    {
      hide Inv, Index;
      ghost var n := State();
      IndexHolds(n, limits);
      LeaveIndex(n, ws);
      found, id, remaining := false, "", map[];
      if ws.roomId.None? || ws.roomId.value !in rooms {
        return;
      }
      var r := ws.roomId.value;
      PeersDistinct(n, r);
      var room := rooms[r];
      remaining := room.peers - {ws.peerId};
      FewerPeers(room.peers, {ws.peerId});
      found, id := true, ws.peerId;
      ws.roomId := None;
      if remaining == map[] {
        rooms := rooms - {r};
      } else {
        rooms := rooms[r := room.(peers := remaining)];
      }
      assert State().ctx == Leave(n, ws).ctx;
    }

    /** The close handler of a socket: it leaves, and the rest of its room is told. */
    method HandleClose(ws: Socket)
      requires Valid() && ws in sockets
      modifies `rooms, sockets
      ensures Valid() && State() == Depart(old(State()), ws)
    {
      hide Inv, Index, Post, Leave, Remaining;
      ghost var n := State();
      DepartKeeps(n, ws, limits);
      IndexHolds(n, limits);
      var found, id, remaining := LeaveRoom(ws);
      if found {
        SendAll(remaining, PeerLeft(id));
      } else {
        PostNobody(State(), PeerLeft(n.ctx[ws].peerId));
        assert remaining.Values == {};
      }
    }

    /** Drops rooms without recent activity; their sockets are closed and nobody is told. */
    method CleanupIdleRooms(now: int)
      requires Valid()
      modifies `rooms, sockets`roomId
      ensures Valid() && State() == Cleanup(old(State()), now, limits)
    {
      hide Inv, Drop;
      ghost var n := State();
      DropNothing(n);
      IndexHolds(n, limits);
      DropKeeps(n, IdleRooms(n, now, limits), limits);
      var ids := rooms.Keys;
      ghost var dropped: set<string> := {};
      while ids != {}
        invariant ids <= n.rooms.Keys
        invariant dropped == set r | r in n.rooms.Keys - ids && Idle(n.rooms[r], now, limits)
        invariant State() == Drop(n, dropped)
        decreases ids
      {
        var r :| r in ids;
        assert rooms == n.rooms - dropped by { RoomsAfterDrop(n, dropped); }
        if Idle(rooms[r], now, limits) {
          DropInTurn(n, dropped, r);
          PeersDistinct(n, r);
          DropRoom(r);
          dropped := dropped + {r};
        }
        ids := ids - {r};
      }
      assert dropped == IdleRooms(n, now, limits);
    }

    /** Closes the sockets of one room and forgets it. */
    method DropRoom(r: string)
      requires r in rooms && rooms[r].peers.Values <= sockets
      modifies `rooms, rooms[r].peers.Values`roomId
      ensures State() == Drop(old(State()), {r})
    {
      ghost var n := State();
      var peers := rooms[r].peers;
      var ids := peers.Keys;
      while ids != {}
        invariant ids <= peers.Keys
        invariant rooms == n.rooms
        invariant forall s :: s in peers.Values ==> s.roomId == old(s.roomId) || s.roomId.None?
        invariant forall id :: id in peers.Keys - ids ==> peers[id].roomId.None?
        decreases ids
      {
        var id :| id in ids;
        peers[id].roomId := None;
        ids := ids - {id};
      }
      rooms := rooms - {r};
      forall s | s in sockets ensures s.Context() == Drop(n, {r}).ctx[s] {
        assert Evicted(n, s, {r}) <==> s in peers.Values;
      }
      assert State().ctx == Drop(n, {r}).ctx;
      assert rooms == n.rooms - {r};
    }

    /** Makes room for a join: idle rooms are dropped only when a new room is wanted. */
    method PrepareRoom(r: string, now: int)
      requires Valid()
      modifies `rooms, sockets`roomId
      ensures Valid() && State() == Prepare(old(State()), r, now, limits)
    {
      if r !in rooms {
        CleanupIdleRooms(now);
      }
    }

    /** Puts a socket into a room, or says why not; reports the members it finds there. */
    method Join(ws: Socket, r: string, hash: string, id: string, info: Info, now: int) returns (result: JoinResult)
      requires Valid() && ws in sockets && ws.roomId.None?
      modifies `rooms, sockets`roomId, ws`peerId, ws`info, ws`joins
      ensures var p := Prepare(old(State()), r, now, limits);
        var refusal := Refusal(p, ws, r, hash, id, limits);
        if refusal.Some? then result == Refused(refusal.value) && State() == p
        else result == Admitted(Known(p, r)) && State() == Enter(p, ws, r, hash, id, info, now)
    {
      hide Inv, Prepare, Known, Enter;
      PrepareRoom(r, now);
      if r in rooms {
        if rooms[r].secretHash != hash { return Refused(AuthFailed); }
        if id in rooms[r].peers && rooms[r].peers[id] != ws { return Refused(PeerIdTaken); }
        if |rooms[r].peers| >= limits.maxPeersPerRoom { return Refused(RoomFull); }
      } else {
        if |rooms| >= limits.maxActiveRooms { return Refused(RoomFull); }
      }
      var known := EnterRoom(ws, r, hash, id, info, now);
      return Admitted(known);
    }

    /** The members of a room, as a newcomer is told of them. */
    method KnownPeers(r: string) returns (known: map<string, Info>)
      requires Valid()
      ensures known == Known(State(), r)
    {
      hide Inv, Index;
      known := map[];
      if r in rooms {
        IndexHolds(State(), limits);
        PeersDistinct(State(), r);
        known := map x | x in rooms[r].peers :: rooms[r].peers[x].info;
      }
    }

    /** The second half of `join`: creates the room if need be, lists its members, adds the socket. */
    method EnterRoom(ws: Socket, r: string, hash: string, id: string, info: Info, now: int)
      returns (known: map<string, Info>)
      requires Valid() && ws in sockets
      modifies `rooms, ws`roomId, ws`peerId, ws`info, ws`joins
      ensures known == Known(old(State()), r) && State() == Enter(old(State()), ws, r, hash, id, info, now)
    {
      hide Inv, Index, Known;
      known := KnownPeers(r);
      AddPeer(ws, r, hash, id, info, now);
    }

    method AddPeer(ws: Socket, r: string, hash: string, id: string, info: Info, now: int)
      requires ws in sockets
      modifies `rooms, ws`roomId, ws`peerId, ws`info, ws`joins
      ensures State() == Enter(old(State()), ws, r, hash, id, info, now)
    {
      hide Enter;
      ghost var p := State();
      var room := if r in rooms then rooms[r] else Room(hash, map[], now);
      rooms := rooms[r := room.(peers := room.peers[id := ws], lastActivityAt := now)];
      ws.roomId, ws.peerId, ws.info, ws.joins := Some(r), id, info, ws.joins + 1;
      assert forall s :: s in sockets && s != ws ==> s.Context() == p.ctx[s];
      assert State().ctx == p.ctx[ws := ws.Context()];
      EnteredIs(p, State(), ws, r, hash, id, info, now);
    }

    /** A join message: leave the present room, then join; the newcomer gets the list of members,
        the members get the news, a refused socket gets the error. */
    method HandleJoinMessage(ws: Socket, r: string, hash: string, id: string, info: Info, now: int)
      requires Valid() && ws in sockets
      modifies `rooms, sockets
      ensures Valid() && State() == HandleJoin(old(State()), ws, r, hash, id, info, now, limits)
    {
      hide Inv, Depart, Prepare, Refusal, Enter, Known, Post, Index;
      ghost var n := State();
      DepartKeeps(n, ws, limits);
      HandleJoinKeeps(n, ws, r, hash, id, info, now, limits);
      HandleClose(ws);
      ghost var d := State();
      ghost var p := Prepare(d, r, now, limits);
      PrepareKeeps(d, ws, r, now, limits);
      var result := Join(ws, r, hash, id, info, now);
      match result
      case Refused(code) =>
        SendTo(ws, Failed(code));
      case Admitted(known) =>
        EnterFacts(p, ws, r, hash, id, info, now, limits);
        Announce(ws, r, id, info, known);
    }

    /** The messages of an admitted join. */
    method Announce(ws: Socket, r: string, id: string, info: Info, known: map<string, Info>)
      requires ws in sockets && r in rooms && rooms[r].peers.Values <= sockets
      requires forall a, b :: a in rooms[r].peers && b in rooms[r].peers && a != b ==>
        rooms[r].peers[a] != rooms[r].peers[b]
      modifies sockets`sent
      ensures State() ==
        Post(Post(old(State()), {ws}, Joined(known)), (rooms[r].peers - {id}).Values, PeerJoined(id, info))
    {
      hide Post;
      SendTo(ws, Joined(known));
      FewerPeers(rooms[r].peers, {id});
      SendAll(rooms[r].peers - {id}, PeerJoined(id, info));
    }

    /** Relays to one member or to all others; an unknown target is reported back. */
    method RelayData(ws: Socket, to: string, data: string)
      requires Valid() && ws in sockets
      modifies sockets`sent
      ensures State() == Relay(old(State()), ws, to, data)
    {
      hide Inv, Index, Post;
      ghost var n := State();
      IndexHolds(n, limits);
      if ws.roomId.None? {
        SendTo(ws, Failed(PeerNotFound));
        return;
      }
      var peers: map<string, Socket> := map[];
      if ws.roomId.value in rooms {
        PeersDistinct(n, ws.roomId.value);
        peers := rooms[ws.roomId.value].peers;
      }
      if to == "*" {
        var others := map id | id in peers && peers[id].peerId != ws.peerId :: peers[id];
        forall id | id in peers ensures peers[id] in n.ctx && n.ctx[peers[id]].peerId == peers[id].peerId {
          assert peers[id] in peers.Values;
        }
        assert others == OthersThan(n, peers, ws.peerId);
        OthersAreSome(n, peers, ws.peerId);
        SendAll(others, Relayed(ws.peerId, to, data));
      } else if to in peers {
        assert peers[to] in peers.Values;
        SendTo(peers[to], Relayed(ws.peerId, to, data));
      } else {
        SendTo(ws, Failed(PeerNotFound));
      }
    }

    method TouchRoom(r: string, now: int)
      modifies `rooms
      ensures State() == Touch(old(State()), r, now)
    {
      if r in rooms {
        rooms := rooms[r := rooms[r].(lastActivityAt := now)];
      }
    }

    /** A relay message, which also counts as activity of the sender's room. */
    method HandleRelayMessage(ws: Socket, to: string, data: string, now: int)
      requires Valid() && ws in sockets
      modifies `rooms, sockets`sent
      ensures Valid() && State() == HandleRelay(old(State()), ws, to, data, now)
    {
      hide Inv, Relay, Touch;
      HandleRelayKeeps(State(), ws, to, data, now, limits);
      RelayData(ws, to, data);
      if ws.roomId.Some? {
        TouchRoom(ws.roomId.value, now);
      }
    }
  }

  /** The client end: what it has handled of the messages sent to it, and the peers it knows. */
  class RelayClient {
    const self: string
    const socket: Socket
    var handled: nat
    var peers: map<string, Info>

    ghost predicate Valid()
      reads this, socket
    {
      handled <= |socket.sent| && peers == HandleAll(self, map[], socket.sent[..handled])
    }

    constructor (self: string, socket: Socket)
      ensures Valid() && this.self == self && this.socket == socket && handled == 0
    {
      this.self, this.socket := self, socket;
      handled, peers := 0, map[];
    }

    /** Handles the next message in the order of sending. */
    method HandleNext()
      requires Valid() && handled < |socket.sent|
      modifies this
      ensures Valid() && handled == old(handled) + 1
    {
      var m := socket.sent[handled];
      assert socket.sent[..handled + 1] == socket.sent[..handled] + [m];
      HandleOneMore(self, map[], socket.sent[..handled], m);
      match m {
        case Joined(listed) => peers := peers + map id | id in listed && id != self :: listed[id];
        case PeerJoined(id, info) => if id != self { peers := peers[id := info]; }
        case PeerLeft(id) => peers := peers - {id};
        case _ =>
      }
      handled := handled + 1;
    }
  }

  /** Membership agreement: whatever a client has still to handle turns its peers into exactly
      the other members of its room. */
  lemma PeersConverge(server: RelayServer, client: RelayClient)
    requires server.Valid() && client.Valid() && client.socket in server.sockets
    requires client.socket.joins == 1 && client.socket.roomId.Some? && client.self == client.socket.peerId
    ensures HandleAll(client.self, client.peers, client.socket.sent[client.handled..])
      == Others(server.State(), client.socket.roomId.value, client.self)
  {
    ViewsConverge(server.State(), server.limits, client.socket, client.handled);
  }
}
