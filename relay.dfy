/**
 * The signalling relay: the room matchmaker run for every `create or join`
 * request, the `message` broadcast, the `bye` handler and the per-socket `log`
 * helper. socket.io's room table (`ioServer.sockets.adapter.rooms`) is the map
 * `rooms`; every emit is one `Delivery` appended to `outbox`, one per
 * recipient, in the order the handler emits them.
 */
module Relay {
  import opened Json
  import T = Transport

  type ClientId = T.ClientId
  type Room = T.Room

  datatype ServerEvent =
    | Created(room: Room, id: ClientId)
    | Join(room: Room)
    | Joined(room: Room, id: ClientId)
    | Ready
    | Full(room: Room)
    | Message(payload: T.Payload)
    | Log(args: seq<string>)

  datatype Delivery = Delivery(to: ClientId, event: ServerEvent)

  datatype RelayState = RelayState(clients: seq<ClientId>, rooms: map<Room, seq<ClientId>>, outbox: seq<Delivery>)

  const EmptyRelay := RelayState([], map[], [])

  /** The sockets in `room`; a room that does not exist has none. */
  function Members(rooms: map<Room, seq<ClientId>>, room: Room): seq<ClientId>
  {
    if room in rooms then rooms[room] else []
  }

  /** `socket.join(room)`: the adapter keys a room's sockets by id, so joining twice changes nothing. */
  function AddMember(rooms: map<Room, seq<ClientId>>, room: Room, id: ClientId): map<Room, seq<ClientId>>
  {
    var m := Members(rooms, room);
    if id in m then rooms else rooms[room := m + [id]]
  }

  /** One delivery of `e` to each of `ids`, in order. */
  function ToEach(ids: seq<ClientId>, e: ServerEvent): (r: seq<Delivery>)
    ensures |r| == |ids|
    ensures forall i :: 0 <= i < |ids| ==> r[i] == Delivery(ids[i], e)
  {
    if ids == [] then [] else [Delivery(ids[0], e)] + ToEach(ids[1..], e)
  }

  /** The handler of `create or join` (signalServer.js `handleCreateOrJoin`). */
  function CreateOrJoin(s: RelayState, room: Room, id: ClientId): RelayState
  {
    var members := Members(s.rooms, room);
    if |members| == 0 then
      s.(rooms := AddMember(s.rooms, room, id),
         outbox := s.outbox + [Delivery(id, Created(room, id))])
    else if |members| == 1 then
      var rooms' := AddMember(s.rooms, room, id);
      s.(rooms := rooms',
         outbox := s.outbox + ToEach(members, Join(room)) + [Delivery(id, Joined(room, id))]
                   + ToEach(Members(rooms', room), Ready))
    else
      s.(outbox := s.outbox + [Delivery(id, Full(room))])
  }

  /** A socket connects: it is added to the connected sockets, and socket.io
      puts it in the room named by its own id. */
  function Connect(s: RelayState, id: ClientId): RelayState
  {
    s.(clients := s.clients + [id], rooms := AddMember(s.rooms, id, id))
  }

  /** The relay once the sockets `ids` have connected, in order, and nothing else happened. */
  function Connected(ids: seq<ClientId>): RelayState
  {
    if ids == [] then EmptyRelay else Connect(Connected(ids[..|ids| - 1]), ids[|ids| - 1])
  }

  /** The sockets other than `sender`, in connection order. */
  function Others(clients: seq<ClientId>, sender: ClientId): (r: seq<ClientId>)
    ensures forall c :: c in r <==> c in clients && c != sender
  {
    if clients == [] then []
    else (if clients[0] == sender then [] else [clients[0]]) + Others(clients[1..], sender)
  }

  /** The handler of `message`: `socket.broadcast.emit('message', message)`. */
  function Broadcast(s: RelayState, sender: ClientId, payload: T.Payload): RelayState
  {
    s.(outbox := s.outbox + ToEach(Others(s.clients, sender), Message(payload)))
  }

  class SignalServer {
    var clients: seq<ClientId>
    var rooms: map<Room, seq<ClientId>>
    var outbox: seq<Delivery>

    function State(): RelayState
      reads this
    {
      RelayState(clients, rooms, outbox)
    }

    constructor ()
      ensures State() == EmptyRelay
    {
      clients, rooms, outbox := [], map[], [];
    }

    /** The `connection` event of a new socket: socket.io joins it to the room named by its id. */
    method Connection(id: ClientId)
      modifies this
      ensures State() == Connect(old(State()), id)
    {
      clients := clients + [id];
      JoinRoom(id, id);
    }

    /** `socket.emit(e)` on the socket `id`. */
    method EmitTo(id: ClientId, e: ServerEvent)
      modifies this
      ensures State() == old(State()).(outbox := old(outbox) + [Delivery(id, e)])
    {
      outbox := outbox + [Delivery(id, e)];
    }

    /** `ioServer.sockets.in(room).emit(e)`: one delivery to each current member. */
    method EmitToRoom(room: Room, e: ServerEvent)
      modifies this
      ensures outbox == old(outbox) + ToEach(Members(old(rooms), room), e)
      ensures rooms == old(rooms) && clients == old(clients)
    {
      var members := Members(rooms, room);
      var i := 0;
      while i < |members|
        invariant 0 <= i <= |members|
        invariant outbox == old(outbox) + ToEach(members[..i], e)
        invariant rooms == old(rooms) && clients == old(clients)
      {
        assert members[..i + 1] == members[..i] + [members[i]];
        ToEachAppend(members[..i], [members[i]], e);
        outbox := outbox + [Delivery(members[i], e)];
        i := i + 1;
      }
      assert members[..i] == members;
    }

    /** `socket.join(room)` */
    method JoinRoom(room: Room, id: ClientId)
      modifies this
      ensures State() == old(State()).(rooms := AddMember(old(rooms), room, id))
    {
      var members := Members(rooms, room);
      if id !in members {
        rooms := rooms[room := members + [id]];
      }
    }

    /** `handleCreateOrJoin(room, socket, ioServer)` for the socket `id`. */
    method HandleCreateOrJoin(room: Room, id: ClientId)
      modifies this
      ensures State() == CreateOrJoin(old(State()), room, id)
    {
      var clientsInRoom := Members(rooms, room);
      var numClients := |clientsInRoom|;
      if numClients == 0 {
        JoinRoom(room, id);
        EmitTo(id, Created(room, id));
      } else if numClients == 1 {
        EmitToRoom(room, Join(room));
        JoinRoom(room, id);
        EmitTo(id, Joined(room, id));
        EmitToRoom(room, Ready);
      } else {
        EmitTo(id, Full(room));
      }
    }

    /** `handleMessage(message, socket)` for the socket `sender`. */
    method HandleMessage(message: T.Payload, sender: ClientId)
      modifies this
      ensures State() == Broadcast(old(State()), sender, message)
    {
      var i := 0;
      ghost var sent: seq<ClientId> := [];
      while i < |clients|
        invariant 0 <= i <= |clients|
        invariant sent == Others(clients[..i], sender)
        invariant outbox == old(outbox) + ToEach(sent, Message(message))
        invariant rooms == old(rooms) && clients == old(clients)
      {
        assert clients[..i + 1] == clients[..i] + [clients[i]];
        OthersAppend(clients[..i], clients[i], sender);
        if clients[i] != sender {
          assert ToEach(sent + [clients[i]], Message(message))
              == ToEach(sent, Message(message)) + [Delivery(clients[i], Message(message))];
          outbox := outbox + [Delivery(clients[i], Message(message))];
          sent := sent + [clients[i]];
        }
        i := i + 1;
      }
      assert clients[..i] == clients;
    }

    /** `handleBye()`: only a debug log, which is off. */
    method HandleBye()
      modifies this
      ensures State() == old(State())
    {
    }

    /** app.js `log(...args)`: sends the arguments, prefixed, back to the calling socket.
        app.js defines this closure in its connection handler, but no handler calls it. */
    method LogTo(id: ClientId, args: seq<string>)
      modifies this
      ensures State() == old(State()).(outbox := old(outbox) + [Delivery(id, Log(["Message from server:"] + args))])
    {
      var line := ["Message from server:"];
      line := line + args;
      EmitTo(id, Log(line));
    }
  }

  lemma {:induction false} ToEachAppend(a: seq<ClientId>, b: seq<ClientId>, e: ServerEvent)
    ensures ToEach(a + b, e) == ToEach(a, e) + ToEach(b, e)
  {
    if a != [] {
      assert (a + b)[1..] == a[1..] + b;
      ToEachAppend(a[1..], b, e);
    } else {
      assert a + b == b;
    }
  }

  lemma {:induction false} OthersAppend(clients: seq<ClientId>, c: ClientId, sender: ClientId)
    ensures Others(clients + [c], sender) == Others(clients, sender) + (if c == sender then [] else [c])
  {
    if clients != [] {
      assert (clients + [c])[1..] == clients[1..] + [c];
      OthersAppend(clients[1..], c, sender);
    } else {
      assert clients + [c] == [c];
    }
  }

  /** The three outcomes of a request, with the exact deliveries in emission order. */
  lemma CreateOrJoinOutcome(s: RelayState, room: Room, id: ClientId)
    ensures var s' := CreateOrJoin(s, room, id);
      && s'.clients == s.clients
      && (Members(s.rooms, room) == [] ==>
            s'.rooms == s.rooms[room := [id]]
            && s'.outbox == s.outbox + [Delivery(id, Created(room, id))])
      && (forall a :: Members(s.rooms, room) == [a] && a != id ==>
            s'.rooms == s.rooms[room := [a, id]]
            && s'.outbox == s.outbox + [Delivery(a, Join(room)), Delivery(id, Joined(room, id)),
                                        Delivery(a, Ready), Delivery(id, Ready)])
      && (|Members(s.rooms, room)| >= 2 ==>
            s'.rooms == s.rooms && s'.outbox == s.outbox + [Delivery(id, Full(room))])
  {
    var members := Members(s.rooms, room);
    if members == [] {
      assert [] + [id] == [id];
    } else if |members| == 1 && members[0] != id {
      var a := members[0];
      var rooms' := AddMember(s.rooms, room, id);
      assert Members(rooms', room) == [a, id];
      assert ToEach([a], Join(room)) == [Delivery(a, Join(room))];
      assert ToEach([a, id], Ready) == [Delivery(a, Ready), Delivery(id, Ready)];
    }
  }

  /** A socket asking again for the room it is alone in is told `join` and `joined`;
      the room keeps one member. */
  lemma RequestOwnRoomAgain(s: RelayState, room: Room, a: ClientId)
    requires Members(s.rooms, room) == [a]
    ensures CreateOrJoin(s, room, a).rooms == s.rooms
    ensures CreateOrJoin(s, room, a).outbox
         == s.outbox + [Delivery(a, Join(room)), Delivery(a, Joined(room, a)), Delivery(a, Ready)]
  {
    assert ToEach([a], Join(room)) == [Delivery(a, Join(room))];
    assert ToEach([a], Ready) == [Delivery(a, Ready)];
  }

  predicate NoDuplicates(ids: seq<ClientId>)
  {
    forall i, j :: 0 <= i < j < |ids| ==> ids[i] != ids[j]
  }

  /** Every room that exists has one or two distinct members. */
  predicate ValidRooms(rooms: map<Room, seq<ClientId>>)
  {
    forall r :: r in rooms ==> 1 <= |rooms[r]| <= 2 && NoDuplicates(rooms[r])
  }

  lemma CreateOrJoinKeepsCapacity(s: RelayState, room: Room, id: ClientId)
    requires ValidRooms(s.rooms)
    ensures ValidRooms(CreateOrJoin(s, room, id).rooms)
  {
    var rooms' := CreateOrJoin(s, room, id).rooms;
    forall r | r in rooms' ensures 1 <= |rooms'[r]| <= 2 && NoDuplicates(rooms'[r]) {
      if r == room && |Members(s.rooms, room)| < 2 && id !in Members(s.rooms, room) {
        assert rooms'[r] == Members(s.rooms, room) + [id];
      }
    }
  }

  /** After the connections, the connected sockets are `ids` and nothing was sent. */
  lemma {:induction false} ConnectedClients(ids: seq<ClientId>)
    ensures Connected(ids).clients == ids && Connected(ids).outbox == []
  {
    if ids != [] {
      var pre := ids[..|ids| - 1];
      ConnectedClients(pre);
      assert ids == pre + [ids[|ids| - 1]];
    }
  }

  /** After the connections, every room holds just the socket it is named by. */
  lemma {:induction false} ConnectedRooms(ids: seq<ClientId>)
    ensures forall r :: r in Connected(ids).rooms ==> Connected(ids).rooms[r] == [r]
  {
    if ids != [] {
      ConnectedRooms(ids[..|ids| - 1]);
      ConnectOwnRoom(Connected(ids[..|ids| - 1]), ids[|ids| - 1]);
    }
  }

  /** After the connections, the rooms are exactly the sockets' own rooms. */
  lemma {:induction false} ConnectedRoomNames(ids: seq<ClientId>)
    ensures forall r :: r in Connected(ids).rooms <==> r in ids
  {
    if ids != [] {
      var pre, id := ids[..|ids| - 1], ids[|ids| - 1];
      ConnectedRoomNames(pre);
      ConnectedRooms(pre);
      ConnectOwnRoom(Connected(pre), id);
      assert ids == pre + [id];
      forall r ensures r in Connected(ids).rooms <==> r in ids {
        assert r in ids <==> r in pre || r == id;
      }
    }
  }

  /** Connecting adds the socket's own room, holding just it if it did not exist. */
  lemma ConnectOwnRoom(s: RelayState, id: ClientId)
    requires forall r :: r in s.rooms ==> s.rooms[r] == [r]
    ensures forall r :: r in Connect(s, id).rooms <==> r in s.rooms || r == id
    ensures forall r :: r in Connect(s, id).rooms ==> Connect(s, id).rooms[r] == [r]
  {
  }

  /** A request naming a connected socket's id finds that socket in the room:
      the socket is told `join`, and the requester `joined`. */
  lemma RequestNamingSocket(ids: seq<ClientId>, a: ClientId, b: ClientId)
    requires a in ids && b != a
    ensures CreateOrJoin(Connected(ids), a, b).rooms[a] == [a, b]
    ensures CreateOrJoin(Connected(ids), a, b).outbox
         == [Delivery(a, Join(a)), Delivery(b, Joined(a, b)), Delivery(a, Ready), Delivery(b, Ready)]
  {
    ConnectedClients(ids);
    ConnectedRoomNames(ids);
    ConnectedRooms(ids);
    CreateOrJoinOutcome(Connected(ids), a, b);
  }

  datatype Request = Request(room: Room, id: ClientId)

  /** The relay's state after a sequence of `create or join` requests, handled in order. */
  function Run(s: RelayState, reqs: seq<Request>): RelayState
  {
    if reqs == [] then s
    else
      var last := reqs[|reqs| - 1];
      CreateOrJoin(Run(s, reqs[..|reqs| - 1]), last.room, last.id)
  }

  /** Once the sockets have connected, no sequence of requests puts more than two sockets in a room. */
  lemma {:induction false} RunKeepsCapacity(ids: seq<ClientId>, reqs: seq<Request>)
    ensures ValidRooms(Run(Connected(ids), reqs).rooms)
    ensures forall r :: r in Run(Connected(ids), reqs).rooms ==> |Run(Connected(ids), reqs).rooms[r]| <= 2
  {
    if reqs != [] {
      RunKeepsCapacity(ids, reqs[..|reqs| - 1]);
      var last := reqs[|reqs| - 1];
      CreateOrJoinKeepsCapacity(Run(Connected(ids), reqs[..|reqs| - 1]), last.room, last.id);
    } else {
      ConnectedRooms(ids);
    }
  }

  /** The sockets that were sent `created` for `room`, in order. */
  function CreatedTo(outbox: seq<Delivery>, room: Room): seq<ClientId>
  {
    if outbox == [] then []
    else
      var d := outbox[|outbox| - 1];
      CreatedTo(outbox[..|outbox| - 1], room) + (if d.event.Created? && d.event.room == room then [d.to] else [])
  }

  /** The sockets that were sent `joined` for `room`, in order. */
  function JoinedTo(outbox: seq<Delivery>, room: Room): seq<ClientId>
  {
    if outbox == [] then []
    else
      var d := outbox[|outbox| - 1];
      JoinedTo(outbox[..|outbox| - 1], room) + (if d.event.Joined? && d.event.room == room then [d.to] else [])
  }

  lemma {:induction false} RolesAppend(a: seq<Delivery>, b: seq<Delivery>, room: Room)
    ensures CreatedTo(a + b, room) == CreatedTo(a, room) + CreatedTo(b, room)
    ensures JoinedTo(a + b, room) == JoinedTo(a, room) + JoinedTo(b, room)
    decreases |b|
  {
    if b == [] {
      assert a + b == a;
    } else {
      assert (a + b)[..|a + b| - 1] == a + b[..|b| - 1];
      RolesAppend(a, b[..|b| - 1], room);
    }
  }

  lemma {:induction false} NoRolesInRoomEmit(ids: seq<ClientId>, e: ServerEvent, room: Room)
    requires !e.Created? && !e.Joined?
    ensures CreatedTo(ToEach(ids, e), room) == [] && JoinedTo(ToEach(ids, e), room) == []
    decreases |ids|
  {
    if ids != [] {
      var t := ToEach(ids, e);
      assert t[..|t| - 1] == ToEach(ids[..|ids| - 1], e);
      NoRolesInRoomEmit(ids[..|ids| - 1], e, room);
    }
  }

  lemma OneDelivery(d: Delivery, room: Room)
    ensures CreatedTo([d], room) == (if d.event.Created? && d.event.room == room then [d.to] else [])
    ensures JoinedTo([d], room) == (if d.event.Joined? && d.event.room == room then [d.to] else [])
  {
    assert [d][..0] == [];
  }

  function RequestIds(reqs: seq<Request>): set<ClientId>
  {
    set i | 0 <= i < |reqs| :: reqs[i].id
  }

  /** Who was told what: in every requested room (one not named by a socket in
      `own`) the first member, and only it, got `created`, the second member, and
      only it, got `joined`; no room that does not exist got either. */
  ghost predicate RolesMatchRooms(s: RelayState, own: seq<ClientId>)
  {
    && ValidRooms(s.rooms)
    && (forall r :: r in s.rooms && r !in own ==>
          CreatedTo(s.outbox, r) == [s.rooms[r][0]] && JoinedTo(s.outbox, r) == s.rooms[r][1..])
    && (forall r :: r !in s.rooms ==> CreatedTo(s.outbox, r) == [] && JoinedTo(s.outbox, r) == [])
  }

  lemma RolesAfterCreated(s: RelayState, room: Room, id: ClientId)
    requires Members(s.rooms, room) == []
    ensures forall r :: CreatedTo(CreateOrJoin(s, room, id).outbox, r) == CreatedTo(s.outbox, r) + (if r == room then [id] else [])
    ensures forall r :: JoinedTo(CreateOrJoin(s, room, id).outbox, r) == JoinedTo(s.outbox, r)
  {
    var d := Delivery(id, Created(room, id));
    assert CreateOrJoin(s, room, id).outbox == s.outbox + [d];
    forall r ensures CreatedTo(s.outbox + [d], r) == CreatedTo(s.outbox, r) + (if r == room then [id] else [])
                  && JoinedTo(s.outbox + [d], r) == JoinedTo(s.outbox, r) {
      RolesAppend(s.outbox, [d], r);
      OneDelivery(d, r);
    }
  }

  lemma RolesAfterJoined(s: RelayState, room: Room, id: ClientId, a: ClientId)
    requires Members(s.rooms, room) == [a] && a != id
    ensures forall r :: CreatedTo(CreateOrJoin(s, room, id).outbox, r) == CreatedTo(s.outbox, r)
    ensures forall r :: JoinedTo(CreateOrJoin(s, room, id).outbox, r) == JoinedTo(s.outbox, r) + (if r == room then [id] else [])
  {
    CreateOrJoinOutcome(s, room, id);
    var d1, d2, d3, d4 := Delivery(a, Join(room)), Delivery(id, Joined(room, id)), Delivery(a, Ready), Delivery(id, Ready);
    var tail := [d1, d2, d3, d4];
    assert CreateOrJoin(s, room, id).outbox == s.outbox + tail;
    forall r ensures CreatedTo(s.outbox + tail, r) == CreatedTo(s.outbox, r)
                  && JoinedTo(s.outbox + tail, r) == JoinedTo(s.outbox, r) + (if r == room then [id] else []) {
      assert tail == [d1] + [d2] + [d3] + [d4];
      RolesAppend(s.outbox, tail, r);
      RolesAppend([d1] + [d2] + [d3], [d4], r);
      RolesAppend([d1] + [d2], [d3], r);
      RolesAppend([d1], [d2], r);
      OneDelivery(d1, r); OneDelivery(d2, r); OneDelivery(d3, r); OneDelivery(d4, r);
    }
  }

  lemma RolesAfterFull(s: RelayState, room: Room, id: ClientId)
    requires |Members(s.rooms, room)| >= 2
    ensures forall r :: CreatedTo(CreateOrJoin(s, room, id).outbox, r) == CreatedTo(s.outbox, r)
    ensures forall r :: JoinedTo(CreateOrJoin(s, room, id).outbox, r) == JoinedTo(s.outbox, r)
  {
    var d := Delivery(id, Full(room));
    assert CreateOrJoin(s, room, id).outbox == s.outbox + [d];
    forall r ensures CreatedTo(s.outbox + [d], r) == CreatedTo(s.outbox, r)
                  && JoinedTo(s.outbox + [d], r) == JoinedTo(s.outbox, r) {
      RolesAppend(s.outbox, [d], r);
      OneDelivery(d, r);
    }
  }

  lemma KeepsRolesCreated(s: RelayState, own: seq<ClientId>, room: Room, id: ClientId)
    requires RolesMatchRooms(s, own) && Members(s.rooms, room) == []
    ensures RolesMatchRooms(CreateOrJoin(s, room, id), own)
  {
    var s' := CreateOrJoin(s, room, id);
    CreateOrJoinKeepsCapacity(s, room, id);
    CreateOrJoinOutcome(s, room, id);
    RolesAfterCreated(s, room, id);
    assert room !in s.rooms;
    forall r | r in s'.rooms && r !in own
      ensures CreatedTo(s'.outbox, r) == [s'.rooms[r][0]] && JoinedTo(s'.outbox, r) == s'.rooms[r][1..]
    {
      if r == room {
        assert s'.rooms[r] == [id];
      }
    }
  }

  lemma KeepsRolesJoined(s: RelayState, own: seq<ClientId>, room: Room, id: ClientId, a: ClientId)
    requires RolesMatchRooms(s, own) && room !in own && Members(s.rooms, room) == [a] && a != id
    ensures RolesMatchRooms(CreateOrJoin(s, room, id), own)
  {
    var s' := CreateOrJoin(s, room, id);
    CreateOrJoinKeepsCapacity(s, room, id);
    CreateOrJoinOutcome(s, room, id);
    RolesAfterJoined(s, room, id, a);
    assert room in s.rooms && s.rooms[room][1..] == [];
    forall r | r in s'.rooms && r !in own
      ensures CreatedTo(s'.outbox, r) == [s'.rooms[r][0]] && JoinedTo(s'.outbox, r) == s'.rooms[r][1..]
    {
      if r == room {
        assert s'.rooms[r] == [a, id] && s'.rooms[r][1..] == [id];
      }
    }
  }

  lemma KeepsRolesFull(s: RelayState, own: seq<ClientId>, room: Room, id: ClientId)
    requires RolesMatchRooms(s, own) && |Members(s.rooms, room)| >= 2
    ensures RolesMatchRooms(CreateOrJoin(s, room, id), own)
  {
    CreateOrJoinOutcome(s, room, id);
    RolesAfterFull(s, room, id);
  }

  /** A request from a socket not yet in a requested room keeps the roles in line with the rooms. */
  lemma CreateOrJoinKeepsRoles(s: RelayState, own: seq<ClientId>, room: Room, id: ClientId)
    requires RolesMatchRooms(s, own)
    requires room !in own && id !in Members(s.rooms, room)
    ensures RolesMatchRooms(CreateOrJoin(s, room, id), own)
  {
    var members := Members(s.rooms, room);
    if |members| == 0 {
      KeepsRolesCreated(s, own, room, id);
    } else if |members| == 1 {
      assert members == [members[0]];
      KeepsRolesJoined(s, own, room, id, members[0]);
    } else {
      KeepsRolesFull(s, own, room, id);
    }
  }

  /** Every member a request adds is the requesting socket. */
  lemma CreateOrJoinMembers(s: RelayState, room: Room, id: ClientId)
    ensures forall r, c :: r in CreateOrJoin(s, room, id).rooms && c in CreateOrJoin(s, room, id).rooms[r] ==>
              c == id || (r in s.rooms && c in s.rooms[r])
  {
  }

  /** Every socket in a requested room of a run asked for a room in that run. */
  lemma {:induction false} RunMembersRequested(ids: seq<ClientId>, reqs: seq<Request>)
    ensures forall r, c :: r in Run(Connected(ids), reqs).rooms && r !in ids && c in Run(Connected(ids), reqs).rooms[r] ==>
              c in RequestIds(reqs)
  {
    if reqs != [] {
      var prefix := reqs[..|reqs| - 1];
      var last := reqs[|reqs| - 1];
      RunMembersRequested(ids, prefix);
      CreateOrJoinMembers(Run(Connected(ids), prefix), last.room, last.id);
      assert RequestIds(reqs) == RequestIds(prefix) + {last.id};
    } else {
      ConnectedRoomNames(ids);
    }
  }

  /** Runs after the connections in which every socket asks once (as the browser
      client does) and no request names a socket's id leave exactly one `created`
      per requested room, sent to its first member, and one `joined` exactly when
      the room has a second member, sent to that member. */
  lemma {:induction false} OneCreatorPerRoom(ids: seq<ClientId>, reqs: seq<Request>)
    requires forall i, j :: 0 <= i < j < |reqs| ==> reqs[i].id != reqs[j].id
    requires forall i :: 0 <= i < |reqs| ==> reqs[i].room !in ids
    ensures RolesMatchRooms(Run(Connected(ids), reqs), ids)
  {
    if reqs == [] {
      ConnectedClients(ids);
      ConnectedRooms(ids);
      ConnectedRoomNames(ids);
      forall r ensures CreatedTo([], r) == [] && JoinedTo([], r) == [] { }
    } else {
      var prefix := reqs[..|reqs| - 1];
      var last := reqs[|reqs| - 1];
      OneCreatorPerRoom(ids, prefix);
      RunMembersRequested(ids, prefix);
      var s := Run(Connected(ids), prefix);
      assert last.id !in RequestIds(prefix);
      assert last.id !in Members(s.rooms, last.room);
      CreateOrJoinKeepsRoles(s, ids, last.room, last.id);
    }
  }

  /** In such runs no requested room's `joined` went to more than one socket. */
  lemma JoinedAtMostOnce(ids: seq<ClientId>, reqs: seq<Request>)
    requires forall i, j :: 0 <= i < j < |reqs| ==> reqs[i].id != reqs[j].id
    requires forall i :: 0 <= i < |reqs| ==> reqs[i].room !in ids
    ensures forall r :: r in Run(Connected(ids), reqs).rooms && r !in ids ==> |JoinedTo(Run(Connected(ids), reqs).outbox, r)| <= 1
  {
    OneCreatorPerRoom(ids, reqs);
  }
}
