/**
 * `SocketIOClientWrapper` (browser_client/src/socket-client.js): the browser side
 * of the signalling channel. It asks the relay for a room, records one connection
 * per pairing in the peer client's registry, and routes `initiate peer` and
 * `sending signal` messages to the record of their room.
 */
module SocketClient {
  import opened Json
  import T = Transport
  import opened Registry
  import L = LegacyPeerClient

  const DefaultServerUrl := "http://localhost:8081"

  class SocketIOClientWrapper {
    const debug: bool
    const socket: T.Socket
    const peerClient: L.SimplePeerClientWrapper

    ghost predicate Valid()
      reads this, peerClient
    {
      peerClient.socket == socket && peerClient.Valid()
    }

    /** `new SocketIOClientWrapper({stream, serverUrl, debug})`; an option left out is `None`.
        The socket id is assigned by the transport on connection. A given stream is
        stored in a property named `setlocalStream`, so the peer client's
        `localStream` stays undefined. */
    constructor (stream: Option<T.Stream>, serverUrl: Option<string>, debug: Option<bool>, id: T.ClientId)
      ensures Valid() && fresh(socket) && fresh(peerClient)
      ensures socket.serverUrl == (if serverUrl.Some? then serverUrl.value else DefaultServerUrl)
      ensures this.debug == (debug.Some? && debug.value)
      ensures socket.id == id && socket.emitted == [T.CreateOrJoin(None)] && !socket.closed
      ensures peerClient.connections == [] && !peerClient.initPeerRequest
      ensures peerClient.localStream == None && peerClient.setlocalStreamProperty == stream
      ensures peerClient.onDataCallback == None && peerClient.invocations == []
    {
      var d := if debug.Some? then debug.value else false;
      var url := if serverUrl.Some? then serverUrl.value else DefaultServerUrl;
      this.debug := d;
      var s := new T.Socket.Connect(url, id);
      socket := s;
      peerClient := new L.SimplePeerClientWrapper(s, d);
      new;
      if stream.Some? {
        peerClient.setlocalStreamProperty := stream;
      }
      StartSocketCommunication();
    }

    /** `_startSocketCommunication()`: `create or join` with no room argument. */
    method StartSocketCommunication()
      modifies socket
      ensures socket.emitted == old(socket.emitted) + [T.CreateOrJoin(None)] && socket.closed == old(socket.closed)
    {
      socket.Emit(T.CreateOrJoin(None));
    }

    /** `_handleCreated(room)` and `_handleFullRoom(room)` only log. */
    method HandleCreated(room: T.Room)
      ensures peerClient.connections == old(peerClient.connections) && socket.emitted == old(socket.emitted)
    {
    }

    method HandleFullRoom(room: T.Room)
      ensures peerClient.connections == old(peerClient.connections) && socket.emitted == old(socket.emitted)
    {
    }

    /** `_logConnection(room, initiator, roomReady, peerStarted)`: push one new record.
        Both callers pass `peerStarted = false`. */
    method LogConnection(room: T.Room, initiator: bool, roomReady: bool, peerStarted: bool)
      requires Valid() && !peerStarted
      modifies peerClient
      ensures Valid()
      ensures peerClient.connections == old(peerClient.connections) + [NewConnection(room, initiator, roomReady, peerStarted)]
      ensures peerClient.initPeerRequest == old(peerClient.initPeerRequest) && peerClient.Settings() == old(peerClient.Settings())
    {
      WellFormedAppend(peerClient.connections, NewConnection(room, initiator, roomReady, peerStarted));
      peerClient.connections := peerClient.connections + [NewConnection(room, initiator, roomReady, peerStarted)];
    }

    /** `_handleJoinRoom(room)`: another socket joined this client's room, so this
        client is the initiator of the pairing. */
    method HandleJoinRoom(room: T.Room)
      requires Valid()
      modifies peerClient, socket
      ensures Valid()
      ensures var appended := old(peerClient.connections) + [NewConnection(room, true, true, false)];
        && |peerClient.connections| == |appended|
        && (!old(peerClient.initPeerRequest) ==>
              peerClient.connections == appended && socket.emitted == old(socket.emitted) && !peerClient.initPeerRequest)
        && (old(peerClient.initPeerRequest) ==>
              && peerClient.initPeerRequest
              && socket.emitted == old(socket.emitted) + Initiations(appended)
              && (forall j :: 0 <= j < |appended| ==>
                    InitStepWith(appended[j], peerClient.connections[j], PeerOptions(true, peerClient.localStream))))
      ensures socket.closed == old(socket.closed) && peerClient.Settings() == old(peerClient.Settings())
    {
      LogConnection(room, true, true, false);
      if peerClient.initPeerRequest {
        peerClient.Init();
      }
    }

    /** `_handleJoinedRoom(room)`: this client joined a room that had one member. */
    method HandleJoinedRoom(room: T.Room)
      requires Valid()
      modifies peerClient, socket
      ensures Valid()
      ensures var appended := old(peerClient.connections) + [NewConnection(room, false, true, false)];
        && |peerClient.connections| == |appended|
        && (!old(peerClient.initPeerRequest) ==>
              peerClient.connections == appended && socket.emitted == old(socket.emitted) && !peerClient.initPeerRequest)
        && (old(peerClient.initPeerRequest) ==>
              && peerClient.initPeerRequest
              && socket.emitted == old(socket.emitted) + Initiations(appended)
              && (forall j :: 0 <= j < |appended| ==>
                    InitStepWith(appended[j], peerClient.connections[j], PeerOptions(true, peerClient.localStream))))
      ensures socket.closed == old(socket.closed) && peerClient.Settings() == old(peerClient.Settings())
    {
      LogConnection(room, false, true, false);
      if peerClient.initPeerRequest {
        peerClient.Init();
      }
    }

    /** `_findConnection(room)`: the loop overwrites its result on every match. */
    method FindConnection(room: T.Room) returns (r: Option<nat>)
      ensures r == FindLast(peerClient.connections, room)
    {
      var cs := peerClient.connections;
      r := None;
      var i := 0;
      while i < |cs|
        invariant 0 <= i <= |cs|
        invariant r == FindLast(cs[..i], room)
      {
        assert cs[..i + 1][..i] == cs[..i];
        if cs[i].room == room {
          r := Some(i);
        }
        i := i + 1;
      }
      assert cs[..i] == cs;
    }

    /** `_handleInitPeer(room)`: attempt a start on the room's record; with no
        record, `attemptPeerStart(null)` throws. */
    method HandleInitPeer(room: T.Room) returns (outcome: T.Outcome)
      requires Valid()
      modifies peerClient
      ensures Valid()
      ensures var found := FindLast(old(peerClient.connections), room);
        && (found.None? <==> outcome == T.TypeError)
        && (found.None? ==> peerClient.connections == old(peerClient.connections))
        && (found.Some? ==>
              && outcome == T.Completed
              && |peerClient.connections| == |old(peerClient.connections)|
              && peerClient.connections == old(peerClient.connections)[found.value := peerClient.connections[found.value]]
              && Attempted(old(peerClient.connections)[found.value], peerClient.connections[found.value])
              && (peerClient.connections[found.value].peer != old(peerClient.connections)[found.value].peer ==>
                    peerClient.connections[found.value].peer.Some? && fresh(peerClient.connections[found.value].peer.value)
                    && NewPeer(peerClient.connections[found.value].peer.value,
                               PeerOptions(old(peerClient.connections)[found.value].initiator, peerClient.localStream))))
      ensures peerClient.initPeerRequest == old(peerClient.initPeerRequest) && peerClient.Settings() == old(peerClient.Settings())
    {
      var found := FindConnection(room);
      if found.None? {
        return T.TypeError;
      }
      peerClient.AttemptPeerStart(found.value);
      return T.Completed;
    }

    /** `_handleSendSignal({room, data})`: feed the signal to the room's peer, creating
        the peer first when the record is not started. With no record, reading
        `peerStarted` of `null` throws. */
    method HandleSendSignal(room: T.Room, data: Wire) returns (outcome: T.Outcome)
      requires Valid()
      modifies peerClient, peerClient.Peers()
      ensures Valid()
      ensures var found := FindLast(old(peerClient.connections), room);
        && (found.None? <==> outcome == T.TypeError)
        && (found.None? ==> peerClient.connections == old(peerClient.connections))
        && (found.Some? ==>
              var i := found.value;
              var before := old(peerClient.connections)[i];
              && outcome == T.Completed
              && |peerClient.connections| == |old(peerClient.connections)|
              && peerClient.connections == old(peerClient.connections)[i := peerClient.connections[i]]
              && peerClient.connections[i].peerStarted && peerClient.connections[i].peer.Some?
              && var p := peerClient.connections[i].peer.value;
              && (before.peerStarted ==>
                    && peerClient.connections[i] == before && p.signals == old(p.signals) + [data]
                    && p.written == old(p.written) && p.connected == old(p.connected) && p.destroyed == old(p.destroyed))
              && (!before.peerStarted ==>
                    StartedFrom(before, peerClient.connections[i]) && fresh(p)
                    && p.options == PeerOptions(before.initiator, peerClient.localStream) && p.signals == [data]
                    && p.written == [] && !p.connected && !p.destroyed))
      ensures var found := FindLast(old(peerClient.connections), room);
        forall j :: 0 <= j < |old(peerClient.connections)| && old(peerClient.connections)[j].peer.Some?
                    && (found.None? || j != found.value) ==>
          var p := old(peerClient.connections)[j].peer.value;
          p.signals == old(p.signals) && p.written == old(p.written)
          && p.connected == old(p.connected) && p.destroyed == old(p.destroyed)
      ensures peerClient.initPeerRequest == old(peerClient.initPeerRequest) && peerClient.Settings() == old(peerClient.Settings())
    {
      var found := FindConnection(room);
      if found.None? {
        return T.TypeError;
      }
      var i := found.value;
      assert forall j :: 0 <= j < |peerClient.connections| && j != i && peerClient.connections[j].peer.Some?
                         && peerClient.connections[i].peer.Some? ==>
                           peerClient.connections[j].peer != peerClient.connections[i].peer;
      if !peerClient.connections[i].peerStarted {
        peerClient.CreatePeerConnection(i);
        peerClient.connections[i].peer.value.Signal(data);
      } else {
        peerClient.connections[i].peer.value.Signal(data);
      }
      return T.Completed;
    }
  }
}
