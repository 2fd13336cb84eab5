/**
 * The early single-peer client (browser_client/src/webrtc_peer_client.js): one
 * simple-peer connection driven by module-level flags. The page joins room `foo`
 * on load; `created`, `join` and `joined` set the flags; the local camera stream
 * and `maybeStart` create the peer; `stop` tears it down.
 */
module WebRtcClient {
  import opened Json
  import T = Transport
  import Turn

  const ServerUrl := "http://localhost:80"
  const RoomName := "foo"

  /** The options `createPeerConnection(isInit)` passes to `new Peer`: the `stream`
      key is always written, and holds `undefined` before a local stream exists. */
  function SinglePeerOptions(isInit: bool, localStream: Option<T.Stream>): (r: T.Options)
    ensures T.Get(r, "initiator") == Some(T.OBool(isInit))
    ensures T.Get(r, "stream") == Some(if localStream.Some? then T.OStream(localStream.value) else T.OUndefined)
  {
    assert "initiator" != "stream" by { assert "initiator"[0] != "stream"[0]; }
    [("initiator", T.OBool(isInit)), ("stream", if localStream.Some? then T.OStream(localStream.value) else T.OUndefined)]
  }

  /** What `peer.destroy()` leaves behind: the peer is torn down and keeps the
      signals it was given and the messages written to it. */
  twostate predicate Destroyed(p: T.Peer)
    reads p
  {
    p.destroyed && !p.connected && p.signals == old(p.signals) && p.written == old(p.written)
  }

  /** The module-level state of the page. */
  class WebRtcPeerClient {
    const socket: T.Socket
    const turn: Turn.TurnConfig
    var peer: Option<T.Peer>
    var localStream: Option<T.Stream>
    var isChannelReady: bool
    var isInitiator: bool
    var isStarted: bool

    /** Every handler keeps this: a started session has a peer. */
    predicate Valid()
      reads this
    {
      isStarted ==> peer.Some?
    }

    /** The peer, as a frame. */
    function PeerSet(): set<T.Peer>
      reads this
    {
      if peer.Some? then {peer.value} else {}
    }

    /** Loading the page: connect, ask for room `foo` (the room name is not empty),
        and run the TURN check for the page's hostname. */
    constructor Load(id: T.ClientId, hostname: string)
      ensures Valid() && fresh(socket) && fresh(turn)
      ensures socket.serverUrl == ServerUrl && socket.id == id && !socket.closed
      ensures socket.emitted == [T.CreateOrJoin(Some(RoomName))]
      ensures peer == None && localStream == None && !isChannelReady && !isInitiator && !isStarted
      ensures turn.iceServers == [Turn.StunServer]
      ensures turn.requests == if Turn.ShouldRequestTurn(hostname) then [Turn.TurnServiceUrl] else []
    {
      socket := new T.Socket.Connect(ServerUrl, id);
      turn := new Turn.TurnConfig();
      peer := None;
      localStream := None;
      isChannelReady := false;
      isInitiator := false;
      isStarted := false;
      new;
      if RoomName != "" {
        socket.Emit(T.CreateOrJoin(Some(RoomName)));
      }
      Turn.InitialHasNoTurn();
      turn.CheckHostname(hostname);
    }

    /** `created`: this page is the first in the room. */
    method HandleCreated(room: T.Room)
      modifies this
      ensures isInitiator
      ensures peer == old(peer) && localStream == old(localStream)
      ensures isChannelReady == old(isChannelReady) && isStarted == old(isStarted)
    {
      isInitiator := true;
    }

    /** `full`: only logs. */
    method HandleFull(room: T.Room)
      ensures peer == old(peer) && isInitiator == old(isInitiator)
      ensures isChannelReady == old(isChannelReady) && isStarted == old(isStarted)
    {
    }

    /** `join` and `joined`: the room now has two members. */
    method HandleJoin(room: T.Room)
      modifies this
      ensures isChannelReady
      ensures peer == old(peer) && localStream == old(localStream)
      ensures isInitiator == old(isInitiator) && isStarted == old(isStarted)
    {
      isChannelReady := true;
    }

    method HandleJoined(room: T.Room)
      modifies this
      ensures isChannelReady
      ensures peer == old(peer) && localStream == old(localStream)
      ensures isInitiator == old(isInitiator) && isStarted == old(isStarted)
    {
      isChannelReady := true;
    }

    /** `sendMessage(message)` */
    method SendMessage(message: T.Payload)
      modifies socket
      ensures socket.emitted == old(socket.emitted) + [T.Message(message)] && socket.closed == old(socket.closed)
    {
      socket.Emit(T.Message(message));
    }

    /** `createPeerConnection(isInit)`: a new peer replaces whatever `peer` held. */
    method CreatePeerConnection(isInit: bool)
      modifies this
      ensures peer.Some? && fresh(peer.value)
      ensures peer.value.options == SinglePeerOptions(isInit, localStream)
      ensures !peer.value.connected && peer.value.signals == [] && peer.value.written == [] && !peer.value.destroyed
      ensures localStream == old(localStream) && isChannelReady == old(isChannelReady)
      ensures isInitiator == old(isInitiator) && isStarted == old(isStarted)
    {
      var p := new T.Peer(SinglePeerOptions(isInit, localStream));
      peer := Some(p);
    }

    /** `maybeStart()`: start a peer only when none is started, the local stream
        exists and the room has two members. */
    method MaybeStart()
      requires Valid()
      modifies this
      ensures Valid()
      ensures var go := !old(isStarted) && old(localStream).Some? && old(isChannelReady);
        && (go ==> isStarted && peer.Some? && fresh(peer.value) && peer.value.options == SinglePeerOptions(isInitiator, localStream)
                   && !peer.value.connected && peer.value.signals == [] && peer.value.written == [] && !peer.value.destroyed)
        && (!go ==> peer == old(peer) && isStarted == old(isStarted))
      ensures localStream == old(localStream) && isChannelReady == old(isChannelReady) && isInitiator == old(isInitiator)
    {
      if !isStarted && localStream.Some? && isChannelReady {
        CreatePeerConnection(isInitiator);
        isStarted := true;
      }
    }

    /** `gotStream(stream)`: keep the stream, announce it, and let the initiator start. */
    method GotStream(stream: T.Stream)
      requires Valid()
      modifies this, socket
      ensures Valid()
      ensures localStream == Some(stream)
      ensures socket.emitted == old(socket.emitted) + [T.Message(T.Text("got user media"))] && socket.closed == old(socket.closed)
      ensures var go := old(isInitiator) && !old(isStarted) && old(isChannelReady);
        && (go ==> isStarted && peer.Some? && fresh(peer.value) && peer.value.options == SinglePeerOptions(true, Some(stream)))
        && (!go ==> peer == old(peer) && isStarted == old(isStarted))
      ensures isChannelReady == old(isChannelReady) && isInitiator == old(isInitiator)
    {
      localStream := Some(stream);
      SendMessage(T.Text("got user media"));
      if isInitiator {
        MaybeStart();
      }
    }

    /** `stop()`: the flag is cleared first, then `peer.destroy()` throws when there is no peer. */
    method Stop() returns (outcome: T.Outcome)
      modifies this, PeerSet()
      ensures !isStarted && peer == None
      ensures outcome == T.TypeError <==> old(peer).None?
      ensures outcome == T.TypeError || outcome == T.Completed
      ensures old(peer).Some? ==> Destroyed(old(peer).value)
      ensures localStream == old(localStream) && isChannelReady == old(isChannelReady) && isInitiator == old(isInitiator)
    {
      isStarted := false;
      if peer.None? {
        return T.TypeError;
      }
      peer.value.Destroy();
      peer := None;
      return T.Completed;
    }

    /** `hangup()`, run when the peer closes: stop, then say `bye`. */
    method Hangup() returns (outcome: T.Outcome)
      modifies this, PeerSet(), socket
      ensures Valid() && peer == None
      ensures outcome == T.TypeError <==> old(peer).None?
      ensures outcome == T.Completed ==> socket.emitted == old(socket.emitted) + [T.Message(T.Text("bye"))]
      ensures outcome != T.Completed ==> outcome == T.TypeError && socket.emitted == old(socket.emitted)
      ensures socket.closed == old(socket.closed)
      ensures old(peer).Some? ==> Destroyed(old(peer).value)
      ensures localStream == old(localStream) && isChannelReady == old(isChannelReady) && isInitiator == old(isInitiator)
    {
      outcome := Stop();
      if outcome == T.Completed {
        SendMessage(T.Text("bye"));
      }
    }

    /** `handleRemoteHangup()`: stop, then give up the initiator role. */
    method HandleRemoteHangup() returns (outcome: T.Outcome)
      modifies this, PeerSet()
      ensures Valid() && peer == None
      ensures outcome == T.TypeError <==> old(peer).None?
      ensures outcome == T.Completed ==> !isInitiator
      ensures outcome != T.Completed ==> outcome == T.TypeError && isInitiator == old(isInitiator)
      ensures old(peer).Some? ==> Destroyed(old(peer).value)
      ensures localStream == old(localStream) && isChannelReady == old(isChannelReady)
    {
      outcome := Stop();
      if outcome == T.Completed {
        isInitiator := false;
      }
    }

    /** The `message` handler. Reading `message.type` of `null` throws; `got user media`
        may start the peer; a signal goes to the peer, which is created first when
        there is none; `bye` hangs up only while started. */
    method HandleMessage(message: T.Payload) returns (outcome: T.Outcome)
      requires Valid()
      modifies this, PeerSet(), socket
      ensures Valid()
      ensures socket.emitted == old(socket.emitted) && socket.closed == old(socket.closed)
      ensures localStream == old(localStream) && isChannelReady == old(isChannelReady)
      ensures message == T.OtherValue(JNull) ==>
                outcome == T.TypeError && peer == old(peer) && isStarted == old(isStarted) && isInitiator == old(isInitiator)
      ensures message == T.Text("got user media") ==>
                outcome == T.Completed
                && (var go := !old(isStarted) && old(localStream).Some? && old(isChannelReady);
                    && (go ==> isStarted && peer.Some? && fresh(peer.value)
                               && peer.value.options == SinglePeerOptions(isInitiator, localStream)
                               && !peer.value.connected && peer.value.signals == [] && !peer.value.destroyed)
                    && (!go ==> peer == old(peer) && isStarted == old(isStarted)))
      ensures message.SignalMessage? ==>
                && outcome == T.Completed && peer.Some? && isStarted == old(isStarted)
                && (old(peer).Some? ==> peer == old(peer) && peer.value.signals == old(peer.value.signals) + [message.data]
                                        && peer.value.written == old(peer.value.written)
                                        && peer.value.connected == old(peer.value.connected)
                                        && peer.value.destroyed == old(peer.value.destroyed))
                && (old(peer).None? ==> fresh(peer.value) && peer.value.options == SinglePeerOptions(isInitiator, localStream)
                                        && peer.value.signals == [message.data] && peer.value.written == []
                                        && !peer.value.connected && !peer.value.destroyed)
      ensures message == T.Text("bye") && old(isStarted) ==>
                outcome == T.Completed && peer == None && !isStarted && !isInitiator && Destroyed(old(peer).value)
      ensures message == T.Text("bye") && !old(isStarted) ==> outcome == T.Completed && peer == old(peer) && !isStarted
      ensures message != T.OtherValue(JNull) && message != T.Text("got user media") && !message.SignalMessage?
              && message != T.Text("bye") ==>
                outcome == T.Completed && peer == old(peer) && isStarted == old(isStarted)
      ensures !message.SignalMessage? && old(peer).Some? && !(message == T.Text("bye") && old(isStarted)) ==>
                unchanged(old(peer).value)
      ensures isInitiator != old(isInitiator) ==> message == T.Text("bye")
    {
      if message == T.OtherValue(JNull) {
        return T.TypeError;
      }
      if message == T.Text("got user media") {
        MaybeStart();
      } else if message.SignalMessage? {
        if peer.None? {
          CreatePeerConnection(isInitiator);
          peer.value.Signal(message.data);
        } else {
          peer.value.Signal(message.data);
        }
      } else if message == T.Text("bye") && isStarted {
        outcome := HandleRemoteHangup();
        return;
      }
      return T.Completed;
    }

    /** `window.onbeforeunload`: say `bye`. */
    method Unload()
      modifies socket
      ensures socket.emitted == old(socket.emitted) + [T.Message(T.Text("bye"))] && socket.closed == old(socket.closed)
    {
      SendMessage(T.Text("bye"));
    }

    /** `sendSignal(data)`: the signal, serialised, inside a `sending signal` message. */
    method SendSignal(data: Json)
      modifies socket
      ensures socket.emitted == old(socket.emitted) + [T.Message(T.SignalMessage(Stringify(data)))]
      ensures socket.closed == old(socket.closed)
    {
      SendMessage(T.SignalMessage(Stringify(data)));
    }
  }
}
