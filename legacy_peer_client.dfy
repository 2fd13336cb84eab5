/**
 * The older `SimplePeerClientWrapper` (browser_client/src/peer-client.js): the
 * registry of connections, the guarded peer start, the `sendData` broadcast to
 * connected peers, and the session teardown.
 */
module LegacyPeerClient {
  import opened Json
  import T = Transport
  import opened Registry

  class SimplePeerClientWrapper {
    const socket: T.Socket
    const debug: bool
    var initPeerRequest: bool
    var localStream: Option<T.Stream>
    var incomingStream: Option<T.Stream>
    var newData: Option<Json>
    var connections: seq<Connection>
    var onDataCallback: Option<T.Callback>
    /** The calls made to application callbacks, in order. */
    var invocations: seq<T.Invocation>
    /** A plain property named `setlocalStream` that an owner assigned, hiding the method. */
    var setlocalStreamProperty: Option<T.Stream>

    ghost predicate Valid()
      reads this
    {
      WellFormed(connections) && newData == None
    }

    ghost function Peers(): set<T.Peer>
      reads this
    {
      PeersOf(connections)
    }

    /** The fields that only their own setter or handler changes. */
    function Settings(): (Option<T.Stream>, Option<T.Stream>, Option<Json>, Option<T.Callback>, seq<T.Invocation>, Option<T.Stream>)
      reads this
    {
      (localStream, incomingStream, newData, onDataCallback, invocations, setlocalStreamProperty)
    }

    constructor (socket: T.Socket, debug: bool)
      ensures Valid()
      ensures this.socket == socket && this.debug == debug
      ensures !initPeerRequest && connections == []
      ensures localStream == None && incomingStream == None && onDataCallback == None
      ensures invocations == [] && setlocalStreamProperty == None
    {
      this.socket := socket;
      this.debug := debug;
      initPeerRequest := false;
      localStream := None;
      incomingStream := None;
      newData := None;
      connections := [];
      onDataCallback := None;
      invocations := [];
      setlocalStreamProperty := None;
    }

    /** `setlocalStream(stream)`; once the name has been overwritten by a plain
        property, calling it throws. */
    method SetLocalStream(stream: T.Stream) returns (outcome: T.Outcome)
      modifies this
      ensures outcome == T.Completed <==> old(setlocalStreamProperty).None?
      ensures outcome == T.Completed ==> localStream == Some(stream)
      ensures outcome != T.Completed ==> outcome == T.TypeError && localStream == old(localStream)
      ensures connections == old(connections) && initPeerRequest == old(initPeerRequest)
      ensures incomingStream == old(incomingStream) && newData == old(newData) && onDataCallback == old(onDataCallback)
      ensures invocations == old(invocations) && setlocalStreamProperty == old(setlocalStreamProperty)
    {
      if setlocalStreamProperty.Some? {
        return T.TypeError;
      }
      localStream := Some(stream);
      return T.Completed;
    }

    /** `createPeerConnection(connection)` for the record at index `i`. */
    method CreatePeerConnection(i: nat)
      requires Valid() && i < |connections|
      modifies this
      ensures Valid()
      ensures |connections| == |old(connections)| && forall j :: 0 <= j < |connections| && j != i ==> connections[j] == old(connections)[j]
      ensures StartedFrom(old(connections)[i], connections[i])
      ensures fresh(connections[i].peer.value) && NewPeer(connections[i].peer.value, PeerOptions(old(connections)[i].initiator, localStream))
      ensures initPeerRequest == old(initPeerRequest) && Settings() == old(Settings())
    {
      var peer := new T.Peer(PeerOptions(connections[i].initiator, localStream));
      WellFormedStart(connections, i, peer);
      connections := connections[i := connections[i].(peerStarted := true, peer := Some(peer))];
    }

    /** `attemptPeerStart(connection)` for the record at index `i`. */
    method AttemptPeerStart(i: nat)
      requires Valid() && i < |connections|
      modifies this
      ensures Valid()
      ensures |connections| == |old(connections)| && forall j :: 0 <= j < |connections| && j != i ==> connections[j] == old(connections)[j]
      ensures Attempted(old(connections)[i], connections[i])
      ensures connections[i].peer != old(connections)[i].peer ==>
                connections[i].peer.Some? && fresh(connections[i].peer.value)
                && NewPeer(connections[i].peer.value, PeerOptions(old(connections)[i].initiator, localStream))
      ensures initPeerRequest == old(initPeerRequest) && Settings() == old(Settings())
    {
      if !connections[i].peerStarted && connections[i].roomReady {
        CreatePeerConnection(i);
      }
    }

    /** One iteration of the loop in `init()`, for the record at index `i`. Only an
        initiator record is attempted, so a new peer is built with `initiator: true`. */
    method InitEntry(i: nat)
      requires Valid() && i < |connections|
      modifies this, socket
      ensures Valid()
      ensures socket.emitted == old(socket.emitted) + [T.InitiatePeer(old(connections)[i].room)] && socket.closed == old(socket.closed)
      ensures |connections| == |old(connections)| && connections == old(connections)[i := connections[i]]
      ensures InitStepWith(old(connections)[i], connections[i], PeerOptions(true, localStream))
      ensures initPeerRequest == old(initPeerRequest) && Settings() == old(Settings())
    {
      socket.Emit(T.InitiatePeer(connections[i].room));
      if connections[i].initiator {
        AttemptPeerStart(i);
      }
    }

    /** `init()`: announce every record's room, in order, and start the initiator records. */
    method Init()
      requires Valid()
      modifies this, socket
      ensures Valid()
      ensures initPeerRequest
      ensures socket.emitted == old(socket.emitted) + Initiations(old(connections)) && socket.closed == old(socket.closed)
      ensures |connections| == |old(connections)|
      ensures forall j :: 0 <= j < |connections| ==> InitStepWith(old(connections)[j], connections[j], PeerOptions(true, localStream))
      ensures Settings() == old(Settings())
    {
      initPeerRequest := true;
      ghost var start := connections;
      ghost var emitted0 := socket.emitted;
      ghost var opts := PeerOptions(true, localStream);
      var i := 0;
      while i < |connections|
        invariant Valid() && InitPrefix(start, connections, i, opts)
        invariant initPeerRequest && Settings() == old(Settings()) && opts == PeerOptions(true, localStream)
        invariant socket.emitted == emitted0 + Initiations(start[..i]) && socket.closed == old(socket.closed)
      {
        InitiationsSnoc(start, i);
        ghost var before := connections;
        InitEntry(i);
        InitPrefixStep(start, before, i, connections[i], opts);
        i := i + 1;
      }
      assert start[..i] == start;
    }

    /** `isPeerStarted()`: the loop keeps only the last record's flag. */
    method IsPeerStarted() returns (r: bool)
      ensures r <==> connections != [] && connections[|connections| - 1].peerStarted
    {
      r := false;
      var i := 0;
      while i < |connections|
        invariant 0 <= i <= |connections|
        invariant r <==> i > 0 && connections[i - 1].peerStarted
      {
        r := connections[i].peerStarted;
        i := i + 1;
      }
    }

    /** `setEventCallback(event, callback)`: only the `data` event is recognised. */
    method SetEventCallback(event: string, callback: T.Callback)
      modifies this
      ensures onDataCallback == if event == "data" then Some(callback) else old(onDataCallback)
      ensures connections == old(connections) && initPeerRequest == old(initPeerRequest)
      ensures localStream == old(localStream) && incomingStream == old(incomingStream) && newData == old(newData)
      ensures invocations == old(invocations) && setlocalStreamProperty == old(setlocalStreamProperty)
    {
      if event == "data" {
        onDataCallback := Some(callback);
      }
    }

    /** `sendData(data)`: one envelope written to every started record whose peer is connected. */
    method SendData(data: Json)
      requires Valid()
      modifies Peers()
      ensures forall j :: 0 <= j < |connections| && connections[j].peer.Some? ==>
                var p := connections[j].peer.value;
                && p.written == old(p.written) + (if connections[j].peerStarted && old(p.connected) then [EnvelopeText(data, socket.id)] else [])
                && p.signals == old(p.signals) && p.connected == old(p.connected) && p.destroyed == old(p.destroyed)
    {
      var msg := EnvelopeText(data, socket.id);
      var i := 0;
      while i < |connections|
        invariant 0 <= i <= |connections|
        invariant forall j :: 0 <= j < |connections| && connections[j].peer.Some? ==>
                    var p := connections[j].peer.value;
                    && p.written == old(p.written) + (if j < i && connections[j].peerStarted && old(p.connected) then [msg] else [])
                    && p.signals == old(p.signals) && p.connected == old(p.connected) && p.destroyed == old(p.destroyed)
      {
        var record := connections[i];
        if record.peerStarted {
          var peerConn := record.peer.value;
          if peerConn.connected {
            peerConn.Write(msg);
          }
        }
        i := i + 1;
      }
    }

    /** `getData()`: `newData` is never assigned after construction, so this is always null. */
    function GetData(): (r: Option<Json>)
      requires Valid()
      reads this
      ensures r == None
    {
      if newData.Some? then newData else None
    }

    /** `getStream()`: the last stream a peer delivered; undefined before any. */
    function GetStream(): Option<T.Stream>
      reads this
    {
      incomingStream
    }

    /** `_sendSignal(data, connection)`: the peer's signal, serialised, with the record's room. */
    method SendSignal(data: Json, i: nat)
      requires i < |connections|
      modifies socket
      ensures socket.emitted == old(socket.emitted) + [T.SendingSignal(connections[i].room, Stringify(data))]
      ensures socket.closed == old(socket.closed)
    {
      socket.Emit(T.SendingSignal(connections[i].room, Stringify(data)));
    }

    /** `_handleStream(stream)` */
    method HandleStream(stream: T.Stream)
      modifies this
      ensures GetStream() == Some(stream)
      ensures connections == old(connections) && initPeerRequest == old(initPeerRequest)
      ensures localStream == old(localStream) && newData == old(newData) && onDataCallback == old(onDataCallback)
      ensures invocations == old(invocations) && setlocalStreamProperty == old(setlocalStreamProperty)
    {
      incomingStream := Some(stream);
    }

    /** `_handleData(data)`: decode, then hand the value to the data callback. */
    method HandleData(bytes: Wire) returns (outcome: T.Outcome)
      modifies this
      ensures Parse(bytes).None? ==> outcome == T.SyntaxError && invocations == old(invocations)
      ensures Parse(bytes).Some? && onDataCallback.None? ==> outcome == T.TypeError && invocations == old(invocations)
      ensures Parse(bytes).Some? && onDataCallback.Some? ==>
                outcome == T.Completed
                && invocations == old(invocations) + [T.Invocation(onDataCallback.value, T.DataArg(Parse(bytes).value))]
      ensures connections == old(connections) && initPeerRequest == old(initPeerRequest)
      ensures localStream == old(localStream) && incomingStream == old(incomingStream) && newData == old(newData)
      ensures onDataCallback == old(onDataCallback) && setlocalStreamProperty == old(setlocalStreamProperty)
    {
      var decoded := Parse(bytes);
      if decoded.None? {
        return T.SyntaxError;
      }
      if onDataCallback.None? {
        return T.TypeError;
      }
      invocations := invocations + [T.Invocation(onDataCallback.value, T.DataArg(decoded.value))];
      return T.Completed;
    }

    /** One pass of the teardown loop: destroy the record's peer, then clear the record. */
    method ClearConnection(i: nat)
      requires Valid() && i < |connections| && connections[i].peer.Some?
      modifies this, connections[i].peer.value
      ensures Valid()
      ensures connections == old(connections)[i := old(connections)[i].(peer := None, peerStarted := false)]
      ensures ViewOf(old(connections)[i].peer.value) == old(ViewOf(connections[i].peer.value)).(connected := false, destroyed := true)
      ensures initPeerRequest == old(initPeerRequest) && Settings() == old(Settings())
    {
      var peer := connections[i].peer.value;
      peer.Destroy();
      WellFormedClear(connections, i);
      connections := connections[i := connections[i].(peer := None, peerStarted := false)];
    }

    /** `_terminateSession()`: destroy and clear every record's peer, then hang up and
        close the socket. A record without a peer aborts the loop with a TypeError,
        leaving the records before it cleared and the socket untouched. */
    method TerminateSession() returns (outcome: T.Outcome)
      requires Valid()
      modifies this, socket, Peers()
      ensures Valid()
      ensures |connections| == |old(connections)|
      ensures var k := FirstWithoutPeer(old(connections));
        && (forall j :: 0 <= j < k ==>
              connections[j] == old(connections)[j].(peer := None, peerStarted := false))
        && (forall j :: k <= j < |connections| ==> connections[j] == old(connections)[j])
        && (outcome == T.Completed <==> k == |connections|)
      ensures var k := FirstWithoutPeer(old(connections));
        forall j :: 0 <= j < k ==>
          ViewOf(old(connections)[j].peer.value) == old(ViewOf(connections[j].peer.value)).(connected := false, destroyed := true)
      ensures var k := FirstWithoutPeer(old(connections));
        forall j :: k <= j < |old(connections)| && old(connections)[j].peer.Some? ==>
          ViewOf(old(connections)[j].peer.value) == old(ViewOf(connections[j].peer.value))
      ensures outcome == T.Completed ==> socket.emitted == old(socket.emitted) + [T.Hangup] && socket.closed
      ensures outcome != T.Completed ==> outcome == T.TypeError && socket.emitted == old(socket.emitted) && socket.closed == old(socket.closed)
      ensures initPeerRequest == old(initPeerRequest) && Settings() == old(Settings())
    {
      ghost var start := connections;
      var i := 0;
      while i < |connections|
        invariant Valid() && WellFormed(start) && ClearedPrefix(start, connections, i)
        invariant forall j :: 0 <= j < i ==>
                    ViewOf(start[j].peer.value) == old(ViewOf(start[j].peer.value)).(connected := false, destroyed := true)
        invariant forall j :: i <= j < |start| && start[j].peer.Some? ==>
                    ViewOf(start[j].peer.value) == old(ViewOf(start[j].peer.value))
        invariant socket.emitted == old(socket.emitted) && socket.closed == old(socket.closed)
        invariant initPeerRequest == old(initPeerRequest) && Settings() == old(Settings())
      {
        if connections[i].peer.None? {
          return T.TypeError;
        }
        assert connections[i].peer.value in PeersOf(start);
        ClearedPrefixStep(start, connections, i);
        ClearConnection(i);
        i := i + 1;
      }
      socket.Emit(T.Hangup);
      socket.Close();
      return T.Completed;
    }
  }
}
