/**
 * The current `SimplePeerClientWrapper` (src/simple-peer-client-wrapper.js): the
 * same registry of connections as the older client, with five event callback
 * slots and caller-supplied simple-peer options merged over the defaults.
 */
module PeerClient {
  import opened Json
  import T = Transport
  import opened Registry

  /** The value of the last entry named `key`: the one a key-by-key copy leaves behind. */
  function LastValue(entries: T.Options, key: string): (r: Option<T.OptValue>)
    ensures r.Some? <==> exists i :: 0 <= i < |entries| && entries[i].0 == key
  {
    if entries == [] then None
    else if entries[|entries| - 1].0 == key then Some(entries[|entries| - 1].1)
    else LastValue(entries[..|entries| - 1], key)
  }

  /** `options[key] = value` for every `[key, value]` of `entries`, in order. */
  function Merge(o: T.Options, entries: T.Options): T.Options
  {
    if entries == [] then o
    else
      var last := entries[|entries| - 1];
      T.Assign(Merge(o, entries[..|entries| - 1]), last.0, last.1)
  }

  /** After the copy, a key carries the last value `entries` gives it, or its old one. */
  lemma {:induction false} MergeGet(o: T.Options, entries: T.Options, key: string)
    ensures T.Get(Merge(o, entries), key) == if LastValue(entries, key).Some? then LastValue(entries, key) else T.Get(o, key)
  {
    if entries != [] {
      var prefix := entries[..|entries| - 1];
      var last := entries[|entries| - 1];
      MergeGet(o, prefix, key);
      T.AssignGet(Merge(o, prefix), last.0, last.1, key);
    }
  }

  /** The copy keeps every key of `o` in its place and never duplicates a key. */
  lemma {:induction false} MergeKeys(o: T.Options, entries: T.Options)
    requires T.UniqueKeys(o)
    ensures |Merge(o, entries)| >= |o|
    ensures forall i :: 0 <= i < |o| ==> Merge(o, entries)[i].0 == o[i].0
    ensures T.UniqueKeys(Merge(o, entries))
  {
    if entries != [] {
      var prefix := entries[..|entries| - 1];
      var last := entries[|entries| - 1];
      MergeKeys(o, prefix);
      T.AssignKeys(Merge(o, prefix), last.0, last.1);
      T.AssignKeepsKeysUnique(Merge(o, prefix), last.0, last.1);
    }
  }

  /** The options `_getPeerOptions(initiator)` builds. */
  function PeerOptionsWith(initiator: bool, localStream: Option<T.Stream>, simplePeerOptions: Option<T.Options>): T.Options
  {
    if simplePeerOptions.Some? then Merge(PeerOptions(initiator, localStream), simplePeerOptions.value)
    else PeerOptions(initiator, localStream)
  }

  /** `initiator` comes first; it and `stream` carry the defaults unless the caller's
      options name them, and every other key is exactly what the caller's options say. */
  lemma PeerOptionsWithContents(initiator: bool, localStream: Option<T.Stream>, simplePeerOptions: Option<T.Options>, key: string)
    ensures var r := PeerOptionsWith(initiator, localStream, simplePeerOptions);
      var given := if simplePeerOptions.Some? then LastValue(simplePeerOptions.value, key) else None;
      && T.UniqueKeys(r) && r[0].0 == "initiator"
      && (given.Some? ==> T.Get(r, key) == given)
      && (given.None? && key == "initiator" ==> T.Get(r, key) == Some(T.OBool(initiator)))
      && (given.None? && key == "stream" ==>
            T.Get(r, key) == if localStream.Some? then Some(T.OStream(localStream.value)) else None)
      && (given.None? && key != "initiator" && key != "stream" ==> T.Get(r, key) == None)
  {
    var base := PeerOptions(initiator, localStream);
    PeerOptionsContents(initiator, localStream);
    if key != "initiator" && key != "stream" {
      assert forall i :: 0 <= i < |base| ==> base[i].0 != key;
    }
    if simplePeerOptions.Some? {
      MergeGet(base, simplePeerOptions.value, key);
      MergeKeys(base, simplePeerOptions.value);
    }
  }

  class SimplePeerClientWrapper {
    const socket: T.Socket
    const debug: bool
    var initPeerRequest: bool
    var localStream: Option<T.Stream>
    var connections: seq<Connection>
    var onConnectCallback: Option<T.Callback>
    var onDataCallback: Option<T.Callback>
    var onStreamCallback: Option<T.Callback>
    var onCloseCallback: Option<T.Callback>
    var onErrorCallback: Option<T.Callback>
    var simplePeerOptions: Option<T.Options>
    /** The calls made to application callbacks, in order. */
    var invocations: seq<T.Invocation>

    ghost predicate Valid()
      reads this
    {
      WellFormed(connections)
    }

    ghost function Peers(): set<T.Peer>
      reads this
    {
      PeersOf(connections)
    }

    /** The callback slots, in the order `setEventCallback` lists them. */
    function Callbacks(): (Option<T.Callback>, Option<T.Callback>, Option<T.Callback>, Option<T.Callback>, Option<T.Callback>)
      reads this
    {
      (onConnectCallback, onDataCallback, onStreamCallback, onCloseCallback, onErrorCallback)
    }

    /** The fields that only their own setter or handler changes. */
    function Settings(): (Option<T.Stream>, Option<T.Options>, seq<T.Invocation>)
      reads this
    {
      (localStream, simplePeerOptions, invocations)
    }

    /** The options a peer built now would get. */
    function CurrentOptions(initiator: bool): T.Options
      reads this
    {
      PeerOptionsWith(initiator, localStream, simplePeerOptions)
    }

    constructor (socket: T.Socket, debug: bool, simplePeerOptions: Option<T.Options>)
      ensures Valid()
      ensures this.socket == socket && this.debug == debug && this.simplePeerOptions == simplePeerOptions
      ensures !initPeerRequest && connections == [] && localStream == None
      ensures Callbacks() == (None, None, None, None, None) && invocations == []
    {
      this.socket := socket;
      this.debug := debug;
      initPeerRequest := false;
      localStream := None;
      connections := [];
      onConnectCallback := None;
      onDataCallback := None;
      onStreamCallback := None;
      onCloseCallback := None;
      onErrorCallback := None;
      this.simplePeerOptions := simplePeerOptions;
      invocations := [];
    }

    /** `setlocalStream(stream)` */
    method SetLocalStream(stream: T.Stream)
      modifies this
      ensures localStream == Some(stream)
      ensures connections == old(connections) && initPeerRequest == old(initPeerRequest)
      ensures Callbacks() == old(Callbacks()) && simplePeerOptions == old(simplePeerOptions) && invocations == old(invocations)
    {
      localStream := Some(stream);
    }

    /** `_getPeerOptions(initiator)`: the defaults, then every caller option copied over them. */
    method GetPeerOptions(initiator: bool) returns (options: T.Options)
      ensures options == CurrentOptions(initiator)
    {
      options := [("initiator", T.OBool(initiator))];
      if localStream.Some? {
        options := options + [("stream", T.OStream(localStream.value))];
      }
      assert options == PeerOptions(initiator, localStream);
      if simplePeerOptions.Some? {
        var entries := simplePeerOptions.value;
        if |entries| > 0 {
          ghost var base := options;
          var i := 0;
          while i < |entries|
            invariant 0 <= i <= |entries|
            invariant options == Merge(base, entries[..i])
          {
            assert entries[..i + 1][..i] == entries[..i];
            options := T.Assign(options, entries[i].0, entries[i].1);
            i := i + 1;
          }
          assert entries[..i] == entries;
        }
      }
    }

    /** `createPeerConnection(connection)` for the record at index `i`. */
    method CreatePeerConnection(i: nat)
      requires Valid() && i < |connections|
      modifies this
      ensures Valid()
      ensures |connections| == |old(connections)| && connections == old(connections)[i := connections[i]]
      ensures StartedFrom(old(connections)[i], connections[i])
      ensures fresh(connections[i].peer.value) && NewPeer(connections[i].peer.value, CurrentOptions(old(connections)[i].initiator))
      ensures initPeerRequest == old(initPeerRequest) && Callbacks() == old(Callbacks()) && Settings() == old(Settings())
    {
      var options := GetPeerOptions(connections[i].initiator);
      var peer := new T.Peer(options);
      WellFormedStart(connections, i, peer);
      connections := connections[i := connections[i].(peerStarted := true, peer := Some(peer))];
    }

    /** `attemptPeerStart(connection)` for the record at index `i`. */
    method AttemptPeerStart(i: nat)
      requires Valid() && i < |connections|
      modifies this
      ensures Valid()
      ensures |connections| == |old(connections)| && connections == old(connections)[i := connections[i]]
      ensures AttemptedWith(old(connections)[i], connections[i], CurrentOptions(old(connections)[i].initiator))
      ensures connections[i].peer != old(connections)[i].peer ==>
                fresh(connections[i].peer.value) && NewPeer(connections[i].peer.value, CurrentOptions(old(connections)[i].initiator))
      ensures initPeerRequest == old(initPeerRequest) && Callbacks() == old(Callbacks()) && Settings() == old(Settings())
    {
      if !connections[i].peerStarted && connections[i].roomReady {
        CreatePeerConnection(i);
      }
    }

    /** One iteration of the loop in `init()`, for the record at index `i`. Only an
        initiator record is attempted, so a new peer is built with `initiator: true`. */
    method InitEntry(i: nat)
      requires Valid() && i < |connections|
      modifies this, socket
      ensures Valid()
      ensures socket.emitted == old(socket.emitted) + [T.InitiatePeer(old(connections)[i].room)] && socket.closed == old(socket.closed)
      ensures |connections| == |old(connections)| && connections == old(connections)[i := connections[i]]
      ensures InitStepWith(old(connections)[i], connections[i], CurrentOptions(true))
      ensures initPeerRequest == old(initPeerRequest) && Callbacks() == old(Callbacks()) && Settings() == old(Settings())
    {
      socket.Emit(T.InitiatePeer(connections[i].room));
      if connections[i].initiator {
        AttemptPeerStart(i);
      }
    }

    /** `init()`: announce every record's room, in order, and start the initiator records. */
    method Init()
      requires Valid()
      modifies this, socket
      ensures Valid()
      ensures initPeerRequest
      ensures socket.emitted == old(socket.emitted) + Initiations(old(connections)) && socket.closed == old(socket.closed)
      ensures |connections| == |old(connections)|
      ensures forall j :: 0 <= j < |connections| ==> InitStepWith(old(connections)[j], connections[j], CurrentOptions(true))
      ensures Callbacks() == old(Callbacks()) && Settings() == old(Settings())
    {
      initPeerRequest := true;
      ghost var start := connections;
      ghost var emitted0 := socket.emitted;
      ghost var opts := CurrentOptions(true);
      var i := 0;
      while i < |connections|
        invariant Valid() && InitPrefix(start, connections, i, opts)
        invariant initPeerRequest && Callbacks() == old(Callbacks()) && Settings() == old(Settings()) && opts == CurrentOptions(true)
        invariant socket.emitted == emitted0 + Initiations(start[..i]) && socket.closed == old(socket.closed)
      {
        InitiationsSnoc(start, i);
        ghost var before := connections;
        InitEntry(i);
        InitPrefixStep(start, before, i, connections[i], opts);
        i := i + 1;
      }
      assert start[..i] == start;
    }

    /** `isPeerStarted()`: the loop keeps only the last record's flag. */
    method IsPeerStarted() returns (r: bool)
      ensures r == LastStarted(connections)
    {
      r := false;
      var i := 0;
      while i < |connections|
        invariant 0 <= i <= |connections|
        invariant r == LastStarted(connections[..i])
      {
        assert connections[..i + 1][i] == connections[i];
        r := connections[i].peerStarted;
        i := i + 1;
      }
      assert connections[..i] == connections;
    }

    /** `setEventCallback(event, callback)`: one slot per recognised event name. */
    method SetEventCallback(event: string, callback: T.Callback)
      modifies this
      ensures onConnectCallback == if event == "connect" then Some(callback) else old(onConnectCallback)
      ensures onDataCallback == if event == "data" then Some(callback) else old(onDataCallback)
      ensures onStreamCallback == if event == "stream" then Some(callback) else old(onStreamCallback)
      ensures onCloseCallback == if event == "close" then Some(callback) else old(onCloseCallback)
      ensures onErrorCallback == if event == "error" then Some(callback) else old(onErrorCallback)
      ensures connections == old(connections) && initPeerRequest == old(initPeerRequest) && Settings() == old(Settings())
    {
      if event == "connect" {
        onConnectCallback := Some(callback);
      } else if event == "data" {
        onDataCallback := Some(callback);
      } else if event == "stream" {
        onStreamCallback := Some(callback);
      } else if event == "close" {
        onCloseCallback := Some(callback);
      } else if event == "error" {
        onErrorCallback := Some(callback);
      }
    }

    /** `sendData(data)`: one envelope written to every started record whose peer is
        connected, in list order. */
    method SendData(data: Json)
      requires Valid()
      modifies Peers()
      ensures forall j :: 0 <= j < |connections| && connections[j].peer.Some? ==>
                var p := connections[j].peer.value;
                && p.written == old(p.written) + (if connections[j].peerStarted && old(p.connected) then [EnvelopeText(data, socket.id)] else [])
                && p.signals == old(p.signals) && p.connected == old(p.connected) && p.destroyed == old(p.destroyed)
    {
      var msg := EnvelopeText(data, socket.id);
      var i := 0;
      while i < |connections|
        invariant 0 <= i <= |connections|
        invariant forall j :: 0 <= j < |connections| && connections[j].peer.Some? ==>
                    var p := connections[j].peer.value;
                    && p.written == old(p.written) + (if j < i && connections[j].peerStarted && old(p.connected) then [msg] else [])
                    && p.signals == old(p.signals) && p.connected == old(p.connected) && p.destroyed == old(p.destroyed)
      {
        var record := connections[i];
        if record.peerStarted {
          var peerConn := record.peer.value;
          if peerConn.connected {
            peerConn.Write(msg);
          }
        }
        i := i + 1;
      }
    }

    /** One pass of the teardown loop: destroy the record's peer, then clear the record. */
    method ClearConnection(i: nat)
      requires Valid() && i < |connections| && connections[i].peer.Some?
      modifies this, connections[i].peer.value
      ensures Valid()
      ensures connections == old(connections)[i := old(connections)[i].(peer := None, peerStarted := false)]
      ensures ViewOf(old(connections)[i].peer.value) == old(ViewOf(connections[i].peer.value)).(connected := false, destroyed := true)
      ensures initPeerRequest == old(initPeerRequest) && Settings() == old(Settings()) && Callbacks() == old(Callbacks())
    {
      var peer := connections[i].peer.value;
      peer.Destroy();
      WellFormedClear(connections, i);
      connections := connections[i := connections[i].(peer := None, peerStarted := false)];
    }

    /** `terminateSession()`: destroy and clear every record's peer, then hang up and
        close the socket. A record without a peer aborts the loop with a TypeError,
        leaving the records before it cleared and the socket untouched. */
    method TerminateSession() returns (outcome: T.Outcome)
      requires Valid()
      modifies this, socket, Peers()
      ensures Valid()
      ensures |connections| == |old(connections)|
      ensures var k := FirstWithoutPeer(old(connections));
        && (forall j :: 0 <= j < k ==>
              connections[j] == old(connections)[j].(peer := None, peerStarted := false))
        && (forall j :: k <= j < |connections| ==> connections[j] == old(connections)[j])
        && (outcome == T.Completed <==> k == |connections|)
      ensures var k := FirstWithoutPeer(old(connections));
        forall j :: 0 <= j < k ==>
          ViewOf(old(connections)[j].peer.value) == old(ViewOf(connections[j].peer.value)).(connected := false, destroyed := true)
      ensures var k := FirstWithoutPeer(old(connections));
        forall j :: k <= j < |old(connections)| && old(connections)[j].peer.Some? ==>
          ViewOf(old(connections)[j].peer.value) == old(ViewOf(connections[j].peer.value))
      ensures outcome == T.Completed ==> socket.emitted == old(socket.emitted) + [T.Hangup] && socket.closed
      ensures outcome != T.Completed ==> outcome == T.TypeError && socket.emitted == old(socket.emitted) && socket.closed == old(socket.closed)
      ensures initPeerRequest == old(initPeerRequest) && Callbacks() == old(Callbacks()) && Settings() == old(Settings())
    {
      ghost var start := connections;
      var i := 0;
      while i < |connections|
        invariant Valid() && WellFormed(start) && ClearedPrefix(start, connections, i)
        invariant forall j :: 0 <= j < i ==>
                    ViewOf(start[j].peer.value) == old(ViewOf(start[j].peer.value)).(connected := false, destroyed := true)
        invariant forall j :: i <= j < |start| && start[j].peer.Some? ==>
                    ViewOf(start[j].peer.value) == old(ViewOf(start[j].peer.value))
        invariant socket.emitted == old(socket.emitted) && socket.closed == old(socket.closed)
        invariant initPeerRequest == old(initPeerRequest) && Callbacks() == old(Callbacks()) && Settings() == old(Settings())
      {
        if connections[i].peer.None? {
          return T.TypeError;
        }
        assert connections[i].peer.value in PeersOf(start);
        ClearedPrefixStep(start, connections, i);
        ClearConnection(i);
        i := i + 1;
      }
      socket.Emit(T.Hangup);
      socket.Close();
      return T.Completed;
    }

    /** `_sendSignal(data, connection)`: the peer's signal, serialised, with the record's room. */
    method SendSignal(data: Json, i: nat)
      requires i < |connections|
      modifies socket
      ensures socket.emitted == old(socket.emitted) + [T.SendingSignal(connections[i].room, Stringify(data))]
      ensures socket.closed == old(socket.closed)
    {
      socket.Emit(T.SendingSignal(connections[i].room, Stringify(data)));
    }

    /** `_handleConnection()`: the connect callback is called when one is set. */
    method HandleConnection()
      modifies this
      ensures invocations == old(invocations) + (if onConnectCallback.Some? then [T.Invocation(onConnectCallback.value, T.NoArg)] else [])
      ensures connections == old(connections) && initPeerRequest == old(initPeerRequest) && Callbacks() == old(Callbacks())
      ensures localStream == old(localStream) && simplePeerOptions == old(simplePeerOptions)
    {
      if onConnectCallback.Some? {
        invocations := invocations + [T.Invocation(onConnectCallback.value, T.NoArg)];
      }
    }

    /** `_handleStream(stream)`: calls the stream callback unguarded. */
    method HandleStream(stream: T.Stream) returns (outcome: T.Outcome)
      modifies this
      ensures outcome == T.TypeError <==> onStreamCallback.None?
      ensures outcome == T.TypeError || outcome == T.Completed
      ensures invocations == old(invocations) + (if onStreamCallback.Some? then [T.Invocation(onStreamCallback.value, T.StreamArg(stream))] else [])
      ensures connections == old(connections) && initPeerRequest == old(initPeerRequest) && Callbacks() == old(Callbacks())
      ensures localStream == old(localStream) && simplePeerOptions == old(simplePeerOptions)
    {
      if onStreamCallback.None? {
        return T.TypeError;
      }
      invocations := invocations + [T.Invocation(onStreamCallback.value, T.StreamArg(stream))];
      return T.Completed;
    }

    /** `_handleError(err)`: the error callback when one is set, otherwise only a console line. */
    method HandleError(err: string)
      modifies this
      ensures invocations == old(invocations) + (if onErrorCallback.Some? then [T.Invocation(onErrorCallback.value, T.ErrorArg(err))] else [])
      ensures connections == old(connections) && initPeerRequest == old(initPeerRequest) && Callbacks() == old(Callbacks())
      ensures localStream == old(localStream) && simplePeerOptions == old(simplePeerOptions)
    {
      if onErrorCallback.Some? {
        invocations := invocations + [T.Invocation(onErrorCallback.value, T.ErrorArg(err))];
      }
    }

    /** `_handleData(data)`: decode, then hand the value to the data callback unguarded. */
    method HandleData(bytes: Wire) returns (outcome: T.Outcome)
      modifies this
      ensures Parse(bytes).None? ==> outcome == T.SyntaxError && invocations == old(invocations)
      ensures Parse(bytes).Some? && onDataCallback.None? ==> outcome == T.TypeError && invocations == old(invocations)
      ensures Parse(bytes).Some? && onDataCallback.Some? ==>
                outcome == T.Completed
                && invocations == old(invocations) + [T.Invocation(onDataCallback.value, T.DataArg(Parse(bytes).value))]
      ensures connections == old(connections) && initPeerRequest == old(initPeerRequest) && Callbacks() == old(Callbacks())
      ensures localStream == old(localStream) && simplePeerOptions == old(simplePeerOptions)
    {
      var decoded := Parse(bytes);
      if decoded.None? {
        return T.SyntaxError;
      }
      if onDataCallback.None? {
        return T.TypeError;
      }
      invocations := invocations + [T.Invocation(onDataCallback.value, T.DataArg(decoded.value))];
      return T.Completed;
    }

    /** `_handleClose()`: the close callback when one is set. */
    method HandleClose()
      modifies this
      ensures invocations == old(invocations) + (if onCloseCallback.Some? then [T.Invocation(onCloseCallback.value, T.NoArg)] else [])
      ensures connections == old(connections) && initPeerRequest == old(initPeerRequest) && Callbacks() == old(Callbacks())
      ensures localStream == old(localStream) && simplePeerOptions == old(simplePeerOptions)
    {
      if onCloseCallback.Some? {
        invocations := invocations + [T.Invocation(onCloseCallback.value, T.NoArg)];
      }
    }
  }
}
