/**
 * `Signal` (browser_client/src/index.js): the public facade over the socket client.
 * Its `peerClient` is the socket client's own peer client, and each method
 * forwards to one peer client method.
 */
module SignalFacade {
  import opened Json
  import T = Transport
  import opened Registry
  import L = LegacyPeerClient
  import S = SocketClient

  class Signal {
    const socketClient: S.SocketIOClientWrapper
    const peerClient: L.SimplePeerClientWrapper

    ghost predicate Valid()
      reads this, socketClient, peerClient
    {
      peerClient == socketClient.peerClient && socketClient.Valid()
    }

    /** `new Signal(options)`: builds the socket client and shares its peer client. */
    constructor (stream: Option<T.Stream>, serverUrl: Option<string>, debug: Option<bool>, id: T.ClientId)
      ensures Valid() && fresh(socketClient) && fresh(peerClient)
      ensures peerClient.connections == [] && !peerClient.initPeerRequest
      ensures socketClient.socket.emitted == [T.CreateOrJoin(None)]
    {
      var sc := new S.SocketIOClientWrapper(stream, serverUrl, debug, id);
      socketClient := sc;
      peerClient := sc.peerClient;
    }

    /** `connect()`: `peerClient.init()`. */
    method Connect()
      requires Valid()
      modifies peerClient, peerClient.socket
      ensures Valid()
      ensures peerClient.initPeerRequest
      ensures peerClient.socket.emitted == old(peerClient.socket.emitted) + Initiations(old(peerClient.connections))
      ensures |peerClient.connections| == |old(peerClient.connections)|
      ensures forall j :: 0 <= j < |peerClient.connections| ==>
                InitStepWith(old(peerClient.connections)[j], peerClient.connections[j], PeerOptions(true, peerClient.localStream))
      ensures peerClient.Settings() == old(peerClient.Settings())
    {
      peerClient.Init();
    }

    /** `isConnectionStarted()`: `peerClient.isPeerStarted()`. */
    method IsConnectionStarted() returns (r: bool)
      ensures r == LastStarted(peerClient.connections)
    {
      r := peerClient.IsPeerStarted();
    }

    /** `send(data)`: `peerClient.sendData(data)`. */
    method Send(data: Json)
      requires Valid()
      modifies peerClient.Peers()
      ensures forall j :: 0 <= j < |peerClient.connections| && peerClient.connections[j].peer.Some? ==>
                var p := peerClient.connections[j].peer.value;
                && p.written == old(p.written) + (if peerClient.connections[j].peerStarted && old(p.connected)
                                                  then [EnvelopeText(data, peerClient.socket.id)] else [])
                && p.signals == old(p.signals) && p.connected == old(p.connected) && p.destroyed == old(p.destroyed)
    {
      peerClient.SendData(data);
    }

    /** `getData()`: `peerClient.getData()`, which is always null. */
    function GetData(): (r: Option<Json>)
      requires Valid()
      reads this, socketClient, peerClient
      ensures r == None
    {
      peerClient.GetData()
    }
  }
}
