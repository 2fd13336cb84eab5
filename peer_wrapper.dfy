/**
 * `SimplePeerWrapper` (browser_client/src/simple-peer-wrapper.js): the public
 * facade over the current peer client. The socket client that builds that peer
 * client is not part of this model, so the facade is given the peer client it
 * would share.
 */
module PeerWrapper {
  import opened Json
  import T = Transport
  import opened Registry
  import P = PeerClient

  class SimplePeerWrapper {
    const peerClient: P.SimplePeerClientWrapper

    constructor (peerClient: P.SimplePeerClientWrapper)
      ensures this.peerClient == peerClient
    {
      this.peerClient := peerClient;
    }

    /** `connect()`: `peerClient.init()`. */
    method Connect()
      requires peerClient.Valid()
      modifies peerClient, peerClient.socket
      ensures peerClient.Valid()
      ensures peerClient.initPeerRequest
      ensures peerClient.socket.emitted == old(peerClient.socket.emitted) + Initiations(old(peerClient.connections))
      ensures |peerClient.connections| == |old(peerClient.connections)|
      ensures forall j :: 0 <= j < |peerClient.connections| ==>
                InitStepWith(old(peerClient.connections)[j], peerClient.connections[j], peerClient.CurrentOptions(true))
      ensures peerClient.Callbacks() == old(peerClient.Callbacks()) && peerClient.Settings() == old(peerClient.Settings())
    {
      peerClient.Init();
    }

    /** `isConnectionStarted()`: `peerClient.isPeerStarted()`. */
    method IsConnectionStarted() returns (r: bool)
      ensures r == LastStarted(peerClient.connections)
    {
      r := peerClient.IsPeerStarted();
    }

    /** `send(data)`: `peerClient.sendData(data)`. */
    method Send(data: Json)
      requires peerClient.Valid()
      modifies peerClient.Peers()
      ensures forall j :: 0 <= j < |peerClient.connections| && peerClient.connections[j].peer.Some? ==>
                var p := peerClient.connections[j].peer.value;
                && p.written == old(p.written) + (if peerClient.connections[j].peerStarted && old(p.connected)
                                                  then [EnvelopeText(data, peerClient.socket.id)] else [])
                && p.signals == old(p.signals) && p.connected == old(p.connected) && p.destroyed == old(p.destroyed)
    {
      peerClient.SendData(data);
    }

    /** `on(event, callback)`: `peerClient.setEventCallback(event, callback)`. */
    method On(event: string, callback: T.Callback)
      modifies peerClient
      ensures peerClient.Callbacks() == (
                if event == "connect" then Some(callback) else old(peerClient.onConnectCallback),
                if event == "data" then Some(callback) else old(peerClient.onDataCallback),
                if event == "stream" then Some(callback) else old(peerClient.onStreamCallback),
                if event == "close" then Some(callback) else old(peerClient.onCloseCallback),
                if event == "error" then Some(callback) else old(peerClient.onErrorCallback))
      ensures peerClient.connections == old(peerClient.connections) && peerClient.initPeerRequest == old(peerClient.initPeerRequest)
      ensures peerClient.Settings() == old(peerClient.Settings())
    {
      peerClient.SetEventCallback(event, callback);
    }
  }
}
