/**
 * The client-side connection registry shared by both peer clients: one record per
 * room this client was paired in, with the simple-peer handle once it exists.
 * The JavaScript records are mutable objects reached by reference; here they are
 * values in a sequence, and a reference to a record is its index.
 */
module Registry {
  import opened Json
  import T = Transport

  /** `{room, initiator, roomReady, peerStarted, peer}`; a record that never had a
      peer (or whose peer was set to `null`) has `peer == None`. */
  datatype Connection = Connection(room: T.Room, initiator: bool, roomReady: bool, peerStarted: bool, peer: Option<T.Peer>)

  /** The record `_logConnection` pushes: it has no `peer` property. */
  function NewConnection(room: T.Room, initiator: bool, roomReady: bool, peerStarted: bool): Connection
  {
    Connection(room, initiator, roomReady, peerStarted, None)
  }

  /** The options `createPeerConnection` hands to `new Peer` (browser_client/src/peer-client.js),
      and the ones `_getPeerOptions` starts from (src/simple-peer-client-wrapper.js):
      `initiator`, then `stream` only when a local stream is defined. */
  function PeerOptions(initiator: bool, localStream: Option<T.Stream>): T.Options
  {
    [("initiator", T.OBool(initiator))] + (if localStream.Some? then [("stream", T.OStream(localStream.value))] else [])
  }

  /** The options hold `initiator`, first, and hold `stream` exactly when a local
      stream is defined; no key occurs twice. */
  lemma PeerOptionsContents(initiator: bool, localStream: Option<T.Stream>)
    ensures T.Get(PeerOptions(initiator, localStream), "initiator") == Some(T.OBool(initiator))
    ensures T.Get(PeerOptions(initiator, localStream), "stream")
         == if localStream.Some? then Some(T.OStream(localStream.value)) else None
    ensures T.UniqueKeys(PeerOptions(initiator, localStream))
    ensures PeerOptions(initiator, localStream)[0].0 == "initiator"
  {
    assert "initiator" != "stream" by { assert "initiator"[0] != "stream"[0]; }
  }

  /** The guard of `attemptPeerStart`. */
  predicate ReadyToStart(c: Connection)
  {
    !c.peerStarted && c.roomReady
  }

  /** The two registry invariants every operation keeps: a record is started exactly
      when it holds a peer, and no two records share a peer. */
  predicate WellFormed(cs: seq<Connection>)
  {
    && (forall i :: 0 <= i < |cs| ==> (cs[i].peerStarted <==> cs[i].peer.Some?))
    && (forall i, j :: 0 <= i < j < |cs| && cs[i].peer.Some? && cs[j].peer.Some? ==> cs[i].peer != cs[j].peer)
  }

  ghost function PeersOf(cs: seq<Connection>): set<T.Peer>
  {
    set i | 0 <= i < |cs| && cs[i].peer.Some? :: cs[i].peer.value
  }

  /** What a peer records, apart from its options. */
  datatype PeerView = PeerView(connected: bool, signals: seq<Wire>, written: seq<Wire>, destroyed: bool)

  ghost function ViewOf(p: T.Peer): PeerView
    reads p
  {
    PeerView(p.connected, p.signals, p.written, p.destroyed)
  }

  /** `p` is a peer just built by `new Peer(opts)`. */
  ghost predicate NewPeer(p: T.Peer, opts: T.Options)
    reads p
  {
    p.options == opts && !p.connected && p.signals == [] && p.written == [] && !p.destroyed
  }

  /** `createPeerConnection` turned `before` into `after`: the record is marked
      started and holds a peer; nothing else changed. */
  predicate StartedFrom(before: Connection, after: Connection)
  {
    after.peer.Some? && after == before.(peerStarted := true, peer := after.peer)
  }

  /** `attemptPeerStart`: a record that is ready is started, any other is left as it was. */
  predicate Attempted(before: Connection, after: Connection)
  {
    if ReadyToStart(before) then StartedFrom(before, after) else after == before
  }

  /** One iteration of `init`: only an initiator record is attempted. */
  predicate InitStep(before: Connection, after: Connection)
  {
    if before.initiator then Attempted(before, after) else after == before
  }

  /** `attemptPeerStart` and `init`, with the options the new peer was built with. */
  predicate AttemptedWith(before: Connection, after: Connection, opts: T.Options)
  {
    Attempted(before, after) && (after.peer != before.peer ==> after.peer.Some? && after.peer.value.options == opts)
  }

  predicate InitStepWith(before: Connection, after: Connection, opts: T.Options)
  {
    InitStep(before, after) && (after.peer != before.peer ==> after.peer.Some? && after.peer.value.options == opts)
  }

  /** `init` has visited the first `i` records of `start`: each of those took one
      step, the ones after are as they were. */
  predicate InitPrefix(start: seq<Connection>, cs: seq<Connection>, i: nat, opts: T.Options)
  {
    && |cs| == |start| && i <= |cs|
    && (forall j :: 0 <= j < i ==> InitStepWith(start[j], cs[j], opts))
    && (forall j :: i <= j < |cs| ==> cs[j] == start[j])
  }

  lemma InitPrefixStep(start: seq<Connection>, cs: seq<Connection>, i: nat, c: Connection, opts: T.Options)
    requires InitPrefix(start, cs, i, opts) && i < |cs|
    requires InitStepWith(start[i], c, opts)
    ensures InitPrefix(start, cs[i := c], i + 1, opts)
  {
  }

  /** The `initiate peer` emits of `init`, one per record, in list order. */
  function Initiations(cs: seq<Connection>): (r: seq<T.ClientEmit>)
    ensures |r| == |cs|
    ensures forall i :: 0 <= i < |cs| ==> r[i] == T.InitiatePeer(cs[i].room)
  {
    if cs == [] then [] else Initiations(cs[..|cs| - 1]) + [T.InitiatePeer(cs[|cs| - 1].room)]
  }

  lemma InitiationsSnoc(cs: seq<Connection>, i: nat)
    requires i < |cs|
    ensures Initiations(cs[..i + 1]) == Initiations(cs[..i]) + [T.InitiatePeer(cs[i].room)]
  {
    assert cs[..i + 1][..i] == cs[..i];
  }

  /** The record `_findConnection(room)` returns: the last one whose room matches. */
  function FindLast(cs: seq<Connection>, room: T.Room): (r: Option<nat>)
    ensures r.Some? ==> r.value < |cs| && cs[r.value].room == room
                        && forall j :: r.value < j < |cs| ==> cs[j].room != room
    ensures r.None? <==> forall j :: 0 <= j < |cs| ==> cs[j].room != room
  {
    if cs == [] then None
    else if cs[|cs| - 1].room == room then Some(|cs| - 1)
    else FindLast(cs[..|cs| - 1], room)
  }

  /** The message `sendData` writes: `JSON.stringify({data, userId})`. */
  function EnvelopeText(data: Json, userId: T.ClientId): Wire
  {
    Stringify(Envelope(data, userId))
  }

  /** The index of the first record without a peer, or the length when all have one:
      `terminateSession` crashes on that record. */
  function FirstWithoutPeer(cs: seq<Connection>): (k: nat)
    ensures k <= |cs|
    ensures forall j :: 0 <= j < k ==> cs[j].peer.Some?
    ensures k < |cs| ==> cs[k].peer.None?
  {
    if cs == [] then 0
    else if cs[0].peer.None? then 0
    else 1 + FirstWithoutPeer(cs[1..])
  }

  /** `isPeerStarted` as written: the flag of the last record, or false. */
  function LastStarted(cs: seq<Connection>): bool
  {
    cs != [] && cs[|cs| - 1].peerStarted
  }

  /** What the comment on `isPeerStarted` describes: every record started. */
  predicate AllStarted(cs: seq<Connection>)
  {
    cs != [] && forall i :: 0 <= i < |cs| ==> cs[i].peerStarted
  }

  /** The two agree when all records are started, but the last record alone decides:
      a registry whose first record is not started still reports true. */
  lemma LastStartedIsNotAllStarted(cs: seq<Connection>, room: T.Room, p: T.Peer)
    ensures AllStarted(cs) ==> LastStarted(cs)
    ensures var two := [NewConnection(room, true, true, false), Connection(room, false, true, true, Some(p))];
      LastStarted(two) && !AllStarted(two)
  {
    var two := [NewConnection(room, true, true, false), Connection(room, false, true, true, Some(p))];
    assert !two[0].peerStarted;
  }

  /** `terminateSession` has cleared the first `i` records of `start`: each of those
      had a peer and now has none and is not started; the ones after are as they were. */
  predicate ClearedPrefix(start: seq<Connection>, cs: seq<Connection>, i: nat)
  {
    && |cs| == |start| && i <= |cs|
    && (forall j :: 0 <= j < i ==> start[j].peer.Some? && cs[j] == start[j].(peer := None, peerStarted := false))
    && (forall j :: i <= j < |cs| ==> cs[j] == start[j])
  }

  lemma ClearedPrefixStep(start: seq<Connection>, cs: seq<Connection>, i: nat)
    requires ClearedPrefix(start, cs, i) && i < |cs| && cs[i].peer.Some?
    ensures ClearedPrefix(start, cs[i := cs[i].(peer := None, peerStarted := false)], i + 1)
  {
  }

  /** Clearing a record's peer keeps the registry well formed. */
  lemma WellFormedClear(cs: seq<Connection>, i: nat)
    requires WellFormed(cs) && i < |cs|
    ensures WellFormed(cs[i := cs[i].(peer := None, peerStarted := false)])
  {
  }

  /** A registry is well formed after a record without a peer is appended. */
  lemma WellFormedAppend(cs: seq<Connection>, c: Connection)
    requires WellFormed(cs)
    requires !c.peerStarted && c.peer.None?
    ensures WellFormed(cs + [c])
  {
  }

  /** Storing a peer that no other record holds keeps the registry well formed. */
  lemma WellFormedStart(cs: seq<Connection>, i: nat, p: T.Peer)
    requires WellFormed(cs) && i < |cs|
    requires p !in PeersOf(cs)
    ensures WellFormed(cs[i := cs[i].(peerStarted := true, peer := Some(p))])
  {
    var cs' := cs[i := cs[i].(peerStarted := true, peer := Some(p))];
    forall a, b | 0 <= a < b < |cs'| && cs'[a].peer.Some? && cs'[b].peer.Some?
      ensures cs'[a].peer != cs'[b].peer
    {
      if a == i {
        assert cs[b].peer.value in PeersOf(cs);
      } else if b == i {
        assert cs[a].peer.value in PeersOf(cs);
      }
    }
  }
}
