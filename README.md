# simple-peer-wrapper: the signalling and connection bookkeeping, in Dafny

simple-peer-wrapper connects browsers peer to peer. A small socket.io relay
pairs clients in rooms of at most two. Each browser keeps a registry of the
rooms it was paired in and starts one simple-peer connection per room. After
that, the application data goes directly between the peers. Several p5.js
demos sit on top of it and keep a roster of remote users and some keypoint
arrays.

This project models, and proves properties of:

- **The relay** (`Relay`). This is the `create or join` matchmaker of
  `express_server/utils/signalServer.js` and its copy inline in
  `express_server/app.js`.
  - The room table and an outbox of deliveries form a `RelayState` value.
  - socket.io 2, whose `adapter.rooms[room].sockets` shape the relay reads, puts every
    socket in a room named by its own id when it connects. The model does the
    same, and the role invariants are stated for the other rooms, the
    requested ones.
  - The class `SignalServer` updates that state one handler at a time.
  - The `message` broadcast, `bye` and the per-socket `log` helper are
    included.
- **The connection registry** (`Registry`). It is shared by both peer
  clients: one `Connection` record per room, with the peer handle once it
  exists. The records live in a `seq`, and a reference to a record is its
  index.
- **The older peer client** (`LegacyPeerClient`, browser_client/src/peer-client.js).
- **The current peer client** (`PeerClient`, src/simple-peer-client-wrapper.js).
  It includes the options merge of `_getPeerOptions`.
- **The socket client** (`SocketClient`, browser_client/src/socket-client.js).
- **The two facades** (`SignalFacade` for browser_client/src/index.js and
  `PeerWrapper` for browser_client/src/simple-peer-wrapper.js). Each forwards
  to the peer client it shares with its socket client.
- **The single-peer page** (`WebRtcClient`, browser_client/src/webrtc_peer_client.js).
  Its module-level flags become the fields of one object.
- **The TURN configuration** (`Turn`, browser_client/src/turnRequest.js).
- **The roster upsert of the multi-user sketches** (`Roster`), with the
  sketch-level handlers around it (`Sketches`). Ids are compared with `===`:
  by value for primitives, by reference for objects. An id therefore carries
  the envelope it was read from, and an object id matches only ids read from
  that same envelope.
- **The keypoint helpers of the PoseNet curve sketches** (`Keypoints`).

Three modules stand for library code:

- `Json` holds JSON values and their serialised form. The text is modelled as
  a sequence of lexical tokens, with a small parser and a proved round trip
  `Parse(Stringify(v)) == Some(v)`.
- `Transport` holds the socket.io client socket and the simple-peer handle.
  - A socket records what it emitted, in order, and whether it was closed.
  - A peer records the options it was built with, the signals it was fed, the
    messages written to it, and its `connected` and `destroyed` flags.
- A JavaScript exception (`TypeError` on a property read of `null` or
  `undefined`, or a `SyntaxError` from `JSON.parse`) is an `Outcome` the
  method returns. The handler's changes up to the throw are kept.

## Model

| member | source | states |
|---|---|---|
| Json.ParseStringify | src/simple-peer-client-wrapper.js:186-190 | decoding the text of any value gives that value back |
| Json.EnvelopeRoundTrip | src/simple-peer-client-wrapper.js:112-123 | decoding the message `sendData` writes gives an object whose `data` and `userId` are the sent ones |
| Json.LookupMember | browser_client/examples/example7_posenet_multiple/sketch.js:142-147 | a property is present exactly when some member has that key |
| Transport.Get | src/simple-peer-client-wrapper.js:137-156 | an options key is present exactly when some entry has it |
| Transport.AssignGet | src/simple-peer-client-wrapper.js:151 | after `o[key] = value` the key reads `value`, and every other key reads as before |
| Transport.AssignKeys | src/simple-peer-client-wrapper.js:151 | the assignment keeps existing keys in place, and a new key goes last |
| Transport.AssignKeepsKeysUnique | src/simple-peer-client-wrapper.js:151 | an assignment never duplicates a key |
| Relay.ToEach | express_server/utils/signalServer.js:33 | a room emit makes one delivery per member, in member order |
| Relay.Others | express_server/utils/signalServer.js:13 | the broadcast recipients are exactly the connected sockets other than the sender |
| Relay.SignalServer.constructor | express_server/app.js:65-125 | the relay starts with no sockets, no rooms and nothing sent |
| Relay.SignalServer.Connection | express_server/app.js:65 | a new socket is added to the connected sockets and to the room named by its id, as socket.io does on connection, and nothing else changes |
| Relay.ConnectedClients | express_server/app.js:65 | after the connections, the connected sockets are the connecting ones in order, and nothing was sent |
| Relay.ConnectedRooms | express_server/app.js:65 | after the connections, every room holds just the socket it is named by |
| Relay.ConnectedRoomNames | express_server/app.js:65 | after the connections, the rooms are exactly the sockets' own rooms |
| Relay.ConnectOwnRoom | express_server/app.js:65 | a connection adds the socket's own room and keeps every room holding just its socket |
| Relay.SignalServer.EmitTo | express_server/utils/signalServer.js:29 | `socket.emit` appends one delivery to that socket |
| Relay.SignalServer.EmitToRoom | express_server/utils/signalServer.js:33 | the loop appends one delivery to each current member, and the rooms are unchanged |
| Relay.SignalServer.JoinRoom | express_server/utils/signalServer.js:27 | `socket.join` adds the socket to the room, and nothing else changes |
| Relay.SignalServer.HandleCreateOrJoin | express_server/utils/signalServer.js:16-41 | the handler's effect is exactly `CreateOrJoin` on the old state |
| Relay.SignalServer.HandleMessage | express_server/utils/signalServer.js:10-14 | the message goes to every other socket, whatever its room, and the rooms are unchanged |
| Relay.SignalServer.HandleBye | express_server/utils/signalServer.js:57-59 | `bye` changes nothing |
| Relay.SignalServer.LogTo | express_server/app.js:67-71 | one `log` event goes to the calling socket, carrying `'Message from server:'` followed by the arguments |
| Relay.ToEachAppend | express_server/utils/signalServer.js:33 | emitting to a concatenation is emitting to each part in turn |
| Relay.OthersAppend | express_server/app.js:76 | a socket connecting later is a broadcast recipient exactly when it is not the sender |
| Relay.CreateOrJoinOutcome | express_server/app.js:91-105 | an empty room: the requester joins and alone receives `created`. One member: `join` to that member, then the requester joins and receives `joined`, then `ready` to both. Two or more: only `full` to the requester, rooms unchanged |
| Relay.RequestOwnRoomAgain | express_server/utils/signalServer.js:30-36 | a socket asking again for the room it is alone in stays alone, and receives `join`, `joined` and `ready` itself |
| Relay.RequestNamingSocket | express_server/utils/signalServer.js:20-36 | a request naming another connected socket's id finds that socket in the room: it is told `join`, and the requester `joined`, then `ready` goes to both |
| Relay.CreateOrJoinKeepsCapacity | express_server/utils/signalServer.js:26-40 | a request keeps every room at one or two distinct members |
| Relay.RunKeepsCapacity | express_server/utils/signalServer.js:26-40 | once the sockets have connected, no sequence of requests puts more than two sockets in a room, own rooms included |
| Relay.RolesAppend | express_server/utils/signalServer.js:26-36 | the `created` and `joined` recipients of a concatenated outbox are those of each part in turn |
| Relay.NoRolesInRoomEmit | express_server/utils/signalServer.js:33-36 | a `join` or `ready` room emit makes nobody creator or joiner |
| Relay.OneDelivery | express_server/utils/signalServer.js:29-35 | one delivery names a creator or joiner exactly when it is that event for that room |
| Relay.RolesAfterCreated | express_server/utils/signalServer.js:26-29 | a request for an empty room adds the requester as the room's only new creator |
| Relay.RolesAfterJoined | express_server/utils/signalServer.js:30-36 | a request for a one-member room adds the requester as joiner, and no creator |
| Relay.RolesAfterFull | express_server/utils/signalServer.js:37-40 | a request for a full room adds no creator and no joiner |
| Relay.KeepsRolesCreated | express_server/utils/signalServer.js:26-29 | the empty-room branch keeps "first member created, second member joined" for every requested room |
| Relay.KeepsRolesJoined | express_server/utils/signalServer.js:30-36 | the one-member branch, for a requested room, keeps the same invariant |
| Relay.KeepsRolesFull | express_server/utils/signalServer.js:37-40 | the full branch keeps the same invariant |
| Relay.CreateOrJoinKeepsRoles | express_server/utils/signalServer.js:26-40 | a request for a requested room from a socket not yet in it keeps the invariant |
| Relay.CreateOrJoinMembers | express_server/utils/signalServer.js:27 | the only socket a request adds to a room is the requester |
| Relay.RunMembersRequested | express_server/utils/signalServer.js:16-41 | every socket in a room not named by a socket asked for a room |
| Relay.OneCreatorPerRoom | express_server/utils/signalServer.js:26-36 | after the connections, when each socket asks once and no request names a socket's id, every requested room's first member, and no other, received `created`, and the second received `joined` |
| Relay.JoinedAtMostOnce | express_server/utils/signalServer.js:30-36 | in such runs at most one socket received `joined` for any requested room |
| Registry.PeerOptionsContents | browser_client/src/peer-client.js:50-76 | the options hold `initiator` first, hold `stream` exactly when a local stream is defined, and never repeat a key |
| Registry.Initiations | browser_client/src/peer-client.js:26-27 | one `initiate peer` per record, carrying that record's room, in list order |
| Registry.InitiationsSnoc | browser_client/src/peer-client.js:26-27 | one more loop iteration appends that record's `initiate peer` |
| Registry.FindLast | browser_client/src/socket-client.js:123-140 | the result is the last record with the room, and nothing when none has it |
| Registry.FirstWithoutPeer | browser_client/src/peer-client.js:164-170 | the records before the result all have a peer, and the record at the result has none |
| Registry.LastStartedIsNotAllStarted | src/simple-peer-client-wrapper.js:80-88 | "all started" implies the last record's flag. Two records, the first not started and the second started, report started without all being started |
| Registry.InitPrefixStep | browser_client/src/peer-client.js:26-31 | one iteration of `init` extends the visited prefix by one record |
| Registry.ClearedPrefixStep | browser_client/src/peer-client.js:165-170 | one teardown iteration extends the cleared prefix by one record |
| Registry.WellFormedClear | browser_client/src/peer-client.js:168-169 | clearing a record's peer keeps "started iff it has a peer, no peer shared" |
| Registry.WellFormedAppend | browser_client/src/socket-client.js:88-98 | appending a record without a peer keeps the invariant |
| Registry.WellFormedStart | browser_client/src/peer-client.js:74-75 | storing a peer no other record holds keeps the invariant |
| LegacyPeerClient.SimplePeerClientWrapper.constructor | browser_client/src/peer-client.js:4-13 | no records, no request to start, no stream, callback or data |
| LegacyPeerClient.SimplePeerClientWrapper.SetLocalStream | browser_client/src/peer-client.js:15-17 | sets the local stream; throws `TypeError` once the name was overwritten by a plain property |
| LegacyPeerClient.SimplePeerClientWrapper.CreatePeerConnection | browser_client/src/peer-client.js:50-76 | the record is marked started and holds a new peer, built with `initiator` and the stream when one is defined; other records are unchanged |
| LegacyPeerClient.SimplePeerClientWrapper.AttemptPeerStart | browser_client/src/peer-client.js:34-48 | a ready, unstarted record is started, and any other record is left as it was |
| LegacyPeerClient.SimplePeerClientWrapper.InitEntry | browser_client/src/peer-client.js:26-31 | one `initiate peer` is emitted, and the record is attempted only when it is an initiator |
| LegacyPeerClient.SimplePeerClientWrapper.Init | browser_client/src/peer-client.js:19-32 | sets the request flag, emits `initiate peer` for every record in order, attempts a start on exactly the initiator records, and keeps the registry well formed |
| LegacyPeerClient.SimplePeerClientWrapper.IsPeerStarted | browser_client/src/peer-client.js:78-86 | false on an empty registry, otherwise the last record's flag |
| LegacyPeerClient.SimplePeerClientWrapper.SetEventCallback | browser_client/src/peer-client.js:88-92 | only `data` sets the data callback; nothing else changes |
| LegacyPeerClient.SimplePeerClientWrapper.SendData | browser_client/src/peer-client.js:94-105 | one `{data, userId}` message is written to exactly the started records whose peer is connected; no other peer state changes |
| LegacyPeerClient.SimplePeerClientWrapper.GetData | browser_client/src/peer-client.js:107-113 | always null |
| LegacyPeerClient.SimplePeerClientWrapper.SendSignal | browser_client/src/peer-client.js:133-142 | emits `sending signal` with the record's room and the serialised signal |
| LegacyPeerClient.SimplePeerClientWrapper.HandleStream | browser_client/src/peer-client.js:148-151 | the stream becomes the one `getStream` returns |
| LegacyPeerClient.SimplePeerClientWrapper.HandleData | browser_client/src/peer-client.js:157-162 | undecodable text throws `SyntaxError`; with no data callback a `TypeError`; otherwise the callback gets the decoded value |
| LegacyPeerClient.SimplePeerClientWrapper.ClearConnection | browser_client/src/peer-client.js:166-169 | one loop pass: the record's peer is destroyed and disconnected, keeping its signals and writes, and only that record is cleared |
| LegacyPeerClient.SimplePeerClientWrapper.TerminateSession | browser_client/src/peer-client.js:164-177 | records up to the first without a peer are cleared and their peers destroyed and disconnected, keeping their signals and writes; the peers from that record on are unchanged; that record throws; with none, `hangup` is emitted and the socket closed |
| PeerClient.LastValue | src/simple-peer-client-wrapper.js:147-153 | an entry for the key exists exactly when the key occurs |
| PeerClient.MergeGet | src/simple-peer-client-wrapper.js:146-154 | after the copy, a key carries the last value the caller gave it, or its old one |
| PeerClient.MergeKeys | src/simple-peer-client-wrapper.js:146-154 | the copy keeps every old key in place and never duplicates a key |
| PeerClient.PeerOptionsWithContents | src/simple-peer-client-wrapper.js:137-156 | `initiator` first; a caller option wins; otherwise `initiator` is the argument, `stream` is present exactly when defined, and no other key exists |
| PeerClient.SimplePeerClientWrapper.constructor | src/simple-peer-client-wrapper.js:4-21 | no records, no callbacks, no stream, the caller's options kept |
| PeerClient.SimplePeerClientWrapper.SetLocalStream | src/simple-peer-client-wrapper.js:23-25 | sets the local stream only |
| PeerClient.SimplePeerClientWrapper.GetPeerOptions | src/simple-peer-client-wrapper.js:137-156 | the loop builds the options `PeerOptionsWithContents` describes |
| PeerClient.SimplePeerClientWrapper.CreatePeerConnection | src/simple-peer-client-wrapper.js:58-78 | the record is marked started and holds a new peer built with the merged options; other records are unchanged |
| PeerClient.SimplePeerClientWrapper.AttemptPeerStart | src/simple-peer-client-wrapper.js:42-56 | a ready, unstarted record is started; any other is left as it was, so repeated calls start at most one peer per record |
| PeerClient.SimplePeerClientWrapper.InitEntry | src/simple-peer-client-wrapper.js:34-39 | one `initiate peer`, then an attempt only for an initiator record |
| PeerClient.SimplePeerClientWrapper.Init | src/simple-peer-client-wrapper.js:27-40 | sets the request flag, emits `initiate peer` for every record in order, and attempts exactly the initiator records |
| PeerClient.SimplePeerClientWrapper.IsPeerStarted | src/simple-peer-client-wrapper.js:80-88 | the last record's flag, false when there is none |
| PeerClient.SimplePeerClientWrapper.SetEventCallback | src/simple-peer-client-wrapper.js:90-110 | only the slot named `connect`, `data`, `stream`, `close` or `error` changes; any other name changes nothing |
| PeerClient.SimplePeerClientWrapper.SendData | src/simple-peer-client-wrapper.js:112-123 | the same message is written to exactly the started and connected records |
| PeerClient.SimplePeerClientWrapper.ClearConnection | src/simple-peer-client-wrapper.js:127-130 | one loop pass: the record's peer is destroyed and disconnected, keeping its signals and writes, and only that record is cleared |
| PeerClient.SimplePeerClientWrapper.TerminateSession | src/simple-peer-client-wrapper.js:125-135 | every record's peer is destroyed, disconnected and cleared, keeping its signals and writes, then `hangup` is emitted and the socket closed; a record without a peer throws there, and the peers from it on are unchanged |
| PeerClient.SimplePeerClientWrapper.SendSignal | src/simple-peer-client-wrapper.js:158-167 | emits `sending signal` with the record's room and the serialised signal |
| PeerClient.SimplePeerClientWrapper.HandleConnection | src/simple-peer-client-wrapper.js:169-172 | calls the connect callback when one is set |
| PeerClient.SimplePeerClientWrapper.HandleStream | src/simple-peer-client-wrapper.js:174-176 | calls the stream callback, and throws when none is set |
| PeerClient.SimplePeerClientWrapper.HandleError | src/simple-peer-client-wrapper.js:178-184 | calls the error callback when one is set, otherwise calls nothing |
| PeerClient.SimplePeerClientWrapper.HandleData | src/simple-peer-client-wrapper.js:186-190 | decodes and hands the value to the data callback; `SyntaxError` and `TypeError` as in the older client |
| PeerClient.SimplePeerClientWrapper.HandleClose | src/simple-peer-client-wrapper.js:192-198 | calls the close callback when one is set |
| SocketClient.SocketIOClientWrapper.constructor | browser_client/src/socket-client.js:8-27 | server URL defaults to `http://localhost:8081`, debug to false; `create or join` is emitted once without a room; a stream option lands on the `setlocalStream` property, not the local stream |
| SocketClient.SocketIOClientWrapper.StartSocketCommunication | browser_client/src/socket-client.js:49-52 | emits `create or join` without a room |
| SocketClient.SocketIOClientWrapper.HandleCreated | browser_client/src/socket-client.js:54-56 | registers nothing and emits nothing |
| SocketClient.SocketIOClientWrapper.HandleFullRoom | browser_client/src/socket-client.js:59-61 | registers nothing and emits nothing |
| SocketClient.SocketIOClientWrapper.LogConnection | browser_client/src/socket-client.js:88-98 | appends exactly one record at the end, without de-duplication |
| SocketClient.SocketIOClientWrapper.HandleJoinRoom | browser_client/src/socket-client.js:64-75 | appends an initiator record; re-runs `init` exactly when a start was already requested |
| SocketClient.SocketIOClientWrapper.HandleJoinedRoom | browser_client/src/socket-client.js:78-86 | appends a non-initiator record; re-runs `init` exactly when a start was already requested |
| SocketClient.SocketIOClientWrapper.FindConnection | browser_client/src/socket-client.js:123-140 | the loop returns the last record for the room, or none |
| SocketClient.SocketIOClientWrapper.HandleInitPeer | browser_client/src/socket-client.js:105-108 | attempts a start on the room's last record; an unknown room throws `TypeError` |
| SocketClient.SocketIOClientWrapper.HandleSendSignal | browser_client/src/socket-client.js:110-121 | the room's record ends started with a peer that received the signal, and a fresh peer is created only when the record was not started; a started peer keeps its writes and flags; the other records' peers are unchanged; an unknown room throws and changes no peer |
| SignalFacade.Signal.constructor | browser_client/src/index.js:4-7 | builds the socket client and shares its peer client |
| SignalFacade.Signal.Connect | browser_client/src/index.js:9-11 | the effect of `init` on the shared peer client |
| SignalFacade.Signal.IsConnectionStarted | browser_client/src/index.js:13-15 | the peer client's last-record flag |
| SignalFacade.Signal.Send | browser_client/src/index.js:17-19 | the effect of `sendData` |
| SignalFacade.Signal.GetData | browser_client/src/index.js:22-24 | always null |
| PeerWrapper.SimplePeerWrapper.constructor | browser_client/src/simple-peer-wrapper.js:4-7 | holds the given peer client |
| PeerWrapper.SimplePeerWrapper.Connect | browser_client/src/simple-peer-wrapper.js:9-11 | the effect of `init` |
| PeerWrapper.SimplePeerWrapper.IsConnectionStarted | browser_client/src/simple-peer-wrapper.js:13-15 | the last-record flag |
| PeerWrapper.SimplePeerWrapper.Send | browser_client/src/simple-peer-wrapper.js:17-19 | the effect of `sendData` |
| PeerWrapper.SimplePeerWrapper.On | browser_client/src/simple-peer-wrapper.js:21-23 | the effect of `setEventCallback` on the callback slots |
| Turn.Substr | browser_client/src/turnRequest.js:38 | `substr(0, n)` is a prefix of at most `n` characters, and exactly `n` of a long enough string |
| Turn.IsTurnUrlIsPrefix | browser_client/src/turnRequest.js:38 | the test holds exactly when the URL starts with `turn:` |
| Turn.TurnEntry | browser_client/src/turnRequest.js:52-55 | the appended entry is a TURN URL carrying the password |
| Turn.FirstTurn | browser_client/src/turnRequest.js:37-43 | the scan stops at a TURN entry, and finds none exactly when no entry is TURN |
| Turn.InitialHasNoTurn | browser_client/src/turnRequest.js:5-11 | the initial configuration has no TURN entry |
| Turn.AppendedTurnIsFound | browser_client/src/turnRequest.js:36-56 | after an append, a scan finds a TURN entry |
| Turn.TurnConfig.constructor | browser_client/src/turnRequest.js:3-11 | only the STUN server, not ready, no request |
| Turn.TurnConfig.RequestTurn | browser_client/src/turnRequest.js:35-61 | a TURN entry sets `turnReady` and sends nothing; otherwise one request to the given URL |
| Turn.TurnConfig.OnResponse | browser_client/src/turnRequest.js:48-57 | a completed 200 response appends one TURN entry and sets `turnReady`; an unparsable body throws; any other state changes nothing |
| Turn.TurnConfig.CheckHostname | browser_client/src/turnRequest.js:22-33 | requests TURN only for a non-empty host other than `localhost` and `127.0.0.1` |
| Turn.TurnLifecycle | browser_client/src/turnRequest.js:22-61 | a public host issues one request; after the response, the configuration is STUN plus the TURN entry, and TURN is ready |
| WebRtcClient.SinglePeerOptions | browser_client/src/webrtc_peer_client.js:138-146 | the peer is built with `initiator` and the stream, `undefined` when none was obtained |
| WebRtcClient.WebRtcPeerClient.Load | browser_client/src/webrtc_peer_client.js:4-31 | connects, asks for room `foo`, flags false, and requests TURN off localhost |
| WebRtcClient.WebRtcPeerClient.HandleCreated | browser_client/src/webrtc_peer_client.js:33-37 | sets `isInitiator` only |
| WebRtcClient.WebRtcPeerClient.HandleFull | browser_client/src/webrtc_peer_client.js:39-42 | changes nothing |
| WebRtcClient.WebRtcPeerClient.HandleJoin | browser_client/src/webrtc_peer_client.js:44-49 | sets `isChannelReady` only |
| WebRtcClient.WebRtcPeerClient.HandleJoined | browser_client/src/webrtc_peer_client.js:51-55 | sets `isChannelReady` only |
| WebRtcClient.WebRtcPeerClient.SendMessage | browser_client/src/webrtc_peer_client.js:87-90 | emits one `message` |
| WebRtcClient.WebRtcPeerClient.CreatePeerConnection | browser_client/src/webrtc_peer_client.js:138-154 | a fresh, unconnected peer with no signals replaces the old one, built with `SinglePeerOptions` |
| WebRtcClient.WebRtcPeerClient.MaybeStart | browser_client/src/webrtc_peer_client.js:114-132 | starts a fresh peer with `SinglePeerOptions` exactly when not started, a stream exists and the channel is ready; otherwise nothing changes |
| WebRtcClient.WebRtcPeerClient.GotStream | browser_client/src/webrtc_peer_client.js:104-112 | keeps the stream, sends `got user media`, and starts only as an initiator that may start |
| WebRtcClient.WebRtcPeerClient.Stop | browser_client/src/webrtc_peer_client.js:177-181 | clears the flag and the peer; the old peer is destroyed and disconnected, keeping its signals and writes, or `TypeError` when there was none |
| WebRtcClient.WebRtcPeerClient.Hangup | browser_client/src/webrtc_peer_client.js:165-169 | stops, so the old peer is destroyed and keeps its signals and writes, then sends `bye` unless the stop threw |
| WebRtcClient.WebRtcPeerClient.HandleRemoteHangup | browser_client/src/webrtc_peer_client.js:171-175 | stops, so the old peer is destroyed and keeps its signals and writes, then gives up the initiator role unless the stop threw |
| WebRtcClient.WebRtcPeerClient.HandleMessage | browser_client/src/webrtc_peer_client.js:62-85 | a null message throws; `got user media` runs `maybeStart`, a new peer having `SinglePeerOptions`; a signal creates a missing peer before feeding it, and an existing peer keeps its writes, connection and destroyed flag; `bye` while started destroys the peer and gives up the initiator role, and otherwise changes nothing; every other message changes nothing; the old peer is untouched except by a signal or a hang-up. Each message value has one encoding (`Transport.Canonical`) |
| WebRtcClient.WebRtcPeerClient.Unload | browser_client/src/webrtc_peer_client.js:134-136 | sends `bye` |
| WebRtcClient.WebRtcPeerClient.SendSignal | browser_client/src/webrtc_peer_client.js:156-163 | sends `{type: 'sending signal', data}` with the serialised signal |
| Roster.UpdateMatching | examples/ex2_mouse_multiple/sketch.js:78-86 | each record with the incoming id takes the new value; the others are unchanged; the length is kept |
| Roster.RosterTable.constructor | examples/ex2_mouse_multiple/sketch.js:75-99 | an empty roster |
| Roster.RosterTable.Upsert | examples/ex2_mouse_multiple/sketch.js:75-99 | the loop and the push leave exactly `Upserted` of the old roster |
| Roster.RosterTable.SetFirstValue | examples/example8_posenet_multiple_handsup/sketch.js:132 | only the first record's value changes |
| Roster.RosterTable.Push | examples/example8_posenet_multiple_handsup/sketch.js:129 | one record appended |
| Roster.UpsertShape | examples/ex2_mouse_multiple/sketch.js:78-99 | matching records take the value in place, others stay, and exactly one record is appended at the end when none matched |
| Roster.UpsertIdempotent | examples/ex2_mouse_multiple/sketch.js:75-99 | applying the same envelope again changes nothing, for any id: an object `userId` read from the held envelope is `===` to the one it left in the roster |
| Roster.UpsertKeepsKeysDistinct | browser_client/examples/example7_posenet_multiple/sketch.js:149-156 | the roster stays keyed: no two records hold `===` ids |
| Roster.NewObjectIdAppends | examples/ex2_mouse_multiple/sketch.js:79-99 | an object `userId` from an envelope no record came from matches nothing, even an equal object, so a new record is pushed |
| Roster.UpsertKeySet | examples/ex2_mouse_multiple/sketch.js:89-99 | the ids after a pass are the old ones plus the incoming one |
| Roster.RunKeys | examples/ex2_mouse_multiple/sketch.js:75-99 | after any sequence of arrivals the ids are distinct and are exactly the ids that arrived |
| Roster.IdsSeenSnoc | examples/ex2_mouse_multiple/sketch.js:75-99 | one more arrival adds its id to the ids seen |
| Roster.AllComparable | examples/ex2_mouse_multiple/sketch.js:75-99 | every id held is one that arrived, so it is primitive |
| Roster.DistinctKeysCount | examples/ex2_mouse_multiple/sketch.js:89-99 | a roster without repeated ids has as many records as ids |
| Roster.RunSize | browser_client/examples/example6_mouse_multiple/sketch.js:57-64 | the roster size equals the number of distinct ids seen |
| Roster.SelfStaysFirst | examples/example8_posenet_multiple_handsup/sketch.js:123-133 | the self record with id 1 is never matched by a socket id, so it stays at index 0 |
| Sketches.ReceiveEnvelope | browser_client/examples/example3_mouse_multiple/sketch.js:69-89 | a null or undefined envelope throws and changes nothing; otherwise the upsert with its `userId` and `data` |
| Sketches.GetOtherPoses | browser_client/examples/example7_posenet_multiple/sketch.js:134-157 | no change on null data; `TypeError` on undefined; otherwise the upsert |
| Sketches.UpsertedNonEmpty | browser_client/examples/example3_mouse_multiple/sketch.js:92 | after an upsert the roster is never empty, and never shorter |
| Sketches.UpsertKeepsIds | examples/example8_posenet_multiple_handsup/sketch.js:153-173 | an upsert keeps the id of every existing record |
| Sketches.MouseSketch.constructor | examples/ex2_mouse_multiple/sketch.js:1-48 | empty roster, no data, nothing sent |
| Sketches.MouseSketch.GotData | examples/ex2_mouse_multiple/sketch.js:50-53 | stores the envelope verbatim, as a new object |
| Sketches.MouseSketch.Draw | examples/ex2_mouse_multiple/sketch.js:58-102 | nothing before the connection starts; then sends the mouse; no roster change without data; null data throws; otherwise the upsert of the held envelope, whose object `userId` keeps matching its own record on later frames; drawn when the roster is non-empty |
| Sketches.MouseRoomSketch.constructor | browser_client/examples/example6_mouse_multiple/sketch.js:8-12 | empty roster, nothing sent |
| Sketches.MouseRoomSketch.Draw | browser_client/examples/example3_mouse_multiple/sketch.js:48-92 | nothing before the peer starts; then sends every frame; the mirror switch leaves the roster alone; no roster change on null; undefined throws; otherwise the upsert, drawn when the roster is non-empty (example6 is the same with the switch off) |
| Sketches.FirstPose | browser_client/examples/example7_posenet_multiple/sketch.js:125 | `poses[0]` is undefined exactly for an empty result |
| Sketches.PoseSketch.constructor | browser_client/examples/example7_posenet_multiple/sketch.js:1-23 | `myPose` starts as `{}` |
| Sketches.PoseSketch.GetPose | browser_client/examples/example7_posenet_multiple/sketch.js:123-132 | keeps the first pose, and sends it only while started |
| Sketches.PoseSketch.Draw | browser_client/examples/example7_posenet_multiple/sketch.js:33-43 | pulls other poses, then draws only with a pose of its own and one partner |
| Sketches.Step | examples/example8_posenet_multiple_handsup/sketch.js:227-228 | a chained property read throws exactly when an earlier read threw or read null or undefined |
| Sketches.CheckHands | examples/example8_posenet_multiple_handsup/sketch.js:225-239 | throws exactly when either wrist read throws |
| Sketches.CheckHandsOnWrists | browser_client/examples/example8_posenet_multiple_handsup/sketch.js:94-105 | hands are at the top exactly when both wrists have `y <= 100` |
| Sketches.CheckHandsWithoutWrists | examples/example8_posenet_multiple_handsup/sketch.js:227-228 | a nullish record, a record without `pose`, or a pose without either wrist makes `checkHands` throw |
| Sketches.HandsUpFold | examples/example8_posenet_multiple_handsup/sketch.js:184-197 | the fold is true exactly when every record's hands are up; it stops calling `checkHands` after the first false, and calls it once per record when all are up |
| Sketches.HandsUpSketch.constructor | examples/example8_posenet_multiple_handsup/sketch.js:1-29 | empty roster, nothing sent |
| Sketches.HandsUpSketch.GetPose | examples/example8_posenet_multiple_handsup/sketch.js:119-139 | creates the self record with id 1 on the first pose, afterwards only updates its pose; sends while started |
| Sketches.HandsUpSketch.HandsAtTop | browser_client/examples/example8_posenet_multiple_handsup/sketch.js:65-73 | the loop computes the fold and the number of `checkHands` calls |
| Sketches.HandsUpSketch.DrawAllPoses | browser_client/examples/example8_posenet_multiple_handsup/sketch.js:32-92 | drawn exactly with two records and a fold that did not throw; celebrates exactly when all hands are up |
| Sketches.HandsUpSketch.Draw | examples/example8_posenet_multiple_handsup/sketch.js:30-54 | waits for the peer and its own pose, pulls other poses, and keeps the self record first |
| Keypoints.GetEdges | browser_client/examples/example5_posenet_curves_combine/sketch.js:238-279 | the loop computes both edges |
| Keypoints.LeftEdgeIsMin | browser_client/examples/example5_posenet_curves_combine/sketch.js:238-279 | the left edge is the minimum of the width and the confident x values |
| Keypoints.RightEdgeIsMax | browser_client/examples/example5_posenet_curves_combine/sketch.js:238-279 | the right edge is the maximum of 0 and the confident x values |
| Keypoints.EdgesWithoutConfidentPoints | browser_client/examples/example5_posenet_curves_combine/sketch.js:238-279 | without a confident keypoint the edges are exactly the width and 0 |
| Keypoints.InitialOrderedPose | browser_client/examples/example5_posenet_curves_combine/sketch.js:46-66 | fourteen entries in outline order, none placed |
| Keypoints.LastConfident | browser_client/examples/example5_posenet_curves_combine/sketch.js:282-301 | the position of the last confident keypoint of a part, and none exactly when there is no such keypoint |
| Keypoints.Placed | browser_client/examples/example5_posenet_curves_combine/sketch.js:282-301 | an entry keeps its part and takes that position, or is unchanged |
| Keypoints.PlacedStep | browser_client/examples/example5_posenet_curves_combine/sketch.js:286-297 | one more keypoint of the scan places the entry as the longer scan does |
| Keypoints.PlacedIdempotent | browser_client/examples/example4_posenet_curves_simple/sketch.js:212-231 | ordering again with the same keypoints changes nothing |
| Keypoints.PlacedSplitStep | browser_client/examples/example5_posenet_curves_combine/sketch.js:286-297 | one inner iteration extends the placed prefix |
| Keypoints.OrderKeypoints | browser_client/examples/example4_posenet_curves_simple/sketch.js:212-231 | every entry of the array ends as `Placed`, so the length and parts are kept |
| Keypoints.RemoveUnusedKeypoints | browser_client/examples/example5_posenet_curves_combine/sketch.js:304-323 | the loop returns `Used` of the pose |
| Keypoints.UsedPrefix | browser_client/examples/example4_posenet_curves_simple/sketch.js:234-253 | the output for a prefix is a prefix of the output |
| Keypoints.UsedPlacement | browser_client/examples/example4_posenet_curves_simple/sketch.js:234-253 | a used entry lands at the index given by the used entries before it |
| Keypoints.UsedSource | browser_client/examples/example4_posenet_curves_simple/sketch.js:234-253 | every output position comes from a used entry |
| Keypoints.UsedLength | browser_client/examples/example4_posenet_curves_simple/sketch.js:234-253 | the output is no longer than the input |
| Keypoints.UsedIsFilter | browser_client/examples/example5_posenet_curves_combine/sketch.js:304-323 | the clean-up is an order-preserving filter on `x !== null` |
| Keypoints.InitialIsUnused | browser_client/examples/example5_posenet_curves_combine/sketch.js:46-66 | a fresh outline yields no point |
| Keypoints.NothingUsed | browser_client/examples/example5_posenet_curves_combine/sketch.js:304-323 | no placed entry, no output |
| Keypoints.CombinePoses | browser_client/examples/example5_posenet_curves_combine/sketch.js:326-368 | fourteen entries: the first seven from the left pose (pose1 exactly when its left edge is strictly further left), then the right pose's last seven, or its first seven reversed when mirroring |
| Keypoints.MirroredCombinationParts | browser_client/examples/example5_posenet_curves_combine/sketch.js:39-66 | (consequence of `CombinePoses`, not a separate promise of the source) mirroring two standard outlines gives a combination whose part names read the same from both ends |
| Keypoints.CheckEdgesSeparatedOrEnclosing | browser_client/examples/example5_posenet_curves_combine/sketch.js:464-479 | separated spans never touch; a span enclosing the other does not touch it, but the enclosed one touches |
| Keypoints.CheckEdgesInside | browser_client/examples/example5_posenet_curves_combine/sketch.js:464-479 | a left edge strictly inside the other span touches |
| Keypoints.PartsOf | browser_client/examples/example5_posenet_curves_combine/sketch.js:437-456 | two part names per bone, read from the bone's joints |
| Keypoints.MirrorSkeleton | browser_client/examples/example5_posenet_curves_combine/sketch.js:427-461 | the joint objects end as `Mirrored` of the old ones: the loop flips each bone's joints, through the shared objects, unless their part was recorded before the bone |
| Keypoints.MirrorJoint | browser_client/examples/example5_posenet_curves_combine/sketch.js:441-453 | a joint is flipped in place exactly when its part is not yet recorded, and no other joint changes |
| Keypoints.MirroredSnoc | browser_client/examples/example5_posenet_curves_combine/sketch.js:436-456 | one more bone is one more iteration and two more recorded parts |
| Keypoints.MirrorBoneFlips | browser_client/examples/example5_posenet_curves_combine/sketch.js:441-453 | on joints where exactly the recorded parts are flipped, one iteration leaves both of the bone's joints flipped and the others as they were |
| Keypoints.Mirrored | browser_client/examples/example4_posenet_curves_simple/sketch.js:310-344 | mirroring moves positions only: the joints keep their number and their parts |
| Keypoints.PartsOfMembers | browser_client/examples/example4_posenet_curves_simple/sketch.js:310-344 | a part is recorded exactly when a joint of an earlier bone has it |
| Keypoints.PartsOfUsed | browser_client/examples/example4_posenet_curves_simple/sketch.js:310-344 | with one joint object per part, a joint's part has been recorded exactly when an earlier bone holds that joint |
| Keypoints.MirrorFlipsUsedJoints | browser_client/examples/example4_posenet_curves_simple/sketch.js:310-344 | with one joint object per part and no bone from a joint to itself, every joint a bone holds ends at `width - x`, flipped once however many bones share it, and every other joint keeps its position |
| Keypoints.MirrorTwice | browser_client/examples/example4_posenet_curves_simple/sketch.js:310-344 | for such skeletons, mirroring the mirrored joints restores them |
| Keypoints.SharedShoulder | browser_client/examples/example5_posenet_curves_combine/sketch.js:427-461 | (worked example of `MirrorFlipsUsedJoints`) a shoulder shared by two bones at x = 10 ends at 90 in both, with width 100 |
| Keypoints.CurveIndex | browser_client/examples/example4_posenet_curves_simple/sketch.js:270-277 | every index is in range for a non-empty outline |
| Keypoints.CurveVertices | browser_client/examples/example4_posenet_curves_simple/sketch.js:256-283 | an empty outline draws nothing; otherwise `n + 3` indices, all in range |
| Keypoints.CurveCloses | browser_client/examples/example5_posenet_curves_combine/sketch.js:371-398 | the curve visits each point in order, then the first three again |

## Left out

- `handleIpAddress` and the `ipaddr` handler are left out: they do operating-system I/O.
- Express setup, routing and `listen` are left out: they are server plumbing.
- socket.io's own forwarding is left out. `initiate peer`, `sending signal` and `hangup` reach no relay handler in express_server/, so their delivery is not modelled. Neither is the removal of a disconnected socket from its rooms, so the relay invariants are about runs of `create or join` requests once the sockets have connected.
- The `log` helper of signalServer.js is left out: `DEBUG` is false, so it returns at once. It would recurse without end if `DEBUG` were true.
- `_handleLog` of the socket client is left out: it calls an undeclared `log`.
- `_handleMessage` of the socket client is left out because it only logs. `_emitSocketMessage` is never called. The 'log' handler of the single-peer page only logs.
- `_handleRemoteHangup` and `_closePeerConnection` of both peer clients are left out: nothing calls them, and the second has an empty body. `_handleConnection` and `_handleError` of the older client only log.
- Console and debug output is not modelled. This covers the `console.log` of `_handleError`.
- browser_client/src/socket-io-client-wrapper.js, which `simple-peer-wrapper.js` imports, is not part of this model. The facade is therefore given its peer client directly (`PeerWrapper.SimplePeerWrapper.constructor`).
- simple-peer is reduced to a handle that records its options, signals, writes and flags. Its events are the handler methods, so when `connected` turns true is not modelled.
- `TextDecoder` is left out: the bytes a peer delivers are the token sequence itself.
- The JSON text is modelled as tokens, not characters. JSON numbers are integers, since no modelled property depends on fractions.
- The request to the TURN service (`XMLHttpRequest`) is left out. The response is its ready state, status and body, which is either a decoded TURN server or nothing when `JSON.parse` would throw.
- `getUserMedia`, the video elements and `alert` are left out: they are browser side effects. The single-peer page receives the stream through `GotStream`.
- All p5 drawing, ml5/PoseNet, colours, animation and the other demos are left out. `random(...)` colours are parameters.
- Drawing the keypoints and the example5 `draw` orchestration are left out, and so are the crashes of those calls on malformed poses.
- The partner-mouse mirroring and `touching` test of example3 are left out.
- `mirrorPose` is left out: its `width - x` on floating point is not modelled.
- Coordinates are `real`, so floating-point rounding in `width - x` of `mirrorSkeleton` is not modelled.
- `Sketches.CheckHands`: `y > 100` is true only for a number above 100 in this model. JavaScript's coercion of strings, booleans and arrays in that comparison is not modelled.
- `Keypoints.CombinePoses`: requires two fourteen-entry outlines, which is what the sketch always passes. The JavaScript reads `undefined` for shorter arrays.
- The keypoint helpers assume well-formed PoseNet records. A missing `position` or `part` would throw in JavaScript.
- Records are values in a sequence, not shared objects. Aliasing through `connection` references (the same object reached from two places) is modelled by index. So is the sharing of joint objects between the bones of a skeleton. The deep clones in `combinePoses` are simply new sequences.
- `Object.entries` lists integer-like keys first. This model copies caller options in the order given.
- The `stream: undefined` entry that the single-peer page passes is an explicit `OUndefined` value; simple-peer's treatment of it is not modelled.
- The single-peer page's `message` handler receives the socket payloads the model can express. Each has one encoding: a string is always `Text`, and an object whose `type` is `sending signal` is always `SignalMessage`, whose `data` is the text of a serialised signal. An object with a `type` other than `sending signal` is an `OtherValue`. A `sending signal` object whose `data` is not such a text is not modelled; only `sendSignal` builds these objects.
- The TURN check of the single-peer page is the same code as turnRequest.js and is modelled once, in `Turn`.

## Where the code and its description differ

The model follows the code.

- `isPeerStarted` returns the flag of the last record, although its comment describes a check over every record. `Registry.LastStartedIsNotAllStarted` shows a registry on which the two differ.
- `_findConnection` returns the last record for a room, not the first.
- `created` registers no connection.
- The socket client sends `create or join` without a room.
- A `stream` option given to the socket client is assigned to the property `setlocalStream` and replaces that method. It is never used as the local stream, and a later call of the method throws `TypeError`.
