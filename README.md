# Multi-user WebRTC video chat: signaling model

A Dafny model of the signaling core of a browser video-conference system. A Node.js
relay server (`server.js`) keeps the room registry and forwards negotiation messages
between peers. A browser client (`public/client.js`) keeps one peer connection per
remote peer and drives the offer/answer/ICE exchange. Both are sequential event handlers
over small state; each handler is modelled as "state + event -> new state + emitted
envelopes".

Files and modules:

- `Wrappers.dfy`: `Option`. `None` stands for JavaScript's `undefined`: an unset
  `localPeerId`, a description whose creation failed, or a null candidate.
- `Messages.dfy`: the shared wire vocabulary. `ToServer` holds the events a client emits
  (`join`, `start_call`, `webrtc_offer`, `webrtc_answer`, `webrtc_ice_candidate`).
  `ToClient` holds what the server delivers. A `Delivery` addresses one message to one
  connection id. The candidate field `label` is called `lineLabel`, because `label` is a
  Dafny keyword.
- `Relay.dfy`: the server. The class `RelayServer` holds `rooms: map<RoomId, set<ConnId>>`.
  Its invariant is that no entry is empty, because socket.io keeps no empty rooms. Its
  handler methods return the set of deliveries they hand to socket.io. The routing itself
  is given by pure functions of membership: `JoinReply`, `AfterJoin`, `Broadcast` and
  `Unicast`.
- `Client.dfy`: the browser client. The class `PeerClient` holds `localPeerId`, `roomId`,
  `localStream`, the `peerConnections` table (`sessions`) and the set of remote peers whose
  video element is on the page. A connection is an abstract `Session` record holding:
  the remote and local descriptions, the local tracks added, the remote candidates
  applied, whether its callbacks are registered, and its ICE connection state.
- `Scenarios.dfy`: three fragments of a two-client run, each started from fresh state.
  The fragments are the room set-up, the offer/answer exchange and a candidate relay.
  Each is proved from the component contracts alone.

Outside collaborators become parameters. The outcome of `getUserMedia` is
`media: Option<seq<Track>>`. The outcome of `createOffer`/`createAnswer` is
`created: Option<Sdp>`. The browser's discovered candidate, remote track and
connectivity-state events become calls of the corresponding handler methods.

An exception thrown in a handler ends that handler. Nothing after the throw happens, and
the model states these cases as error paths, not as preconditions:
- `addLocalTracks` throws when there is no local stream.
- The `webrtc_answer` and `webrtc_ice_candidate` handlers throw when there is no entry
  for the sender.
- The `webrtc_ice_candidate` handler also throws when the event carries no `label`. The
  candidate is then built with neither an m-line index nor a media id, and the
  `RTCIceCandidate` constructor rejects that (public/client.js:137-140).
- The `webrtc_offer` and `webrtc_answer` handlers throw when the event carries no
  description, because `RTCSessionDescriptionInit.type` is a required member of the
  `RTCSessionDescription` constructor's argument in the WebRTC IDL. The offer handler then
  stops with the new, empty connection stored (public/client.js:105-106). The answer
  handler stops before the remote description is set (public/client.js:124).

`CheckPeerDisconnect` requires that the remote peer has an entry in the table. The source
reads that entry at public/client.js:272 without a check.

The three connection callbacks model `ontrack`, `onicecandidate` and
`oniceconnectionstatechange`. Their methods are `OnRemoteTrack`, `SendIceCandidate` and
`OnIceConnectionStateChange`. Each requires an entry for the remote peer whose callbacks
are registered (`listening`). `setRemoteStream` itself never reads the table. The
requirement holds because the source registers these callbacks only on a connection it
has just stored and given its tracks (public/client.js:91-94 and 109-113). No entry is
ever deleted. For `OnRemoteTrack`, the requirement is also what keeps the invariant that
every view belongs to a table entry.

Where the code is laxer than a careful protocol would be, the model follows the code:
- A discovered candidate is forwarded whenever the browser's candidate is non-null. One
  whose candidate string is empty is forwarded too. Neither the client nor the server
  filters empty candidates.
- The server never checks that `receiverId` is in `roomId`. A connection may also join
  several rooms.
- A connection whose state became failed, closed or disconnected keeps its table entry
  and goes on accepting events. Only its view is removed.
- A client answers a `webrtc_offer` and offers on a `start_call` from the same peer if it
  receives both. The roles stay exclusive only because of the order in which peers join,
  as in `Scenarios.OfferAnswer`.

## Model

| member | source | states |
|---|---|---|
| `Relay.JoinReply` | server.js:12-30 | exactly one of `room_created`/`room_joined`; `room_created` iff the room has no members (a missing room counts as empty); both carry the room and the joiner's id |
| `Relay.AfterJoin` | server.js:18-25 | after a join the joiner is a member of the room, the room keeps its old members, no other room changes, and no room becomes empty |
| `Relay.Broadcast` | server.js:36-38 | `start_call` fan-out: a delivery goes to a connection iff it is a member of the named room other than the sender; one delivery per such member |
| `Relay.Unicast` | server.js:40-57 | forwarding by `receiverId`: at most one delivery, exactly to the connection whose id is `receiverId`, never to the sender, nobody when the id is unset |
| `Relay.JoinAllReplies` | server.js:10-31 | over any run of joins into one room, only the first join into an empty room is answered `room_created`; every later one is answered `room_joined` |
| `Relay.JoinAllMembers` | server.js:10-31 | after any run of joins, the room's members are its old members plus every joiner, and every other room is unchanged |
| `Relay.RelayServer.Join` | server.js:10-31 | the only delivery is the join reply to the joining connection; membership becomes `AfterJoin` of the old one; the no-empty-room invariant is kept |
| `Relay.RelayServer.StartCall` | server.js:34-38 | delivers `start_call{senderId}` to every other member of `event.roomId` and to no one else, whether or not the sender is a member; membership is not changed |
| `Relay.RelayServer.Offer` | server.js:40-45 | delivers `webrtc_offer{sdp, senderId}` only to the `receiverId` connection, never to the sender, whatever the room |
| `Relay.RelayServer.Answer` | server.js:47-52 | delivers `webrtc_answer{sdp, senderId}` only to the `receiverId` connection, never to the sender, whatever the room |
| `Relay.RelayServer.IceCandidate` | server.js:54-57 | forwards the received candidate event unchanged, only to the `receiverId` connection |
| `Relay.RelayServer.constructor` | server.js:5 | a fresh server has no rooms, so the no-empty-room invariant holds |
| `Relay.RelayServer.Receive` | server.js:9-58 | dispatch by event name; only `join` changes membership, and each relay event's deliveries are those of its routing function |
| `Client.PeerClient.constructor` | public/client.js:33-38 | a client starts with no id, no room, no local stream, no connections and no views |
| `Client.PeerClient.JoinRoom` | public/client.js:149-157 | an empty name emits nothing and keeps `roomId`; any other name sets `roomId` and emits exactly one `join{room, peerUUID: localPeerId}` |
| `Client.PeerClient.OnRoomCreated` | public/client.js:58-64 | adopts `event.peerId` as `localPeerId`, stores the captured stream (unset on failure), emits nothing |
| `Client.PeerClient.OnRoomJoined` | public/client.js:70-81 | adopts `event.peerId`, stores the captured stream, and emits exactly one `start_call{roomId: event.roomId, senderId: event.peerId}` even when capture failed |
| `Client.PeerClient.AddLocalTracks` | public/client.js:186-191 | appends every local track, in order, to that one connection; without a local stream it fails and changes nothing |
| `Client.PeerClient.CreateOffer` | public/client.js:196-213 | emits exactly one `webrtc_offer{sdp, roomId, senderId: localPeerId, receiverId}` also when creation failed (unset `sdp`); only a created description becomes the local description |
| `Client.PeerClient.CreateAnswer` | public/client.js:218-235 | as `CreateOffer`, emitting `webrtc_answer` |
| `Client.PeerClient.OnStartCall` | public/client.js:86-96 | a fresh connection replaces any entry for the sender; with local media it holds every local track and the created offer, has its callbacks, and one offer goes to the sender; without media nothing is emitted; other entries are unchanged |
| `Client.PeerClient.OnOffer` | public/client.js:101-115 | a fresh connection holding the received description replaces any entry for the sender; with local media it holds every local track, and one answer goes to the sender; without media nothing is emitted; with no description the entry is a fresh empty connection and nothing is emitted |
| `Client.PeerClient.OnAnswer` | public/client.js:120-127 | sets only the remote description of the sender's existing connection and emits nothing; with no entry or no description nothing changes |
| `Client.PeerClient.OnIceCandidate` | public/client.js:132-142 | appends `{sdpMLineIndex: label, candidate}` to the sender's connection only; with no entry, or with no `label` (the candidate constructor throws), nothing changes; emits nothing |
| `Client.PeerClient.SendIceCandidate` | public/client.js:255-266 | for a connection whose callbacks are registered, emits one `webrtc_ice_candidate` iff the discovered candidate is non-null, addressed to the remote, from `localPeerId`, in `roomId`, labelled with its `sdpMLineIndex`; changes no state |
| `Client.PeerClient.OnRemoteTrack` | public/client.js:240-250 | on a connection whose callbacks are registered, a video track puts the remote's view on the page; any other track changes nothing |
| `Client.PeerClient.CheckPeerDisconnect` | public/client.js:271-280 | removes the remote's view iff its connection state is failed, closed or disconnected; the table entry is never deleted |
| `Client.PeerClient.OnIceConnectionStateChange` | public/client.js:93 | on a connection whose callbacks are registered, the connection's new state is recorded and the view is removed exactly for the three terminal states |
| `Scenarios.RoomSetup` | server.js:10-38 | from fresh state: A opening a room gets only `room_created`; B joining gets only `room_joined`, and A gets nothing; B's `start_call` reaches A only; the room then holds exactly A and B |
| `Scenarios.OfferAnswer` | public/client.js:86-127 | from fresh clients that had their room replies (given by hand, not relayed): after offer and answer through the relay, each message reaches only the other peer; nothing A emitted during the run is an answer and nothing B emitted is an offer; both connections hold both descriptions and all their local tracks |
| `Scenarios.CandidateRelay` | public/client.js:255-266 | from fresh clients that joined, got their room replies and exchanged offer handling by hand: a candidate discovered by A reaches B only, unchanged; B's connection for A applies it exactly when it carries an m-line index; the null end-of-candidates event emits nothing |

## Left out

- Express static serving, `server.listen` and the socket.io transport (server.js:1-7, server.js:60-64) are I/O plumbing. Deliveries are handed to the transport as a set; the order of a fan-out is not modelled.
- The room registry assumes the socket.io 2.x adapter, where `adapter.rooms` is a plain object of rooms that have a `length` (server.js:12). From socket.io 3 on it is a `Map`: `rooms[roomId]` is then always undefined and every join would be answered `room_created`. That behaviour is not modelled.
- Room names that are inherited `Object.prototype` property names (`constructor`, `toString`, `__proto__`, ...) are not modelled. Under the 2.x adapter, server.js:12 reads the inherited value for such a name, and `socket.join` (server.js:18, 25) then throws before any reply is sent. The model treats every name as an ordinary room.
- socket.io's per-connection rooms are not modelled. A `receiverId` that names a shared room, or a `roomId` equal to a connection id, would reach other connections in the real library. The size of a room counts only explicit joins.
- Disconnect handling is not modelled. This covers socket.io's removal of a closed connection from its rooms, and dropping a message whose receiver no longer exists.
- Console logging and the `peerUUID` shown in the `start_call` log line are not modelled.
- The DOM is not modelled: `showVideoConference`, `alert`, `localVideoComponent` and the construction of video elements. A remote view is a present/absent flag per peer. Repeated video tracks that would append several elements collapse into one flag. Calling `remove()` on a missing element throws after nothing else is left to change, so it is treated as a no-op.
- The internals of `getUserMedia`, `createOffer`/`createAnswer`, SDP, ICE gathering and the STUN servers are not modelled. Their outcomes are parameters.
- Browser engines that still treat `RTCSessionDescriptionInit.type` as optional accept an event with no description; the model follows the WebRTC IDL, where it is required and the constructor throws.
- `setLocalDescription`, `setRemoteDescription` and `addIceCandidate` are not awaited in the source. Their asynchronous rejection, for example a candidate that arrives before the remote description, is not modelled. The record stores the value as applied.
- Interleaving at `await` points is not modelled: each handler runs to completion before the next event.
- No single chained run of the whole protocol is proved. The three scenarios are separate fragments, each started from fresh state. Where one fragment's input is another fragment's output, it is supplied by hand.
- Connection objects replaced in the table are not modelled. Such an object may still fire its callbacks; here every callback acts on the current entry for its peer.
- The unused global `rtcPeerConnection` and the `offerOptions`/`mediaConstraints` constants are not modelled.
