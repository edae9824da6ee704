/** The signaling vocabulary that the relay server and the browser client share:
    identities, the events a client emits to the server and the events the server
    delivers to a client. Session descriptions and candidates are opaque here. */
module Messages {
  import opened Wrappers

  /** The id socket.io assigns to one live connection (`socket.id`). */
  type ConnId = string
  /** A client-chosen room name. */
  type RoomId = string
  /** A peer id as carried in an envelope: the client may send it before it has one. */
  type PeerRef = Option<ConnId>
  /** An opaque session description (offer or answer). */
  type Sdp = string

  /** An ICE candidate as the browser reports it and as it is applied remotely. */
  datatype Candidate = Candidate(sdpMLineIndex: Option<nat>, candidate: string)

  /** The `webrtc_ice_candidate` payload; the server forwards it unchanged. The wire
      field `label` (the candidate's m-line index) is `lineLabel` here, `label` being
      a Dafny keyword. */
  datatype IceEvent = IceEvent(
    senderId: PeerRef,
    receiverId: PeerRef,
    roomId: Option<RoomId>,
    lineLabel: Option<nat>,
    candidate: string)

  /** The payload of `webrtc_offer` and `webrtc_answer` as a client emits it. */
  datatype SdpEnvelope = SdpEnvelope(
    sdp: Option<Sdp>,
    roomId: Option<RoomId>,
    senderId: PeerRef,
    receiverId: PeerRef)

  /** Events a client emits to the server. */
  datatype ToServer =
    | Join(room: RoomId, peerUUID: PeerRef)
    | StartCall(roomId: RoomId, senderId: PeerRef)
    | Offer(env: SdpEnvelope)
    | Answer(env: SdpEnvelope)
    | IceCandidate(ice: IceEvent)

  /** Events the server delivers to a client. */
  datatype ToClient =
    | RoomCreated(roomId: RoomId, peerId: ConnId)
    | RoomJoined(roomId: RoomId, peerId: ConnId)
    | StartCallFrom(senderId: PeerRef)
    | OfferFrom(sdp: Option<Sdp>, senderId: PeerRef)
    | AnswerFrom(sdp: Option<Sdp>, senderId: PeerRef)
    | IceCandidateFrom(ice: IceEvent)

  /** One message handed to the transport for one connection. */
  datatype Delivery = Delivery(to: ConnId, msg: ToClient)
}
