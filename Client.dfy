/** The browser client: the table of peer connections keyed by remote peer id, the
    local identity, room and media stream, and the socket and connection handlers that
    update them and emit envelopes. The browser's RTCPeerConnection is an abstract
    record; the outcomes of getUserMedia and of offer/answer creation are parameters. */
module Client {
  import opened Wrappers
  import opened Messages

  datatype TrackKind = Audio | Video

  /** One local media track (opaque apart from its kind). */
  datatype Track = Track(kind: TrackKind, id: string)

  /** The connectivity state a peer connection reports. */
  datatype IceState = New | Checking | Connected | Completed | Failed | Disconnected | Closed

  /** The states on which the remote view is torn down. */
  predicate EndsRemoteView(state: IceState)
  {
    state == Failed || state == Closed || state == Disconnected
  }

  /** What the client knows of one RTCPeerConnection: descriptions applied, local tracks
      added, remote candidates applied, whether its three callbacks are registered, and
      its connectivity state. */
  datatype Session = Session(
    remoteDescription: Option<Sdp>,
    localDescription: Option<Sdp>,
    tracks: seq<Track>,
    candidates: seq<Candidate>,
    listening: bool,
    iceState: IceState)

  /** A connection object just built by `new RTCPeerConnection(...)`. */
  function NewConnection(): (s: Session)
  {
    Session(None, None, [], [], false, New)
  }

  class PeerClient {
    /** `localPeerId`: the id the server assigned, unset until a room reply arrives. */
    var localPeerId: PeerRef
    /** `roomId`: the room last asked for. */
    var roomId: Option<RoomId>
    /** `localStream`: the tracks of the local stream, unset when media capture failed. */
    var localStream: Option<seq<Track>>
    /** `peerConnections`. */
    var sessions: map<PeerRef, Session>
    /** The remote peers whose video element is on the page. */
    var remoteViews: set<PeerRef>

    /** A view is only ever created from a registered connection's track callback, and
        no connection entry is ever deleted. The handlers keep this invariant; it documents
        the state and no other contract depends on it. */
    ghost predicate Valid()
      reads this
    {
      remoteViews <= sessions.Keys
    }

    constructor ()
      ensures Valid()
      ensures localPeerId == None && roomId == None && localStream == None
      ensures sessions == map[] && remoteViews == {}
    {
      localPeerId, roomId, localStream := None, None, None;
      sessions, remoteViews := map[], {};
    }

    /** `joinRoom`: an empty name is rejected without a network call; any other name is
        remembered and sent in one `join`, with the current (possibly unset) local id. */
    method JoinRoom(room: RoomId) returns (out: seq<ToServer>)
      modifies this`roomId
      ensures room == "" ==> out == [] && roomId == old(roomId)
      ensures room != "" ==> out == [Join(room, localPeerId)] && roomId == Some(room)
    {
      if room == "" {
        out := [];
      } else {
        roomId := Some(room);
        out := [Join(room, localPeerId)];
      }
    }

    /** `room_created`: adopt the assigned id and capture local media; nothing is emitted. */
    method OnRoomCreated(room: RoomId, peerId: ConnId, media: Option<seq<Track>>)
      returns (out: seq<ToServer>)
      modifies this`localPeerId, this`localStream
      ensures localPeerId == Some(peerId) && localStream == media
      ensures out == []
    {
      localPeerId := Some(peerId);
      localStream := media;
      out := [];
    }

    /** `room_joined`: adopt the assigned id, capture local media, then ask the room to
        call in with one `start_call`, whether or not capture succeeded. */
    method OnRoomJoined(room: RoomId, peerId: ConnId, media: Option<seq<Track>>)
      returns (out: seq<ToServer>)
      modifies this`localPeerId, this`localStream
      ensures localPeerId == Some(peerId) && localStream == media
      ensures out == [StartCall(room, Some(peerId))]
    {
      localPeerId := Some(peerId);
      localStream := media;
      out := [StartCall(room, localPeerId)];
    }

    /** `addLocalTracks`: add every local track, in order, to the connection for `remote`.
        With no local stream the call throws before adding anything (`ok` is false). */
    method AddLocalTracks(remote: PeerRef) returns (ok: bool)
      requires remote in sessions
      modifies this`sessions
      ensures ok == localStream.Some?
      ensures ok ==> sessions == old(sessions)[remote :=
        old(sessions)[remote].(tracks := old(sessions)[remote].tracks + localStream.value)]
      ensures !ok ==> sessions == old(sessions)
    {
      if localStream.None? {
        return false;
      }
      var stream := localStream.value;
      ghost var before := sessions[remote];
      assert before.(tracks := before.tracks + stream[..0]) == before;
      assert sessions == old(sessions)[remote := before];
      var i := 0;
      while i < |stream|
        invariant 0 <= i <= |stream|
        invariant sessions == old(sessions)[remote := before.(tracks := before.tracks + stream[..i])]
      {
        var s := sessions[remote];
        assert stream[..i + 1] == stream[..i] + [stream[i]];
        assert s.tracks + [stream[i]] == before.tracks + stream[..i + 1];
        sessions := sessions[remote := s.(tracks := s.tracks + [stream[i]])];
        i := i + 1;
      }
      assert stream[..i] == stream;
      return true;
    }

    /** `createOffer`: a created description becomes the local description; the offer is
        emitted to `remote` either way, with an unset description when creation failed. */
    method CreateOffer(remote: PeerRef, created: Option<Sdp>) returns (out: seq<ToServer>)
      requires remote in sessions
      modifies this`sessions
      ensures sessions == old(sessions)[remote := old(sessions)[remote].(localDescription :=
        if created.Some? then created else old(sessions)[remote].localDescription)]
      ensures out == [Offer(SdpEnvelope(created, roomId, localPeerId, remote))]
    {
      if created.Some? {
        sessions := sessions[remote := sessions[remote].(localDescription := created)];
      }
      out := [Offer(SdpEnvelope(created, roomId, localPeerId, remote))];
    }

    /** `createAnswer`: as `createOffer`, emitting `webrtc_answer`. */
    method CreateAnswer(remote: PeerRef, created: Option<Sdp>) returns (out: seq<ToServer>)
      requires remote in sessions
      modifies this`sessions
      ensures sessions == old(sessions)[remote := old(sessions)[remote].(localDescription :=
        if created.Some? then created else old(sessions)[remote].localDescription)]
      ensures out == [Answer(SdpEnvelope(created, roomId, localPeerId, remote))]
    {
      if created.Some? {
        sessions := sessions[remote := sessions[remote].(localDescription := created)];
      }
      out := [Answer(SdpEnvelope(created, roomId, localPeerId, remote))];
    }

    /** `start_call` from `senderId`: a new connection replaces any entry for that peer;
        with local media it gets every local track, its callbacks, and the peer is sent an
        offer. Without local media adding tracks throws and the handler stops there. */
    method OnStartCall(senderId: PeerRef, created: Option<Sdp>) returns (out: seq<ToServer>)
      requires Valid()
      modifies this`sessions
      ensures Valid()
      ensures localStream.None? ==>
        sessions == old(sessions)[senderId := NewConnection()] && out == []
      ensures localStream.Some? ==>
        sessions == old(sessions)[senderId := Session(None, created, localStream.value, [], true, New)]
      ensures localStream.Some? ==>
        out == [Offer(SdpEnvelope(created, roomId, localPeerId, senderId))]
    {
      var remote := senderId;
      sessions := sessions[remote := NewConnection()];
      var added := AddLocalTracks(remote);
      if !added {
        return [];
      }
      assert [] + localStream.value == localStream.value;
      sessions := sessions[remote := sessions[remote].(listening := true)];
      out := CreateOffer(remote, created);
    }

    /** `webrtc_offer` from `senderId`: a new connection holding the received description
        replaces any entry for that peer; with local media it gets every local track, its
        callbacks, and the peer is sent an answer. Without local media the handler stops
        after the remote description is set. With no description in the event the
        `RTCSessionDescription` constructor throws (its `type` member is required), so the
        handler stops with the new, empty connection stored. */
    method OnOffer(sdp: Option<Sdp>, senderId: PeerRef, created: Option<Sdp>)
      returns (out: seq<ToServer>)
      requires Valid()
      modifies this`sessions
      ensures Valid()
      ensures sdp.None? ==> sessions == old(sessions)[senderId := NewConnection()] && out == []
      ensures sdp.Some? && localStream.None? ==>
        sessions == old(sessions)[senderId := NewConnection().(remoteDescription := sdp)]
        && out == []
      ensures sdp.Some? && localStream.Some? ==>
        sessions == old(sessions)[senderId := Session(sdp, created, localStream.value, [], true, New)]
      ensures sdp.Some? && localStream.Some? ==>
        out == [Answer(SdpEnvelope(created, roomId, localPeerId, senderId))]
    {
      var remote := senderId;
      sessions := sessions[remote := NewConnection()];
      if sdp.None? {
        return [];
      }
      // the new connection's remote description is then set to the received offer
      var answerer := NewConnection().(remoteDescription := sdp);
      sessions := sessions[remote := answerer];
      var added := AddLocalTracks(remote);
      if !added {
        return [];
      }
      assert sessions[remote] == answerer.(tracks := localStream.value);
      sessions := sessions[remote := sessions[remote].(listening := true)];
      out := CreateAnswer(remote, created);
    }

    /** `webrtc_answer` from `senderId`: only the remote description of that peer's
        existing connection changes. With no entry, or with no description in the event
        (the `RTCSessionDescription` constructor then throws), nothing changes. */
    method OnAnswer(sdp: Option<Sdp>, senderId: PeerRef) returns (out: seq<ToServer>)
      requires Valid()
      modifies this`sessions
      ensures Valid()
      ensures senderId in old(sessions) && sdp.Some? ==>
        sessions == old(sessions)[senderId := old(sessions)[senderId].(remoteDescription := sdp)]
      ensures senderId !in old(sessions) || sdp.None? ==> sessions == old(sessions)
      ensures out == []
    {
      if senderId in sessions && sdp.Some? {
        sessions := sessions[senderId := sessions[senderId].(remoteDescription := sdp)];
      }
      out := [];
    }

    /** `webrtc_ice_candidate` from a peer: the candidate is applied to that peer's
        connection only. With no entry the handler throws and nothing changes; so it does
        when the event has no m-line index, since the candidate is then built with neither
        an m-line index nor a media id, which the RTCIceCandidate constructor rejects. */
    method OnIceCandidate(ice: IceEvent) returns (out: seq<ToServer>)
      requires Valid()
      modifies this`sessions
      ensures Valid()
      ensures ice.senderId in old(sessions) && ice.lineLabel.Some? ==>
        sessions == old(sessions)[ice.senderId := old(sessions)[ice.senderId].(candidates :=
          old(sessions)[ice.senderId].candidates + [Candidate(ice.lineLabel, ice.candidate)])]
      ensures ice.senderId !in old(sessions) || ice.lineLabel.None? ==> sessions == old(sessions)
      ensures out == []
    {
      var senderPeerId := ice.senderId;
      if senderPeerId in sessions && ice.lineLabel.Some? {
        var candidate := Candidate(ice.lineLabel, ice.candidate);
        var s := sessions[senderPeerId];
        sessions := sessions[senderPeerId := s.(candidates := s.candidates + [candidate])];
      }
      out := [];
    }

    /** `sendIceCandidate` (the `onicecandidate` callback, registered only on a connection
        that got its tracks): a candidate the browser discovered for `remote` is sent to it,
        labelled with its m-line index; the null end-of-candidates event is not. */
    method SendIceCandidate(remote: PeerRef, discovered: Option<Candidate>)
      returns (out: seq<ToServer>)
      requires remote in sessions && sessions[remote].listening
      ensures |out| <= 1
      ensures out != [] <==> discovered.Some?
      ensures forall m :: m in out ==>
        && m.IceCandidate? && m.ice.receiverId == remote
        && m.ice.senderId == localPeerId && m.ice.roomId == roomId
        && Candidate(m.ice.lineLabel, m.ice.candidate) == discovered.value
    {
      if discovered.Some? {
        var c := discovered.value;
        out := [IceCandidate(IceEvent(localPeerId, remote, roomId, c.sdpMLineIndex, c.candidate))];
      } else {
        out := [];
      }
    }

    /** `setRemoteStream` (the `ontrack` callback, registered only on a connection that got
        its tracks): a video track puts a view of `remote` on
        the page; an audio track changes nothing. */
    method OnRemoteTrack(remote: PeerRef, track: Track)
      requires Valid() && remote in sessions && sessions[remote].listening
      modifies this`remoteViews
      ensures Valid()
      ensures remoteViews == if track.kind == Video then old(remoteViews) + {remote}
                             else old(remoteViews)
    {
      if track.kind == Video {
        remoteViews := remoteViews + {remote};
      }
    }

    /** `checkPeerDisconnect`: the view of `remote` goes when its connection is failed,
        closed or disconnected; in every other state nothing changes. The connection entry
        itself is kept. */
    method CheckPeerDisconnect(remote: PeerRef)
      requires Valid() && remote in sessions
      modifies this`remoteViews
      ensures Valid()
      ensures EndsRemoteView(sessions[remote].iceState) ==> remoteViews == old(remoteViews) - {remote}
      ensures !EndsRemoteView(sessions[remote].iceState) ==> remoteViews == old(remoteViews)
    {
      var state := sessions[remote].iceState;
      if EndsRemoteView(state) {
        remoteViews := remoteViews - {remote};
      }
    }

    /** The connection for `remote` reports a new connectivity state, and its
        `oniceconnectionstatechange` callback (registered only on a connection that got its
        tracks) runs `checkPeerDisconnect`. */
    method OnIceConnectionStateChange(remote: PeerRef, state: IceState)
      requires Valid() && remote in sessions && sessions[remote].listening
      modifies this`sessions, this`remoteViews
      ensures Valid()
      ensures sessions == old(sessions)[remote := old(sessions)[remote].(iceState := state)]
      ensures remoteViews == if EndsRemoteView(state) then old(remoteViews) - {remote}
                             else old(remoteViews)
    {
      sessions := sessions[remote := sessions[remote].(iceState := state)];
      CheckPeerDisconnect(remote);
    }
  }
}
