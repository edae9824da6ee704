/** Fragments of a two-client run, each started from fresh state: two clients and one
    relay server exchanging the envelopes each side emits, proved from the components'
    contracts alone. */
module Scenarios {
  import opened Wrappers
  import opened Messages
  import opened Relay
  import opened Client

  /** The room part of a two-client run, started from fresh state: A opens `room`, then B
      joins it and calls in: A is told it created the room, B that
      it joined (A hears nothing of that), and B's `start_call` reaches A only. */
  method RoomSetup(a: ConnId, b: ConnId, room: RoomId, tracksA: seq<Track>, tracksB: seq<Track>)
    returns (relayed: seq<set<Delivery>>, members: set<ConnId>)
    requires a != b && room != ""
    ensures relayed == [
      {Delivery(a, RoomCreated(room, a))},
      {Delivery(b, RoomJoined(room, b))},
      {Delivery(a, StartCallFrom(Some(b)))}]
    ensures members == {a, b}
  {
    var server := new RelayServer();
    var peerA := new PeerClient();
    var peerB := new PeerClient();

    var out := peerA.JoinRoom(room);
    var got := server.Join(a, out[0].room, out[0].peerUUID);
    assert got == {Delivery(a, RoomCreated(room, a))};
    relayed := [got];
    out := peerA.OnRoomCreated(room, a, Some(tracksA));

    out := peerB.JoinRoom(room);
    got := server.Join(b, out[0].room, out[0].peerUUID);
    assert got == {Delivery(b, RoomJoined(room, b))};
    relayed := relayed + [got];
    members := Members(server.rooms, room);
    assert members == {a, b};

    out := peerB.OnRoomJoined(room, b, Some(tracksB));
    got := server.StartCall(b, out[0].roomId, out[0].senderId);
    assert got == {Delivery(a, StartCallFrom(Some(b)))};
    relayed := relayed + [got];
  }

  /** The offer/answer part of a two-client run, started from fresh state: both clients
      have had their room replies, then A offers and B answers. Each relay step reaches
      the other peer only, A only ever offers and B only ever answers, and both connections
      end up holding the local and the remote description of the call, with every local
      track added. `sentByA` and `sentByB` hold everything each client emits. */
  method OfferAnswer(a: ConnId, b: ConnId, room: RoomId, tracksA: seq<Track>, tracksB: seq<Track>,
                     offer: Sdp, answer: Sdp)
    returns (relayed: seq<set<Delivery>>, sentByA: seq<ToServer>, sentByB: seq<ToServer>,
             atA: Session, atB: Session)
    requires a != b && room != ""
    ensures relayed == [
      {Delivery(b, OfferFrom(Some(offer), Some(a)))},
      {Delivery(a, AnswerFrom(Some(answer), Some(b)))}]
    ensures forall m :: m in sentByA ==> !m.Answer?
    ensures forall m :: m in sentByB ==> !m.Offer?
    ensures atA == Session(Some(answer), Some(offer), tracksA, [], true, New)
    ensures atB == Session(Some(offer), Some(answer), tracksB, [], true, New)
  {
    var server := new RelayServer();
    var peerA := new PeerClient();
    var peerB := new PeerClient();
    var out := peerA.JoinRoom(room);
    sentByA := out;
    out := peerA.OnRoomCreated(room, a, Some(tracksA));
    sentByA := sentByA + out;
    out := peerB.JoinRoom(room);
    sentByB := out;
    out := peerB.OnRoomJoined(room, b, Some(tracksB));
    sentByB := sentByB + out;

    // A offers to B.
    out := peerA.OnStartCall(Some(b), Some(offer));
    assert out == [Offer(SdpEnvelope(Some(offer), Some(room), Some(a), Some(b)))];
    sentByA := sentByA + out;
    var got := server.Offer(a, out[0].env);
    assert got == {Delivery(b, OfferFrom(Some(offer), Some(a)))};
    relayed := [got];

    // B answers A.
    out := peerB.OnOffer(Some(offer), Some(a), Some(answer));
    assert out == [Answer(SdpEnvelope(Some(answer), Some(room), Some(b), Some(a)))];
    sentByB := sentByB + out;
    atB := peerB.sessions[Some(a)];
    got := server.Answer(b, out[0].env);
    assert got == {Delivery(a, AnswerFrom(Some(answer), Some(b)))};
    relayed := relayed + [got];
    out := peerA.OnAnswer(Some(answer), Some(b));
    sentByA := sentByA + out;
    atA := peerA.sessions[Some(b)];
  }

  /** The candidate part of a two-client run, started from fresh state: both clients have
      joined and had their room replies, A has offered and B has taken the offer; then a
      candidate A's browser discovers for B is relayed to B alone and applied to B's
      connection for A when it carries an m-line index (B's browser rejects one without),
      and the null end-of-candidates event sends nothing. */
  method CandidateRelay(a: ConnId, b: ConnId, room: RoomId, tracksA: seq<Track>, tracksB: seq<Track>,
                        offer: Sdp, answer: Sdp, found: Candidate)
    returns (relayed: set<Delivery>, afterLast: seq<ToServer>, atB: Session)
    requires a != b && room != ""
    ensures relayed == {Delivery(b, IceCandidateFrom(IceEvent(Some(a), Some(b), Some(room),
                                                              found.sdpMLineIndex, found.candidate)))}
    ensures afterLast == []
    ensures atB.candidates == if found.sdpMLineIndex.Some? then [found] else []
  {
    var server := new RelayServer();
    var peerA := new PeerClient();
    var peerB := new PeerClient();
    var out := peerA.JoinRoom(room);
    out := peerA.OnRoomCreated(room, a, Some(tracksA));
    out := peerB.JoinRoom(room);
    out := peerB.OnRoomJoined(room, b, Some(tracksB));
    out := peerA.OnStartCall(Some(b), Some(offer));
    assert peerA.sessions[Some(b)].listening;
    out := peerB.OnOffer(Some(offer), Some(a), Some(answer));
    assert peerB.sessions[Some(a)].candidates == [];

    out := peerA.SendIceCandidate(Some(b), Some(found));
    var ice := IceEvent(Some(a), Some(b), Some(room), found.sdpMLineIndex, found.candidate);
    assert out[0] in out;
    assert out == [IceCandidate(ice)];
    relayed := server.IceCandidate(a, out[0].ice);
    assert relayed == {Delivery(b, IceCandidateFrom(ice))};
    out := peerB.OnIceCandidate(ice);
    atB := peerB.sessions[Some(a)];

    afterLast := peerA.SendIceCandidate(Some(b), None);
  }
}
