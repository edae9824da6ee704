/** The relay server: the room registry and the handlers registered on every
    connection. Room membership is the only state; every handler's effect on the
    wire is the set of deliveries it returns. */
module Relay {
  import opened Wrappers
  import opened Messages

  /** Room name to the connections currently in it. */
  type Rooms = map<RoomId, set<ConnId>>

  /** The members of a room; a room with no entry has none. */
  function Members(rooms: Rooms, room: RoomId): (members: set<ConnId>)
  {
    if room in rooms then rooms[room] else {}
  }

  /** socket.io keeps no entry for an empty room. */
  ghost predicate NoEmptyRoom(rooms: Rooms)
  {
    forall r :: r in rooms ==> rooms[r] != {}
  }

  /** The reply a `join` earns: decided by the room's size before the join. */
  function JoinReply(rooms: Rooms, room: RoomId, sender: ConnId): (r: ToClient)
    ensures r.RoomCreated? != r.RoomJoined?
    ensures r.RoomCreated? <==> Members(rooms, room) == {}
    ensures r.roomId == room && r.peerId == sender
  {
    if |Members(rooms, room)| == 0 then RoomCreated(room, sender) else RoomJoined(room, sender)
  }

  /** Membership after `sender` joins `room`. */
  function AfterJoin(rooms: Rooms, room: RoomId, sender: ConnId): (r: Rooms)
    ensures Members(r, room) == Members(rooms, room) + {sender}
    ensures forall other :: other != room ==> Members(r, other) == Members(rooms, other)
    ensures r.Keys == rooms.Keys + {room}
    ensures NoEmptyRoom(rooms) ==> NoEmptyRoom(r)
  {
    rooms[room := Members(rooms, room) + {sender}]
  }

  /** `socket.broadcast.to(room)`: every member of the room except the sender. */
  function Broadcast(rooms: Rooms, room: RoomId, sender: ConnId, msg: ToClient): (r: set<Delivery>)
    ensures forall d :: d in r <==> d.to in Members(rooms, room) && d.to != sender && d.msg == msg
    ensures |r| == |Members(rooms, room) - {sender}|
  {
    var recipients := Members(rooms, room) - {sender};
    var r := set c | c in recipients :: Delivery(c, msg);
    SizeOfDeliveries(recipients, msg);
    r
  }

  /** Addressing by connection id: one Delivery per recipient, so sizes agree. */
  lemma {:induction false} SizeOfDeliveries(recipients: set<ConnId>, msg: ToClient)
    ensures |set c | c in recipients :: Delivery(c, msg)| == |recipients|
    decreases |recipients|
  {
    if recipients != {} {
      var c :| c in recipients;
      var rest := recipients - {c};
      SizeOfDeliveries(rest, msg);
      assert (set x | x in recipients :: Delivery(x, msg))
          == (set x | x in rest :: Delivery(x, msg)) + {Delivery(c, msg)};
    } else {
      assert (set x | x in recipients :: Delivery(x, msg)) == {};
    }
  }

  /** `socket.broadcast.to(receiverId)`: the one connection with that id, never the sender,
      and nobody when the id is missing. */
  function Unicast(sender: ConnId, receiverId: PeerRef, msg: ToClient): (r: set<Delivery>)
    ensures forall d :: d in r <==> Some(d.to) == receiverId && d.to != sender && d.msg == msg
    ensures |r| <= 1
  {
    if receiverId.Some? && receiverId.value != sender then {Delivery(receiverId.value, msg)} else {}
  }

  /** Replays `join` for each connection of `joiners` in turn, collecting the replies. */
  function JoinAll(rooms: Rooms, room: RoomId, joiners: seq<ConnId>): (r: (Rooms, seq<ToClient>))
    decreases |joiners|
  {
    if joiners == [] then (rooms, [])
    else
      var rest := JoinAll(AfterJoin(rooms, room, joiners[0]), room, joiners[1..]);
      (rest.0, [JoinReply(rooms, room, joiners[0])] + rest.1)
  }

  /** A run of joins into one room: only the first join into an empty room creates it;
      every later one (the same connection again included) is told it joined. */
  lemma {:induction false} JoinAllReplies(rooms: Rooms, room: RoomId, joiners: seq<ConnId>)
    ensures |JoinAll(rooms, room, joiners).1| == |joiners|
    ensures forall i :: 0 <= i < |joiners| ==>
      JoinAll(rooms, room, joiners).1[i]
        == if i == 0 && Members(rooms, room) == {} then RoomCreated(room, joiners[i])
           else RoomJoined(room, joiners[i])
    decreases |joiners|
  {
    if joiners != [] {
      var next := AfterJoin(rooms, room, joiners[0]);
      JoinAllReplies(next, room, joiners[1..]);
      var tail := JoinAll(next, room, joiners[1..]).1;
      var replies := JoinAll(rooms, room, joiners).1;
      assert replies == [JoinReply(rooms, room, joiners[0])] + tail;
      forall i | 0 < i < |joiners|
        ensures replies[i] == RoomJoined(room, joiners[i])
      {
        assert replies[i] == tail[i - 1];
        assert joiners[1..][i - 1] == joiners[i];
      }
    }
  }

  /** After a run of joins every joiner is a member of the room, and no other room changed. */
  lemma {:induction false} JoinAllMembers(rooms: Rooms, room: RoomId, joiners: seq<ConnId>)
    ensures Members(JoinAll(rooms, room, joiners).0, room)
         == Members(rooms, room) + (set c | c in joiners)
    ensures forall other :: other != room ==>
      Members(JoinAll(rooms, room, joiners).0, other) == Members(rooms, other)
    decreases |joiners|
  {
    if joiners != [] {
      var next := AfterJoin(rooms, room, joiners[0]);
      JoinAllMembers(next, room, joiners[1..]);
      assert JoinAll(rooms, room, joiners).0 == JoinAll(next, room, joiners[1..]).0;
      ElementsOfCons(joiners);
    } else {
      assert (set c | c in joiners) == {};
    }
  }

  lemma ElementsOfCons(s: seq<ConnId>)
    requires s != []
    ensures (set c | c in s) == {s[0]} + (set c | c in s[1..])
  {
  }

  /** One server process: the room registry plus the per-connection handlers. */
  class RelayServer {
    var rooms: Rooms

    /** The registry keeps no empty entry. Join keeps this invariant; it documents the
        state, and `JoinReply` decides on the members whether or not it holds. */
    ghost predicate Valid()
      reads this
    {
      NoEmptyRoom(rooms)
    }

    constructor ()
      ensures Valid() && rooms == map[]
    {
      rooms := map[];
    }

    /** `join`: answer `room_created` or `room_joined` to the joining connection only,
        then add it to the room. */
    method Join(sender: ConnId, room: RoomId, peerUUID: PeerRef) returns (out: set<Delivery>)
      requires Valid()
      modifies this
      ensures Valid()
      ensures rooms == AfterJoin(old(rooms), room, sender)
      ensures out == {Delivery(sender, JoinReply(old(rooms), room, sender))}
    {
      var numberOfClients := |Members(rooms, room)|;
      if numberOfClients == 0 {
        rooms := rooms[room := Members(rooms, room) + {sender}];
        out := {Delivery(sender, RoomCreated(room, sender))};
      } else {
        rooms := rooms[room := Members(rooms, room) + {sender}];
        out := {Delivery(sender, RoomJoined(room, sender))};
      }
    }

    /** `start_call`: to every other member of the named room, payload cut to the sender id. */
    method StartCall(sender: ConnId, roomId: RoomId, senderId: PeerRef) returns (out: set<Delivery>)
      ensures forall d :: d in out <==>
        d.to in Members(rooms, roomId) && d.to != sender && d.msg == StartCallFrom(senderId)
    {
      out := Broadcast(rooms, roomId, sender, StartCallFrom(senderId));
    }

    /** `webrtc_offer`: to the receiver only, payload cut to the description and sender id. */
    method Offer(sender: ConnId, env: SdpEnvelope) returns (out: set<Delivery>)
      ensures forall d :: d in out <==>
        Some(d.to) == env.receiverId && d.to != sender && d.msg == OfferFrom(env.sdp, env.senderId)
      ensures |out| <= 1
    {
      out := Unicast(sender, env.receiverId, OfferFrom(env.sdp, env.senderId));
    }

    /** `webrtc_answer`: to the receiver only, payload cut to the description and sender id. */
    method Answer(sender: ConnId, env: SdpEnvelope) returns (out: set<Delivery>)
      ensures forall d :: d in out <==>
        Some(d.to) == env.receiverId && d.to != sender && d.msg == AnswerFrom(env.sdp, env.senderId)
      ensures |out| <= 1
    {
      out := Unicast(sender, env.receiverId, AnswerFrom(env.sdp, env.senderId));
    }

    /** `webrtc_ice_candidate`: the received event, unchanged, to the receiver only. */
    method IceCandidate(sender: ConnId, ice: IceEvent) returns (out: set<Delivery>)
      ensures forall d :: d in out <==>
        Some(d.to) == ice.receiverId && d.to != sender && d.msg == IceCandidateFrom(ice)
      ensures |out| <= 1
    {
      out := Unicast(sender, ice.receiverId, IceCandidateFrom(ice));
    }

    /** Dispatch of one event received on the connection `sender`. Only `join` changes
        membership. */
    method Receive(sender: ConnId, msg: ToServer) returns (out: set<Delivery>)
      requires Valid()
      modifies this
      ensures Valid()
      ensures msg.Join? ==> rooms == AfterJoin(old(rooms), msg.room, sender)
      ensures msg.Join? ==> out == {Delivery(sender, JoinReply(old(rooms), msg.room, sender))}
      ensures !msg.Join? ==> rooms == old(rooms)
      ensures msg.StartCall? ==> out == Broadcast(rooms, msg.roomId, sender, StartCallFrom(msg.senderId))
      ensures msg.Offer? ==> out == Unicast(sender, msg.env.receiverId, OfferFrom(msg.env.sdp, msg.env.senderId))
      ensures msg.Answer? ==> out == Unicast(sender, msg.env.receiverId, AnswerFrom(msg.env.sdp, msg.env.senderId))
      ensures msg.IceCandidate? ==> out == Unicast(sender, msg.ice.receiverId, IceCandidateFrom(msg.ice))
    {
      match msg
      case Join(room, peerUUID) => out := Join(sender, room, peerUUID);
      case StartCall(roomId, senderId) => out := StartCall(sender, roomId, senderId);
      case Offer(env) => out := Offer(sender, env);
      case Answer(env) => out := Answer(sender, env);
      case IceCandidate(ice) => out := IceCandidate(sender, ice);
    }
  }
}
