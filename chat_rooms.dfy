/** The realtime channel of backend/server.js: the socket.io room table and the
    two event handlers `joinRoom` and `sendMessage`. A room is named by the two
    participant ids, sorted and joined with "-"; `joinRoom` adds the calling socket
    to that room and `sendMessage` emits `receiveMessage` to every socket in it. */
module ChatRooms {
  import opened Js

  type SocketId = string

  /** `[a, b].sort()`: `undefined` goes last, strings in ascending order. */
  function SortPair(a: Maybe<string>, b: Maybe<string>): (Maybe<string>, Maybe<string>) {
    if a.Undefined? then (b, a)
    else if b.Undefined? then (a, b)
    else if LexLess(b.value, a.value) then (b, a)
    else (a, b)
  }

  /** How `Array.prototype.join` renders one element: `undefined` becomes "". */
  function Render(x: Maybe<string>): string {
    x.GetOr("")
  }

  /** `[senderId, receiverId].sort().join("-")`. */
  function RoomId(a: Maybe<string>, b: Maybe<string>): string {
    var (lo, hi) := SortPair(a, b);
    Render(lo) + "-" + Render(hi)
  }

  /** Both participants compute the same room: the id does not depend on which
      of them is the sender. */
  lemma RoomIdSymmetric(a: Maybe<string>, b: Maybe<string>)
    ensures RoomId(a, b) == RoomId(b, a)
  {
    if a.Defined? && b.Defined? {
      LexLessTotal(a.value, b.value);
    }
  }

  /** For two present ids the room id is the smaller id, "-", then the larger one. */
  lemma RoomIdOrdered(a: string, b: string)
    ensures exists lo, hi :: {lo, hi} == {a, b} && !LexLess(hi, lo)
                             && RoomId(Defined(a), Defined(b)) == lo + "-" + hi
  {
    LexLessTotal(a, b);
    if LexLess(b, a) {
      assert {b, a} == {a, b};
      assert RoomId(Defined(a), Defined(b)) == b + "-" + a;
    } else {
      assert RoomId(Defined(a), Defined(b)) == a + "-" + b;
    }
  }

  /** A missing id is rendered as the empty string after the present one. */
  lemma RoomIdOneMissing(a: string)
    ensures RoomId(Defined(a), Undefined) == a + "-"
    ensures RoomId(Undefined, Defined(a)) == a + "-"
  {
  }

  /** Room ids are unambiguous for ids without "-" (MongoDB ObjectIds are
      hexadecimal): equal room ids come from the same unordered pair. */
  lemma {:induction false} RoomIdInjective(a: string, b: string, c: string, d: string)
    requires '-' !in a && '-' !in b && '-' !in c && '-' !in d
    requires RoomId(Defined(a), Defined(b)) == RoomId(Defined(c), Defined(d))
    ensures {a, b} == {c, d}
  {
    var r := RoomId(Defined(a), Defined(b));
    var (lo, hi) := SortPair(Defined(a), Defined(b));
    var (lo', hi') := SortPair(Defined(c), Defined(d));
    assert r == Join([lo.value, hi.value], "-");
    assert r == Join([lo'.value, hi'.value], "-");
    SplitJoin([lo.value, hi.value], '-');
    SplitJoin([lo'.value, hi'.value], '-');
    assert [lo.value, hi.value] == [lo'.value, hi'.value];
  }

  /** With "-" inside ids, two different pairs share a room. */
  lemma RoomIdCollidesWithDashes()
    ensures RoomId(Defined("a-b"), Defined("c")) == RoomId(Defined("a"), Defined("b-c"))
  {
    assert LexLess("a-b", "c");
    assert LexLess("a", "b-c");
  }

  // ---------------------------------------------------------------------------
  // The room table

  /** No socket appears twice in a room (socket.io keeps each room as a Set, which
      iterates in insertion order). */
  predicate NoDup(s: seq<SocketId>) {
    forall i, j :: 0 <= i < j < |s| ==> s[i] != s[j]
  }

  /** The sockets in `room`, in the order they joined; none when the room does not exist. */
  function Members(rooms: map<string, seq<SocketId>>, room: string): seq<SocketId> {
    if room in rooms then rooms[room] else []
  }

  /** `socket.join(room)`: adds the socket at the end unless it is already there. */
  function AddMember(rooms: map<string, seq<SocketId>>, room: string, socket: SocketId): map<string, seq<SocketId>> {
    var m := Members(rooms, room);
    rooms[room := if socket in m then m else m + [socket]]
  }

  predicate ValidRooms(rooms: map<string, seq<SocketId>>) {
    forall r :: r in rooms ==> NoDup(rooms[r])
  }

  /** Joining only adds: the socket is in the room afterwards, every earlier member
      of every room is still there, no room other than `room` changes, and the
      table stays duplicate-free. */
  lemma AddMemberOnlyAdds(rooms: map<string, seq<SocketId>>, room: string, socket: SocketId)
    requires ValidRooms(rooms)
    ensures ValidRooms(AddMember(rooms, room, socket))
    ensures socket in Members(AddMember(rooms, room, socket), room)
    ensures forall r, s :: s in Members(rooms, r) ==> s in Members(AddMember(rooms, room, socket), r)
    ensures forall r :: r != room ==> Members(AddMember(rooms, room, socket), r) == Members(rooms, r)
  {
    var m := Members(rooms, room);
    if socket !in m {
      var m' := m + [socket];
      forall i, j | 0 <= i < j < |m'| ensures m'[i] != m'[j] {
        if j == |m| {
          assert m'[i] == m[i];
        } else {
          assert m'[i] == m[i] && m'[j] == m[j];
        }
      }
    }
  }

  /** Joining the same room twice has the effect of joining it once. */
  lemma AddMemberIdempotent(rooms: map<string, seq<SocketId>>, room: string, socket: SocketId)
    ensures AddMember(AddMember(rooms, room, socket), room, socket) == AddMember(rooms, room, socket)
  {
  }

  /** A message sent as (b, a) is addressed to the room a socket joined as (a, b). */
  lemma JoinedSocketReachedFromEitherSide(rooms: map<string, seq<SocketId>>, socket: SocketId,
                                           a: Maybe<string>, b: Maybe<string>)
    ensures socket in Members(AddMember(rooms, RoomId(a, b), socket), RoomId(b, a))
  {
    RoomIdSymmetric(a, b);
  }

  /** Joining a second room keeps the socket in the first: membership is not
      exclusive. */
  lemma SocketInSeveralRooms(rooms: map<string, seq<SocketId>>, socket: SocketId, r1: string, r2: string)
    requires r1 != r2
    ensures var after := AddMember(AddMember(rooms, r1, socket), r2, socket);
            socket in Members(after, r1) && socket in Members(after, r2)
  {
  }

  /** What socket.io delivers for `receiveMessage`: the sender's id and the text,
      and nothing else (no receiver, no timestamp, no `_id`). */
  datatype Payload = Payload(senderId: Maybe<string>, message: Maybe<string>)

  /** One emitted event: which socket gets which payload. */
  datatype Delivery = Delivery(socket: SocketId, event: string, payload: Payload)

  /** How many of the deliveries go to `socket`. */
  function DeliveriesTo(out: seq<Delivery>, socket: SocketId): nat {
    if out == [] then 0
    else (if out[0].socket == socket then 1 else 0) + DeliveriesTo(out[1..], socket)
  }

  /** The single socket.io server: the room table is its only mutable state. */
  class Server {
    var rooms: map<string, seq<SocketId>>

    ghost predicate Valid()
      reads this
    {
      ValidRooms(rooms)
    }

    constructor ()
      ensures Valid() && rooms == map[]
    {
      rooms := map[];
    }

    /** `socket.on("joinRoom", ...)`: the calling socket joins the canonical room. */
    method JoinRoom(socket: SocketId, senderId: Maybe<string>, receiverId: Maybe<string>)
      requires Valid()
      modifies this
      ensures Valid()
      ensures rooms == AddMember(old(rooms), RoomId(senderId, receiverId), socket)
    {
      AddMemberOnlyAdds(rooms, RoomId(senderId, receiverId), socket);
      var id := RoomId(senderId, receiverId);
      var members := if id in rooms then rooms[id] else [];
      if socket !in members {
        rooms := rooms[id := members + [socket]];
      }
    }

    /** `socket.on("sendMessage", ...)`: `io.to(room).emit("receiveMessage",
        { senderId, message })` sends to every member of the room, including the
        sender's own socket, in join order. It reads the table and changes nothing. */
    method SendMessage(senderId: Maybe<string>, receiverId: Maybe<string>, message: Maybe<string>)
      returns (out: seq<Delivery>)
      ensures |out| == |Members(rooms, RoomId(senderId, receiverId))|
      ensures forall k :: 0 <= k < |out| ==>
                out[k] == Delivery(Members(rooms, RoomId(senderId, receiverId))[k],
                                   "receiveMessage", Payload(senderId, message))
    {
      var id := RoomId(senderId, receiverId);
      var members := if id in rooms then rooms[id] else [];
      var payload := Payload(senderId, message);
      out := [];
      var i := 0;
      while i < |members|
        invariant 0 <= i <= |members|
        invariant |out| == i
        invariant forall k :: 0 <= k < i ==> out[k] == Delivery(members[k], "receiveMessage", payload)
      {
        out := out + [Delivery(members[i], "receiveMessage", payload)];
        i := i + 1;
      }
    }
  }

  /** Fan-out reaches each member of a duplicate-free room exactly once and no
      socket outside it. */
  lemma {:induction false} FanoutExactlyOnce(members: seq<SocketId>, out: seq<Delivery>, p: Payload, s: SocketId)
    requires NoDup(members)
    requires |out| == |members|
    requires forall k :: 0 <= k < |out| ==> out[k] == Delivery(members[k], "receiveMessage", p)
    ensures DeliveriesTo(out, s) == (if s in members then 1 else 0)
  {
    if members != [] {
      assert NoDup(members[1..]) by {
        forall i, j | 0 <= i < j < |members| - 1 ensures members[1..][i] != members[1..][j] {
          assert members[1..][i] == members[i + 1] && members[1..][j] == members[j + 1];
        }
      }
      FanoutExactlyOnce(members[1..], out[1..], p, s);
      assert members == [members[0]] + members[1..];
      if s == members[0] {
        assert s !in members[1..] by {
          forall k | 0 <= k < |members| - 1 ensures members[1..][k] != s {
            assert members[1..][k] == members[k + 1];
          }
        }
      }
    }
  }

  /** The sender's own socket, once it has joined, receives its own message back:
      `io.to` does not exclude the emitting socket. */
  method EchoToSender(server: Server, socket: SocketId, a: string, b: string, text: string)
    returns (out: seq<Delivery>)
    requires server.Valid()
    modifies server
    ensures DeliveriesTo(out, socket) == 1
  {
    server.JoinRoom(socket, Defined(a), Defined(b));
    AddMemberOnlyAdds(old(server.rooms), RoomId(Defined(a), Defined(b)), socket);
    out := server.SendMessage(Defined(a), Defined(b), Defined(text));
    FanoutExactlyOnce(Members(server.rooms, RoomId(Defined(a), Defined(b))), out,
                      Payload(Defined(a), Defined(text)), socket);
  }
}
