/** The room registry and event relay: the process-wide user registry and
    stroke log, and the five socket event handlers that change them. Each
    handler returns the events it emits instead of writing to sockets. */
module Relay {
  import opened Types
  import opened Views

  /** What a handler leaves behind when it runs as written: the stroke log,
      the events it emitted, and whether it stopped on a thrown error. */
  datatype ClearOutcome = ClearOutcome(drawings: seq<Segment>, emits: seq<Emit>, threw: bool)

  /** `clearCanvas` as written (server.js:46-49). `drawings` is bound with
      `const` (server.js:10), so the assignment on line 47 throws a
      TypeError after the filter has been evaluated: the log keeps its old
      value and the `clearCanvas` broadcast on line 48 is never sent. */
  function ClearCanvasAsWritten(drawings: seq<Segment>, roomId: RoomId): (out: ClearOutcome)
    ensures out.threw && out.emits == []
    ensures out.drawings == drawings
  {
    ClearOutcome(drawings, [], true)
  }

  /** As written, clearing a room that has strokes leaves them all in place:
      the log differs from the intended one (WithoutRoom). If the process
      survives the uncaught TypeError, a later `init` for that room still
      replays the stroke; otherwise the server stops and every room's log
      is lost with it. */
  lemma ClearCanvasAsWrittenKeepsStrokes(drawings: seq<Segment>, roomId: RoomId, i: nat)
    requires i < |drawings| && drawings[i].roomId == roomId
    ensures ClearCanvasAsWritten(drawings, roomId).drawings != WithoutRoom(drawings, roomId)
    ensures drawings[i] in SegmentsInRoom(ClearCanvasAsWritten(drawings, roomId).drawings, roomId)
  {
    assert drawings[i] in drawings;
  }

  /** The relay's state: `users` (server.js:11) with the order in which its
      keys were inserted, which `Object.values` follows, and `drawings`
      (server.js:10). */
  class Registry {
    var users: map<ConnId, User>
    var order: seq<ConnId>
    var drawings: seq<Segment>

    /** `order` lists every registered connection exactly once. */
    ghost predicate Valid()
      reads this
    {
      NoDup(order) && forall c :: c in order <==> c in users
    }

    /** The state when the server starts: no users and an empty log. */
    constructor ()
      ensures Valid()
      ensures users == map[] && order == [] && drawings == []
    {
      users := map[];
      order := [];
      drawings := [];
    }

    /** `setUsername` (server.js:24-31): (re)register the caller with the
        default pen, broadcast the room's user list to the room and send the
        room's stroke replay to the caller alone. */
    method SetUsername(caller: ConnId, username: string, roomId: RoomId) returns (emits: seq<Emit>)
      requires Valid()
      modifies this
      ensures Valid()
      ensures users == old(users)[caller := User(username, roomId, DefaultColor, DefaultSize)]
      ensures order == if caller in old(users) then old(order) else old(order) + [caller]
      ensures drawings == old(drawings)
      ensures emits == [Emit(ToRoom(roomId), UpdateUsers(UsersInRoom(order, users, roomId))),
                        Emit(ToCaller(caller), Init(SegmentsInRoom(drawings, roomId)))]
      ensures users[caller] in emits[0].msg.users
      ensures caller !in old(users) ==>
        RoomConns(order, users, roomId) == RoomConns(old(order), old(users), roomId) + [caller]
    {
      var record := User(username, roomId, DefaultColor, DefaultSize);
      if caller !in users {
        NoDupSnoc(order, caller);
        RoomConnsAfterJoin(order, users, caller, record, roomId);
        order := order + [caller];
      }
      users := users[caller := record];
      var list := UsersInRoom(order, users, roomId);
      UsersInRoomExact(order, users, roomId, caller);
      emits := [Emit(ToRoom(roomId), UpdateUsers(list)),
                Emit(ToCaller(caller), Init(SegmentsInRoom(drawings, roomId)))];
    }

    /** `draw` (server.js:33-36): append the segment to the log and relay it
        unchanged to its room, sender included. */
    method Draw(data: Segment) returns (emits: seq<Emit>)
      requires Valid()
      modifies this
      ensures Valid()
      ensures drawings == old(drawings) + [data]
      ensures users == old(users) && order == old(order)
      ensures emits == [Emit(ToRoom(data.roomId), DrawEvent(data))]
    {
      drawings := drawings + [data];
      emits := [Emit(ToRoom(data.roomId), DrawEvent(data))];
    }

    /** `updatePen` (server.js:38-44): a registered caller gets the new colour
        and size, and the user list of `roomId` (the room named in the
        event, not the stored one) is broadcast to that room; from an
        unregistered caller nothing changes and nothing is sent. */
    method UpdatePen(caller: ConnId, color: string, size: PenSize, roomId: RoomId) returns (emits: seq<Emit>)
      requires Valid()
      modifies this
      ensures Valid()
      ensures order == old(order) && drawings == old(drawings)
      ensures caller !in old(users) ==> users == old(users) && emits == []
      ensures caller in old(users) ==>
        && users == old(users)[caller := old(users)[caller].(color := color, size := size)]
        && emits == [Emit(ToRoom(roomId), UpdateUsers(UsersInRoom(order, users, roomId)))]
        && forall r :: RoomConns(order, users, r) == RoomConns(old(order), old(users), r)
    {
      if caller in users {
        var record := users[caller].(color := color, size := size);
        forall r ensures RoomConns(order, users[caller := record], r) == RoomConns(order, users, r) {
          RoomConnsSameRoom(order, users, caller, record, r);
        }
        users := users[caller := record];
        emits := [Emit(ToRoom(roomId), UpdateUsers(UsersInRoom(order, users, roomId)))];
      } else {
        emits := [];
      }
    }

    /** `clearCanvas` (server.js:46-49) with the filter it intends: drop the
        room's segments from the log and signal the room. As written the
        source throws instead (see ClearCanvasAsWritten). */
    method ClearCanvas(roomId: RoomId) returns (emits: seq<Emit>)
      requires Valid()
      modifies this
      ensures Valid()
      ensures drawings == WithoutRoom(old(drawings), roomId)
      ensures users == old(users) && order == old(order)
      ensures emits == [Emit(ToRoom(roomId), ClearSignal)]
      ensures SegmentsInRoom(drawings, roomId) == []
    {
      ClearEmptiesRoom(drawings, roomId);
      drawings := WithoutRoom(drawings, roomId);
      emits := [Emit(ToRoom(roomId), ClearSignal)];
    }

    /** `disconnect` (server.js:51-58): forget the caller and broadcast the
        remaining users of the room it was in; the log is untouched. From an
        unregistered connection nothing changes and nothing is sent. */
    method Disconnect(caller: ConnId) returns (emits: seq<Emit>)
      requires Valid()
      modifies this
      ensures Valid()
      ensures users == old(users) - {caller}
      ensures order == RemoveConn(old(order), caller)
      ensures drawings == old(drawings)
      ensures caller !in old(users) ==> users == old(users) && order == old(order) && emits == []
      ensures caller in old(users) ==>
        var room := old(users)[caller].roomId;
        && emits == [Emit(ToRoom(room), UpdateUsers(UsersInRoom(order, users, room)))]
        && RoomConns(order, users, room) == RemoveConn(RoomConns(old(order), old(users), room), caller)
    {
      if caller in users {
        var user := users[caller];
        RoomConnsAfterLeave(order, users, caller, user.roomId);
        users := users - {caller};
        order := RemoveConn(order, caller);
        emits := [Emit(ToRoom(user.roomId), UpdateUsers(UsersInRoom(order, users, user.roomId)))];
      } else {
        RemoveConnAbsent(order, caller);
        emits := [];
      }
    }
  }

  /** A fresh relay that alice and bob have joined, both in room1: the
      user list broadcast after bob's join has two entries. */
  method JoinTwoToRoom1() returns (relay: Registry, room1List: seq<User>)
    ensures fresh(relay) && relay.Valid() && relay.drawings == []
    ensures |room1List| == 2
  {
    relay := new Registry();
    assert RoomConns([], map[], "room1") == [];
    var alice := relay.SetUsername("A", "alice", "room1");
    assert RoomConns(relay.order, relay.users, "room1") == ["A"];
    var bob := relay.SetUsername("B", "bob", "room1");
    assert RoomConns(relay.order, relay.users, "room1") == ["A"] + ["B"];
    room1List := bob[0].msg.users;
    assert |room1List| == |["A"] + ["B"]|;
  }

  /** Two users join room1 and both see a list of two; a segment drawn in
      room1 is relayed verbatim; a user joining room2 gets an empty replay;
      after room1 is cleared a new room1 user gets an empty replay, while
      room2's strokes are kept. */
  method TwoRoomSession() returns (room1List: seq<User>, relayed: seq<Emit>,
                                   room2Replay: seq<Segment>, rejoinReplay: seq<Segment>,
                                   room2Kept: seq<Segment>)
    ensures |room1List| == 2
    ensures relayed == [Emit(ToRoom("room1"), DrawEvent(Segment(0, 0, 10, 10, "#ff0000", Num(3), "room1")))]
    ensures room2Replay == [] && rejoinReplay == []
    ensures room2Kept == [Segment(1, 1, 2, 2, "#00ff00", Num(4), "room2")]
  {
    var relay;
    relay, room1List := JoinTwoToRoom1();
    var stroke := Segment(0, 0, 10, 10, "#ff0000", Num(3), "room1");
    relayed := relay.Draw(stroke);
    assert relay.drawings == [stroke];
    var carol := relay.SetUsername("C", "carol", "room2");
    assert [] + [stroke] == [stroke];
    ReplayAfterDraw([], stroke, "room2");
    room2Replay := carol[1].msg.replay;
    assert room2Replay == SegmentsInRoom([stroke], "room2") == [];
    var other := Segment(1, 1, 2, 2, "#00ff00", Num(4), "room2");
    var _ := relay.Draw(other);
    ghost var before := relay.drawings;
    assert before == [stroke] + [other];
    ReplayAfterDraw([stroke], other, "room2");
    var cleared := relay.ClearCanvas("room1");
    ClearKeepsOtherRooms(before, "room1", "room2");
    var dave := relay.SetUsername("D", "dave", "room1");
    rejoinReplay := dave[1].msg.replay;
    room2Kept := SegmentsInRoom(relay.drawings, "room2");
  }
}
