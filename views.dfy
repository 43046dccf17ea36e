/** The room filters the relay applies to its two pieces of state: the user
    list broadcast in `updateUsers`, the replay sent in `init`, and the log
    kept by `clearCanvas`. */
module Views {
  import opened Types

  /** No element occurs twice. */
  predicate NoDup<T(==)>(s: seq<T>) {
    forall i, j :: 0 <= i < j < |s| ==> s[i] != s[j]
  }

  /** `a` is `b` with some elements left out, the rest in their order. */
  predicate IsSubsequence<T(==)>(a: seq<T>, b: seq<T>)
    decreases |b|
  {
    if a == [] then true
    else if b == [] then false
    else if a[0] == b[0] then IsSubsequence(a[1..], b[1..])
    else IsSubsequence(a, b[1..])
  }

  // ---------------------------------------------------------------------
  // The stroke log

  /** The segments of room `r`, in append order (the `init` replay). */
  function SegmentsInRoom(log: seq<Segment>, r: RoomId): (replay: seq<Segment>)
    ensures forall s :: s in replay ==> s in log && s.roomId == r
    ensures forall s :: s in log && s.roomId == r ==> s in replay
    ensures |replay| <= |log|
  {
    if log == [] then []
    else (if log[0].roomId == r then [log[0]] else []) + SegmentsInRoom(log[1..], r)
  }

  /** The log with every segment of room `r` removed (what `clearCanvas`
      intends to keep). */
  function WithoutRoom(log: seq<Segment>, r: RoomId): (kept: seq<Segment>)
    ensures forall s :: s in kept <==> s in log && s.roomId != r
    ensures |kept| <= |log|
  {
    if log == [] then []
    else (if log[0].roomId != r then [log[0]] else []) + WithoutRoom(log[1..], r)
  }

  lemma {:induction false} SegmentsInRoomAppend(a: seq<Segment>, b: seq<Segment>, r: RoomId)
    ensures SegmentsInRoom(a + b, r) == SegmentsInRoom(a, r) + SegmentsInRoom(b, r)
  {
    if a == [] {
      assert a + b == b;
    } else {
      assert (a + b)[1..] == a[1..] + b;
      SegmentsInRoomAppend(a[1..], b, r);
    }
  }

  /** Appending a segment extends its own room's replay by exactly that
      segment and leaves every other room's replay as it was. */
  lemma ReplayAfterDraw(log: seq<Segment>, s: Segment, r: RoomId)
    ensures SegmentsInRoom(log + [s], r)
         == SegmentsInRoom(log, r) + (if s.roomId == r then [s] else [])
  {
    SegmentsInRoomAppend(log, [s], r);
    assert [s][1..] == [];
  }

  /** The replay keeps the log's order. */
  lemma {:induction false} ReplayIsSubsequence(log: seq<Segment>, r: RoomId)
    ensures IsSubsequence(SegmentsInRoom(log, r), log)
  {
    if log != [] {
      ReplayIsSubsequence(log[1..], r);
      var rest := SegmentsInRoom(log[1..], r);
      if log[0].roomId != r {
        assert SegmentsInRoom(log, r) == rest;
        SubsequenceOfTail(rest, log);
      } else {
        var replay := SegmentsInRoom(log, r);
        assert replay == [log[0]] + rest;
        assert replay[0] == log[0] && replay[1..] == rest;
      }
    }
  }

  /** Clearing a room keeps every remaining segment in its log order. */
  lemma {:induction false} ClearIsSubsequence(log: seq<Segment>, r: RoomId)
    ensures IsSubsequence(WithoutRoom(log, r), log)
  {
    if log != [] {
      ClearIsSubsequence(log[1..], r);
      var rest := WithoutRoom(log[1..], r);
      if log[0].roomId == r {
        assert WithoutRoom(log, r) == rest;
        SubsequenceOfTail(rest, log);
      } else {
        var kept := WithoutRoom(log, r);
        assert kept == [log[0]] + rest;
        assert kept[0] == log[0] && kept[1..] == rest;
      }
    }
  }

  lemma {:induction false} SubsequenceOfTail<T>(a: seq<T>, b: seq<T>)
    requires b != [] && IsSubsequence(a, b[1..])
    ensures IsSubsequence(a, b)
    decreases |b|, |a|
  {
    if a != [] && a[0] == b[0] {
      SubsequenceDropHead(a, b[1..]);
    }
  }

  lemma {:induction false} SubsequenceDropHead<T>(a: seq<T>, b: seq<T>)
    requires a != [] && IsSubsequence(a, b)
    ensures IsSubsequence(a[1..], b)
    decreases |b|, |a|
  {
    if a[0] == b[0] {
      if a[1..] != [] {
        SubsequenceOfTail(a[1..], b);
      }
    } else {
      SubsequenceDropHead(a, b[1..]);
      if a[1..] != [] {
        SubsequenceOfTail(a[1..], b);
      }
    }
  }

  /** After clearing room `r`, replaying `r` yields nothing. */
  lemma {:induction false} ClearEmptiesRoom(log: seq<Segment>, r: RoomId)
    ensures SegmentsInRoom(WithoutRoom(log, r), r) == []
  {
    if log != [] {
      ClearEmptiesRoom(log[1..], r);
      if log[0].roomId == r {
        assert WithoutRoom(log, r) == WithoutRoom(log[1..], r);
      } else {
        assert WithoutRoom(log, r) == [log[0]] + WithoutRoom(log[1..], r);
        SegmentsInRoomAppend([log[0]], WithoutRoom(log[1..], r), r);
      }
    }
  }

  /** Clearing room `r` leaves the replay of every other room unchanged. */
  lemma {:induction false} ClearKeepsOtherRooms(log: seq<Segment>, r: RoomId, q: RoomId)
    requires q != r
    ensures SegmentsInRoom(WithoutRoom(log, r), q) == SegmentsInRoom(log, q)
  {
    if log != [] {
      ClearKeepsOtherRooms(log[1..], r, q);
      var head := if log[0].roomId != r then [log[0]] else [];
      assert WithoutRoom(log, r) == head + WithoutRoom(log[1..], r);
      SegmentsInRoomAppend(head, WithoutRoom(log[1..], r), q);
      assert head != [] ==> head[1..] == [];
    }
  }

  /** Clearing a room twice is the same as clearing it once. */
  lemma {:induction false} ClearIdempotent(log: seq<Segment>, r: RoomId)
    ensures WithoutRoom(WithoutRoom(log, r), r) == WithoutRoom(log, r)
  {
    if log != [] {
      ClearIdempotent(log[1..], r);
      var rest := WithoutRoom(log[1..], r);
      if log[0].roomId == r {
        assert WithoutRoom(log, r) == rest;
      } else {
        var kept := WithoutRoom(log, r);
        assert kept == [log[0]] + rest;
        assert kept[0] == log[0] && kept[1..] == rest;
        assert WithoutRoom(kept, r) == [log[0]] + WithoutRoom(rest, r);
      }
    }
  }

  /** Clearing removes exactly the room's segments: what is kept and what
      the room replayed together make up the whole log. */
  lemma {:induction false} ClearRemovesOnlyRoom(log: seq<Segment>, r: RoomId)
    ensures multiset(WithoutRoom(log, r)) + multiset(SegmentsInRoom(log, r)) == multiset(log)
  {
    if log != [] {
      ClearRemovesOnlyRoom(log[1..], r);
      var kept, replay := WithoutRoom(log[1..], r), SegmentsInRoom(log[1..], r);
      assert log == [log[0]] + log[1..];
      assert multiset(log) == multiset{log[0]} + multiset(log[1..]);
      if log[0].roomId == r {
        assert WithoutRoom(log, r) == kept;
        assert SegmentsInRoom(log, r) == [log[0]] + replay;
      } else {
        assert WithoutRoom(log, r) == [log[0]] + kept;
        assert SegmentsInRoom(log, r) == replay;
      }
    }
  }

  // ---------------------------------------------------------------------
  // The user registry: a map plus the order in which its keys were inserted

  /** The connections registered in room `r`, in registry order. */
  function RoomConns(order: seq<ConnId>, users: map<ConnId, User>, r: RoomId): (ids: seq<ConnId>)
    ensures forall c :: c in ids <==> c in order && c in users && users[c].roomId == r
    ensures |ids| <= |order|
  {
    if order == [] then []
    else
      (if order[0] in users && users[order[0]].roomId == r then [order[0]] else [])
      + RoomConns(order[1..], users, r)
  }

  /** The `updateUsers` payload: the records of room `r`, in registry order
      (`Object.values(users).filter(...)`). */
  function UsersInRoom(order: seq<ConnId>, users: map<ConnId, User>, r: RoomId): (list: seq<User>)
    ensures |list| == |RoomConns(order, users, r)|
    ensures forall i {:trigger list[i]} :: 0 <= i < |list| ==>
      RoomConns(order, users, r)[i] in users && list[i] == users[RoomConns(order, users, r)[i]]
  {
    var ids := RoomConns(order, users, r);
    seq(|ids|, i requires 0 <= i < |ids| => users[ids[i]])
  }

  /** The list holds exactly the records of the registered users of the
      room: each entry is the current record of a connection in `r`, and
      every such connection has its record listed. */
  lemma UsersInRoomExact(order: seq<ConnId>, users: map<ConnId, User>, r: RoomId, c: ConnId)
    ensures forall u :: u in UsersInRoom(order, users, r) ==> u.roomId == r && u in users.Values
    ensures c in order && c in users && users[c].roomId == r ==> users[c] in UsersInRoom(order, users, r)
  {
    var ids := RoomConns(order, users, r);
    var list := UsersInRoom(order, users, r);
    forall u | u in list ensures u.roomId == r && u in users.Values {
      var i :| 0 <= i < |list| && list[i] == u;
      assert ids[i] in ids;
    }
    if c in order && c in users && users[c].roomId == r {
      var i :| 0 <= i < |ids| && ids[i] == c;
      assert list[i] == users[c];
    }
  }

  /** The room's connection list follows registry order. */
  lemma {:induction false} RoomConnsIsSubsequence(order: seq<ConnId>, users: map<ConnId, User>, r: RoomId)
    ensures IsSubsequence(RoomConns(order, users, r), order)
  {
    if order != [] {
      RoomConnsIsSubsequence(order[1..], users, r);
      var rest := RoomConns(order[1..], users, r);
      if order[0] in users && users[order[0]].roomId == r {
        var ids := RoomConns(order, users, r);
        assert ids == [order[0]] + rest;
        assert ids[0] == order[0] && ids[1..] == rest;
      } else {
        assert RoomConns(order, users, r) == rest;
        SubsequenceOfTail(rest, order);
      }
    }
  }

  lemma {:induction false} RoomConnsNoDup(order: seq<ConnId>, users: map<ConnId, User>, r: RoomId)
    requires NoDup(order)
    ensures NoDup(RoomConns(order, users, r))
  {
    if order != [] {
      assert NoDup(order[1..]);
      RoomConnsNoDup(order[1..], users, r);
      assert order[0] !in order[1..];
    }
  }

  lemma NoDupCons<T>(x: T, s: seq<T>)
    requires x !in s && NoDup(s)
    ensures NoDup([x] + s)
  {
  }

  lemma NoDupSnoc<T>(s: seq<T>, x: T)
    requires NoDup(s) && x !in s
    ensures NoDup(s + [x])
  {
  }

  /** A sequence without duplicates has as many elements as its set. */
  lemma {:induction false} NoDupCard<T>(s: seq<T>)
    requires NoDup(s)
    ensures |set x | x in s| == |s|
  {
    if s != [] {
      assert NoDup(s[1..]);
      NoDupCard(s[1..]);
      var rest := set x | x in s[1..];
      assert (set x | x in s) == {s[0]} + rest;
      assert s[0] !in rest;
    }
  }

  /** One entry per registered connection of the room: two connections
      using the same display name remain two users. */
  lemma RoomListLength(order: seq<ConnId>, users: map<ConnId, User>, r: RoomId)
    requires NoDup(order)
    requires forall c :: c in order <==> c in users
    ensures |UsersInRoom(order, users, r)| == |set c | c in users && users[c].roomId == r|
  {
    var ids := RoomConns(order, users, r);
    RoomConnsNoDup(order, users, r);
    NoDupCard(ids);
    assert (set x | x in ids) == (set c | c in users && users[c].roomId == r);
  }

  /** Registering a new connection appends it to its room's list and
      leaves every other room's list as it was. */
  lemma {:induction false} RoomConnsAfterJoin(order: seq<ConnId>, users: map<ConnId, User>, c: ConnId, u: User, r: RoomId)
    requires c !in order
    ensures RoomConns(order + [c], users[c := u], r)
         == RoomConns(order, users, r) + (if u.roomId == r then [c] else [])
  {
    if order == [] {
      assert order + [c] == [c];
    } else {
      RoomConnsAfterJoin(order[1..], users, c, u, r);
      JoinStep(order, users, c, u, r);
    }
  }

  /** The induction step of RoomConnsAfterJoin: from the statement for
      `order[1..]` to the statement for `order`. */
  lemma JoinStep(order: seq<ConnId>, users: map<ConnId, User>, c: ConnId, u: User, r: RoomId)
    requires order != [] && order[0] != c
    requires RoomConns(order[1..] + [c], users[c := u], r)
          == RoomConns(order[1..], users, r) + (if u.roomId == r then [c] else [])
    ensures RoomConns(order + [c], users[c := u], r)
         == RoomConns(order, users, r) + (if u.roomId == r then [c] else [])
  {
    var x, tl := order[0], order[1..];
    var joined := if x in users && users[x].roomId == r then [x] else [];
    var before := RoomConns(tl, users, r);
    var added := if u.roomId == r then [c] else [];
    assert (x in users[c := u] && users[c := u][x].roomId == r) == (x in users && users[x].roomId == r);
    SplitHead(order, c);
    RoomConnsCons(x, tl + [c], users[c := u], r);
    RoomConnsCons(x, tl, users, r);
    SeqAssoc(joined, before, added);
  }

  /** A non-empty sequence is its head followed by its tail. */
  lemma SplitHead<T>(s: seq<T>, c: T)
    requires s != []
    ensures s == [s[0]] + s[1..]
    ensures s + [c] == [s[0]] + (s[1..] + [c])
  {
  }

  lemma SeqAssoc<T>(a: seq<T>, b: seq<T>, c: seq<T>)
    ensures a + (b + c) == (a + b) + c
  {
  }

  /** One unfolding of RoomConns on a list with head `x`. */
  lemma RoomConnsCons(x: ConnId, tl: seq<ConnId>, users: map<ConnId, User>, r: RoomId)
    ensures RoomConns([x] + tl, users, r)
         == (if x in users && users[x].roomId == r then [x] else []) + RoomConns(tl, users, r)
  {
    assert ([x] + tl)[0] == x && ([x] + tl)[1..] == tl;
  }

  /** One unfolding of RemoveConn on a list with head `x`. */
  lemma RemoveConnCons(x: ConnId, tl: seq<ConnId>, c: ConnId)
    ensures RemoveConn([x] + tl, c) == (if x != c then [x] else []) + RemoveConn(tl, c)
  {
    assert ([x] + tl)[0] == x && ([x] + tl)[1..] == tl;
  }

  /** Replacing a record without changing its room (a pen update, or a
      re-announcement into the same room) leaves every room's connection
      list as it was. */
  lemma {:induction false} RoomConnsSameRoom(order: seq<ConnId>, users: map<ConnId, User>, c: ConnId, u: User, r: RoomId)
    requires c in users && users[c].roomId == u.roomId
    ensures RoomConns(order, users[c := u], r) == RoomConns(order, users, r)
  {
    if order != [] {
      RoomConnsSameRoom(order[1..], users, c, u, r);
    }
  }

  /** `order` without the connection `c` (`delete users[id]`). */
  function RemoveConn(order: seq<ConnId>, c: ConnId): (rest: seq<ConnId>)
    ensures forall x :: x in rest <==> x in order && x != c
    ensures NoDup(order) ==> NoDup(rest)
  {
    if order == [] then []
    else
      var tail := RemoveConn(order[1..], c);
      assert NoDup(order) ==> NoDup(order[1..]) && order[0] !in order[1..];
      if order[0] != c then
        assert NoDup(order) ==> NoDup([order[0]] + tail) by {
          if NoDup(order) { NoDupCons(order[0], tail); }
        }
        [order[0]] + tail
      else tail
  }

  /** Deleting a connection keeps the other connections in their order. */
  lemma {:induction false} RemoveConnIsSubsequence(order: seq<ConnId>, c: ConnId)
    ensures IsSubsequence(RemoveConn(order, c), order)
  {
    if order != [] {
      RemoveConnIsSubsequence(order[1..], c);
      var rest := RemoveConn(order[1..], c);
      if order[0] == c {
        assert RemoveConn(order, c) == rest;
        SubsequenceOfTail(rest, order);
      } else {
        var kept := RemoveConn(order, c);
        assert kept == [order[0]] + rest;
        assert kept[0] == order[0] && kept[1..] == rest;
      }
    }
  }

  /** After a disconnect, every room's list is the previous one without the
      departed connection, the others in their order. */
  lemma {:induction false} RoomConnsAfterLeave(order: seq<ConnId>, users: map<ConnId, User>, c: ConnId, r: RoomId)
    ensures RoomConns(RemoveConn(order, c), users - {c}, r)
         == RemoveConn(RoomConns(order, users, r), c)
  {
    if order != [] {
      RoomConnsAfterLeave(order[1..], users, c, r);
      LeaveStep(order, users, c, r);
    }
  }

  /** The induction step of RoomConnsAfterLeave: from the statement for
      `order[1..]` to the statement for `order`. */
  lemma LeaveStep(order: seq<ConnId>, users: map<ConnId, User>, c: ConnId, r: RoomId)
    requires order != []
    requires RoomConns(RemoveConn(order[1..], c), users - {c}, r)
          == RemoveConn(RoomConns(order[1..], users, r), c)
    ensures RoomConns(RemoveConn(order, c), users - {c}, r)
         == RemoveConn(RoomConns(order, users, r), c)
  {
    var x, tl := order[0], order[1..];
    SplitHead(order, c);
    var joined := if x in users && users[x].roomId == r then [x] else [];
    var before := RoomConns(tl, users, r);
    RoomConnsCons(x, tl, users, r);
    RemoveConnAppend(joined, before, c);
    RemoveConnCons(x, tl, c);
    if x == c {
      LeaveHeadSelf(x, joined, RemoveConn(before, c));
    } else {
      LeaveHeadOther(x, RemoveConn(tl, c), users, c, r);
    }
  }

  /** The departed connection at the head contributes nothing. */
  lemma LeaveHeadSelf(c: ConnId, joined: seq<ConnId>, removed: seq<ConnId>)
    requires joined == [] || joined == [c]
    ensures RemoveConn(joined, c) + removed == removed
  {
    assert RemoveConn(joined, c) == [];
  }

  /** Any other connection at the head is listed after the delete exactly
      when it was listed before. */
  lemma LeaveHeadOther(x: ConnId, rest: seq<ConnId>, users: map<ConnId, User>, c: ConnId, r: RoomId)
    requires x != c
    ensures var joined := if x in users && users[x].roomId == r then [x] else [];
      RemoveConn(joined, c) == joined
      && RoomConns([x] + rest, users - {c}, r) == joined + RoomConns(rest, users - {c}, r)
  {
    RoomConnsCons(x, rest, users - {c}, r);
  }

  lemma {:induction false} RoomConnsAppend(a: seq<ConnId>, b: seq<ConnId>, users: map<ConnId, User>, r: RoomId)
    ensures RoomConns(a + b, users, r) == RoomConns(a, users, r) + RoomConns(b, users, r)
  {
    if a == [] {
      assert a + b == b;
    } else {
      assert (a + b)[1..] == a[1..] + b;
      RoomConnsAppend(a[1..], b, users, r);
    }
  }

  lemma {:induction false} RemoveConnAppend(a: seq<ConnId>, b: seq<ConnId>, c: ConnId)
    ensures RemoveConn(a + b, c) == RemoveConn(a, c) + RemoveConn(b, c)
  {
    if a == [] {
      assert a + b == b;
    } else {
      assert (a + b)[1..] == a[1..] + b;
      RemoveConnAppend(a[1..], b, c);
    }
  }

  /** Removing a connection that is not listed changes nothing. */
  lemma {:induction false} RemoveConnAbsent(order: seq<ConnId>, c: ConnId)
    requires c !in order
    ensures RemoveConn(order, c) == order
  {
    if order != [] {
      RemoveConnAbsent(order[1..], c);
      assert order == [order[0]] + order[1..];
    }
  }
}
