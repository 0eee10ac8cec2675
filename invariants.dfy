/**
 * Properties of the handlers over whole runs of events: the capacity
 * invariant of the broadcast groups and the disconnect lifecycle of a room.
 */
module Invariants {
  import opened Domain
  import opened RoomManager
  import opened Transport
  import opened Handlers

  /** The events the server reacts to. */
  datatype Step =
    | Connect(c: ConnId)             // io.on("connection")
    | Create(c: ConnId, id: RoomId)  // "createRoom"
    | Join(c: ConnId, id: RoomId)    // "joinRoom"
    | Disconnect(c: ConnId)          // the socket closes, then "disconnect"
    | Flush                          // the event loop runs the next setImmediate callback

  const Initial := World([], map[], map[], {}, [], [], [])

  /**
   * A disconnect: the transport takes the connection out of every group and
   * forgets it, then the handler runs.
   */
  function Closed(w: World, c: ConnId, text: string): (t: World)
    requires OrderedKeys(w.order, w.rooms)
    ensures OrderedKeys(t.order, t.rooms)
  {
    DisconnectSpec(DropSpec(w, c), c, text)
  }

  function Apply(w: World, s: Step, text: string): (t: World)
    requires OrderedKeys(w.order, w.rooms)
    ensures OrderedKeys(t.order, t.rooms)
  {
    match s
    case Connect(c) => w.(live := w.live + {c})
    case Create(c, id) => CreateSpec(w, c, id)
    case Join(c, id) => JoinSpec(w, c, id)
    case Disconnect(c) => Closed(w, c, text)
    case Flush => if w.pending == [] then w else FlushSpec(w)
  }

  function Run(w: World, steps: seq<Step>, text: string): (t: World)
    requires OrderedKeys(w.order, w.rooms)
    ensures OrderedKeys(t.order, t.rooms)
    decreases |steps|
  {
    if steps == [] then w else Run(Apply(w, steps[0], text), steps[1..], text)
  }

  /** The room's creator is a member of the room's group. */
  ghost predicate CreatorInGroup(w: World, id: RoomId)
  {
    id in w.rooms && w.rooms[id].player1Id.Some? && w.rooms[id].player1Id.value in Members(w.groups, id)
  }

  /**
   * The invariant the handlers keep: a non-empty group belongs to a stored
   * room, no group has more than two members, and a group with two members
   * holds that room's creator.
   */
  ghost predicate Inv(w: World)
  {
    && OrderedKeys(w.order, w.rooms)
    && (forall id :: Members(w.groups, id) != {} ==> id in w.rooms)
    && (forall id :: |Members(w.groups, id)| <= 2)
    && (forall id :: |Members(w.groups, id)| == 2 ==> CreatorInGroup(w, id))
  }

  lemma SameOutside(g: map<RoomId, set<ConnId>>, h: map<RoomId, set<ConnId>>, id: RoomId, other: RoomId)
    requires g - {id} == h - {id} && other != id
    ensures Members(g, other) == Members(h, other)
  {
    assert other in g <==> other in g - {id};
    assert other in h <==> other in h - {id};
    if other in g {
      assert g[other] == (g - {id})[other] == (h - {id})[other] == h[other];
    }
  }

  /** Adding one element grows a set by at most one. */
  lemma AddOne(s: set<ConnId>, x: ConnId)
    ensures x in s ==> s + {x} == s
    ensures x !in s ==> |s + {x}| == |s| + 1
  {
    if x !in s {
      assert (s + {x}) - {x} == s;
    }
  }

  /** Taking out one element that is present shrinks a set by one. */
  lemma RemoveOne(s: set<ConnId>, x: ConnId)
    ensures x !in s ==> s - {x} == s
    ensures x in s ==> |s - {x}| == |s| - 1
  {
    if x in s {
      assert (s - {x}) + {x} == s;
    }
  }

  /**
   * Creating a room keeps the invariant, and the creator of a new room is in
   * no group for it yet.
   */
  lemma {:induction false} CreateKeepsInv(w: World, c: ConnId, id: RoomId)
    requires Inv(w)
    ensures Inv(CreateSpec(w, c, id))
    ensures id !in w.rooms ==> Members(CreateSpec(w, c, id).groups, id) == {}
  {
    var t := CreateSpec(w, c, id);
    forall x | |Members(t.groups, x)| == 2 ensures CreatorInGroup(t, x) {
      assert Members(w.groups, x) != {};
    }
  }

  lemma {:induction false} JoinKeepsInv(w: World, c: ConnId, id: RoomId)
    requires Inv(w)
    ensures Inv(JoinSpec(w, c, id))
  {
    var t := JoinSpec(w, c, id);
    if Proceeds(w, c, id) {
      ProceededKeepsInv(w, c, id, t);
    } else {
      assert t.groups == w.groups && t.rooms == w.rooms;
    }
  }

  /** A join that reaches the group joins keeps the invariant. */
  lemma ProceededKeepsInv(w: World, c: ConnId, id: RoomId, t: World)
    requires Inv(w) && Proceeds(w, c, id) && JoinProceeded(w, c, id, t)
    requires t.order == w.order && t.groups - {id} == w.groups - {id}
    ensures Inv(t)
  {
    AdmittedGroupFits(w, c, id, t);
    assert t.rooms == w.rooms || t.rooms == w.rooms[id := WithPlayer2(w.rooms[id], c)];
    OneGroupChanged(w, t, id);
  }

  /**
   * The invariant survives a step that changes only room `id`'s record and
   * group, leaving that group non-empty, within two members and holding the
   * room's creator.
   */
  lemma OneGroupChanged(w: World, t: World, id: RoomId)
    requires Inv(w) && id in w.rooms
    requires t.order == w.order && t.rooms.Keys == w.rooms.Keys
    requires forall x :: x in w.rooms && x != id ==> t.rooms[x] == w.rooms[x]
    requires t.groups - {id} == w.groups - {id}
    requires Members(t.groups, id) != {} && |Members(t.groups, id)| <= 2 && CreatorInGroup(t, id)
    ensures Inv(t)
  {
    forall x | x != id
      ensures Members(t.groups, x) == Members(w.groups, x)
    {
      SameOutside(t.groups, w.groups, id, x);
    }
    forall x | |Members(t.groups, x)| == 2 ensures CreatorInGroup(t, x) {
      if x != id {
        assert CreatorInGroup(w, x);
      }
    }
  }

  /** After a join that reaches the group joins, the room's group fits and holds the creator. */
  lemma AdmittedGroupFits(w: World, c: ConnId, id: RoomId, t: World)
    requires Inv(w) && Proceeds(w, c, id) && JoinProceeded(w, c, id, t)
    ensures Members(t.groups, id) != {} && |Members(t.groups, id)| <= 2 && CreatorInGroup(t, id)
  {
    var p1 := w.rooms[id].player1Id.value;
    var m := Members(w.groups, id);
    assert |m| == 2 ==> CreatorInGroup(w, id);
    JoinedGroupFits(m, p1, c, Members(t.groups, id));
  }

  /**
   * The group arithmetic of a join: from a group of at most two that holds
   * the creator when full, adding the creator and the joiner and taking the
   * joiner out again when the result exceeds two leaves a non-empty group of
   * at most two that holds the creator.
   */
  lemma JoinedGroupFits(m: set<ConnId>, p1: ConnId, c: ConnId, g: set<ConnId>)
    requires |m| <= 2 && (|m| == 2 ==> p1 in m) && p1 != c
    requires |m + {p1, c}| > 2 ==> g == (m + {p1}) - {c}
    requires |m + {p1, c}| <= 2 ==> g == m + {p1, c}
    ensures g != {} && |g| <= 2 && p1 in g
  {
    AddOne(m, p1);
    AddOne(m + {p1}, c);
    assert m + {p1} + {c} == m + {p1, c};
    if |m + {p1, c}| > 2 {
      assert c !in m + {p1};
      assert (m + {p1}) - {c} == m + {p1};
    }
  }

  lemma {:induction false} DropKeepsInv(w: World, c: ConnId)
    requires Inv(w)
    ensures Inv(DropSpec(w, c))
  {
    var t := DropSpec(w, c);
    forall x ensures |Members(t.groups, x)| <= |Members(w.groups, x)|
      ensures |Members(t.groups, x)| == 2 ==> Members(t.groups, x) == Members(w.groups, x)
    {
      RemoveOne(Members(w.groups, x), c);
    }
  }

  lemma {:induction false} LeaveKeepsInv(w: World, c: ConnId, text: string)
    requires Inv(w)
    requires forall id :: c !in Members(w.groups, id)
    ensures Inv(DisconnectSpec(w, c, text))
  {
    var t := DisconnectSpec(w, c, text);
    var entries := EntriesOf(w.order, w.rooms);
    match FirstMatch(entries, c)
    case None =>
    case Some(k) =>
      var rid := w.order[k];
      assert DisconnectTouched(w, c, t, text, rid);
      forall x | |Members(t.groups, x)| == 2 ensures CreatorInGroup(t, x) {
        assert CreatorInGroup(w, x);
        if x == rid {
          assert w.rooms[rid].player1Id != Some(c);
        }
      }
  }

  lemma {:induction false} StepKeepsInv(w: World, s: Step, text: string)
    requires Inv(w)
    ensures Inv(Apply(w, s, text))
  {
    match s
    case Connect(c) =>
    case Create(c, id) => CreateKeepsInv(w, c, id);
    case Join(c, id) => JoinKeepsInv(w, c, id);
    case Disconnect(c) =>
      DropKeepsInv(w, c);
      LeaveKeepsInv(DropSpec(w, c), c, text);
    case Flush =>
  }

  lemma {:induction false} RunKeepsInv(w: World, steps: seq<Step>, text: string)
    requires Inv(w)
    ensures Inv(Run(w, steps, text))
    decreases |steps|
  {
    if steps != [] {
      StepKeepsInv(w, steps[0], text);
      RunKeepsInv(Apply(w, steps[0], text), steps[1..], text);
    }
  }

  /**
   * Whatever events arrive, no broadcast group ever holds more than two
   * connections, and a group of two always includes the room's creator.
   */
  lemma GroupsNeverOverfull(steps: seq<Step>, text: string)
    ensures forall id :: |Members(Run(Initial, steps, text).groups, id)| <= 2
    ensures forall id :: |Members(Run(Initial, steps, text).groups, id)| == 2 ==>
              CreatorInGroup(Run(Initial, steps, text), id)
  {
    RunKeepsInv(Initial, steps, text);
  }

  /**
   * A third connection that asks to join a room whose group already holds two
   * members gets roomFull, is not left in the group, and nothing else changes:
   * the creator is already a member, so there is no auto-join to leave behind.
   */
  lemma ThirdJoinerRefused(w: World, c: ConnId, id: RoomId)
    requires Inv(w) && Proceeds(w, c, id)
    requires |Members(w.groups, id)| == 2 && c !in Members(w.groups, id)
    ensures var t := JoinSpec(w, c, id);
      && t.log == w.log + [Event({c}, RoomFull)]
      && t.rooms == w.rooms && t.pending == w.pending
      && (forall x :: Members(t.groups, x) == Members(w.groups, x))
  {
    var t := JoinSpec(w, c, id);
    var m := Members(w.groups, id);
    var p1 := w.rooms[id].player1Id.value;
    assert CreatorInGroup(w, id);
    assert m + {p1, c} == m + {c};
    AddOne(m, c);
    forall x ensures Members(t.groups, x) == Members(w.groups, x) {
      if x != id {
        SameOutside(t.groups, w.groups, id, x);
      }
    }
  }

  /**
   * A join that passes the early checks, with nothing else deferred: the
   * notice is queued exactly when the group fits, and the next flush sends
   * playersConnected, with the joiner in slot 2, to the creator and the joiner.
   */
  lemma JoinThenFlush(w: World, c: ConnId, id: RoomId)
    requires Proceeds(w, c, id) && w.pending == []
    ensures var t := JoinSpec(w, c, id);
      var p1 := w.rooms[id].player1Id.value;
      && (t.pending != [] <==> |Members(w.groups, id) + {p1, c}| <= 2)
      && (t.pending != [] ==>
            FlushSpec(t).log == w.log + [Event({p1, c}, PlayersConnected(WithPlayer2(w.rooms[id], c)))])
  {
    var t := JoinSpec(w, c, id);
    var p1 := w.rooms[id].player1Id.value;
    var g := Members(w.groups, id) + {p1, c};
    if |g| <= 2 {
      assert Members(t.groups, id) == g;
      PairFills(g, p1, c);
    }
  }

  /** A set of at most two elements that holds two distinct ones holds nothing else. */
  lemma PairFills(s: set<ConnId>, a: ConnId, b: ConnId)
    requires a in s && b in s && a != b && |s| <= 2
    ensures s == {a, b}
  {
    var s1 := s - {a};
    var s2 := s1 - {b};
    assert |s| == |s1| + 1 && |s1| == |s2| + 1;
    assert s2 == {};
    assert forall x :: x in s ==> x == a || x == b || x in s2;
  }

  /** `c` occupies room `id` and no other room. */
  ghost predicate OnlyIn(w: World, c: ConnId, id: RoomId)
  {
    && id in w.rooms && Occupies(w.rooms[id], c)
    && (forall other :: other in w.rooms && other != id ==> !Occupies(w.rooms[other], c))
  }

  /** The disconnect scan for a connection that occupies exactly one room stops at that room. */
  lemma ScanFinds(w: World, c: ConnId, id: RoomId)
    requires OrderedKeys(w.order, w.rooms) && OnlyIn(w, c, id)
    ensures var k := FirstMatch(EntriesOf(w.order, w.rooms), c);
      k.Some? && k.value < |w.order| && w.order[k.value] == id
  {
    var entries := EntriesOf(w.order, w.rooms);
    var j :| 0 <= j < |w.order| && w.order[j] == id;
    assert Occupies(entries[j].1, c);
  }

  /**
   * A disconnect whose scan stops at entry k, whose group is empty: that
   * room is deleted and nothing is sent.
   */
  lemma LeavesEmptyRoom(w: World, c: ConnId, k: nat, text: string)
    requires OrderedKeys(w.order, w.rooms) && k < |w.order|
    requires Occupies(w.rooms[w.order[k]], c)
    requires forall j :: 0 <= j < k ==> !Occupies(w.rooms[w.order[j]], c)
    requires Members(w.groups, w.order[k]) == {}
    ensures var t := DisconnectSpec(w, c, text);
      t.rooms == w.rooms - {w.order[k]} && t.log == w.log && t.groups == w.groups
  {
    var es := EntriesOf(w.order, w.rooms);
    ScanStopsAt(w, c, text, k);
    var t := LeaveRoom(w, c, w.order[k], text);
    assert DisconnectTouched(w, c, t, text, w.order[k]);
  }

  /**
   * A disconnect whose scan stops at entry k, whose group still has members:
   * the leaver's slot and both choices are cleared and the others are told.
   */
  lemma LeavesSharedRoom(w: World, c: ConnId, k: nat, text: string)
    requires OrderedKeys(w.order, w.rooms) && k < |w.order|
    requires Occupies(w.rooms[w.order[k]], c)
    requires forall j :: 0 <= j < k ==> !Occupies(w.rooms[w.order[j]], c)
    requires Members(w.groups, w.order[k]) != {}
    ensures var t := DisconnectSpec(w, c, text);
      var id := w.order[k];
      && t.order == w.order && t.groups == w.groups && t.live == w.live
      && t.rooms == w.rooms[id := ClearedSlot(w.rooms[id], w.rooms[id].player1Id == Some(c))]
      && t.log == w.log + [Event(Members(w.groups, id) - {c}, OpponentLeft(text, id))]
  {
    var es := EntriesOf(w.order, w.rooms);
    ScanStopsAt(w, c, text, k);
    var t := LeaveRoom(w, c, w.order[k], text);
    assert DisconnectTouched(w, c, t, text, w.order[k]);
  }

  /**
   * One player of a two-player room disconnects: the other player, and no one
   * else, is told opponentLeft for that room, and the room stays with the
   * leaver's slot and both choices cleared.
   */
  lemma OneLeaves(w: World, a: ConnId, b: ConnId, id: RoomId, text: string)
    requires Inv(w) && a != b
    requires OnlyIn(w, a, id) && OnlyIn(w, b, id)
    requires Members(w.groups, id) == {a, b}
    ensures var t := Closed(w, a, text);
      && id in t.rooms
      && t.rooms[id] == ClearedSlot(w.rooms[id], w.rooms[id].player1Id == Some(a))
      && t.rooms[id].p1Choice.None? && t.rooms[id].p2Choice.None?
      && !Occupies(t.rooms[id], a) && Occupies(t.rooms[id], b)
      && t.log == w.log + [Event({b}, OpponentLeft(text, id))]
      && Members(t.groups, id) == {b}
      && OnlyIn(t, b, id)
  {
    var d := DropSpec(w, a);
    assert Members(d.groups, id) == {b};
    ScanFinds(d, a, id);
    var t := DisconnectSpec(d, a, text);
    assert DisconnectTouched(d, a, t, text, id);
    assert {b} - {a} == {b};
  }

  /** Once both players of a room have disconnected, in either order, the room is gone. */
  lemma BothLeave(w: World, a: ConnId, b: ConnId, id: RoomId, text: string)
    requires Inv(w) && a != b
    requires OnlyIn(w, a, id) && OnlyIn(w, b, id)
    requires Members(w.groups, id) == {a, b}
    ensures id !in Closed(Closed(w, a, text), b, text).rooms
  {
    OneLeaves(w, a, b, id, text);
    var m := Closed(w, a, text);
    var d := DropSpec(m, b);
    assert Members(d.groups, id) == {};
    ScanFinds(d, b, id);
    var t := DisconnectSpec(d, b, text);
    assert DisconnectTouched(d, b, t, text, id);
  }

  /**
   * A disconnect delivered again for a connection that held one slot of one
   * room changes nothing the second time: its slot is already clear.
   */
  lemma DisconnectAgainIsNoOp(w: World, c: ConnId, id: RoomId, text: string)
    requires OrderedKeys(w.order, w.rooms) && OnlyIn(w, c, id)
    requires !(w.rooms[id].player1Id == Some(c) && w.rooms[id].player2Id == Some(c))
    ensures var once := Closed(w, c, text); Closed(once, c, text) == DropSpec(once, c)
  {
    var d := DropSpec(w, c);
    ScanFinds(d, c, id);
    var once := DisconnectSpec(d, c, text);
    assert DisconnectTouched(d, c, once, text, id);
    forall x | x in once.rooms ensures !Occupies(once.rooms[x], c) {
      if x == id {
        assert once.rooms[id] == ClearedSlot(w.rooms[id], w.rooms[id].player1Id == Some(c));
      }
    }
  }

  /** The scan without its break deletes a room of the leaver whose group is empty. */
  lemma {:induction false} EveryDeletesGroupless(w: World, c: ConnId, ids: seq<RoomId>, id: RoomId, text: string)
    requires OrderedKeys(w.order, w.rooms)
    requires id in ids && id in w.rooms && Occupies(w.rooms[id], c) && Members(w.groups, id) == {}
    ensures id !in LeaveEach(w, c, ids, text).rooms
    decreases |ids|
  {
    var rid := ids[0];
    var next := if rid in w.rooms && Occupies(w.rooms[rid], c) then LeaveRoom(w, c, rid, text) else w;
    if rid == id {
      assert DisconnectTouched(w, c, next, text, id);
    } else {
      if rid in w.rooms && Occupies(w.rooms[rid], c) {
        assert DisconnectTouched(w, c, next, text, rid);
      }
      assert id in ids[1..];
      EveryDeletesGroupless(next, c, ids[1..], id, text);
    }
  }

  /** The scan without its break clears the leaver's slot of a room whose group still has members. */
  lemma {:induction false} EveryClearsLeaver(w: World, c: ConnId, ids: seq<RoomId>, id: RoomId, text: string)
    requires OrderedKeys(w.order, w.rooms) && Distinct(ids)
    requires id in ids && id in w.rooms && Occupies(w.rooms[id], c) && Members(w.groups, id) != {}
    ensures var t := LeaveEach(w, c, ids, text);
      id in t.rooms && t.rooms[id] == ClearedSlot(w.rooms[id], w.rooms[id].player1Id == Some(c))
    decreases |ids|
  {
    var rid := ids[0];
    var next := if rid in w.rooms && Occupies(w.rooms[rid], c) then LeaveRoom(w, c, rid, text) else w;
    assert forall j :: 0 <= j < |ids[1..]| ==> ids[1..][j] == ids[j + 1];
    if rid == id {
      assert DisconnectTouched(w, c, next, text, id);
      assert id !in ids[1..];
    } else {
      if rid in w.rooms && Occupies(w.rooms[rid], c) {
        assert DisconnectTouched(w, c, next, text, rid);
      }
      assert id in ids[1..];
      EveryClearsLeaver(next, c, ids[1..], id, text);
    }
  }

  /**
   * The scan without its break tells the other members of every room of the
   * leaver whose group still has members that the opponent left.
   */
  lemma {:induction false} EveryTellsOthers(w: World, c: ConnId, ids: seq<RoomId>, id: RoomId, text: string)
    requires OrderedKeys(w.order, w.rooms)
    requires id in ids && id in w.rooms && Occupies(w.rooms[id], c) && Members(w.groups, id) != {}
    ensures Event(Members(w.groups, id) - {c}, OpponentLeft(text, id)) in LeaveEach(w, c, ids, text).log
    decreases |ids|
  {
    var rid := ids[0];
    var next := if rid in w.rooms && Occupies(w.rooms[rid], c) then LeaveRoom(w, c, rid, text) else w;
    if rid == id {
      assert DisconnectTouched(w, c, next, text, id);
      var t := LeaveEach(next, c, ids[1..], text);
      assert t.log[|next.log| - 1] == next.log[|next.log| - 1];
    } else {
      if rid in w.rooms && Occupies(w.rooms[rid], c) {
        assert DisconnectTouched(w, c, next, text, rid);
      }
      assert id in ids[1..];
      EveryTellsOthers(next, c, ids[1..], id, text);
    }
  }

  /**
   * The scan without its break over two rooms of the leaver, the first with an
   * empty group and the second with members: only the second sends opponentLeft.
   */
  lemma LeaveBoth(w: World, c: ConnId, x: RoomId, y: RoomId, text: string)
    requires OrderedKeys(w.order, w.rooms) && x in w.rooms && y in w.rooms && x != y
    requires Occupies(w.rooms[x], c) && Occupies(w.rooms[y], c)
    requires Members(w.groups, x) == {} && Members(w.groups, y) != {}
    ensures LeaveEach(w, c, [x, y], text).log == w.log + [Event(Members(w.groups, y) - {c}, OpponentLeft(text, y))]
  {
    var t1 := LeaveRoom(w, c, x, text);
    assert DisconnectTouched(w, c, t1, text, x);
    assert [x, y][1..] == [y];
    var t2 := LeaveRoom(t1, c, y, text);
    assert DisconnectTouched(t1, c, t2, text, y);
    assert LeaveEach(t1, c, [y], text) == t2;
  }

  /**
   * With the scan that leaves every room of the leaver, a room is gone once
   * both of its players have disconnected, whatever other rooms they hold:
   * the promise OneLeaves and BothLeave can only make for players that hold
   * one room each.
   */
  lemma BothLeaveEvery(w: World, a: ConnId, b: ConnId, id: RoomId, text: string)
    requires OrderedKeys(w.order, w.rooms) && a != b
    requires id in w.rooms && Occupies(w.rooms[id], a) && Occupies(w.rooms[id], b)
    requires Members(w.groups, id) <= {a, b}
    ensures id !in DisconnectEverySpec(DropSpec(DisconnectEverySpec(DropSpec(w, a), a, text), b), b, text).rooms
  {
    FirstOfPairLeaves(w, a, b, id, text);
    var t1 := DisconnectEverySpec(DropSpec(w, a), a, text);
    if id in t1.rooms {
      LastLeaves(t1, b, id, text);
    }
  }

  /**
   * The first of a room's two players leaves with the scan without its break:
   * the room is gone, or it still holds the other player, who alone may be left
   * in its group.
   */
  lemma FirstOfPairLeaves(w: World, a: ConnId, b: ConnId, id: RoomId, text: string)
    requires OrderedKeys(w.order, w.rooms) && a != b
    requires id in w.rooms && Occupies(w.rooms[id], a) && Occupies(w.rooms[id], b)
    requires Members(w.groups, id) <= {a, b}
    ensures var t := DisconnectEverySpec(DropSpec(w, a), a, text);
      id in t.rooms ==> Occupies(t.rooms[id], b) && Members(t.groups, id) <= {b}
  {
    var d := DropSpec(w, a);
    if Members(d.groups, id) == {} {
      EveryDeletesGroupless(d, a, d.order, id, text);
    } else {
      EveryClearsLeaver(d, a, d.order, id, text);
    }
  }

  /** The last player of a room leaves with the scan without its break: the room is gone. */
  lemma LastLeaves(w: World, c: ConnId, id: RoomId, text: string)
    requires OrderedKeys(w.order, w.rooms)
    requires id in w.rooms && Occupies(w.rooms[id], c) && Members(w.groups, id) <= {c}
    ensures id !in DisconnectEverySpec(DropSpec(w, c), c, text).rooms
  {
    var d := DropSpec(w, c);
    assert Members(d.groups, id) == {};
    EveryDeletesGroupless(d, c, d.order, id, text);
  }

  /** Running a sequence of events and then one more is running the longer sequence. */
  lemma {:induction false} RunSnoc(w: World, steps: seq<Step>, s: Step, text: string)
    requires OrderedKeys(w.order, w.rooms)
    ensures OrderedKeys(Run(w, steps, text).order, Run(w, steps, text).rooms)
    ensures Run(w, steps + [s], text) == Apply(Run(w, steps, text), s, text)
    decreases |steps|
  {
    if steps == [] {
      assert [] + [s] == [s];
    } else {
      assert (steps + [s])[1..] == steps[1..] + [s];
      RunSnoc(Apply(w, steps[0], text), steps[1..], s, text);
    }
  }

  /** Running a sequence of events and then two more. */
  lemma RunSnoc2(w: World, steps: seq<Step>, s: Step, u: Step, text: string)
    requires OrderedKeys(w.order, w.rooms)
    ensures OrderedKeys(Apply(Run(w, steps, text), s, text).order, Apply(Run(w, steps, text), s, text).rooms)
    ensures Run(w, steps + [s, u], text) == Apply(Apply(Run(w, steps, text), s, text), u, text)
  {
    RunSnoc(w, steps, s, text);
    RunSnoc(w, steps + [s], u, text);
    assert steps + [s] + [u] == steps + [s, u];
  }
}
