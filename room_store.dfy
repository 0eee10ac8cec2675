/**
 * The room manager the socket handlers call. Its implementation is not part
 * of this model: each operation carries the minimal contract the handlers
 * rely on. Rooms are kept in insertion order, as Object.entries lists them.
 */
module RoomManager {
  import opened Domain

  /** The record joinRoom leaves behind: slot 2 is filled only when it is empty. */
  function WithPlayer2(room: Room, c: ConnId): Room
  {
    if room.player2Id.None? then room.(player2Id := Some(c)) else room
  }

  /** The record resetRoomOnPlayerLeave leaves behind: the named slot and both choices cleared. */
  function ClearedSlot(room: Room, isPlayer1: bool): Room
  {
    if isPlayer1 then room.(player1Id := None, p1Choice := None, p2Choice := None)
    else room.(player2Id := None, p1Choice := None, p2Choice := None)
  }

  ghost predicate Distinct(s: seq<RoomId>)
  {
    forall i, j :: 0 <= i < j < |s| ==> s[i] != s[j]
  }

  /** The insertion order lists every stored room id exactly once. */
  ghost predicate OrderedKeys(order: seq<RoomId>, rooms: map<RoomId, Room>)
  {
    && Distinct(order)
    && (forall id :: id in order ==> id in rooms)
    && (forall id :: id in rooms ==> id in order)
  }

  /**
   * The (id, room) pairs in insertion order. Over a consistent store every
   * room appears exactly once, with its record.
   */
  function EntriesOf(order: seq<RoomId>, rooms: map<RoomId, Room>): (es: seq<(RoomId, Room)>)
    requires forall id :: id in order ==> id in rooms
    ensures |es| == |order|
    ensures forall i :: 0 <= i < |order| ==> es[i] == (order[i], rooms[order[i]])
    ensures OrderedKeys(order, rooms) ==> forall i, j :: 0 <= i < j < |es| ==> es[i].0 != es[j].0
    ensures OrderedKeys(order, rooms) ==>
              forall id :: id in rooms ==> exists i :: 0 <= i < |es| && es[i] == (id, rooms[id])
  {
    var es := seq(|order|, i requires 0 <= i < |order| => (order[i], rooms[order[i]]));
    assert OrderedKeys(order, rooms) ==>
             forall id :: id in rooms ==> exists i :: 0 <= i < |es| && es[i] == (id, rooms[id]) by {
      if OrderedKeys(order, rooms) {
        forall id | id in rooms ensures exists i :: 0 <= i < |es| && es[i] == (id, rooms[id]) {
          var i :| 0 <= i < |order| && order[i] == id;
          assert es[i] == (id, rooms[id]);
        }
      }
    }
    es
  }

  /**
   * The insertion order after a room id is deleted: the other ids keep their
   * order (WithoutKeepsOrder says exactly where the id was cut out).
   */
  function Without(s: seq<RoomId>, x: RoomId): (r: seq<RoomId>)
    ensures forall y :: y in r <==> y in s && y != x
    ensures Distinct(s) ==> Distinct(r)
    ensures x !in s ==> r == s
  {
    if s == [] then []
    else if s[0] == x then Without(s[1..], x)
    else
      assert Distinct(s) ==> Distinct(s[1..]) && s[0] !in s[1..] by {
        if Distinct(s) {
          forall k | 0 <= k < |s[1..]| ensures s[1..][k] != s[0] {
            assert s[1..][k] == s[k + 1];
          }
        }
      }
      [s[0]] + Without(s[1..], x)
  }

  /** Deleting an id that sits at position k of a duplicate-free order cuts out exactly that position. */
  lemma {:induction false} WithoutKeepsOrder(s: seq<RoomId>, x: RoomId, k: nat)
    requires Distinct(s) && k < |s| && s[k] == x
    ensures Without(s, x) == s[..k] + s[k + 1..]
    decreases |s|
  {
    if k == 0 {
      assert x !in s[1..] by {
        forall j | 0 <= j < |s[1..]| ensures s[1..][j] != x {
          assert s[1..][j] == s[j + 1];
        }
      }
    } else {
      assert s[0] != x;
      assert Distinct(s[1..]) by {
        forall i, j | 0 <= i < j < |s[1..]| ensures s[1..][i] != s[1..][j] {
          assert s[1..][i] == s[i + 1] && s[1..][j] == s[j + 1];
        }
      }
      WithoutKeepsOrder(s[1..], x, k - 1);
      assert s[1..][..k - 1] == s[1..k] && s[1..][k..] == s[k + 1..];
      assert s[..k] == [s[0]] + s[1..k];
    }
  }

  class RoomStore {
    var order: seq<RoomId>
    var rooms: map<RoomId, Room>

    ghost predicate Valid()
      reads this
    {
      OrderedKeys(order, rooms)
    }

    constructor ()
      ensures Valid() && order == [] && rooms == map[]
    {
      order := [];
      rooms := map[];
    }

    /** createRoom: a new record with the creator in slot 1; a duplicate id is rejected. */
    method CreateRoom(id: RoomId, creator: ConnId) returns (created: bool)
      requires Valid()
      modifies this
      ensures Valid()
      ensures created <==> id !in old(rooms)
      ensures created ==> rooms == old(rooms)[id := Room(Some(creator), None, None, None)]
      ensures created ==> order == old(order) + [id]
      ensures !created ==> rooms == old(rooms) && order == old(order)
    {
      created := id !in rooms;
      if created {
        rooms := rooms[id := Room(Some(creator), None, None, None)];
        order := order + [id];
      }
    }

    /** getRoom: the record, or None for an unknown id. */
    method GetRoom(id: RoomId) returns (r: Option<Room>)
      ensures r.Some? <==> id in rooms
      ensures r.Some? ==> r.value == rooms[id]
    {
      r := if id in rooms then Some(rooms[id]) else None;
    }

    /** joinRoom: fills slot 2 if it is empty and returns the updated record. */
    method JoinRoom(id: RoomId, c: ConnId, observedSize: nat) returns (r: Option<Room>)
      requires Valid()
      modifies this
      ensures Valid() && order == old(order)
      ensures id !in old(rooms) ==> r.None? && rooms == old(rooms)
      ensures id in old(rooms) ==> rooms == old(rooms)[id := WithPlayer2(old(rooms)[id], c)]
      ensures id in old(rooms) ==> r == Some(rooms[id])
    {
      if id in rooms {
        rooms := rooms[id := WithPlayer2(rooms[id], c)];
        r := Some(rooms[id]);
      } else {
        r := None;
      }
    }

    /** resetRoomOnPlayerLeave: clears the named slot and both choices; the room stays. */
    method ResetRoomOnPlayerLeave(id: RoomId, isPlayer1: bool)
      requires Valid()
      modifies this
      ensures Valid() && order == old(order)
      ensures id in old(rooms) ==> rooms == old(rooms)[id := ClearedSlot(old(rooms)[id], isPlayer1)]
      ensures id !in old(rooms) ==> rooms == old(rooms)
    {
      if id in rooms {
        rooms := rooms[id := ClearedSlot(rooms[id], isPlayer1)];
      }
    }

    /** deleteRoom: the id is gone; the other rooms keep their order. */
    method DeleteRoom(id: RoomId)
      requires Valid()
      modifies this
      ensures Valid()
      ensures rooms == old(rooms) - {id}
      ensures order == Without(old(order), id)
    {
      rooms := rooms - {id};
      order := Without(order, id);
    }

    /** getAllRooms, read through Object.entries: every room once, in insertion order. */
    method GetAllRooms() returns (entries: seq<(RoomId, Room)>)
      requires Valid()
      ensures |entries| == |order|
      ensures forall i :: 0 <= i < |order| ==> entries[i] == (order[i], rooms[order[i]])
    {
      entries := EntriesOf(order, rooms);
    }
  }
}
