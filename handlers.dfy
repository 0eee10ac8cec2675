/**
 * The room-coordination decisions of the socket handlers: creating a room,
 * joining one, and cleaning up after a disconnect. Each handler runs to
 * completion before the next event is dispatched. A handler is specified by a
 * function from the state before to the state after (CreateSpec, JoinSpec,
 * DisconnectSpec), whose contract states the decision; the Coordinator's
 * methods perform the same calls on the room store and the transport in the
 * source's order and are proved to reach that state.
 */
module Handlers {
  import opened Domain
  import opened RoomManager
  import opened Transport

  /** Everything the handlers can observe or change. */
  datatype World = World(
    order: seq<RoomId>,                   // room ids in insertion order
    rooms: map<RoomId, Room>,             // the room store
    groups: map<RoomId, set<ConnId>>,     // broadcast-group membership
    live: set<ConnId>,                    // connections the transport still holds
    trace: seq<GroupOp>,                  // the handlers' calls on group membership
    log: seq<Event>,                      // events emitted so far
    pending: seq<Deferred>)               // callbacks scheduled with setImmediate

  /** A failed request: one event to the requesting connection only, nothing else changes. */
  function Reject(w: World, c: ConnId, m: Message): World
  {
    w.(log := w.log + [Event({c}, m)])
  }

  /** The room's creator still has an open connection. */
  predicate CreatorLive(w: World, id: RoomId)
    requires id in w.rooms
  {
    w.rooms[id].player1Id.Some? && w.rooms[id].player1Id.value in w.live
  }

  /** A join request that passes the three early checks and reaches the group joins. */
  predicate Proceeds(w: World, c: ConnId, id: RoomId)
  {
    id in w.rooms && w.rooms[id].player1Id != Some(c) && CreatorLive(w, id)
  }

  /** handleCreateRoom: the store gets a room whose slot 1 is the creator; no group is touched. */
  function CreateSpec(w: World, c: ConnId, id: RoomId): (t: World)
    ensures t.groups == w.groups && t.live == w.live && t.trace == w.trace
    ensures t.log == w.log && t.pending == w.pending
    ensures OrderedKeys(w.order, w.rooms) ==> OrderedKeys(t.order, t.rooms)
    ensures id in w.rooms ==> t == w
    ensures id !in w.rooms ==> t.order == w.order + [id] && t.rooms.Keys == w.rooms.Keys + {id}
    ensures id !in w.rooms ==> t.rooms[id] == Room(Some(c), None, None, None)
    ensures forall other :: other in w.rooms ==> other in t.rooms && t.rooms[other] == w.rooms[other]
  {
    if id in w.rooms then w
    else w.(rooms := w.rooms[id := Room(Some(c), None, None, None)], order := w.order + [id])
  }

  /** handleJoinRoom. */
  function JoinSpec(w: World, c: ConnId, id: RoomId): (t: World)
    // no room is created or deleted, no connection opened or closed
    ensures t.order == w.order && t.live == w.live
    // the store changes at most by recording the joiner in room `id`
    ensures t.rooms == w.rooms || (id in w.rooms && t.rooms == w.rooms[id := WithPlayer2(w.rooms[id], c)])
    // only group `id` can change
    ensures t.groups - {id} == w.groups - {id}
    // unknown room: notValidToken to the joiner only
    ensures id !in w.rooms ==> t == Reject(w, c, NotValidToken)
    // the creator joining its own room: nothing at all
    ensures id in w.rooms && w.rooms[id].player1Id == Some(c) ==> t == w
    // the creator is gone: notValidToken to the joiner, who is not added to the group
    ensures id in w.rooms && w.rooms[id].player1Id != Some(c) && !CreatorLive(w, id) ==>
              t == Reject(w, c, NotValidToken)
    // every synchronous event goes to the joiner alone; playersConnected is never among them
    ensures || t.log == w.log
            || t.log == w.log + [Event({c}, NotValidToken)]
            || t.log == w.log + [Event({c}, RoomFull)]
    // at most one deferred notification per join, carrying the updated room
    ensures || t.pending == w.pending
            || (id in t.rooms && t.pending == w.pending + [NotifyPlayersConnected(id, t.rooms[id])])
    ensures Proceeds(w, c, id) ==> JoinProceeded(w, c, id, t)
  {
    if id !in w.rooms then Reject(w, c, NotValidToken)
    else if w.rooms[id].player1Id == Some(c) then w
    else if !CreatorLive(w, id) then Reject(w, c, NotValidToken)
    else Admit(w, c, id)
  }

  /**
   * The second half of handleJoinRoom: the creator's auto-join, the joiner's
   * join, the capacity check, the store update and the deferred notification.
   */
  function Admit(w: World, c: ConnId, id: RoomId): (t: World)
    requires Proceeds(w, c, id)
    ensures t.order == w.order && t.live == w.live
    ensures t.groups - {id} == w.groups - {id}
    ensures JoinProceeded(w, c, id, t)
  {
    var room := w.rooms[id];
    var p1 := room.player1Id.value;
    var already := p1 in Members(w.groups, id);
    var g1 := if already then w.groups else Joined(w.groups, id, p1);
    var g2 := Joined(g1, id, c);
    assert Members(g2, id) == Members(w.groups, id) + {p1, c};
    var size := |Members(g2, id)|;
    var autoJoin: seq<GroupOp> := if already then [] else [Add(p1, id)];
    var measured := w.trace + autoJoin + [Add(c, id), Count(id, size)];
    if size > 2 then
      w.(groups := Left(g2, id, c), trace := measured + [Remove(c, id)],
         log := w.log + [Event({c}, RoomFull)])
    else
      var joined := WithPlayer2(room, c);
      TwoMembers(Members(g2, id), p1, c);
      w.(rooms := w.rooms[id := joined], groups := g2, trace := measured + [Count(id, size)],
         pending := if size >= 2 then w.pending + [NotifyPlayersConnected(id, joined)] else w.pending)
  }

  /** A set holding two distinct elements has at least two elements. */
  lemma TwoMembers(s: set<ConnId>, a: ConnId, b: ConnId)
    requires a in s && b in s && a != b
    ensures |s| >= 2
  {
    var rest := s - {a};
    assert b in rest;
    assert |s| == |rest| + 1;
  }

  /**
   * What a join that reaches the group joins decides. The creator is added to
   * the group only when it is not a member yet, and before the joiner; the size
   * read that follows sees both. Over capacity the joiner leaves again, gets
   * roomFull and the store is untouched, while the creator's auto-join stays.
   * Otherwise slot 2 is recorded and exactly one playersConnected is deferred:
   * creator and joiner are distinct, so the group always has two members here.
   */
  ghost predicate JoinProceeded(w: World, c: ConnId, id: RoomId, t: World)
    requires Proceeds(w, c, id)
  {
    var p1 := w.rooms[id].player1Id.value;
    var m := Members(w.groups, id);
    var size := |m + {p1, c}|;
    var autoJoin: seq<GroupOp> := if p1 in m then [] else [Add(p1, id)];
    var measured := w.trace + autoJoin + [Add(c, id), Count(id, size)];
    if size > 2 then
      && t.trace == measured + [Remove(c, id)]
      && Members(t.groups, id) == (m + {p1}) - {c}
      && t.rooms == w.rooms
      && t.log == w.log + [Event({c}, RoomFull)]
      && t.pending == w.pending
    else
      && t.trace == measured + [Count(id, size)]
      && Members(t.groups, id) == m + {p1, c}
      && t.rooms == w.rooms[id := WithPlayer2(w.rooms[id], c)]
      && t.log == w.log
      && t.pending == w.pending + [NotifyPlayersConnected(id, t.rooms[id])]
  }

  /**
   * The disconnect scan: the position of the first entry whose slot 1 or slot 2
   * holds `c`, or None when no room holds it.
   */
  function FirstMatch(entries: seq<(RoomId, Room)>, c: ConnId): (k: Option<nat>)
    ensures k.Some? ==> k.value < |entries| && Occupies(entries[k.value].1, c)
    ensures k.Some? ==> forall j :: 0 <= j < k.value ==> !Occupies(entries[j].1, c)
    ensures k.None? ==> forall j :: 0 <= j < |entries| ==> !Occupies(entries[j].1, c)
  {
    if entries == [] then None
    else if Occupies(entries[0].1, c) then Some(0)
    else
      match FirstMatch(entries[1..], c)
      case None => None
      case Some(k) => Some(k + 1)
  }

  /**
   * handleDisconnect, run after the transport has taken `c` out of every group.
   * Only the first room in insertion order that `c` occupies is touched: its
   * slot and both choices are cleared, then the remaining group decides between
   * telling the others (opponentLeft) and deleting the room.
   */
  function DisconnectSpec(w: World, c: ConnId, text: string): (t: World)
    requires OrderedKeys(w.order, w.rooms)
    ensures OrderedKeys(t.order, t.rooms)
    ensures t.groups == w.groups && t.live == w.live && t.pending == w.pending
    ensures (forall id :: id in w.rooms ==> !Occupies(w.rooms[id], c)) ==> t == w
    ensures FirstMatch(EntriesOf(w.order, w.rooms), c).None? ==> t == w
    ensures FirstMatch(EntriesOf(w.order, w.rooms), c).Some? ==>
              DisconnectTouched(w, c, t, text, w.order[FirstMatch(EntriesOf(w.order, w.rooms), c).value])
  {
    var entries := EntriesOf(w.order, w.rooms);
    match FirstMatch(entries, c)
    case None => w
    case Some(k) => LeaveRoom(w, c, entries[k].0, text)
  }

  /** A scan that stops at entry `k` leaves through that entry's room. */
  lemma ScanStopsAt(w: World, c: ConnId, text: string, k: nat)
    requires OrderedKeys(w.order, w.rooms) && k < |w.order|
    requires Occupies(w.rooms[w.order[k]], c)
    requires forall j :: 0 <= j < k ==> !Occupies(EntriesOf(w.order, w.rooms)[j].1, c)
    ensures DisconnectSpec(w, c, text) == LeaveRoom(w, c, w.order[k], text)
  {
    assert FirstMatch(EntriesOf(w.order, w.rooms), c) == Some(k);
  }

  /** A scan that finds no room leaves the world as it was. */
  lemma ScanFindsNothing(w: World, c: ConnId, text: string)
    requires OrderedKeys(w.order, w.rooms)
    requires forall j :: 0 <= j < |w.order| ==> !Occupies(EntriesOf(w.order, w.rooms)[j].1, c)
    ensures DisconnectSpec(w, c, text) == w
  {
    assert FirstMatch(EntriesOf(w.order, w.rooms), c).None?;
  }

  /** The body of the disconnect scan for the room `rid` it stopped at. */
  function LeaveRoom(w: World, c: ConnId, rid: RoomId, text: string): (t: World)
    requires OrderedKeys(w.order, w.rooms) && rid in w.rooms
    ensures OrderedKeys(t.order, t.rooms)
    ensures t.groups == w.groups && t.live == w.live && t.pending == w.pending
    ensures DisconnectTouched(w, c, t, text, rid)
  {
    var room := w.rooms[rid];
    var rooms := w.rooms[rid := ClearedSlot(room, room.player1Id == Some(c))];
    var remaining := |Members(w.groups, rid)|;
    var trace := w.trace + [Count(rid, remaining)];
    if remaining > 0 then
      w.(rooms := rooms, trace := trace,
         log := w.log + [Event(Members(w.groups, rid) - {c}, OpponentLeft(text, rid))])
    else
      w.(rooms := rooms - {rid}, order := Without(w.order, rid), trace := trace)
  }

  /** What a disconnect decides once the scan has found room `rid`. */
  ghost predicate DisconnectTouched(w: World, c: ConnId, t: World, text: string, rid: RoomId)
    requires rid in w.rooms
  {
    var room := w.rooms[rid];
    var remaining := Members(w.groups, rid);
    && t.trace == w.trace + [Count(rid, |remaining|)]
    && (forall id :: id in w.rooms && id != rid ==> id in t.rooms && t.rooms[id] == w.rooms[id])
    && (remaining != {} ==>
          && t.order == w.order
          && rid in t.rooms && t.rooms[rid] == ClearedSlot(room, room.player1Id == Some(c))
          && t.log == w.log + [Event(remaining - {c}, OpponentLeft(text, rid))])
    && (remaining == {} ==>
          && rid !in t.rooms && t.rooms.Keys == w.rooms.Keys - {rid}
          && t.order == Without(w.order, rid)
          && t.log == w.log)
  }

  /**
   * The disconnect scan without its early break: every room of `ids`, in
   * order, that still holds the leaver is left as LeaveRoom leaves it. Rooms
   * outside `ids` keep their records, no room appears, and events are only
   * added to the log.
   */
  function LeaveEach(w: World, c: ConnId, ids: seq<RoomId>, text: string): (t: World)
    requires OrderedKeys(w.order, w.rooms)
    ensures OrderedKeys(t.order, t.rooms)
    ensures t.groups == w.groups && t.live == w.live && t.pending == w.pending
    ensures w.log <= t.log
    ensures forall id :: id in t.rooms ==> id in w.rooms
    ensures forall id :: id in w.rooms && id !in ids ==> id in t.rooms && t.rooms[id] == w.rooms[id]
    decreases |ids|
  {
    if ids == [] then w
    else
      var next := if ids[0] in w.rooms && Occupies(w.rooms[ids[0]], c) then LeaveRoom(w, c, ids[0], text) else w;
      LeaveEach(next, c, ids[1..], text)
  }

  /**
   * A disconnect that leaves every room holding the connection, not only the
   * first: what the handler needs to keep its promise that a room is gone once
   * both of its players have disconnected.
   */
  function DisconnectEverySpec(w: World, c: ConnId, text: string): (t: World)
    requires OrderedKeys(w.order, w.rooms)
    ensures OrderedKeys(t.order, t.rooms)
    ensures t.groups == w.groups && t.live == w.live && t.pending == w.pending
    ensures forall id :: id in t.rooms ==> id in w.rooms
  {
    LeaveEach(w, c, w.order, text)
  }

  /** The transport closing a connection: it is no longer live and in no group. */
  function DropSpec(w: World, c: ConnId): (t: World)
    ensures t.live == w.live - {c}
    ensures forall id :: Members(t.groups, id) == Members(w.groups, id) - {c}
    ensures t.order == w.order && t.rooms == w.rooms && t.trace == w.trace
    ensures t.log == w.log && t.pending == w.pending
  {
    w.(live := w.live - {c}, groups := Dropped(w.groups, c))
  }

  /**
   * The next turn of the event loop runs the oldest setImmediate callback,
   * which sends playersConnected with the recorded room to the group's members.
   */
  function FlushSpec(w: World): (t: World)
    requires w.pending != []
    ensures t.pending == w.pending[1..]
    ensures t.log == w.log + [Event(Members(w.groups, w.pending[0].roomId), PlayersConnected(w.pending[0].room))]
    ensures t.order == w.order && t.rooms == w.rooms && t.groups == w.groups
    ensures t.live == w.live && t.trace == w.trace
  {
    var d := w.pending[0];
    w.(pending := w.pending[1..], log := w.log + [Event(Members(w.groups, d.roomId), PlayersConnected(d.room))])
  }

  /** The handlers of one server, over one room store and one transport. */
  class Coordinator {
    const store: RoomStore
    const net: Adapter
    const opponentLeftText: string   // GAME_MESSAGES.OPPONENT_LEFT
    var log: seq<Event>
    var pending: seq<Deferred>

    ghost predicate Valid()
      reads this, store
    {
      store.Valid()
    }

    function Abstract(): World
      reads this, store, net
    {
      World(store.order, store.rooms, net.groups, net.live, net.trace, log, pending)
    }

    constructor (opponentLeftText: string)
      ensures Valid() && fresh(store) && fresh(net)
      ensures this.opponentLeftText == opponentLeftText
      ensures Abstract() == World([], map[], map[], {}, [], [], [])
    {
      store := new RoomStore();
      net := new Adapter();
      this.opponentLeftText := opponentLeftText;
      log := [];
      pending := [];
    }

    method HandleCreateRoom(c: ConnId, id: RoomId)
      requires Valid()
      modifies store
      ensures Valid()
      ensures Abstract() == CreateSpec(old(Abstract()), c, id)
    {
      var _ := store.CreateRoom(id, c);
    }

    method HandleJoinRoom(c: ConnId, id: RoomId)
      requires Valid()
      modifies this, store, net
      ensures Valid()
      ensures Abstract() == JoinSpec(old(Abstract()), c, id)
    {
      var found := store.GetRoom(id);
      if found.None? {
        log := log + [Event({c}, NotValidToken)];
        return;
      }
      var room := found.value;
      if room.player1Id == Some(c) {
        return;
      }
      var creatorLive := false;
      if room.player1Id.Some? {
        creatorLive := net.IsLive(room.player1Id.value);
      }
      if !creatorLive {
        log := log + [Event({c}, NotValidToken)];
        return;
      }
      AdmitJoiner(c, id, room.player1Id.value);
    }

    /** The part of handleJoinRoom after the creator was found live. */
    method AdmitJoiner(c: ConnId, id: RoomId, p1: ConnId)
      requires Valid() && Proceeds(Abstract(), c, id)
      requires store.rooms[id].player1Id == Some(p1)
      modifies this, store, net
      ensures Valid()
      ensures Abstract() == Admit(old(Abstract()), c, id)
    {
      var size := JoinBoth(c, id, p1);
      if size > 2 {
        net.Leave(c, id);
        log := log + [Event({c}, RoomFull)];
        return;
      }
      var joined := store.JoinRoom(id, c, size);
      var newSize := net.Size(id);
      if newSize >= 2 {
        pending := pending + [NotifyPlayersConnected(id, joined.value)];
      }
    }

    /** The creator joins the group unless it is a member, then the joiner does; then the size is read. */
    method JoinBoth(c: ConnId, id: RoomId, p1: ConnId) returns (size: nat)
      modifies net
      ensures net.live == old(net.live)
      ensures net.groups == Joined(if p1 in Members(old(net.groups), id) then old(net.groups)
                                   else Joined(old(net.groups), id, p1), id, c)
      ensures size == |Members(old(net.groups), id) + {p1, c}|
      ensures net.trace == old(net.trace) + (if p1 in Members(old(net.groups), id) then [] else [Add(p1, id)])
                           + [Add(c, id), Count(id, size)]
    {
      ghost var m := Members(net.groups, id);
      ghost var before := net.trace;
      ghost var autoJoin: seq<GroupOp> := if p1 in m then [] else [Add(p1, id)];
      var already := net.InGroup(p1, id);
      if !already {
        net.Join(p1, id);
      }
      assert Members(net.groups, id) == m + {p1} && net.trace == before + autoJoin;
      net.Join(c, id);
      assert Members(net.groups, id) == m + {p1, c};
      size := net.Size(id);
      assert net.trace == before + autoJoin + [Add(c, id), Count(id, size)];
    }

    method HandleDisconnect(c: ConnId)
      requires Valid()
      requires forall id :: c !in Members(net.groups, id)
      modifies this, store, net
      ensures Valid()
      ensures Abstract() == DisconnectSpec(old(Abstract()), c, opponentLeftText)
    {
      ghost var w := Abstract();
      var entries := store.GetAllRooms();
      assert entries == EntriesOf(w.order, w.rooms);
      for i := 0 to |entries|
        invariant forall j :: 0 <= j < i ==> !Occupies(entries[j].1, c)
        invariant Valid() && Abstract() == w
      {
        var roomId := entries[i].0;
        var roomData := entries[i].1;
        if roomData.player1Id == Some(c) || roomData.player2Id == Some(c) {
          ScanStopsAt(w, c, opponentLeftText, i);
          LeaveMatchedRoom(c, roomId, roomData.player1Id == Some(c));
          return;
        }
      }
      ScanFindsNothing(w, c, opponentLeftText);
    }

    /** The loop body of handleDisconnect for the first room the leaver occupies. */
    method LeaveMatchedRoom(c: ConnId, roomId: RoomId, isPlayer1: bool)
      requires Valid() && roomId in store.rooms
      requires isPlayer1 == (store.rooms[roomId].player1Id == Some(c))
      modifies this, store, net
      ensures Valid()
      ensures Abstract() == LeaveRoom(old(Abstract()), c, roomId, opponentLeftText)
    {
      store.ResetRoomOnPlayerLeave(roomId, isPlayer1);
      var remaining := net.Size(roomId);
      if remaining > 0 {
        var others := net.Recipients(roomId, Some(c));
        log := log + [Event(others, OpponentLeft(opponentLeftText, roomId))];
      } else {
        store.DeleteRoom(roomId);
      }
    }

    /** Runs the oldest deferred callback. */
    method FlushOne()
      requires pending != []
      modifies this
      ensures Abstract() == FlushSpec(old(Abstract()))
    {
      var d := pending[0];
      pending := pending[1..];
      var to := net.Recipients(d.roomId, None);
      log := log + [Event(to, PlayersConnected(d.room))];
    }
  }
}
