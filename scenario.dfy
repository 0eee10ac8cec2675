/**
 * Two runs of the handlers, step by step. In the first, A opens room "4821",
 * B joins it, the deferred playersConnected goes out, then B and A disconnect
 * in turn. In the second, A opens two rooms and B joins the second one; the
 * disconnect scan then stops at the wrong room.
 */
module Scenario {
  import opened Domain
  import opened RoomManager
  import opened Transport
  import opened Handlers
  import opened Invariants

  const A: ConnId := "A"
  const B: ConnId := "B"
  const R: RoomId := "4821"
  const Solo := Room(Some(A), None, None, None)
  const Pair := Room(Some(A), Some(B), None, None)

  /** A and B connect. */
  const Setup: seq<Step> := [Connect(A), Connect(B)]

  /** A creates "4821". */
  const OpenSteps := Setup + [Create(A, R)]

  /** B joins "4821" and the deferred callback runs. */
  const PairSteps := OpenSteps + [Join(B, R), Flush]

  /** Both connections are open and A has created the room. */
  const Opened := World([R], map[R := Solo], map[], {A, B}, [], [], [])

  /** B has joined: both are in the group and playersConnected is deferred. */
  const Paired := World([R], map[R := Pair], map[R := {A, B}], {A, B},
                        [Add(A, R), Add(B, R), Count(R, 2), Count(R, 2)], [],
                        [NotifyPlayersConnected(R, Pair)])

  /** The deferred callback has run. */
  const Notified := Paired.(log := [Event({A, B}, PlayersConnected(Pair))], pending := [])

  lemma OpenedReached(text: string)
    ensures Run(Initial, OpenSteps, text) == Opened
  {
    RunSnoc2(Initial, [], Connect(A), Connect(B), text);
    assert [] + [Connect(A), Connect(B)] == Setup;
    RunSnoc(Initial, Setup, Create(A, R), text);
  }

  /**
   * B's join: the creator A is auto-joined first, then B, the size read sees
   * two, B takes slot 2, nothing is sent synchronously, and playersConnected
   * is queued with the updated room.
   */
  lemma JoinPairs(text: string)
    ensures Apply(Opened, Join(B, R), text) == Paired
  {
    var t := JoinSpec(Opened, B, R);
    assert Proceeds(Opened, B, R);
    assert Members(Opened.groups, R) == {};
    assert {} + {A, B} == {A, B} && |{A, B}| == 2;
    assert JoinProceeded(Opened, B, R, t);
    assert t.groups - {R} == map[];
    assert Members(t.groups, R) == {A, B};
    assert t.groups == map[R := {A, B}];
  }

  /** After the flush, playersConnected with both players has gone to A and B. */
  lemma NotifiedReached(text: string)
    ensures Run(Initial, PairSteps, text) == Notified
  {
    OpenedReached(text);
    JoinPairs(text);
    RunSnoc2(Initial, OpenSteps, Join(B, R), Flush, text);
  }

  /** After the flush, both players hold only "4821", and its group is exactly the two of them. */
  lemma NotifiedPaired()
    ensures Inv(Notified) && OnlyIn(Notified, A, R) && OnlyIn(Notified, B, R)
    ensures Members(Notified.groups, R) == {A, B}
  {
    assert |{A, B}| == 2;
    assert CreatorInGroup(Notified, R);
  }

  /**
   * B closing its connection before the deferred callback runs: A is told that
   * the opponent left, and the callback then still sends playersConnected,
   * with B in slot 2, to A alone.
   */
  lemma LateNotice(text: string)
    ensures Apply(Apply(Paired, Disconnect(B), text), Flush, text).log ==
              [Event({A}, OpponentLeft(text, R)), Event({A}, PlayersConnected(Pair))]
  {
    var d := DropSpec(Paired, B);
    assert Members(d.groups, R) == {A};
    LeavesSharedRoom(d, B, 0, text);
    assert {A} - {B} == {A};
  }

  /**
   * B closing its connection tells A alone that the opponent left room
   * "4821", and the room keeps A with slot 2 and both choices clear.
   */
  lemma JoinerLeaves(text: string)
    ensures var t := Run(Initial, PairSteps + [Disconnect(B)], text);
      && t.rooms == map[R := Solo]
      && t.log == [Event({A, B}, PlayersConnected(Pair)), Event({A}, OpponentLeft(text, R))]
  {
    NotifiedReached(text);
    RunSnoc(Initial, PairSteps, Disconnect(B), text);
    NotifiedPaired();
    OneLeaves(Notified, B, A, R, text);
    assert Closed(Notified, B, text).rooms.Keys == {R};
  }

  /** A closing its connection next removes the room. */
  lemma BothGone(text: string)
    ensures R !in Run(Initial, PairSteps + [Disconnect(B), Disconnect(A)], text).rooms
  {
    NotifiedReached(text);
    RunSnoc2(Initial, PairSteps, Disconnect(B), Disconnect(A), text);
    NotifiedPaired();
    BothLeave(Notified, B, A, R, text);
  }

  /*
   * The handlers let a connection hold several rooms, but the disconnect scan
   * stops at the first one. A creates "1" and then "2", and B joins "2".
   */

  const First: RoomId := "1"
  const Second: RoomId := "2"

  /** A creates "1" and then "2". */
  const TwoOpenSteps := Setup + [Create(A, First), Create(A, Second)]

  /** B joins "2". */
  const TwoJoinSteps := TwoOpenSteps + [Join(B, Second)]

  /** Both connections are open and A has created "1" and then "2". */
  const TwoOpened := World([First, Second], map[First := Solo, Second := Solo], map[], {A, B}, [], [], [])

  /** B has joined "2". */
  const TwoJoined := World([First, Second], map[First := Solo, Second := Pair], map[Second := {A, B}], {A, B},
                           [Add(A, Second), Add(B, Second), Count(Second, 2), Count(Second, 2)], [],
                           [NotifyPlayersConnected(Second, Pair)])

  lemma TwoOpenedReached(text: string)
    ensures Run(Initial, TwoOpenSteps, text) == TwoOpened
  {
    RunSnoc2(Initial, [], Connect(A), Connect(B), text);
    assert [] + [Connect(A), Connect(B)] == Setup;
    RunSnoc2(Initial, Setup, Create(A, First), Create(A, Second), text);
  }

  /** B's join of "2" auto-joins A, then B, and B takes slot 2 of "2"; "1" is untouched. */
  lemma JoinSecond(text: string)
    ensures Apply(TwoOpened, Join(B, Second), text) == TwoJoined
  {
    var t := JoinSpec(TwoOpened, B, Second);
    assert Proceeds(TwoOpened, B, Second);
    assert Members(TwoOpened.groups, Second) == {};
    assert {} + {A, B} == {A, B} && |{A, B}| == 2;
    assert JoinProceeded(TwoOpened, B, Second, t);
    assert t.groups - {Second} == map[];
    assert Members(t.groups, Second) == {A, B};
    assert t.groups == map[Second := {A, B}];
  }

  lemma TwoJoinedReached(text: string)
    ensures Run(Initial, TwoJoinSteps, text) == TwoJoined
  {
    TwoOpenedReached(text);
    RunSnoc(Initial, TwoOpenSteps, Join(B, Second), text);
    JoinSecond(text);
  }

  /**
   * A disconnecting first: the scan stops at "1", whose empty group gets it
   * deleted. B is told nothing, and "2" keeps A in slot 1 although A is gone.
   */
  lemma CreatorLeavesFirst(text: string)
    ensures var t := Apply(TwoJoined, Disconnect(A), text);
      t.rooms == map[Second := Pair] && t.log == []
  {
    CreatorDropped();
    LeavesEmptyRoom(DropSpec(TwoJoined, A), A, 0, text);
    DropKey(First, Second, Solo, Pair);
  }

  /** The transport's removal of A: the store is untouched, "1" has no group and B is alone in "2". */
  lemma CreatorDropped()
    ensures var d := DropSpec(TwoJoined, A);
      && d.order == [First, Second] && d.rooms == map[First := Solo, Second := Pair] && d.log == []
      && Members(d.groups, First) == {} && Occupies(d.rooms[First], A)
      && Members(d.groups, Second) == {B} && Occupies(d.rooms[Second], A)
  {
  }

  /** Deleting one key of a two-key map leaves the other. */
  lemma DropKey(x: RoomId, y: RoomId, a: Room, b: Room)
    requires x != y
    ensures map[x := a, y := b] - {x} == map[y := b]
  {
  }

  /** B disconnecting first: A alone is told, and "2" keeps A with slot 2 clear. */
  lemma JoinerLeavesFirst(text: string)
    ensures var t := Apply(TwoJoined, Disconnect(B), text);
      && t.order == [First, Second] && t.rooms == map[First := Solo, Second := Solo]
      && Members(t.groups, First) == {} && Members(t.groups, Second) == {A}
      && t.log == [Event({A}, OpponentLeft(text, Second))]
  {
    JoinerDropped();
    LeavesSharedRoom(DropSpec(TwoJoined, B), B, 1, text);
    assert {A} - {B} == {A};
    assert TwoJoined.rooms[Second := ClearedSlot(Pair, false)] == map[First := Solo, Second := Solo];
  }

  /** The transport's removal of B: the store is untouched and only A is left in the group of "2". */
  lemma JoinerDropped()
    ensures var d := DropSpec(TwoJoined, B);
      && d.order == [First, Second] && d.rooms == TwoJoined.rooms && d.log == []
      && !Occupies(d.rooms[First], B) && Occupies(d.rooms[Second], B)
      && Members(d.groups, First) == {} && Members(d.groups, Second) == {A}
  {
  }

  /**
   * Then A disconnecting: the scan stops at "1" again, which is deleted; "2"
   * stays in the store with A in slot 1, although both its players are gone.
   */
  lemma CreatorLeavesSecond(text: string)
    ensures var t1 := Apply(TwoJoined, Disconnect(B), text);
      var t := Apply(t1, Disconnect(A), text);
      Second in t.rooms && t.rooms[Second] == Solo
  {
    JoinerLeavesFirst(text);
    var t1 := Apply(TwoJoined, Disconnect(B), text);
    var d := DropSpec(t1, A);
    assert d.order == [First, Second] && d.rooms == t1.rooms;
    assert Members(d.groups, First) == {};
    LeavesEmptyRoom(d, A, 0, text);
  }

  /**
   * The run as the handlers are written: after both players of "2" have
   * disconnected, "2" is still in the store.
   */
  lemma StaleRoomSurvives(text: string)
    ensures var t := Run(Initial, TwoJoinSteps + [Disconnect(B), Disconnect(A)], text);
      Second in t.rooms && t.rooms[Second] == Solo
  {
    TwoJoinedReached(text);
    RunSnoc2(Initial, TwoJoinSteps, Disconnect(B), Disconnect(A), text);
    CreatorLeavesSecond(text);
  }

  /** Had A disconnected first, B would not have been told that its opponent left. */
  lemma OpponentLeftUnsent(text: string)
    ensures var t := Run(Initial, TwoJoinSteps + [Disconnect(A)], text);
      t.rooms == map[Second := Pair] && t.log == []
  {
    TwoJoinedReached(text);
    RunSnoc(Initial, TwoJoinSteps, Disconnect(A), text);
    CreatorLeavesFirst(text);
  }

  /** A disconnecting first with the scan that leaves every room of the leaver: B is told. */
  lemma EveryTellsJoiner(text: string)
    ensures DisconnectEverySpec(DropSpec(TwoJoined, A), A, text).log == [Event({B}, OpponentLeft(text, Second))]
  {
    var d := DropSpec(TwoJoined, A);
    CreatorDropped();
    LeaveBoth(d, A, First, Second, text);
    assert {B} - {A} == {B};
  }

  /** The same two disconnects with the scan that leaves every room of the leaver: "2" is gone. */
  lemma StaleRoomCleanedUp(text: string)
    ensures Second !in DisconnectEverySpec(DropSpec(DisconnectEverySpec(DropSpec(TwoJoined, B), B, text), A), A, text).rooms
  {
    BothLeaveEvery(TwoJoined, B, A, Second, text);
  }
}
