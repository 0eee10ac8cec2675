# Room coordination of the rock-paper-scissors socket server

This project models the part of the game server that pairs two browser
connections in a room: `handleCreateRoom`, `handleJoinRoom` and
`handleDisconnect` in `server/socket/handlers.js`. `setupSocketHandlers`
enters the model only as its list of entry points.

The state the handlers see and change is modelled in five parts:

- **Room store.** The `RoomStore` class keeps room ids in insertion order and
  maps each to a `Room` with two player slots and two choices.
- **Broadcast groups.** The Socket.IO adapter's rooms are the `groups` map of
  the `Adapter` class, from room id to a set of connection ids.
- **Live connections.** The set of connections the transport still holds.
- **Event log.** Every event the handlers emit, with the set of connections
  it reaches.
- **Deferred queue.** `playersConnected` callbacks scheduled with
  `setImmediate`. A separate flush step runs the oldest one.

The adapter also records the handlers' calls on group membership (`Add`,
`Remove` and the size reads `Count`) in a `trace`. The order of those calls is
part of what the handlers decide: the creator joins first, then the joiner,
then the size is read.

Each handler is specified twice:

- **As a function over the whole state.** `Handlers.CreateSpec`,
  `Handlers.JoinSpec` and `Handlers.DisconnectSpec` take the state before to
  the state after. Their contracts state the handler's decisions.
- **As a method of the `Coordinator` class.** The method makes the same calls
  on the store and the adapter, in the source's order. It is proved to reach
  exactly the state the function gives.

`Invariants` closes the handlers over arbitrary runs of connect, create,
join, disconnect and flush events. It proves three facts about every run:

- no broadcast group ever holds more than two connections;
- a group of two always holds the room's creator;
- a non-empty group always belongs to a stored room.

`Scenario` follows one room from creation to deletion. It also follows a
second run, in which A creates two rooms and B joins the second one. That run
shows where the disconnect scan stops at the wrong room (see "## Findings").

The implementation of the `roomManager` object is not modelled. `RoomStore`
gives each method the handlers call a minimal contract:

- `createRoom` puts the creator in slot 1, with slot 2 and both choices
  empty. It rejects a duplicate id.
- `joinRoom` fills slot 2 when it is empty.
- `resetRoomOnPlayerLeave` clears the named slot and both choices.
- `deleteRoom` removes the id. The other ids keep their order.
- `getAllRooms`, read through `Object.entries`, yields the rooms in insertion
  order.

Three behaviours of the handler code shape the model:

- The handler never looks at the result of `createRoom`. Rejecting a
  duplicate room id is left to the store, and `RoomStore.CreateRoom` does it.
- A disconnect deletes a room when the leaver's group is empty after the
  leave, whatever the room's slots still hold. `Handlers.LeaveRoom` follows
  that.
- A third joiner refused with `roomFull` does not undo the creator's
  auto-join. `Invariants.ThirdJoinerRefused` shows that this changes no group
  in a reachable state, because a full group already holds the creator.

## Model

| member | source | states |
|---|---|---|
| RoomManager.EntriesOf | server/socket/handlers.js:60-61 | over a consistent store, the entries list every stored room with its record, no room id twice, in insertion order |
| RoomManager.Without | server/socket/handlers.js:83 | deleting an id from the insertion order removes exactly that id and keeps the other ids distinct; an id not in the order leaves it unchanged |
| RoomManager.WithoutKeepsOrder | server/socket/handlers.js:83 | deleting the id at position k of a duplicate-free order cuts out exactly that position, so the other ids keep their relative order |
| RoomManager.RoomStore.CreateRoom | server/socket/handlers.js:96 | a new id gets a record with the creator in slot 1 and nothing else, appended to the order; a duplicate id changes nothing; the result says which happened |
| RoomManager.RoomStore.GetRoom | server/socket/handlers.js:108 | the record for a known id, none for an unknown one |
| RoomManager.RoomStore.JoinRoom | server/socket/handlers.js:160 | the joiner is put in slot 2 (when it is empty) and the updated record is returned; nothing else changes |
| RoomManager.RoomStore.ResetRoomOnPlayerLeave | server/socket/handlers.js:65-66 | the leaver's slot and both choices are cleared; the room and the order stay |
| RoomManager.RoomStore.DeleteRoom | server/socket/handlers.js:83 | the room is removed from the store and from the insertion order |
| RoomManager.RoomStore.GetAllRooms | server/socket/handlers.js:60-61 | every stored room, once, in insertion order |
| Transport.Joined | server/socket/handlers.js:144 | joining adds the connection to that group and changes no other group |
| Transport.Left | server/socket/handlers.js:155 | leaving removes the connection from that group only; a group left empty is forgotten |
| Transport.Dropped | server/socket/handlers.js:15-16 | a closed connection is in no group afterwards and every other membership stays |
| Transport.Adapter.Connect | server/socket/handlers.js:11 | a new connection becomes live; groups and the call trace are unchanged |
| Transport.Adapter.Drop | server/socket/handlers.js:15-16 | before the disconnect handler runs, the connection is no longer live and is in no group |
| Transport.Adapter.IsLive | server/socket/handlers.js:130 | the creator's socket is found exactly when its connection is live |
| Transport.Adapter.InGroup | server/socket/handlers.js:133-134 | the creator's room list includes the room exactly when it is a member of that group |
| Transport.Adapter.Join | server/socket/handlers.js:136 | the group gains the connection and the call is recorded |
| Transport.Adapter.Leave | server/socket/handlers.js:155 | the group loses the connection and the call is recorded |
| Transport.Adapter.Size | server/socket/handlers.js:148-149 | the size read is the group's member count, 0 for an absent group, and is recorded |
| Transport.Adapter.Recipients | server/socket/handlers.js:75 | an emit to a group from a socket reaches every member except the sender |
| Handlers.CreateSpec | server/socket/handlers.js:93-99 | the creator is recorded in slot 1 of a new room with slot 2 and both choices empty; no group, event or deferred callback is touched |
| Handlers.JoinSpec | server/socket/handlers.js:104-177 | an unknown room sends notValidToken to the joiner only and changes nothing else; the creator joining its own room changes nothing; a creator whose connection is gone sends notValidToken and the joiner joins no group; otherwise the join proceeds as Admit states; only group `id` and room `id` can change; at most one synchronous event, always to the joiner and never playersConnected; at most one deferred notification |
| Handlers.Admit | server/socket/handlers.js:128-176 | the creator is added only if it was not yet a member and always before the joiner; the size is read after both joins; above 2 the joiner is removed again, gets roomFull, the store is untouched and the creator's auto-join stays; otherwise the joiner takes slot 2 and playersConnected with the updated room is queued, never emitted synchronously |
| Handlers.FirstMatch | server/socket/handlers.js:61-62 | the disconnect scan stops at the first entry whose slot 1 or slot 2 holds the leaver; no earlier entry holds it; none when no entry does |
| Handlers.ScanStopsAt | server/socket/handlers.js:61-85 | a scan that meets the leaver at entry k leaves through that entry's room |
| Handlers.ScanFindsNothing | server/socket/handlers.js:60-87 | a scan that meets no room of the leaver changes nothing |
| Handlers.DisconnectSpec | server/socket/handlers.js:56-88 | a connection in no room changes nothing; otherwise only the first room in scan order that holds it is touched; groups, live connections and the deferred queue are never changed |
| Handlers.LeaveRoom | server/socket/handlers.js:62-85 | the leaver's slot and both choices are cleared; if the group still has members, opponentLeft with the message and room id goes to them except the leaver and the room stays; if it is empty the room is deleted; the size read is recorded; other rooms are unchanged |
| Handlers.DropSpec | server/socket/handlers.js:15-16 | the transport forgets the closed connection and takes it out of every group; nothing else changes |
| Handlers.FlushSpec | server/socket/handlers.js:171-173 | the oldest deferred callback sends playersConnected with the room it recorded to the group's members and leaves the queue |
| Handlers.Coordinator.HandleCreateRoom | server/socket/handlers.js:93-99 | calling createRoom on the store reaches the state CreateSpec gives |
| Handlers.Coordinator.HandleJoinRoom | server/socket/handlers.js:104-141 | the three early checks with their early returns, then the admission, reach the state JoinSpec gives |
| Handlers.Coordinator.AdmitJoiner | server/socket/handlers.js:143-176 | the joins, the roomFull rollback, the joinRoom call, the second size read and the setImmediate scheduling reach the state Admit gives |
| Handlers.Coordinator.JoinBoth | server/socket/handlers.js:131-150 | the creator's conditional join, the joiner's join and the size read leave exactly both in the group, in that order, with the size of the union |
| Handlers.Coordinator.HandleDisconnect | server/socket/handlers.js:56-88 | the for loop over getAllRooms with its early break, given that the transport already took the leaver out of every group, reaches the state DisconnectSpec gives |
| Handlers.Coordinator.LeaveMatchedRoom | server/socket/handlers.js:63-84 | reset, size read, then notify-or-delete reach the state LeaveRoom gives |
| Handlers.Coordinator.FlushOne | server/socket/handlers.js:171-173 | running the oldest deferred callback reaches the state FlushSpec gives |
| Invariants.Closed | server/socket/handlers.js:14-17 | a disconnect, meaning the transport's removal followed by the handler, keeps the store's insertion order consistent with its keys |
| Invariants.Apply | server/socket/handlers.js:11-47 | every dispatched event keeps the store's insertion order consistent with its keys |
| Invariants.Run | server/socket/handlers.js:11-47 | every sequence of dispatched events keeps the store's insertion order consistent with its keys |
| Invariants.CreateKeepsInv | server/socket/handlers.js:93-99 | creating a room keeps the group invariant, and the group of a newly created room is empty: the creator is in no group for it yet |
| Invariants.JoinKeepsInv | server/socket/handlers.js:104-177 | every outcome of a join keeps the group invariant |
| Invariants.ProceededKeepsInv | server/socket/handlers.js:128-176 | a join that passes the three early checks keeps the group invariant, whether it ends in roomFull or in the joiner taking slot 2 |
| Invariants.AdmittedGroupFits | server/socket/handlers.js:143-157 | after the group joins and the over-capacity rollback, the room's group is non-empty, has at most two members and holds the creator |
| Invariants.JoinedGroupFits | server/socket/handlers.js:131-157 | the group arithmetic of a join: adding the creator and the joiner to a group of at most two that holds the creator when full, and removing the joiner again above two, leaves a non-empty group of at most two holding the creator |
| Invariants.OneGroupChanged | server/socket/handlers.js:143-160 | a step that changes only one room's record and group, and leaves that group non-empty, within two and holding the creator, keeps the group invariant |
| Invariants.DropKeepsInv | server/socket/handlers.js:15-16 | the transport dropping a connection keeps the group invariant |
| Invariants.LeaveKeepsInv | server/socket/handlers.js:56-88 | the disconnect handler keeps the group invariant, including when the creator's slot is cleared |
| Invariants.StepKeepsInv | server/socket/handlers.js:11-47 | every dispatched event keeps the group invariant |
| Invariants.RunKeepsInv | server/socket/handlers.js:11-47 | every sequence of events keeps the group invariant |
| Invariants.GroupsNeverOverfull | server/socket/handlers.js:148-157 | in every reachable state, no group has more than two members and a group of two holds the room's creator |
| Invariants.JoinThenFlush | server/socket/handlers.js:143-177 | a join that passes the early checks, with nothing else deferred, queues a notice exactly when the group fits in two; the next flush then sends playersConnected, with the joiner in slot 2, to exactly the creator and the joiner |
| Invariants.PairFills | server/socket/handlers.js:163-168 | a group of at most two members that holds the creator and the joiner holds no one else |
| Invariants.ThirdJoinerRefused | server/socket/handlers.js:148-157 | a third connection asking to join a full room gets roomFull; no group, room or deferred callback changes |
| Invariants.ScanFinds | server/socket/handlers.js:60-62 | a connection that occupies exactly one room is found by the scan at that room |
| Invariants.LeavesEmptyRoom | server/socket/handlers.js:80-84 | when the scan stops at entry k and that room's group is empty, exactly that room is deleted and nothing is sent |
| Invariants.LeavesSharedRoom | server/socket/handlers.js:64-79 | when the scan stops at entry k and that room's group has members, the leaver's slot and both choices are cleared, the order stays, and opponentLeft goes to the members other than the leaver |
| Invariants.OneLeaves | server/socket/handlers.js:62-79 | for two paired players who each hold no other room, when one disconnects, only the other gets opponentLeft; the room keeps the other in its slot with the leaver's slot and both choices cleared |
| Invariants.BothLeave | server/socket/handlers.js:80-84 | for two paired players who each hold no other room, when the second disconnects too, the room is deleted |
| Invariants.DisconnectAgainIsNoOp | server/socket/handlers.js:56-88 | for a connection that holds one slot of exactly one room, a second disconnect changes nothing beyond the transport's removal |
| Handlers.LeaveEach | server/socket/handlers.js:61-85 | the scan with its break removed: unlisted rooms keep their records; groups, live set and queue are unchanged; no room appears; the log only grows (what happens to each listed room is stated by EveryDeletesGroupless, EveryClearsLeaver and EveryTellsOthers) |
| Handlers.DisconnectEverySpec | server/socket/handlers.js:56-88 | the corrected disconnect: LeaveEach over the whole insertion order; groups, live set and queue unchanged; no room appears |
| Invariants.EveryDeletesGroupless | server/socket/handlers.js:80-84 | the corrected scan deletes every listed room of the leaver whose group is empty |
| Invariants.EveryClearsLeaver | server/socket/handlers.js:64-79 | the corrected scan clears the leaver's slot and both choices of a listed room whose group still has members, and keeps that room |
| Invariants.EveryTellsOthers | server/socket/handlers.js:64-79 | the corrected scan tells the other members of a listed room of the leaver, whose group still has members, that the opponent left |
| Invariants.LeaveBoth | server/socket/handlers.js:61-85 | the corrected scan over two rooms of the leaver, the first with an empty group and the second with members, adds exactly one opponentLeft, for the second room, to the log |
| Invariants.FirstOfPairLeaves | server/socket/handlers.js:61-85 | with the corrected scan, after the first of a room's two players leaves, the room is gone or still holds the other player, who alone may be in its group |
| Invariants.LastLeaves | server/socket/handlers.js:80-84 | with the corrected scan, a room whose group holds at most the leaver is deleted when the leaver disconnects |
| Invariants.BothLeaveEvery | server/socket/handlers.js:56-88 | with the corrected scan, a room whose group holds only its two players is deleted once both have disconnected, whatever other rooms they hold |
| Invariants.RunSnoc | server/socket/handlers.js:11-47 | running one more event after a sequence is applying that event to the sequence's result |
| Invariants.RunSnoc2 | server/socket/handlers.js:11-47 | running two more events after a sequence is applying them in turn to the sequence's result |
| Scenario.OpenedReached | server/socket/handlers.js:93-99 | after A and B connect and A creates room "4821", the room holds A in slot 1 and no group exists |
| Scenario.JoinPairs | server/socket/handlers.js:128-176 | B joining "4821" auto-joins A, then B, the size reads see two, B takes slot 2, no event is sent and playersConnected waits in the queue |
| Scenario.LateNotice | server/socket/handlers.js:168-173 | when B disconnects before the deferred callback runs, A gets opponentLeft and then playersConnected, with B in slot 2, alone |
| Scenario.NotifiedReached | server/socket/handlers.js:167-173 | after the flush, playersConnected with both players has gone to A and B |
| Scenario.NotifiedPaired | server/socket/handlers.js:104-177 | after the flush, the state meets the group invariant, A and B each hold only "4821", and its group is exactly the two of them |
| Scenario.JoinerLeaves | server/socket/handlers.js:62-79 | B leaving sends opponentLeft to A alone and keeps the room with A in slot 1, slot 2 empty and both choices clear |
| Scenario.BothGone | server/socket/handlers.js:80-84 | A leaving next deletes the room |
| Scenario.TwoOpenedReached | server/socket/handlers.js:93-99 | after A and B connect and A creates "1" and then "2", both rooms hold A in slot 1, in that order, and no group exists |
| Scenario.JoinSecond | server/socket/handlers.js:128-176 | B joining "2" auto-joins A, then B, B takes slot 2 of "2" and playersConnected is queued; "1" is untouched |
| Scenario.TwoJoinedReached | server/socket/handlers.js:104-177 | the run that creates "1" and "2" and lets B join "2" reaches that state |
| Scenario.CreatorDropped | server/socket/handlers.js:15-16 | the transport's removal of A leaves the store untouched, "1", which A holds, has no group, and B is alone in the group of "2" |
| Scenario.JoinerDropped | server/socket/handlers.js:15-16 | the transport's removal of B leaves the store untouched, "1" has no group, and A is alone in the group of "2" |
| Scenario.CreatorLeavesFirst | server/socket/handlers.js:61-85 | A disconnecting there stops the scan at "1", which is deleted; B is told nothing and "2" keeps both slots |
| Scenario.JoinerLeavesFirst | server/socket/handlers.js:61-85 | B disconnecting there clears slot 2 of "2", keeps both rooms, leaves A alone in the group, and sends opponentLeft for "2" to A alone |
| Scenario.CreatorLeavesSecond | server/socket/handlers.js:61-85 | A disconnecting after B stops the scan at "1" again; "2" stays with A in slot 1 |
| Scenario.StaleRoomSurvives | server/socket/handlers.js:61-85 | over the whole run, "2" survives both players' disconnects, with A in slot 1 |
| Scenario.OpponentLeftUnsent | server/socket/handlers.js:61-85 | over the run where A leaves first, "1" is deleted, "2" keeps both players, and B gets no opponentLeft |
| Scenario.EveryTellsJoiner | server/socket/handlers.js:61-85 | with the corrected scan, A disconnecting first sends exactly one event: opponentLeft for "2" to B |
| Scenario.StaleRoomCleanedUp | server/socket/handlers.js:61-85 | the same two disconnects with the corrected scan delete "2" |

## Left out

- Console logging in every handler: it has no effect on state.
- Socket.IO mechanics (`io.on`, `socket.on`, `emit`, the adapter's data
  structures) are reduced to the membership map, the live set, the call
  trace and the event log.
- `setImmediate` timing is not modelled. A scheduled callback is appended to
  a queue, and a separate flush event delivers the oldest one. Any
  interleaving of flushes with other events is a possible run.
- `emitPlayersConnected`'s body is not part of this model.
  `Handlers.FlushSpec` sends `playersConnected`, with the room recorded at
  scheduling time, to the room's group as it is at flush time.
- Handlers.FlushSpec: since any event may run before the flush, a player who
  disconnects between a join and its deferred callback leaves the other
  player to receive `playersConnected` after `opponentLeft`
  (`Scenario.LateNotice`). This follows from the model's stand-in for
  `emitPlayersConnected`, not from code shown here.
- `handlePlayerChoice`, `handlePlayAgain` and `handleExitGame` are not part
  of this model: they are dispatched by `setupSocketHandlers`, but their
  bodies are not modelled.
- `determineWinner` and `isValidChoice` are not part of this model. They are
  only imported by the handlers.
- `GAME_MESSAGES.OPPONENT_LEFT` is not part of this model. Its text is a
  parameter of the coordinator.
- The internals of `roomManager` are not modelled beyond the contracts stated
  above.
- `Invariants.GroupsNeverOverfull` relies on `createRoom` rejecting a
  duplicate id. A store that overwrote slot 1 could let a group grow to
  three.
- `Handlers.JoinSpec`: the `roomExistsInAdapter` lookup is read and never
  used, so it is not modelled.
- `RoomManager.RoomStore.GetAllRooms`: uses insertion order for every id.
  `Object.entries` lists integer-like keys (such as "4821") first, in
  ascending numeric order, before the other keys in insertion order. The
  model does not capture that order.
- A room id equal to a connection id (the socket's own private group) is not
  modelled: groups hold only the rooms the handlers join.
- Invariants.OneLeaves: requires that each of the two players holds no other
  room (`OnlyIn`). The handlers do not enforce that, and without it the scan
  can stop at another room first (see "## Findings").
- Invariants.BothLeave: requires `OnlyIn` for both players, for the same
  reason. `Invariants.BothLeaveEvery` states the promise without it, for the
  corrected scan.
- Invariants.DisconnectAgainIsNoOp: requires that the connection holds one
  slot of exactly one room (`OnlyIn`). A connection holding several rooms is
  left one room per disconnect.
- Transport.Adapter.Connect: does not promise that the new connection is in
  no group. The model does not tie group membership to liveness, because
  `Handlers.JoinSpec` does not check the joiner's liveness.
- `public/js/main.js` (the browser client) and `server/routes/index.js` (a
  static page route) are not part of the core.

## Findings

| source | as written | input that shows it | evidently intended | confidence | as-written member | corrected member |
|---|---|---|---|---|---|---|
| server/socket/handlers.js:61-85 | the disconnect scan breaks after the first room that holds the leaver, but `handleCreateRoom` and `handleJoinRoom` let one connection hold several rooms | A creates "1" and then "2"; B joins "2"; B disconnects, then A: "2" stays in the store with A in slot 1 (and if A disconnects first, "1" is deleted and B is told nothing) | once both players of a room have disconnected, the room is gone, and the remaining player is told when the opponent leaves | medium, not executed | Scenario.StaleRoomSurvives, Scenario.OpponentLeftUnsent | Invariants.BothLeaveEvery, Invariants.EveryTellsOthers, Scenario.EveryTellsJoiner |

The corrected scan, `Handlers.DisconnectEverySpec`, leaves every room that
holds the leaver. The `Coordinator` and the runs of `Invariants` keep the
scan as written, since they model the handler code.
