/** Values shared by the room manager, the transport and the socket handlers. */
module Domain {

  /** A connection identifier (the transport's socket id). */
  type ConnId = string

  /** A room token chosen by the creating client. */
  type RoomId = string

  /** A move value; validating and comparing moves is not part of this model. */
  type Choice = string

  datatype Option<+T> = None | Some(value: T)

  /** One room record of the room manager. A slot that was cleared holds None. */
  datatype Room = Room(
    player1Id: Option<ConnId>,
    player2Id: Option<ConnId>,
    p1Choice: Option<Choice>,
    p2Choice: Option<Choice>)

  /** The events the handlers send to clients. */
  datatype Message =
    | NotValidToken
    | RoomFull
    | PlayersConnected(room: Room)
    | OpponentLeft(message: string, roomId: RoomId)

  /** One emitted event together with the connections it was addressed to. */
  datatype Event = Event(to: set<ConnId>, msg: Message)

  /** A callback scheduled with setImmediate, waiting for the next turn of the event loop. */
  datatype Deferred = NotifyPlayersConnected(roomId: RoomId, room: Room)

  /** One call the handlers make on the transport's room membership, in call order. */
  datatype GroupOp =
    | Add(conn: ConnId, group: RoomId)
    | Remove(conn: ConnId, group: RoomId)
    | Count(group: RoomId, size: nat)

  /** The disconnect scan's test: the connection holds either slot of the room. */
  predicate Occupies(room: Room, c: ConnId)
  {
    room.player1Id == Some(c) || room.player2Id == Some(c)
  }
}
