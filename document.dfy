/** The values held in the chat store's JSON document (db.json). */
module ChatDocument {

  /** A value that may be absent. */
  datatype Option<+T> = None | Some(value: T)

  /** What a handler returns: `{success: true, ...}` or `{success: false, error}`. */
  datatype Reply<+T> = Success(value: T) | Failure(error: string)

  /** A stored room, `{room_id, created_at}`; the room's name is its id. */
  datatype Room = Room(roomId: string, createdAt: nat)

  /** A stored message, `{room_id, timestamp, username, message}`. */
  datatype Message = Message(roomId: string, timestamp: nat, username: string, message: string)

  /** The whole persisted document, `{rooms, messages}`. */
  datatype Document = Document(rooms: seq<Room>, messages: seq<Message>)

  /** The contents of `defaultData`: no rooms and no messages. */
  const EmptyDocument: Document := Document([], [])
}
