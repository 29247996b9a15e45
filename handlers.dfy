/** The request handlers of the main process. Each one reads the document,
    changes the in-memory object, and writes the whole document back. The
    current time (`Date.now()`) and the outcome of the file write are
    parameters. */
module Handlers {
  import opened ChatDocument
  import opened Store
  import opened MessageLog

  /** `initializeDatabase`: one read and one write at start-up, so that a
      missing or unreadable file is replaced by the default document. */
  method InitializeDatabase(db: Database, writeFailure: Option<string>) returns (r: Reply<()>)
    modifies db
    ensures db.data != null && db.data.Value() == old(db.Loaded())
    ensures writeFailure.None? ==> r == Success(()) && db.file == Some(old(db.Loaded()))
    ensures writeFailure.Some? ==> r == Failure(writeFailure.value) && db.file == old(db.file)
  {
    db.Read();
    r := db.Write(writeFailure);
  }

  /** `create-room`: appends `{room_id: roomName, created_at: now}` to the rooms.
      No check for an existing room of that name is made. */
  method CreateRoom(db: Database, roomName: string, now: nat, writeFailure: Option<string>)
    returns (r: Reply<()>)
    modifies db, db.defaultData
    ensures db.data != null
    ensures db.data.rooms == old(db.Loaded().rooms) + [Room(roomName, now)]
    ensures db.data.messages == old(db.Loaded().messages)
    ensures writeFailure.None? ==> r == Success(()) && db.file == Some(db.data.Value())
    ensures writeFailure.Some? ==> r == Failure(writeFailure.value) && db.file == old(db.file)
    // without a readable file the append lands in the shared default object
    ensures old(db.file).None? ==> db.data == db.defaultData
    ensures old(db.file).Some? ==> fresh(db.data) && unchanged(db.defaultData)
  {
    db.Read();
    var newRoom := Room(roomName, now);
    db.data.PushRoom(newRoom);
    r := db.Write(writeFailure);
  }

  /** `get-rooms`: the stored rooms as they are, in insertion order. */
  method GetRooms(db: Database) returns (rooms: seq<Room>)
    modifies db`data
    ensures rooms == old(db.Loaded()).rooms
    ensures db.data != null && db.data.Value() == old(db.Loaded())
  {
    db.Read();
    rooms := db.data.rooms;
  }

  /** `send-message`: appends `{room_id, timestamp: now, username, message}` to
      the messages and answers with that timestamp. */
  method SendMessage(db: Database, roomId: string, username: string, message: string, now: nat,
                     writeFailure: Option<string>)
    returns (r: Reply<nat>)
    modifies db, db.defaultData
    ensures db.data != null
    ensures db.data.messages == old(db.Loaded().messages) + [Message(roomId, now, username, message)]
    ensures db.data.rooms == old(db.Loaded().rooms)
    ensures r.Success? ==> r.value == db.data.messages[|db.data.messages| - 1].timestamp
    ensures writeFailure.None? ==> r == Success(now) && db.file == Some(db.data.Value())
    ensures writeFailure.Some? ==> r == Failure(writeFailure.value) && db.file == old(db.file)
    // without a readable file the append lands in the shared default object
    ensures old(db.file).None? ==> db.data == db.defaultData
    ensures old(db.file).Some? ==> fresh(db.data) && unchanged(db.defaultData)
  {
    db.Read();
    var newMessage := Message(roomId, now, username, message);
    db.data.PushMessage(newMessage);
    var written := db.Write(writeFailure);
    match written
    case Success(_) =>
      r := Success(newMessage.timestamp);
    case Failure(e) =>
      r := Failure(e);
  }

  /** `get-messages`: the room's messages by ascending timestamp. */
  method GetMessages(db: Database, roomId: string) returns (messages: seq<Message>)
    modifies db`data
    ensures messages == MessagesFor(old(db.Loaded()).messages, roomId)
    ensures db.data != null && db.data.Value() == old(db.Loaded())
  {
    db.Read();
    messages := MessagesFor(db.data.messages, roomId);
  }

  /** Without a db.json, a `create-room` whose write fails still reports the
      failure, yet the room shows up in the next `get-rooms`: it was appended to
      the shared default object. */
  method FailedCreateRoomStillListed(roomName: string, now: nat, error: string)
    returns (created: Reply<()>, rooms: seq<Room>)
    ensures created == Failure(error)
    ensures rooms == [Room(roomName, now)]
  {
    var defaultData := new LiveDocument(EmptyDocument);
    var db := new Database(None, defaultData);
    created := CreateRoom(db, roomName, now, Some(error));
    rooms := GetRooms(db);
  }

  /** Creating the same room name twice succeeds twice and stores two rooms. */
  method CreateRoomTwice(stored: Document, roomName: string, first: nat, second: nat)
    returns (r1: Reply<()>, r2: Reply<()>, rooms: seq<Room>)
    ensures r1 == Success(()) && r2 == Success(())
    ensures rooms == stored.rooms + [Room(roomName, first), Room(roomName, second)]
  {
    var defaultData := new LiveDocument(EmptyDocument);
    var db := new Database(Some(stored), defaultData);
    r1 := CreateRoom(db, roomName, first, None);
    r2 := CreateRoom(db, roomName, second, None);
    rooms := GetRooms(db);
  }

  /** A message sent with a successful write is listed by the next
      `get-messages` of its room, next to what was there before; when it is
      the latest message it comes last. */
  method SendThenList(stored: Document, roomId: string, username: string, text: string, now: nat)
    returns (sent: Reply<nat>, listed: seq<Message>)
    ensures sent == Success(now)
    ensures multiset(listed) ==
      multiset(MessagesFor(stored.messages, roomId)) + multiset{Message(roomId, now, username, text)}
    ensures SortedByTimestamp(listed)
    // a message no older than any stored one is listed last
    ensures (forall i :: 0 <= i < |stored.messages| ==> stored.messages[i].timestamp <= now) ==>
      listed == MessagesFor(stored.messages, roomId) + [Message(roomId, now, username, text)]
  {
    var defaultData := new LiveDocument(EmptyDocument);
    var db := new Database(Some(stored), defaultData);
    sent := SendMessage(db, roomId, username, text, now, None);
    listed := GetMessages(db, roomId);
    MessagesForAppend(stored.messages, Message(roomId, now, username, text), roomId);
    if forall i :: 0 <= i < |stored.messages| ==> stored.messages[i].timestamp <= now {
      LatestMessageListedLast(stored.messages, Message(roomId, now, username, text));
    }
  }
}
