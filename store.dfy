/** The `Database` class: an in-memory document object, re-read from db.json
    before every use and written back whole. */
module Store {
  import opened ChatDocument

  /** The mutable JavaScript object `{rooms, messages}` that `data` points to.
      Handlers append to its arrays in place. */
  class LiveDocument {
    var rooms: seq<Room>
    var messages: seq<Message>

    /** The object built from a document, as `JSON.parse` or a literal builds it. */
    constructor (doc: Document)
      ensures Value() == doc
    {
      rooms := doc.rooms;
      messages := doc.messages;
    }

    /** The document this object currently holds. */
    function Value(): Document
      reads this
    {
      Document(rooms, messages)
    }

    /** `rooms.push(room)`. */
    method PushRoom(room: Room)
      modifies this
      ensures rooms == old(rooms) + [room]
      ensures messages == old(messages)
    {
      rooms := rooms + [room];
    }

    /** `messages.push(m)`. */
    method PushMessage(m: Message)
      modifies this
      ensures messages == old(messages) + [m]
      ensures rooms == old(rooms)
    {
      messages := messages + [m];
    }
  }

  class Database {
    /** What db.json holds: `None` when the file is missing or does not parse. */
    var file: Option<Document>
    /** The object used whenever there is no readable file. */
    const defaultData: LiveDocument
    /** The current document object; `null` until the first read. */
    var data: LiveDocument?

    constructor (file: Option<Document>, defaultData: LiveDocument)
      ensures this.file == file && this.defaultData == defaultData && data == null
    {
      this.file := file;
      this.defaultData := defaultData;
      data := null;
    }

    /** The document a read would produce now. */
    function Loaded(): Document
      reads this, defaultData
    {
      if file.Some? then file.value else defaultData.Value()
    }

    /** `read()`: a readable file replaces `data` by a freshly parsed object; a
        missing or unreadable one makes `data` the `defaultData` object itself
        (the same object, not a copy). */
    method Read()
      modifies this`data
      ensures data != null && data.Value() == old(Loaded())
      ensures file.None? ==> data == defaultData
      ensures file.Some? ==> fresh(data)
    {
      match file
      case Some(doc) =>
        data := new LiveDocument(doc);
      case None =>
        data := defaultData;
    }

    /** `write()`: stores the current document whole. The outcome of the file
        system call is the parameter `failure`: `None` when it succeeds, else the
        message of the error it raises, which `write` rethrows. */
    method Write(failure: Option<string>) returns (r: Reply<()>)
      requires data != null
      modifies this`file
      ensures failure.None? ==> r == Success(()) && file == Some(data.Value())
      ensures failure.Some? ==> r == Failure(failure.value) && file == old(file)
    {
      match failure
      case None =>
        file := Some(data.Value());
        r := Success(());
      case Some(e) =>
        r := Failure(e);
    }
  }
}
