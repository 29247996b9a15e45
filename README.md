# Chat document store

A model of the main process of an Electron chat application: a single JSON
document `{rooms, messages}` kept in `data/db.json`, the `Database` class that
reads and writes it, and the request handlers `create-room`, `get-rooms`,
`send-message` and `get-messages`, together with the standalone message guard
`validateMessage`.

- `document.dfy` (`ChatDocument`): the stored values. A room is
  `{room_id, created_at}`, a message is `{room_id, timestamp, username, message}`,
  the document holds a sequence of each. `Reply` is a handler's answer,
  `{success: true, ...}` or `{success: false, error}`.
- `store.dfy` (`Store`): `LiveDocument` is the mutable document object that the
  handlers push onto; `Database` holds the file contents (`file`, `None` when the
  file is missing or does not parse), the shared `defaultData` object and the
  current `data` object. `Read` replaces `data` by a freshly parsed object, or
  by the `defaultData` object itself when there is no readable file. `Write`
  stores the whole current document, or fails with the file system's error.
- `handlers.dfy` (`Handlers`): each handler as one sequential step: read,
  change the in-memory object, write. The time and the outcome of the write
  are parameters. Three client methods show what callers can rely on:
  duplicate room names are both stored, a sent message is listed next time,
  and a room whose creation reported a failed write still appears in the
  room list when there is no db.json, because it was pushed onto the shared
  `defaultData` object.
- `message_log.dfy` (`MessageLog`): what `get-messages` computes, the room's
  messages (`filter`) ordered by a stable sort on the timestamp (`sort`; the
  sort of ECMAScript 2019 and later is stable). The model sorts by insertion.
  Stability is stated as: for every timestamp `t`, the messages carrying `t`
  appear in the result in the same order as in storage. A sorted sequence is
  fully determined by those per-timestamp subsequences (`StableSortUnique`),
  so the result is the one and only stable ascending arrangement of the
  room's messages (`MessagesForCharacterized`).
- `validation.dfy` (`Validation`): `validateMessage`, which checks that the
  room, the user and the text are all present and non-empty before it checks
  that the text's JavaScript `length` is at most 1000. That length counts
  UTF-16 code units, so a character outside the Basic Multilingual Plane (an
  emoji, say) counts twice.

The code has no room membership, no join requests and no notifications. There
is no duplicate-room check and no check that a sender belongs to the room. The
model follows the code: rooms are only `{room_id, created_at}`, and
`create-room` and `send-message` accept any input.

## Model

| member | source | states |
|---|---|---|
| Store.LiveDocument.constructor | src/main/index.js:17-20 | a new document object holds exactly the given rooms and messages (used for `defaultData` and for a parsed file) |
| Store.LiveDocument.PushRoom | src/main/index.js:79 | `rooms.push`: one room added at the end, earlier rooms and all messages unchanged |
| Store.LiveDocument.PushMessage | src/main/index.js:110 | `messages.push`: one message added at the end, earlier messages and all rooms unchanged |
| Store.Database.constructor | src/main/index.js:24-28 | records the file and the default object; `data` starts as null |
| Store.Database.Read | src/main/index.js:30-42 | afterwards `data` holds the file's document when it is readable, as a fresh object; otherwise `data` is the `defaultData` object itself, aliased rather than copied |
| Store.Database.Write | src/main/index.js:44-51 | on success the file holds the whole current document; on failure the error is passed on and the file is unchanged |
| Handlers.InitializeDatabase | src/main/index.js:57-67 | a read then a write: the document `read` loads (the default object when the file is missing or unreadable) becomes `data` and is written to the file; a write error is reported and leaves the file as it was |
| Handlers.CreateRoom | src/main/index.js:70-87 | exactly one room `{roomName, now}` appended at the end of the loaded rooms; messages unchanged; success iff the write succeeds, and then the file holds the new document; without a readable file the push lands in `defaultData` |
| Handlers.GetRooms | src/main/index.js:89-97 | returns the loaded rooms unchanged, in storage order, unfiltered |
| Handlers.SendMessage | src/main/index.js:99-118 | exactly one message `{roomId, now, username, message}` appended at the end; rooms unchanged; the returned timestamp is the stored message's; success iff the write succeeds |
| Handlers.GetMessages | src/main/index.js:120-131 | returns `MessagesFor` of the loaded messages, so every property proved of `MessagesFor` holds of the reply |
| Handlers.FailedCreateRoomStillListed | src/main/index.js:30-97 | with no db.json, a `create-room` whose write fails answers with that failure, yet the next `get-rooms` lists the room, since it was pushed onto the shared default object |
| Handlers.CreateRoomTwice | src/main/index.js:70-97 | creating one name twice succeeds both times and leaves two entries with that name, in creation order |
| Handlers.SendThenList | src/main/index.js:99-131 | after a successful `send-message`, the room's listing holds the earlier listing plus the new message (as a multiset), ascending by timestamp; when the new timestamp is no older than any stored one, the listing is exactly the earlier listing followed by the new message |
| MessageLog.InRoom | src/main/index.js:124-125 | the filter keeps only messages of the room, and keeps every one of them as often as it is stored |
| MessageLog.Insert | src/main/index.js:126 | inserting into a sorted sequence yields a sorted sequence with one more element |
| MessageLog.SortByTimestamp | src/main/index.js:126 | the sort's result is ascending by timestamp and a permutation of its input |
| MessageLog.InsertAtTime | src/main/index.js:126 | an inserted message goes ahead of the existing messages with its timestamp and leaves the other timestamps' order alone |
| MessageLog.SortIsStable | src/main/index.js:126 | for every timestamp, the sorted result lists the messages with that timestamp in their input order |
| MessageLog.StableSortUnique | src/main/index.js:126 | two sorted sequences with equal per-timestamp subsequences are equal: a stable sort has exactly one possible result |
| MessageLog.MessagesFor | src/main/index.js:124-126 | the `get-messages` result: ascending by timestamp and a permutation of the room's filtered messages |
| MessageLog.MessagesForSelects | src/main/index.js:124-126 | every returned message belongs to the room, and each stored message of the room is returned as often as it is stored |
| MessageLog.MessagesForUnknownRoom | src/main/index.js:124-126 | a room with no stored message yields an empty list |
| MessageLog.MessagesForOrdered | src/main/index.js:124-126 | the result is ascending by timestamp, and the messages with any one timestamp are exactly the stored messages with that timestamp, filtered to the room, in storage order |
| MessageLog.InRoomAtTime | src/main/index.js:125 | filtering by room keeps storage order: selecting a room and then a timestamp gives the same sequence as selecting the timestamp first |
| MessageLog.MessagesForCharacterized | src/main/index.js:124-126 | any sorted arrangement of the room's messages that keeps storage order among equal timestamps equals the result |
| MessageLog.MessagesForAppend | src/main/index.js:110-126 | storing one more message adds exactly that message to its own room's listing (as a multiset), and leaves every other room's listing identical, order included |
| MessageLog.OtherRoomUnchanged | src/main/index.js:110-126 | a message stored for another room does not change a room's listing at all |
| MessageLog.LatestMessageListedLast | src/main/index.js:110-126 | a message no older than any stored message lands at the end of its room's listing, which otherwise is unchanged, order included |
| MessageLog.AtTimeAppend | src/main/index.js:126 | the messages with one timestamp, after one more message is appended, are the earlier ones followed by the new one when it has that timestamp |
| MessageLog.InRoomAppend | src/main/index.js:110-125 | filtering the messages after one more is stored gives the earlier filtered list, followed by the new message when it belongs to the room |
| Validation.Utf16Length | src/main/index.js:138 | JavaScript's string `length`: between the number of characters and twice that, a character above U+FFFF counting as two code units |
| Validation.Utf16LengthAppend | src/main/index.js:138 | appending a character adds its one or two code units to the length |
| Validation.ValidateMessage | src/main/index.js:134-142 | accepts (returns true) iff room, user and text are all present and non-empty and the text's UTF-16 length is at most 1000; a missing field is reported as 'Invalid message format' before the length is checked; an over-long text is 'Message too long' |
| Validation.AcceptedTexts | src/main/index.js:134-141 | with room and user given, the accepted texts are exactly the non-empty ones of UTF-16 length at most 1000 |
| Validation.LimitIsInclusive | src/main/index.js:138-141 | a text of UTF-16 length exactly 1000 is accepted; any character more makes it 'Message too long' |
| Validation.AstralCharactersCountTwice | src/main/index.js:138-141 | a text made of U+1F600 has twice as many code units as characters, so 501 or more of them are refused as 'Message too long' |

## Left out

- Membership, join requests, approvals and notifications: the main process has no handler for them, so they are not modelled. The renderer calls `getNotifications` and `markNotificationRead`, but the preload bridge does not expose them.
- File system and JSON text: db.json is an abstract `Option<Document>`, and the directory creation at start-up is not modelled. A file that parses but lacks a `rooms` or `messages` array would make the push in `create-room` or `send-message`, or the filter in `get-messages`, throw; their catch branches then answer `{success: false}` or `[]`. `get-rooms` does not throw there: it returns whatever `rooms` holds, `undefined` when it is missing. Parsed documents in the model are always well formed, so these branches are not reached. Only the write-failure path is modelled.
- A failed write is taken to leave the file as it was; a partly written file is not modelled.
- Store.Database.Write: requires `data` to be non-null. The source would write the JSON text `null`, but every caller reads first.
- Concurrency: handlers that overlap at their `await`s share the one `db` object without a lock, so updates can be lost. Each handler is modelled as one uninterrupted step.
- `Date.now()` is the parameter `now`. Timestamps are unbounded naturals; JavaScript numbers hold millisecond times exactly.
- The handler arguments are strings. Missing (`undefined`) fields, which `JSON.stringify` drops, are not modelled.
- Validation.ValidateMessage: fields are optional strings. The truthiness of non-string values (numbers, objects) is not modelled. Strings are sequences of Unicode scalar values whose UTF-16 length is computed; lone surrogates, which a JavaScript string may hold, cannot be represented.
- Logging to the console, Electron start-up, windows and app lifecycle, the daily backup timer, `get-db-path`, `open-db-location`, IPC registration, the preload bridge, port scanning, the React components and the build configuration are outside the store and not modelled.
