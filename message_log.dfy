/** What `get-messages` computes from the stored messages: the messages of one
    room (`filter`), ordered by ascending timestamp with a stable sort (`sort`). */
module MessageLog {
  import opened ChatDocument

  /** Non-decreasing by timestamp. */
  ghost predicate SortedByTimestamp(s: seq<Message>) {
    forall i, j :: 0 <= i < j < |s| ==> s[i].timestamp <= s[j].timestamp
  }

  /** `messages.filter(msg => msg.room_id === roomId)`. */
  function InRoom(messages: seq<Message>, roomId: string): (r: seq<Message>)
    ensures forall i :: 0 <= i < |r| ==> r[i].roomId == roomId
    ensures forall m :: multiset(r)[m] == if m.roomId == roomId then multiset(messages)[m] else 0
  {
    if messages == [] then []
    else
      assert messages == [messages[0]] + messages[1..];
      (if messages[0].roomId == roomId then [messages[0]] else []) + InRoom(messages[1..], roomId)
  }

  /** The messages carrying timestamp `t`, in their order in `s`. Two orderings
      of the same messages that agree on these subsequences for every `t` put
      messages with equal timestamps in the same relative order. */
  function AtTime(s: seq<Message>, t: nat): seq<Message> {
    if s == [] then []
    else (if s[0].timestamp == t then [s[0]] else []) + AtTime(s[1..], t)
  }

  /** Places `x` in front of the first element whose timestamp is not smaller. */
  function Insert(x: Message, s: seq<Message>): (r: seq<Message>)
    requires SortedByTimestamp(s)
    ensures SortedByTimestamp(r)
    ensures multiset(r) == multiset(s) + multiset{x}
    ensures r[0] == x || (s != [] && r[0] == s[0])
  {
    if s == [] || x.timestamp <= s[0].timestamp then
      ConsSorted(x, s);
      [x] + s
    else
      assert SortedByTimestamp(s[1..]);
      var rest := Insert(x, s[1..]);
      assert s == [s[0]] + s[1..];
      ConsSorted(s[0], rest);
      [s[0]] + rest
  }

  /** A head no later than the first element of a sorted tail keeps it sorted. */
  lemma ConsSorted(h: Message, t: seq<Message>)
    requires SortedByTimestamp(t)
    requires t == [] || h.timestamp <= t[0].timestamp
    ensures SortedByTimestamp([h] + t)
  {
    var r := [h] + t;
    forall i, j | 0 <= i < j < |r| ensures r[i].timestamp <= r[j].timestamp {
      if i == 0 && j > 1 {
        assert r[j] == t[j - 1];
      }
    }
  }

  /** `.sort((a, b) => a.timestamp - b.timestamp)`: a stable sort, written as an
      insertion sort. */
  function SortByTimestamp(s: seq<Message>): (r: seq<Message>)
    ensures SortedByTimestamp(r)
    ensures multiset(r) == multiset(s)
  {
    if s == [] then []
    else
      assert s == [s[0]] + s[1..];
      Insert(s[0], SortByTimestamp(s[1..]))
  }

  /** The `get-messages` result for `roomId` over the stored `messages`. */
  function MessagesFor(messages: seq<Message>, roomId: string): (r: seq<Message>)
    ensures SortedByTimestamp(r)
    ensures multiset(r) == multiset(InRoom(messages, roomId))
  {
    SortByTimestamp(InRoom(messages, roomId))
  }

  /** Insertion keeps messages of one timestamp in order: `x` lands ahead of
      every element already holding its timestamp. */
  lemma {:induction false} InsertAtTime(x: Message, s: seq<Message>, t: nat)
    requires SortedByTimestamp(s)
    ensures AtTime(Insert(x, s), t) == (if x.timestamp == t then [x] else []) + AtTime(s, t)
  {
    if s == [] || x.timestamp <= s[0].timestamp {
      AtTimeCons(x, s, t);
    } else {
      var rest := Insert(x, s[1..]);
      assert SortedByTimestamp(s[1..]);
      InsertAtTime(x, s[1..], t);
      AtTimeCons(s[0], rest, t);
    }
  }

  /** `AtTime` of a sequence with a known head. */
  lemma AtTimeCons(h: Message, s: seq<Message>, t: nat)
    ensures AtTime([h] + s, t) == (if h.timestamp == t then [h] else []) + AtTime(s, t)
  {
    assert ([h] + s)[1..] == s;
  }

  /** The sort is stable. */
  lemma {:induction false} SortIsStable(s: seq<Message>, t: nat)
    ensures AtTime(SortByTimestamp(s), t) == AtTime(s, t)
  {
    if s != [] {
      SortIsStable(s[1..], t);
      InsertAtTime(s[0], SortByTimestamp(s[1..]), t);
    }
  }

  /** In a sorted sequence nothing is older than the head. */
  lemma {:induction false} NothingBeforeHead(s: seq<Message>, t: nat)
    requires SortedByTimestamp(s) && s != [] && t < s[0].timestamp
    ensures AtTime(s, t) == []
  {
    if |s| > 1 {
      NothingBeforeHead(s[1..], t);
    }
  }

  /** The head of a sequence is among the messages of its own timestamp. */
  lemma HeadAtTime(s: seq<Message>)
    requires s != []
    ensures AtTime(s, s[0].timestamp) != []
  {
  }

  /** A sorted sequence is determined by its per-timestamp subsequences: there is
      exactly one stable sorted arrangement of a sequence of messages. */
  lemma {:induction false} StableSortUnique(a: seq<Message>, b: seq<Message>)
    requires SortedByTimestamp(a) && SortedByTimestamp(b)
    requires forall t :: AtTime(a, t) == AtTime(b, t)
    ensures a == b
    decreases |a|
  {
    if a == [] || b == [] {
      if a != [] {
        HeadAtTime(a);
        assert false;
      } else if b != [] {
        HeadAtTime(b);
        assert false;
      }
    } else {
      SameHead(a, b);
      forall t
        ensures AtTime(a[1..], t) == AtTime(b[1..], t)
      {
        var head := if a[0].timestamp == t then [a[0]] else [];
        assert a == [a[0]] + a[1..] && b == [b[0]] + b[1..];
        AtTimeCons(a[0], a[1..], t);
        AtTimeCons(b[0], b[1..], t);
        assert AtTime(a, t) == AtTime(b, t);
        assert AtTime(a[1..], t) == (head + AtTime(a[1..], t))[|head|..];
        assert AtTime(b[1..], t) == (head + AtTime(b[1..], t))[|head|..];
      }
      assert SortedByTimestamp(a[1..]) && SortedByTimestamp(b[1..]);
      StableSortUnique(a[1..], b[1..]);
      assert a == [a[0]] + a[1..] && b == [b[0]] + b[1..];
    }
  }

  /** Sorted sequences with equal per-timestamp subsequences start alike. */
  lemma {:induction false} SameHead(a: seq<Message>, b: seq<Message>)
    requires SortedByTimestamp(a) && SortedByTimestamp(b) && a != [] && b != []
    requires forall t :: AtTime(a, t) == AtTime(b, t)
    ensures a[0] == b[0]
  {
    var t0, u0 := a[0].timestamp, b[0].timestamp;
    if t0 < u0 {
      NothingBeforeHead(b, t0);
      HeadAtTime(a);
      assert false;
    } else if u0 < t0 {
      NothingBeforeHead(a, u0);
      HeadAtTime(b);
      assert false;
    }
    assert a == [a[0]] + a[1..] && b == [b[0]] + b[1..];
    AtTimeCons(a[0], a[1..], t0);
    AtTimeCons(b[0], b[1..], t0);
    assert a[0] == AtTime(a, t0)[0] == AtTime(b, t0)[0] == b[0];
  }

  /** `get-messages` returns exactly the stored messages of the room, each as
      often as it is stored, and nothing of any other room. */
  lemma MessagesForSelects(messages: seq<Message>, roomId: string)
    ensures forall i :: 0 <= i < |MessagesFor(messages, roomId)| ==>
      MessagesFor(messages, roomId)[i].roomId == roomId
    ensures forall m ::
      (multiset(MessagesFor(messages, roomId))[m] == if m.roomId == roomId then multiset(messages)[m] else 0)
  {
    var r := MessagesFor(messages, roomId);
    forall i | 0 <= i < |r| ensures r[i].roomId == roomId {
      assert r[i] in multiset(r);
    }
  }

  /** A room with no stored message yields an empty result. */
  lemma MessagesForUnknownRoom(messages: seq<Message>, roomId: string)
    requires forall i :: 0 <= i < |messages| ==> messages[i].roomId != roomId
    ensures MessagesFor(messages, roomId) == []
  {
  }

  /** `get-messages` is ascending by timestamp, and messages with equal
      timestamps keep their storage order: those with timestamp `t` come out
      exactly as the stored messages with timestamp `t`, filtered to the room. */
  lemma {:induction false} MessagesForOrdered(messages: seq<Message>, roomId: string, t: nat)
    ensures SortedByTimestamp(MessagesFor(messages, roomId))
    ensures AtTime(MessagesFor(messages, roomId), t) == AtTime(InRoom(messages, roomId), t)
    ensures AtTime(MessagesFor(messages, roomId), t) == InRoom(AtTime(messages, t), roomId)
  {
    SortIsStable(InRoom(messages, roomId), t);
    InRoomAtTime(messages, roomId, t);
  }

  /** Selecting a room and selecting a timestamp commute, and both keep the
      order of their input. */
  lemma {:induction false} InRoomAtTime(messages: seq<Message>, roomId: string, t: nat)
    ensures AtTime(InRoom(messages, roomId), t) == InRoom(AtTime(messages, t), roomId)
  {
    if messages != [] {
      var h, rest := messages[0], messages[1..];
      var x, y := InRoom(rest, roomId), AtTime(rest, t);
      InRoomAtTime(rest, roomId, t);
      if h.roomId == roomId && h.timestamp == t {
        assert InRoom(messages, roomId) == [h] + x;
        AtTimeCons(h, x, t);
        assert AtTime(messages, t) == [h] + y;
        InRoomCons(h, y, roomId);
      } else if h.roomId == roomId {
        assert InRoom(messages, roomId) == [h] + x;
        AtTimeCons(h, x, t);
        assert AtTime(messages, t) == [] + y;
        assert [] + y == y;
      } else if h.timestamp == t {
        assert InRoom(messages, roomId) == [] + x;
        assert [] + x == x;
        assert AtTime(messages, t) == [h] + y;
        InRoomCons(h, y, roomId);
      } else {
        assert InRoom(messages, roomId) == [] + x;
        assert [] + x == x;
        assert AtTime(messages, t) == [] + y;
        assert [] + y == y;
      }
    }
  }

  /** `InRoom` of a sequence with a known head. */
  lemma InRoomCons(h: Message, s: seq<Message>, roomId: string)
    ensures InRoom([h] + s, roomId) == (if h.roomId == roomId then [h] else []) + InRoom(s, roomId)
  {
    assert ([h] + s)[1..] == s;
  }

  /** Any arrangement that is sorted and keeps the storage order of equal
      timestamps is the `get-messages` result. */
  lemma MessagesForCharacterized(messages: seq<Message>, roomId: string, r: seq<Message>)
    requires SortedByTimestamp(r)
    requires forall t :: AtTime(r, t) == AtTime(InRoom(messages, roomId), t)
    ensures r == MessagesFor(messages, roomId)
  {
    forall t ensures AtTime(r, t) == AtTime(MessagesFor(messages, roomId), t) {
      SortIsStable(InRoom(messages, roomId), t);
    }
    StableSortUnique(r, MessagesFor(messages, roomId));
  }

  /** Storing one more message adds it to its own room's listing and leaves
      every other room's listing exactly as it was. */
  lemma {:induction false} MessagesForAppend(messages: seq<Message>, m: Message, roomId: string)
    ensures multiset(MessagesFor(messages + [m], roomId)) ==
      multiset(MessagesFor(messages, roomId)) + (if m.roomId == roomId then multiset{m} else multiset{})
    ensures m.roomId != roomId ==> MessagesFor(messages + [m], roomId) == MessagesFor(messages, roomId)
  {
    InRoomAppend(messages, m, roomId);
    if m.roomId != roomId {
      OtherRoomUnchanged(messages, m, roomId);
    }
  }

  /** A message of another room does not change the filtered sequence. */
  lemma OtherRoomUnchanged(messages: seq<Message>, m: Message, roomId: string)
    requires m.roomId != roomId
    ensures MessagesFor(messages + [m], roomId) == MessagesFor(messages, roomId)
  {
    var before := InRoom(messages, roomId);
    InRoomAppend(messages, m, roomId);
    assert before + [] == before;
    assert InRoom(messages + [m], roomId) == before;
  }

  /** The filter distributes over appending one message. */
  lemma {:induction false} InRoomAppend(messages: seq<Message>, m: Message, roomId: string)
    ensures InRoom(messages + [m], roomId) ==
      InRoom(messages, roomId) + (if m.roomId == roomId then [m] else [])
  {
    if messages == [] {
      assert [] + [m] == [m];
    } else {
      var xs, head := messages + [m], if messages[0].roomId == roomId then [messages[0]] else [];
      var tail := if m.roomId == roomId then [m] else [];
      assert xs[0] == messages[0] && xs[1..] == messages[1..] + [m];
      assert InRoom(xs, roomId) == head + InRoom(messages[1..] + [m], roomId);
      InRoomAppend(messages[1..], m, roomId);
      assert InRoom(messages, roomId) == head + InRoom(messages[1..], roomId);
      ConcatAssoc(head, InRoom(messages[1..], roomId), tail);
    }
  }

  /** A message no older than any stored one is listed last in its room: the
      new listing is the earlier one followed by the message. */
  lemma LatestMessageListedLast(messages: seq<Message>, m: Message)
    requires forall i :: 0 <= i < |messages| ==> messages[i].timestamp <= m.timestamp
    ensures MessagesFor(messages + [m], m.roomId) == MessagesFor(messages, m.roomId) + [m]
  {
    var before := MessagesFor(messages, m.roomId);
    var r := before + [m];
    forall i | 0 <= i < |before| ensures before[i].timestamp <= m.timestamp {
      StoredIn(messages, m.roomId, before[i]);
    }
    AppendSorted(before, m);
    forall t ensures AtTime(r, t) == AtTime(InRoom(messages + [m], m.roomId), t) {
      AtTimeAppend(before, m, t);
      SortIsStable(InRoom(messages, m.roomId), t);
      InRoomAppend(messages, m, m.roomId);
      AtTimeAppend(InRoom(messages, m.roomId), m, t);
    }
    MessagesForCharacterized(messages + [m], m.roomId, r);
  }

  /** Every message listed for a room is one of the stored messages. */
  lemma StoredIn(messages: seq<Message>, roomId: string, x: Message)
    requires x in MessagesFor(messages, roomId)
    ensures x in messages
  {
    MessagesForSelects(messages, roomId);
    assert multiset(MessagesFor(messages, roomId))[x] > 0;
  }

  /** Appending an element no older than any other keeps a sequence sorted. */
  lemma AppendSorted(s: seq<Message>, x: Message)
    requires SortedByTimestamp(s)
    requires forall i :: 0 <= i < |s| ==> s[i].timestamp <= x.timestamp
    ensures SortedByTimestamp(s + [x])
  {
    var r := s + [x];
    forall i, j | 0 <= i < j < |r| ensures r[i].timestamp <= r[j].timestamp {
      assert r[i] == s[i];
    }
  }

  /** `AtTime` distributes over appending one message. */
  lemma {:induction false} AtTimeAppend(s: seq<Message>, x: Message, t: nat)
    ensures AtTime(s + [x], t) == AtTime(s, t) + (if x.timestamp == t then [x] else [])
  {
    if s == [] {
      assert [] + [x] == [x];
      AtTimeCons(x, [], t);
    } else {
      var head := if s[0].timestamp == t then [s[0]] else [];
      assert s + [x] == [s[0]] + (s[1..] + [x]);
      AtTimeCons(s[0], s[1..] + [x], t);
      AtTimeAppend(s[1..], x, t);
      ConcatAssoc(head, AtTime(s[1..], t), if x.timestamp == t then [x] else []);
    }
  }

  lemma ConcatAssoc<T>(a: seq<T>, b: seq<T>, c: seq<T>)
    ensures a + (b + c) == (a + b) + c
  {
  }
}
