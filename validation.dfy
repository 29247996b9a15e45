/** `validateMessage`: the guard on an outgoing message's fields. No handler of
    the store calls it; it stands on its own. */
module Validation {
  import opened ChatDocument

  /** The longest message text accepted, in UTF-16 code units (`Utf16Length`). */
  const MaxMessageLength: nat := 1000

  const InvalidFormat: string := "Invalid message format"
  const TooLong: string := "Message too long"

  /** JavaScript's `length` of a string: the number of UTF-16 code units, two
      for a character outside the Basic Multilingual Plane, one otherwise. */
  function Utf16Length(s: string): (n: nat)
    ensures |s| <= n <= 2 * |s|
  {
    if s == [] then 0 else CodeUnits(s[0]) + Utf16Length(s[1..])
  }

  /** The UTF-16 code units of one character. */
  function CodeUnits(c: char): nat {
    if c as int > 0xFFFF then 2 else 1
  }

  /** Appending a character adds its code units to the length. */
  lemma {:induction false} Utf16LengthAppend(s: string, c: char)
    ensures Utf16Length(s + [c]) == Utf16Length(s) + CodeUnits(c)
  {
    if s == [] {
      assert [] + [c] == [c];
    } else {
      assert (s + [c])[0] == s[0] && (s + [c])[1..] == s[1..] + [c];
      Utf16LengthAppend(s[1..], c);
    }
  }

  /** The object handed to the guard; a field may be missing. */
  datatype MessageFields = MessageFields(roomId: Option<string>, username: Option<string>, message: Option<string>)

  /** JavaScript truthiness of a string field: present and not empty. */
  predicate Truthy(field: Option<string>) {
    field.Some? && field.value != ""
  }

  /** Returns `Success(true)`, or `Failure` with the text of the error it throws.
      The field check comes first: an incomplete message is reported as badly
      formed whatever the length of its text. */
  function ValidateMessage(fields: MessageFields): (r: Reply<bool>)
    ensures r.Success? <==>
      Truthy(fields.roomId) && Truthy(fields.username) && Truthy(fields.message) &&
      Utf16Length(fields.message.value) <= MaxMessageLength
    ensures r.Success? ==> r.value
    ensures !(Truthy(fields.roomId) && Truthy(fields.username) && Truthy(fields.message)) ==>
      r == Failure(InvalidFormat)
    ensures (Truthy(fields.roomId) && Truthy(fields.username) && Truthy(fields.message) &&
             Utf16Length(fields.message.value) > MaxMessageLength) ==> r == Failure(TooLong)
  {
    if !Truthy(fields.roomId) || !Truthy(fields.username) || !Truthy(fields.message) then
      Failure(InvalidFormat)
    else if Utf16Length(fields.message.value) > MaxMessageLength then
      Failure(TooLong)
    else
      Success(true)
  }

  /** Whether a message is accepted depends on its room and author only through
      their presence: accepted texts are exactly the non-empty ones of at most
      1000 UTF-16 code units. */
  lemma {:induction false} AcceptedTexts(roomId: string, username: string, text: string)
    requires roomId != "" && username != ""
    ensures ValidateMessage(MessageFields(Some(roomId), Some(username), Some(text))).Success? <==>
      0 < |text| && Utf16Length(text) <= MaxMessageLength
  {
    var fields := MessageFields(Some(roomId), Some(username), Some(text));
    assert Truthy(fields.roomId) && Truthy(fields.username);
    assert Truthy(fields.message) <==> 0 < |text|;
  }

  /** A text one code unit over the limit is refused as too long, one at the
      limit is accepted. */
  lemma {:induction false} LimitIsInclusive(roomId: string, username: string, text: string, c: char)
    requires roomId != "" && username != "" && Utf16Length(text) == MaxMessageLength
    ensures ValidateMessage(MessageFields(Some(roomId), Some(username), Some(text))) == Success(true)
    ensures ValidateMessage(MessageFields(Some(roomId), Some(username), Some(text + [c]))) == Failure(TooLong)
  {
    Utf16LengthAppend(text, c);
  }

  /** A character outside the Basic Multilingual Plane counts twice: 600 emoji
      (U+1F600) make a text of length 1200, refused as too long although it has
      only 600 characters. */
  lemma {:induction false} AstralCharactersCountTwice(roomId: string, username: string, text: string)
    requires roomId != "" && username != ""
    requires forall i :: 0 <= i < |text| ==> text[i] == '\U{1F600}'
    ensures Utf16Length(text) == 2 * |text|
    ensures |text| > MaxMessageLength / 2 ==>
      ValidateMessage(MessageFields(Some(roomId), Some(username), Some(text))) == Failure(TooLong)
  {
    if text != [] {
      AstralCharactersCountTwice(roomId, username, text[1..]);
    }
  }
}
