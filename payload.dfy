/**
  What both completion providers send: one record per message that has text,
  and a two-turn conversation made of the system prompt and those records.
*/
module Payload {
  import opened Wrappers
  import opened Json

  /**
    A key of `msg.to_dict()` for which `msg.get(key, default)` makes a
    difference: the default replaces an absent key, never a null value.
  */
  datatype DictValue<T> = Absent | Null | Present(value: T)

  /**
    `msg.to_dict()` of a stored message. For the user, the chat and the text,
    `None` stands for a key that is absent or null: `get_user_name`,
    `get_chat_name` and the text test treat both alike.
  */
  datatype Message = Message(
    userId: Option<int>,
    chatId: Option<ChatKey>,
    timestamp: DictValue<string>,
    text: Option<string>)

  /** The `{user, chat, timestamp, text}` record built for one message; a null timestamp stays null. */
  datatype MessageRecord = MessageRecord(
    user: Option<string>,
    chat: Option<string>,
    timestamp: Option<string>,
    text: string)

  /** The user and chat directories behind `get_user_name` and `get_chat_name`. */
  datatype Directory = Directory(userNames: map<int, string>, chatNames: map<ChatKey, string>)

  /** One turn of the conversation sent to a provider. */
  datatype Turn = SystemTurn(prompt: string) | UserTurn(records: seq<MessageRecord>)

  /** What a provider's `chatgpt_analyze` gives back: the triple, or an exception. */
  datatype Completion =
    | Completed(text: Option<string>, tokensIn: Option<int>, tokensOut: Option<int>)
    | Raised

  const UNKNOWN_TIMESTAMP: string := "Неизвестно"

  /** `"text" in msg and msg["text"]`. */
  predicate HasText(m: Message)
  {
    m.text.Some? && m.text.value != ""
  }

  function UserName(dir: Directory, id: Option<int>): Option<string>
  {
    if id.Some? && id.value in dir.userNames then Some(dir.userNames[id.value]) else None
  }

  function ChatName(dir: Directory, id: Option<ChatKey>): Option<string>
  {
    if id.Some? && id.value in dir.chatNames then Some(dir.chatNames[id.value]) else None
  }

  function RecordOf(m: Message, dir: Directory): MessageRecord
    requires HasText(m)
  {
    MessageRecord(
      UserName(dir, m.userId),
      ChatName(dir, m.chatId),
      match m.timestamp
      case Absent => Some(UNKNOWN_TIMESTAMP)
      case Null => None
      case Present(t) => Some(t),
      m.text.value)
  }

  /** The records of the messages that have text, in input order. */
  function Records(ms: seq<Message>, dir: Directory): seq<MessageRecord>
  {
    if ms == [] then []
    else
      var last := ms[|ms| - 1];
      Records(ms[..|ms| - 1], dir) + (if HasText(last) then [RecordOf(last, dir)] else [])
  }

  /** The record list of a concatenation is the concatenation of the record lists. */
  lemma {:induction false} RecordsAppend(a: seq<Message>, b: seq<Message>, dir: Directory)
    ensures Records(a + b, dir) == Records(a, dir) + Records(b, dir)
    decreases |b|
  {
    if b == [] {
      assert a + b == a;
    } else {
      var b' := b[..|b| - 1];
      assert (a + b)[..|a + b| - 1] == a + b';
      assert (a + b)[|a + b| - 1] == b[|b| - 1];
      RecordsAppend(a, b', dir);
    }
  }

  /** A message without text contributes nothing; one with text contributes exactly its record. */
  lemma RecordsOfOne(m: Message, dir: Directory)
    ensures Records([m], dir) == if HasText(m) then [RecordOf(m, dir)] else []
  {
    assert [m][..0] == [];
  }

  /**
    Only messages with text contribute, each one record, in order: the records are
    the textual messages' records one for one.
  */
  lemma {:induction false} RecordsAreTextualMessages(ms: seq<Message>, dir: Directory)
    ensures |Records(ms, dir)| <= |ms|
    ensures forall r :: r in Records(ms, dir) ==> r.text != ""
    ensures (forall i :: 0 <= i < |ms| ==> HasText(ms[i])) ==> |Records(ms, dir)| == |ms|
    ensures (forall i :: 0 <= i < |ms| ==> !HasText(ms[i])) ==> Records(ms, dir) == []
    decreases |ms|
  {
    if ms != [] {
      RecordsAreTextualMessages(ms[..|ms| - 1], dir);
    }
  }

  /**
    The record of a message with text carries its text, its user's and chat's
    names, its timestamp, `"Неизвестно"` for an absent timestamp, and null for
    a null one.
  */
  lemma RecordFields(m: Message, dir: Directory)
    requires HasText(m)
    ensures RecordOf(m, dir).text == m.text.value
    ensures RecordOf(m, dir).user == UserName(dir, m.userId) && RecordOf(m, dir).chat == ChatName(dir, m.chatId)
    ensures m.timestamp.Absent? ==> RecordOf(m, dir).timestamp == Some(UNKNOWN_TIMESTAMP)
    ensures m.timestamp.Null? ==> RecordOf(m, dir).timestamp.None?
    ensures m.timestamp.Present? ==> RecordOf(m, dir).timestamp == Some(m.timestamp.value)
  {
  }

  /** `for msg in messages: if ...: api_messages.append(...)`. */
  method BuildRecords(messages: seq<Message>, dir: Directory) returns (records: seq<MessageRecord>)
    ensures records == Records(messages, dir)
  {
    records := [];
    var i := 0;
    while i < |messages|
      invariant 0 <= i <= |messages|
      invariant records == Records(messages[..i], dir)
    {
      var msg := messages[i];
      assert messages[..i + 1][..i] == messages[..i];
      if msg.text.Some? && msg.text.value != "" {
        records := records + [RecordOf(msg, dir)];
      }
      i := i + 1;
    }
    assert messages[..i] == messages;
  }

  /** The two-message conversation: system = prompt, user = the rendered record list. */
  function Conversation(prompt: string, records: seq<MessageRecord>): (c: seq<Turn>)
    ensures |c| == 2 && c[0].SystemTurn? && c[1].UserTurn?
    ensures c[0].prompt == prompt && c[1].records == records
  {
    [SystemTurn(prompt), UserTurn(records)]
  }
}
