/**
  The bot's persisted identity: the chat it posts to and the one message it
  keeps editing (the `db` record), how it is loaded at start-up, and
  `createMsg`, which sends the placeholder message and records its ID.
*/
module Storage {
  import opened Text
  import Decimal

  /** Go's `int64`; `ChatID` is an `int64`, `MessageID` an `int` (64 bits on the platforms the bot targets). */
  newtype int64 = x: int | -0x8000_0000_0000_0000 <= x < 0x8000_0000_0000_0000

  /** The value written to and read from `db.gob`. */
  datatype Record = Record(chatId: int64, messageId: int64)

  const ZeroRecord := Record(0, 0)

  /** Either field still zero: the handshake has not completed. */
  function Unregistered(r: Record): (needed: bool)
    ensures !needed <==> r.chatId != 0 && r.messageId != 0
    ensures r == ZeroRecord ==> needed
  {
    r.chatId == 0 || r.messageId == 0
  }

  /**
    `load`: the decoded record, or the zero record when the file is missing
    or does not decode (only a warning is logged in that case).
  */
  function Load(stored: Option<Record>): (r: Record)
    ensures stored.None? ==> r.chatId == 0 && r.messageId == 0
    ensures stored.Some? ==> r == stored.value
    ensures Unregistered(r) <==> stored.None? || Unregistered(stored.value)
  {
    match stored
    case None => ZeroRecord
    case Some(record) => record
  }

  /** What `bot.Send` answers: the ID of the message it created, or an error text. */
  datatype SendResult = Sent(messageId: int64) | SendError(text: string)

  /** The text of the placeholder message `createMsg` sends, with the chat ID written by `%d`. */
  function PlaceholderText(chatId: int64): (text: string)
    ensures |text| > |PlaceholderLead| + |PlaceholderTail|
    ensures text[..|PlaceholderLead|] == PlaceholderLead
    ensures Decimal.Parse(text[|PlaceholderLead|..|text| - |PlaceholderTail|]) == chatId as int
  {
    var digits := Decimal.Format(chatId as int);
    Decimal.ParseFormat(chatId as int);
    var text := PlaceholderLead + digits + PlaceholderTail;
    assert text[..|PlaceholderLead|] == PlaceholderLead;
    assert text[|PlaceholderLead|..|text| - |PlaceholderTail|] == digits;
    text
  }

  const PlaceholderLead := "Message test for chat ID: "
  const PlaceholderTail := " from bot"

  /** The outcome of `createMsg`: the record saved to `db.gob`, or a fatal send error. */
  datatype CreateOutcome = Saved(record: Record) | FatalSend(error: string)

  /** The in-memory `storage` variable of `main`, updated in place through a pointer. */
  class Db {
    var chatId: int64
    var messageId: int64

    constructor (r: Record)
      ensures chatId == r.chatId && messageId == r.messageId
    {
      chatId := r.chatId;
      messageId := r.messageId;
    }

    function Snapshot(): Record
      reads this
    {
      Record(chatId, messageId)
    }

    /** The check in `main` that decides whether the handshake must run. */
    function NeedsRegistration(): (needed: bool)
      reads this
      ensures !needed <==> chatId != 0 && messageId != 0
    {
      Unregistered(Snapshot())
    }

    /**
      `createMsg`: sends the placeholder to the stored chat through `send`;
      on success stores the returned message ID and saves the record, on a
      send error the process ends and nothing is stored.
    */
    method CreateMsg(send: (int64, string) -> SendResult) returns (outcome: CreateOutcome, text: string)
      modifies this
      ensures text == PlaceholderText(old(chatId))
      ensures chatId == old(chatId)
      ensures send(chatId, text).Sent? ==>
        messageId == send(chatId, text).messageId && outcome == Saved(Snapshot())
      ensures send(chatId, text).SendError? ==>
        messageId == old(messageId) && outcome == FatalSend(send(chatId, text).text)
    {
      text := PlaceholderText(chatId);
      var result := send(chatId, text);
      match result
      case SendError(e) =>
        outcome := FatalSend(e);
      case Sent(id) =>
        messageId := id;
        outcome := Saved(Snapshot());
    }
  }
}
