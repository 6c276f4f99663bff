/**
  The start-up part of `main`: load the stored record and, while either ID
  is still zero, wait in the update stream for the `/register` command,
  take the chat ID from it and create the message the bot will keep
  editing. The stream is a finite sequence here; running out of it stands
  for the bot still waiting.
*/
module Registration {
  import opened Text
  import opened Storage

  /** An incoming Telegram message: the chat it was posted in and its text. */
  datatype Message = Message(chatId: int64, text: string)

  /**
    An update carries a message, an inline query (by its ID), or neither.
    The inline query is read only by the inline-query listener, which is not
    part of this model; it is kept so that an update can be one.
  */
  datatype Update = Update(message: Option<Message>, inlineQuery: Option<string>)

  const RegisterCommand := "/register"

  /**
    The match of `^/register$` (no multi-line flag, so `$` is the end of
    the text): the whole text is the command, with nothing before or after.
  */
  function IsRegister(u: Update): (matches: bool)
    ensures matches ==> u.message.Some? && u.message.value.text == RegisterCommand
    ensures u.message.None? ==> !matches
    ensures u.message.Some? && u.message.value.text == RegisterCommand + "\n" ==> !matches
    ensures u.message.Some? && u.message.value.text == RegisterCommand + " now" ==> !matches
  {
    u.message.Some? && u.message.value.text == RegisterCommand
  }

  /** Index of the first update carrying the command, if any. */
  function FirstRegister(updates: seq<Update>): (r: Option<nat>)
    ensures r.Some? ==> r.value < |updates| && IsRegister(updates[r.value])
    ensures r.Some? ==> forall k :: 0 <= k < r.value ==> !IsRegister(updates[k])
    ensures r.None? <==> forall k :: 0 <= k < |updates| ==> !IsRegister(updates[k])
  {
    if updates == [] then None
    else if IsRegister(updates[0]) then Some(0)
    else match FirstRegister(updates[1..])
      case None => None
      case Some(k) => Some(k + 1)
  }

  /** Updates that do not carry the exact command only delay the handshake. */
  lemma {:induction false} NoiseIsSkipped(noise: seq<Update>, updates: seq<Update>)
    requires forall k :: 0 <= k < |noise| ==> !IsRegister(noise[k])
    ensures FirstRegister(noise + updates)
         == match FirstRegister(updates) case None => None case Some(k) => Some(|noise| + k)
  {
    if noise != [] {
      assert (noise + updates)[1..] == noise[1..] + updates;
      NoiseIsSkipped(noise[1..], updates);
    } else {
      assert noise + updates == updates;
    }
  }

  /**
    The loop over the update stream: stops at the first `/register`,
    logging and skipping everything before it.
  */
  method AwaitRegister(updates: seq<Update>) returns (found: Option<nat>)
    ensures found == FirstRegister(updates)
  {
    var i := 0;
    while i < |updates|
      invariant 0 <= i <= |updates|
      invariant forall k :: 0 <= k < i ==> !IsRegister(updates[k])
    {
      var update := updates[i];
      if update.message.Some? && update.message.value.text == RegisterCommand {
        found := Some(i);
        return;
      }
      i := i + 1;
    }
    found := None;
  }

  /** How start-up ends. */
  datatype Outcome =
    | AlreadyRegistered
    | StillWaiting
    | Registered(record: Record, rest: seq<Update>)
    | SendFailed(error: string)

  /**
    The handshake, run only when the stored record needs it: the chat of
    the first `/register` is stored, then `createMsg` sends the placeholder
    there and stores the message ID Telegram returns. `rest` is what the
    inline-query listener receives afterwards.
  */
  method RegisterIfNeeded(storage: Db, updates: seq<Update>, send: (int64, string) -> SendResult)
    returns (outcome: Outcome)
    modifies storage
    ensures !old(storage.NeedsRegistration()) ==>
      outcome == AlreadyRegistered && storage.Snapshot() == old(storage.Snapshot())
    ensures old(storage.NeedsRegistration()) && FirstRegister(updates).None? ==>
      outcome == StillWaiting && storage.Snapshot() == old(storage.Snapshot())
    ensures old(storage.NeedsRegistration()) && FirstRegister(updates).Some? ==>
      var k := FirstRegister(updates).value;
      var chat := updates[k].message.value.chatId;
      var reply := send(chat, PlaceholderText(chat));
      && storage.chatId == chat
      && (reply.Sent? ==>
            && storage.messageId == reply.messageId
            && outcome == Registered(storage.Snapshot(), updates[k + 1..])
            && (storage.NeedsRegistration() <==> chat == 0 || reply.messageId == 0))
      && (reply.SendError? ==>
            storage.messageId == old(storage.messageId) && outcome == SendFailed(reply.text))
  {
    if !(storage.chatId == 0 || storage.messageId == 0) {
      return AlreadyRegistered;
    }
    var found := AwaitRegister(updates);
    match found
    case None =>
      outcome := StillWaiting;
    case Some(k) =>
      outcome := Bind(storage, updates[k].message.value.chatId, updates[k + 1..], send);
  }

  /**
    The body of the loop once `/register` has arrived: store its chat, then
    create the message there. `rest` is the stream after the command.
  */
  method Bind(storage: Db, chat: int64, rest: seq<Update>, send: (int64, string) -> SendResult)
    returns (outcome: Outcome)
    modifies storage
    ensures storage.chatId == chat
    ensures var reply := send(chat, PlaceholderText(chat));
      && (reply.Sent? ==>
            storage.messageId == reply.messageId && outcome == Registered(Record(chat, reply.messageId), rest))
      && (reply.SendError? ==>
            storage.messageId == old(storage.messageId) && outcome == SendFailed(reply.text))
  {
    storage.chatId := chat;
    var created, _ := storage.CreateMsg(send);
    match created
    case Saved(record) =>
      outcome := Registered(record, rest);
    case FatalSend(e) =>
      outcome := SendFailed(e);
  }

  /**
    Start-up: the record comes from `load` (the zero record when there is
    none), so the handshake runs again on every start until a complete
    record has been saved.
  */
  method Startup(stored: Option<Record>, updates: seq<Update>, send: (int64, string) -> SendResult)
    returns (storage: Db, outcome: Outcome)
    ensures fresh(storage)
    ensures stored.None? ==> outcome != AlreadyRegistered
    ensures (outcome == AlreadyRegistered) <==> !Unregistered(Load(stored))
    ensures Unregistered(Load(stored)) && FirstRegister(updates).None? ==> outcome == StillWaiting
    ensures Unregistered(Load(stored)) && FirstRegister(updates).Some? ==>
      var k := FirstRegister(updates).value;
      var chat := updates[k].message.value.chatId;
      var reply := send(chat, PlaceholderText(chat));
      && storage.chatId == chat
      && (reply.Sent? ==>
            storage.messageId == reply.messageId &&
            outcome == Registered(Record(chat, reply.messageId), updates[k + 1..]))
      && (reply.SendError? ==>
            storage.messageId == Load(stored).messageId && outcome == SendFailed(reply.text))
    ensures stored.Some? && !Unregistered(stored.value) ==>
      outcome == AlreadyRegistered && storage.Snapshot() == stored.value
  {
    storage := new Db(Load(stored));
    outcome := RegisterIfNeeded(storage, updates, send);
  }
}
