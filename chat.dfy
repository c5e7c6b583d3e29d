// What the handlers send out and what the outside world answers. Telegram
// calls and the model service are not executed: a handler returns the list of
// calls it makes, and every answer it needs comes in through an `Io` record.
module Chat {
  import opened Wrappers
  import opened Domain
  import opened Strings
  import Store
  import Media

  /** The inline keyboard attached to a message. */
  datatype Keyboard =
    | NoKeyboard
    | AnalyzeButton    // one button, callback data "/analyze"
    | ActionButtons    // summary / formal / friendly / clear
    | RegenerateButton // one button, callback data "regenerate"

  /** One outbound call, in the order the handler makes them. */
  datatype Outbound =
    | Send(text: string, keyboard: Keyboard)                          // sendMessage
    | EditText(messageId: MessageId, text: string, keyboard: Keyboard) // editMessageText
    | Alert(text: string)                                             // answerCallbackQuery with show_alert
    | Answer                                                          // answerCallbackQuery, no text
    | Infer(query: Media.Query)                                       // chat completion, body Media.RequestFor

  /** What editMessageText gave: success, or an error with its message. */
  datatype EditOutcome = Edited | EditError(message: string)

  /** The answers of the outside world for one handler run. */
  datatype Io = Io(
    storeFault: bool,                    // the handler's first store call throws
    logOk: bool,                         // the statistics insert succeeds
    sentId: MessageId,                   // message_id of a message the bot sends
    edit: EditOutcome,                   // outcome of editing the progress message
    fetches: seq<Media.FetchOutcome>,    // download outcome per buffered item
    completion: Option<string>)          // the model's reply, None when the call throws

  const ServiceNotice: string := "❌ Сервис временно недоступен, попробуй позже"
  const ClearedNotice: string := "🗑 Буфер очищен"

  /** The statistics rows one logAction call leaves: its row, or none when the
      insert fails (the failure is swallowed). */
  function Logged(io: Io, stat: Store.Stat): (r: seq<Store.Stat>)
    ensures |r| <= 1
    ensures r != [] <==> io.logOk
    ensures r != [] ==> r[0] == stat
  {
    if io.logOk then [stat] else []
  }

  /** A statistics row recording a caught error. */
  function ErrorStat(userId: UserId, actionType: string): (r: Store.Stat)
    ensures r.errorOccurred && r.userId == userId && r.actionType == actionType
  {
    Store.Stat(userId, actionType, None, None, true)
  }

  /** The edit errors after which a fresh progress message is sent: the old one
      is gone or too old to edit. */
  predicate EditGone(message: string)
  {
    || Contains(message, "message to edit not found")
    || Contains(message, "message can't be edited")
    || Contains(message, "MESSAGE_ID_INVALID")
  }

  /** The edit error that is ignored: the text is unchanged. */
  predicate EditNotModified(message: string)
  {
    Contains(message, "message is not modified")
  }
}
