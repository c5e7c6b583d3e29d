// The entities every component shares: a session row and the forwarded items
// buffered in it.
module Domain {
  import opened Wrappers

  /** Telegram user id; the sessions table's primary key. */
  type UserId = int

  /** Telegram message id of a message the bot sent. */
  type MessageId = int

  /** The `state` column. Row absence is the fourth, implicit, state. */
  datatype State = Collecting | WaitingAction | Conversation

  /** The `type` field of a buffered item, as the forwarded-message handler assigns it. */
  datatype Kind = Text | Image | Voice | Video | Sticker | Document | Audio | VideoNote

  /** Who wrote a forwarded message: `isUser` is true for the bot's own user. */
  datatype Author = Author(isUser: bool, name: string, id: Option<UserId>)

  /** The `metadata` field: only photos and voice notes carry a file reference. */
  datatype Metadata =
    | NoMetadata
    | PhotoMeta(fileId: string, fileSize: Option<int>, width: int, height: int)
    | VoiceMeta(fileId: string, fileSize: Option<int>, duration: Option<int>, mimeType: Option<string>)

  /** One element of the `messages` JSON array. */
  datatype Item = Item(author: Author, timestamp: int, kind: Kind, text: string, metadata: Metadata)

  /** One row of the sessions table (the key, user_id, is the table's map key). */
  datatype Session = Session(
    state: State,
    messages: seq<Item>,
    lastInstruction: Option<string>,
    lastMessageId: Option<MessageId>)

  /** `msg.metadata?.file_id` when it is truthy, that is, present and non-empty. */
  function FileIdOf(m: Metadata): (r: Option<string>)
    ensures r.Some? <==> (m.PhotoMeta? || m.VoiceMeta?) && m.fileId != ""
    ensures r.Some? ==> r.value == m.fileId
  {
    match m
    case NoMetadata => None
    case PhotoMeta(id, _, _, _) => if id != "" then Some(id) else None
    case VoiceMeta(id, _, _, _) => if id != "" then Some(id) else None
  }

  /** `messageData.metadata?.duration || 0`. */
  function DurationOf(m: Metadata): (d: int)
    ensures m.VoiceMeta? && m.duration.Some? ==> d == m.duration.value
    ensures !(m.VoiceMeta? && m.duration.Some?) ==> d == 0
  {
    match m
    case VoiceMeta(_, _, Some(d), _) => d
    case _ => 0
  }

  /** A freshly inserted row: the given state, an empty buffer, both last fields null. */
  function NewSession(state: State): Session
  {
    Session(state, [], None, None)
  }
}
