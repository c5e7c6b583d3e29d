// The session state machine driven by incoming updates (src/handlers.js):
// forwarded messages fill the buffer, free text and button presses ask the
// model about it. Each handler is one atomic run against the store.
module Handlers {
  import opened Wrappers
  import opened Domain
  import opened Chat
  import Store
  import Limits
  import Text
  import Media
  import Commands

  // ---------------------------------------------------------------------------
  // Incoming Telegram messages. An absent string field is "" (both are falsy).

  datatype User = User(id: UserId, firstName: string)
  datatype PhotoSize = PhotoSize(fileId: string, fileSize: Option<int>, width: int, height: int)
  datatype VoiceFile = VoiceFile(fileId: string, fileSize: Option<int>, duration: Option<int>, mimeType: Option<string>)

  datatype Message = Message(
    from: UserId,
    forwardDate: Option<int>,
    forwardFrom: Option<User>,
    forwardSenderName: string,
    text: string,
    photo: Option<seq<PhotoSize>>,
    voice: Option<VoiceFile>,
    video: bool,
    sticker: bool,
    document: bool,
    audio: bool,
    videoNote: bool)

  /** `!!msg.forward_date`: a zero date counts as not forwarded. */
  predicate IsForwarded(msg: Message)
  {
    msg.forwardDate.Some? && msg.forwardDate.value != 0
  }

  /** Plain text that is not a command. */
  predicate IsFreeText(msg: Message)
  {
    msg.text != "" && !("/" <= msg.text)
  }

  const UnknownName: string := "Unknown"

  /** `name || 'Unknown'`. */
  function OrUnknown(name: string): (r: string)
    ensures r != ""
    ensures name != "" ==> r == name
    ensures name == "" ==> r == UnknownName
  {
    if name != "" then name else UnknownName
  }

  /** The author of a forwarded message. Only a message forwarded from the
      bot's own user is the user's; a hidden sender has no id. */
  function DetectAuthor(msg: Message, userId: UserId): (a: Author)
    ensures a.isUser <==> msg.forwardFrom.Some? && msg.forwardFrom.value.id == userId
    ensures a.id.Some? <==> msg.forwardFrom.Some?
    ensures a.id.Some? ==> a.id.value == msg.forwardFrom.value.id
    ensures a.name != ""
    ensures msg.forwardFrom.Some? && msg.forwardFrom.value.firstName != "" ==> a.name == msg.forwardFrom.value.firstName
    ensures msg.forwardFrom.None? && msg.forwardSenderName != "" ==> a.name == msg.forwardSenderName
    ensures msg.forwardFrom.Some? && msg.forwardFrom.value.firstName == "" ==> a.name == UnknownName
    ensures msg.forwardFrom.None? && msg.forwardSenderName == "" ==> a.name == UnknownName
  {
    match msg.forwardFrom
    case Some(sender) => Author(sender.id == userId, OrUnknown(sender.firstName), Some(sender.id))
    case None => Author(false, OrUnknown(msg.forwardSenderName), None)
  }

  // ---------------------------------------------------------------------------
  // Content classification

  const ImageText: string := "[Изображение]"
  const VoiceText: string := "[Голосовое сообщение]"
  const VideoText: string := "[Видео]"
  const StickerText: string := "[Стикер]"
  const DocumentText: string := "[Документ]"
  const AudioText: string := "[Аудиофайл]"
  const VideoNoteText: string := "[Видеосообщение]"

  /** What classification makes of a message: the fields of a buffer item; no
      supported content; or a photo list with no size in it, on which reading
      the largest size throws. */
  datatype Classified = Candidate(kind: Kind, text: string, metadata: Metadata) | Unsupported | Malformed

  /** The kinds of content a message carries, in the order they are tested. */
  function Present(msg: Message): seq<Kind>
  {
    (if msg.text != "" then [Text] else [])
    + (if msg.photo.Some? then [Image] else [])
    + (if msg.voice.Some? then [Voice] else [])
    + (if msg.video then [Video] else [])
    + (if msg.sticker then [Sticker] else [])
    + (if msg.document then [Document] else [])
    + (if msg.audio then [Audio] else [])
    + (if msg.videoNote then [VideoNote] else [])
  }

  /** The type tests of forwarded ingestion: the first kind present wins; the
      photo keeps its last (largest) size; only images and voice notes carry
      file metadata. */
  function Classify(msg: Message): (c: Classified)
    ensures c.Unsupported? <==> Present(msg) == []
    ensures c.Malformed? <==> Present(msg) != [] && Present(msg)[0] == Image && msg.photo == Some([])
    ensures c.Candidate? ==> Present(msg) != [] && c.kind == Present(msg)[0]
    ensures c.Candidate? && c.kind == Text ==> c.text == msg.text && c.metadata == NoMetadata
    ensures c.Candidate? && c.kind == Image ==>
              msg.photo.Some? && |msg.photo.value| > 0 &&
              c.metadata.PhotoMeta? && c.metadata.fileId == msg.photo.value[|msg.photo.value| - 1].fileId
    ensures c.Candidate? && c.kind == Voice ==>
              msg.voice.Some? && c.metadata == VoiceMeta(msg.voice.value.fileId, msg.voice.value.fileSize,
                                                         msg.voice.value.duration, msg.voice.value.mimeType)
    ensures c.Candidate? && c.kind != Image && c.kind != Voice ==> c.metadata == NoMetadata
  {
    if msg.text != "" then Candidate(Text, msg.text, NoMetadata)
    else if msg.photo.Some? then
      var sizes := msg.photo.value;
      if |sizes| == 0 then Malformed
      else
        var photo := sizes[|sizes| - 1];
        Candidate(Image, ImageText, PhotoMeta(photo.fileId, photo.fileSize, photo.width, photo.height))
    else if msg.voice.Some? then
      var voice := msg.voice.value;
      Candidate(Voice, VoiceText, VoiceMeta(voice.fileId, voice.fileSize, voice.duration, voice.mimeType))
    else if msg.video then Candidate(Video, VideoText, NoMetadata)
    else if msg.sticker then Candidate(Sticker, StickerText, NoMetadata)
    else if msg.document then Candidate(Document, DocumentText, NoMetadata)
    else if msg.audio then Candidate(Audio, AudioText, NoMetadata)
    else if msg.videoNote then Candidate(VideoNote, VideoNoteText, NoMetadata)
    else Unsupported
  }

  /** The buffer item of a classified forwarded message. */
  function ItemOf(msg: Message, c: Classified): (m: Item)
    requires IsForwarded(msg) && c.Candidate?
    ensures m.timestamp == msg.forwardDate.value
    ensures m.kind == c.kind && m.text == c.text && m.metadata == c.metadata
    ensures m.author == DetectAuthor(msg, msg.from)
  {
    Item(DetectAuthor(msg, msg.from), msg.forwardDate.value, c.kind, c.text, c.metadata)
  }

  // ---------------------------------------------------------------------------
  // Forwarded ingestion

  /** The row forwarded ingestion works on: a collecting row as it is, any
      other row or no row replaced by a fresh collecting one. */
  function Prepared(rows: map<UserId, Session>, userId: UserId): (s: Session)
    ensures s.state == Collecting
    ensures userId in rows && rows[userId].state == Collecting ==> s == rows[userId]
    ensures !(userId in rows && rows[userId].state == Collecting) ==> s == NewSession(Collecting)
  {
    if userId in rows && rows[userId].state == Collecting then rows[userId] else NewSession(Collecting)
  }

  /** The table invariant gives a valid prepared row. */
  lemma PreparedValid(rows: map<UserId, Session>, userId: UserId)
    requires Store.ValidRows(rows)
    ensures Store.ValidSession(Prepared(rows, userId))
  {
    Store.NewSessionValid(Collecting);
  }

  /** The row after an admitted item is appended. */
  function Grown(s: Session, item: Item): (r: Session)
    ensures |r.messages| == |s.messages| + 1
    ensures multiset(r.messages) == multiset(s.messages) + multiset{item}
    ensures Store.SortedByTimestamp(r.messages)
    ensures r.state == s.state && r.lastInstruction == s.lastInstruction && r.lastMessageId == s.lastMessageId
  {
    s.(messages := Store.SortByTimestamp(s.messages + [item]))
  }

  /** Appending an admitted item to a valid row gives a valid row. */
  lemma GrownValid(s: Session, item: Item)
    requires Store.ValidSession(s)
    requires Limits.ValidateNewMessage(Some(s.messages), item).valid
    ensures Store.ValidSession(Grown(s, item))
  {
    Limits.AdmissionPreservesLimits(s.messages, item);
    assert multiset(s.messages + [item]) == multiset(s.messages) + multiset{item};
    Limits.WithinLimitsPermutation(s.messages + [item], Grown(s, item).messages);
  }

  /** getOrCreateSession, then resetSession when the row is not collecting. */
  method PrepareSession(db: Store.SessionTable, userId: UserId) returns (session: Session)
    modifies db`rows
    ensures session == Prepared(old(db.rows), userId)
    ensures db.rows == old(db.rows)[userId := session]
  {
    session := db.GetOrCreateSession(userId, Collecting);
    if session.state != Collecting {
      var reset := db.ResetSession(userId, Collecting);
      session := reset.value;
    }
  }

  /** `session.last_message_id` is truthy: present and not 0. */
  predicate HasProgressMessage(lastMessageId: Option<MessageId>)
  {
    lastMessageId.Some? && lastMessageId.value != 0
  }

  /** What the progress-message step does: the calls it makes, the message id
      stored afterwards, and whether it ends in the generic failure path. */
  datatype Progress = Progress(out: seq<Outbound>, lastMessageId: Option<MessageId>, failed: bool)

  /** Progress-message recovery: edit the stored message when there is one;
      send a fresh one (and store its id) when there is none or when the old
      one is gone; ignore "not modified"; fail on any other edit error. */
  function ProgressStep(lastMessageId: Option<MessageId>, text: string, keyboard: Keyboard, io: Io): (p: Progress)
    ensures |p.out| >= 1
  {
    if !HasProgressMessage(lastMessageId) then Progress([Send(text, keyboard)], Some(io.sentId), false)
    else
      var edit := EditText(lastMessageId.value, text, keyboard);
      match io.edit
      case Edited => Progress([edit], lastMessageId, false)
      case EditError(message) =>
        if EditGone(message) then Progress([edit, Send(text, AnalyzeButton)], Some(io.sentId), false)
        else if EditNotModified(message) then Progress([edit], lastMessageId, false)
        else Progress([edit], lastMessageId, true)
  }

  /** The recovery cases: only a sent message changes the stored id; the
      failure path keeps it; "not modified" and a successful edit leave only
      the edit; a vanished message is replaced by a new one. */
  lemma ProgressRecovery(lastMessageId: Option<MessageId>, text: string, keyboard: Keyboard, io: Io)
    ensures ProgressStep(lastMessageId, text, keyboard, io).failed ==> ProgressStep(lastMessageId, text, keyboard, io).lastMessageId == lastMessageId
    ensures ProgressStep(lastMessageId, text, keyboard, io).lastMessageId != lastMessageId ==> ProgressStep(lastMessageId, text, keyboard, io).lastMessageId == Some(io.sentId)
    ensures !HasProgressMessage(lastMessageId) ==>
              ProgressStep(lastMessageId, text, keyboard, io) == Progress([Send(text, keyboard)], Some(io.sentId), false)
    ensures HasProgressMessage(lastMessageId) ==> ProgressStep(lastMessageId, text, keyboard, io).out[0] == EditText(lastMessageId.value, text, keyboard)
    ensures ProgressStep(lastMessageId, text, keyboard, io).failed <==>
              HasProgressMessage(lastMessageId) && io.edit.EditError?
              && !EditGone(io.edit.message) && !EditNotModified(io.edit.message)
    ensures HasProgressMessage(lastMessageId) && io.edit.EditError? && EditGone(io.edit.message) ==>
              && ProgressStep(lastMessageId, text, keyboard, io).out == [EditText(lastMessageId.value, text, keyboard), Send(text, AnalyzeButton)]
              && ProgressStep(lastMessageId, text, keyboard, io).lastMessageId == Some(io.sentId)
    ensures HasProgressMessage(lastMessageId) && !(io.edit.EditError? && EditGone(io.edit.message)) ==>
              && ProgressStep(lastMessageId, text, keyboard, io).out == [EditText(lastMessageId.value, text, keyboard)]
              && ProgressStep(lastMessageId, text, keyboard, io).lastMessageId == lastMessageId
  {
  }

  /** The markup of the progress message: the /analyze button once the
      buffer holds anything. */
  function ProgressKeyboard(messages: seq<Item>): (k: Keyboard)
    ensures k == AnalyzeButton <==> |messages| > 0
  {
    if |messages| > 0 then AnalyzeButton else NoKeyboard
  }

  /** The progress-message try block, run on the freshly read row with the
      progress text computed from it. */
  method ReportProgress(db: Store.SessionTable, userId: UserId, session: Session, messageText: string, io: Io)
    returns (out: seq<Outbound>, failed: bool)
    requires userId in db.rows && db.rows[userId] == session
    modifies db`rows
    ensures out == ProgressStep(session.lastMessageId, messageText, ProgressKeyboard(session.messages), io).out
    ensures failed == ProgressStep(session.lastMessageId, messageText, ProgressKeyboard(session.messages), io).failed
    ensures db.rows == old(db.rows)[userId := session.(lastMessageId :=
              ProgressStep(session.lastMessageId, messageText, ProgressKeyboard(session.messages), io).lastMessageId)]
  {
    var keyboard := ProgressKeyboard(session.messages);
    var storeId := Store.Patch(None, None, None, Some(Some(io.sentId)));
    failed := false;
    if HasProgressMessage(session.lastMessageId) {
      out := [EditText(session.lastMessageId.value, messageText, keyboard)];
      match io.edit
      case Edited =>
      case EditError(message) =>
        if EditGone(message) {
          out := out + [Send(messageText, AnalyzeButton)];
          var updated := db.UpdateSession(userId, storeId);
        } else if EditNotModified(message) {
        } else {
          failed := true;
        }
    } else {
      out := [Send(messageText, keyboard)];
      var updated := db.UpdateSession(userId, storeId);
    }
  }

  /** addMessageToSession on the prepared row, then getSession: the row read
      back is the prepared row with the item merged into its buffer. */
  method AppendCandidate(db: Store.SessionTable, userId: UserId, session: Session, item: Item)
    returns (current: Session)
    requires db.Valid()
    requires userId in db.rows && db.rows[userId] == session
    requires Limits.ValidateNewMessage(Some(session.messages), item).valid
    modifies db`rows
    ensures current == Grown(session, item)
    ensures db.rows == old(db.rows)[userId := current]
    ensures db.Valid()
  {
    var added := db.AddMessageToSession(userId, item);
    GrownValid(session, item);
    Store.ValidRowsUpdate(old(db.rows), userId, Grown(session, item));
    var read := db.GetSession(userId);
    current := read.value;
  }

  /** What one handler run leaves behind: the sessions table, the outbound
      calls, and the statistics rows it adds. */
  datatype Effect = Effect(rows: map<UserId, Session>, out: seq<Outbound>, stats: seq<Store.Stat>)

  /** The admitted path on the prepared row: the row with the item merged
      into its buffer and the progress message id, the calls, and the
      statistics row (forward_message, or forward_error when the edit fails
      otherwise). */
  datatype Admission = Admission(row: Session, out: seq<Outbound>, stat: Store.Stat)

  function Admitted(session: Session, item: Item, io: Io): (a: Admission)
    ensures a.row.messages == Store.SortByTimestamp(session.messages + [item])
    ensures a.row.state == session.state && a.row.lastInstruction == session.lastInstruction
    ensures a.row.lastMessageId != session.lastMessageId ==> a.row.lastMessageId == Some(io.sentId)
    ensures |a.out| >= 1
    ensures a.stat.errorOccurred ==> a.out[|a.out| - 1] == Send(ServiceNotice, NoKeyboard)
    ensures !a.stat.errorOccurred ==>
              a.stat == Store.Stat(a.stat.userId, "forward_message", None, Some(|session.messages| + 1), false)
    ensures var g := Grown(session, item);
            var p := ProgressStep(g.lastMessageId, Limits.FormatProgressMessage(Some(g.messages)), AnalyzeButton, io);
            && (a.stat.errorOccurred <==> p.failed)
            && a.row.lastMessageId == p.lastMessageId
            && |p.out| <= |a.out| && a.out[..|p.out|] == p.out
  {
    AdmittedOn(Grown(session, item), io)
  }

  function AdmittedOn(grown: Session, io: Io): (a: Admission)
    ensures a.row == grown.(lastMessageId := a.row.lastMessageId)
    ensures a.row.lastMessageId != grown.lastMessageId ==> a.row.lastMessageId == Some(io.sentId)
    ensures |a.out| >= 1
    ensures a.stat.errorOccurred ==> a.out[|a.out| - 1] == Send(ServiceNotice, NoKeyboard)
    ensures !a.stat.errorOccurred ==>
              a.stat == Store.Stat(a.stat.userId, "forward_message", None, Some(|grown.messages|), false)
    ensures var p := ProgressStep(grown.lastMessageId, Limits.FormatProgressMessage(Some(grown.messages)), AnalyzeButton, io);
            && (a.stat.errorOccurred <==> p.failed)
            && a.row.lastMessageId == p.lastMessageId
            && |p.out| <= |a.out| && a.out[..|p.out|] == p.out
  {
    var text := Limits.FormatProgressMessage(Some(grown.messages));
    ProgressRecovery(grown.lastMessageId, text, AnalyzeButton, io);
    var p := ProgressStep(grown.lastMessageId, text, AnalyzeButton, io);
    Admission(
      grown.(lastMessageId := p.lastMessageId),
      p.out + (if p.failed then [Send(ServiceNotice, NoKeyboard)] else []),
      if p.failed then ErrorStat(0, "forward_error")
      else Store.Stat(0, "forward_message", None, Some(|grown.messages|), false))
  }

  /** What ingestion does to the sender's prepared row once the store is
      reachable: the row it leaves, the calls, and the statistics rows. */
  datatype RowEffect = RowEffect(row: Session, out: seq<Outbound>, stats: seq<Store.Stat>)

  /** Validation of a candidate item, then the admitted path. */
  function Considered(session: Session, item: Item, userId: UserId, io: Io): (e: RowEffect)
    ensures |e.stats| <= 1
    ensures e.stats != [] <==> io.logOk
    ensures e.stats != [] ==> e.stats[0].userId == userId
    ensures !Limits.ValidateNewMessage(Some(session.messages), item).valid ==> e.row == session
  {
    var v := Limits.ValidateNewMessage(Some(session.messages), item);
    if !v.valid then
      RowEffect(session, [Send(Limits.ErrorMessage(v.limitType.value), NoKeyboard)],
                Logged(io, Store.Stat(userId, "limit_exceeded", v.limitType, Some(|session.messages|), false)))
    else
      var a := Admitted(session, item, io);
      RowEffect(a.row, a.out, Logged(io, a.stat.(userId := userId)))
  }

  /** Classification, then validation and the admitted path, on the prepared
      row. */
  function Ingested(session: Session, msg: Message, io: Io): (e: RowEffect)
    requires IsForwarded(msg)
    ensures |e.stats| <= 1
    ensures e.stats != [] ==> io.logOk && e.stats[0].userId == msg.from
    ensures Classify(msg).Unsupported? ==> e == RowEffect(session, [], [])
    ensures !Classify(msg).Candidate? ==> e.row == session
  {
    match Classify(msg)
    case Unsupported => RowEffect(session, [], [])
    case Malformed => RowEffect(session, [Send(ServiceNotice, NoKeyboard)], Logged(io, ErrorStat(msg.from, "forward_error")))
    case Candidate(_, _, _) => Considered(session, ItemOf(msg, Classify(msg)), msg.from, io)
  }

  /** The net effect of forwarded ingestion on the table, as a function of the
      table before it. */
  function Forwarded(rows: map<UserId, Session>, msg: Message, io: Io): (e: Effect)
    requires IsForwarded(msg)
    ensures |e.stats| <= 1
    ensures e.stats != [] ==> io.logOk && e.stats[0].userId == msg.from
    ensures io.storeFault ==> e.rows == rows && e.out == [Send(ServiceNotice, NoKeyboard)]
    ensures !io.storeFault ==> e.rows.Keys == rows.Keys + {msg.from}
  {
    var userId := msg.from;
    if io.storeFault then Effect(rows, [Send(ServiceNotice, NoKeyboard)], Logged(io, ErrorStat(userId, "forward_error")))
    else
      var e := Ingested(Prepared(rows, userId), msg, io);
      Effect(rows[userId := e.row], e.out, e.stats)
  }

  /** The admitted path after the append: the progress message on the row
      read back, then the statistics row. */
  method AdmitCandidate(db: Store.SessionTable, userId: UserId, current: Session, io: Io)
    returns (out: seq<Outbound>)
    requires db.Valid()
    requires userId in db.rows && db.rows[userId] == current && |current.messages| > 0
    modifies db
    ensures db.Valid()
    ensures db.rows == old(db.rows)[userId := AdmittedOn(current, io).row]
    ensures out == AdmittedOn(current, io).out
    ensures db.statistics == old(db.statistics) + Logged(io, AdmittedOn(current, io).stat.(userId := userId))
  {
    var messageText := Limits.FormatProgressMessage(Some(current.messages));
    assert ProgressKeyboard(current.messages) == AnalyzeButton;
    var progress, failed := ReportProgress(db, userId, current, messageText, io);
    ghost var p := ProgressStep(current.lastMessageId, messageText, AnalyzeButton, io);
    Store.ValidRowsUpdate(old(db.rows), userId, current.(lastMessageId := p.lastMessageId));
    if failed {
      out := progress + [Send(ServiceNotice, NoKeyboard)];
      db.LogAction(ErrorStat(userId, "forward_error"), io.logOk);
    } else {
      out := progress;
      db.LogAction(Store.Stat(userId, "forward_message", None, Some(|current.messages|), false), io.logOk);
    }
  }

  /** The admitted path: append, read back, then report progress. */
  method Admit(db: Store.SessionTable, userId: UserId, session: Session, item: Item, io: Io)
    returns (out: seq<Outbound>)
    requires db.Valid()
    requires userId in db.rows && db.rows[userId] == session
    requires Limits.ValidateNewMessage(Some(session.messages), item).valid
    modifies db
    ensures db.Valid()
    ensures db.rows == old(db.rows)[userId := AdmittedOn(Grown(session, item), io).row]
    ensures out == AdmittedOn(Grown(session, item), io).out
    ensures db.statistics == old(db.statistics) + Logged(io, AdmittedOn(Grown(session, item), io).stat.(userId := userId))
  {
    var current := AppendCandidate(db, userId, session, item);
    out := AdmitCandidate(db, userId, current, io);
    Store.Overwrite(old(db.rows), userId, current, AdmittedOn(current, io).row);
  }

  /** Validation, and on success the append and the admitted path. */
  method Consider(db: Store.SessionTable, userId: UserId, session: Session, item: Item, io: Io)
    returns (out: seq<Outbound>)
    requires db.Valid()
    requires userId in db.rows && db.rows[userId] == session
    modifies db
    ensures db.Valid()
    ensures db.rows == old(db.rows)[userId := Considered(session, item, userId, io).row]
    ensures out == Considered(session, item, userId, io).out
    ensures db.statistics == old(db.statistics) + Considered(session, item, userId, io).stats
  {
    var validation := Limits.ValidateNewMessage(Some(session.messages), item);
    if !validation.valid {
      out := [Send(validation.error.value, NoKeyboard)];
      db.LogAction(Store.Stat(userId, "limit_exceeded", validation.limitType, Some(|session.messages|), false), io.logOk);
      assert db.rows == old(db.rows)[userId := session];
    } else {
      out := Admit(db, userId, session, item, io);
    }
  }

  /** The ingestion steps after the row is prepared. */
  method Ingest(db: Store.SessionTable, msg: Message, session: Session, io: Io) returns (out: seq<Outbound>)
    requires db.Valid()
    requires IsForwarded(msg)
    requires msg.from in db.rows && db.rows[msg.from] == session
    modifies db
    ensures db.Valid()
    ensures db.rows == old(db.rows)[msg.from := Ingested(session, msg, io).row]
    ensures out == Ingested(session, msg, io).out
    ensures db.statistics == old(db.statistics) + Ingested(session, msg, io).stats
  {
    var classified := Classify(msg);
    match classified
    case Unsupported =>
      out := [];
      assert db.rows == old(db.rows)[msg.from := session];
    case Malformed =>
      out := [Send(ServiceNotice, NoKeyboard)];
      db.LogAction(ErrorStat(msg.from, "forward_error"), io.logOk);
      assert db.rows == old(db.rows)[msg.from := session];
    case Candidate(_, _, _) =>
      out := Consider(db, msg.from, session, ItemOf(msg, classified), io);
  }

  /** Forwarded ingestion: its net effect is `Forwarded`, and it keeps the
      table invariant. */
  method HandleForwarded(db: Store.SessionTable, msg: Message, io: Io) returns (out: seq<Outbound>)
    requires db.Valid()
    requires IsForwarded(msg)
    modifies db
    ensures db.Valid()
    ensures db.rows == Forwarded(old(db.rows), msg, io).rows
    ensures out == Forwarded(old(db.rows), msg, io).out
    ensures db.statistics == old(db.statistics) + Forwarded(old(db.rows), msg, io).stats
  {
    var userId := msg.from;
    if io.storeFault {
      out := [Send(ServiceNotice, NoKeyboard)];
      db.LogAction(ErrorStat(userId, "forward_error"), io.logOk);
      return;
    }
    var session := PrepareSession(db, userId);
    PreparedValid(old(db.rows), userId);
    Store.ValidRowsUpdate(old(db.rows), userId, session);
    out := Ingest(db, msg, session, io);
    Store.Overwrite(old(db.rows), userId, session, Ingested(session, msg, io).row);
  }

  /** Forwarded ingestion changes no row but the sender's. */
  lemma ForwardedTouchesOnlySender(rows: map<UserId, Session>, msg: Message, io: Io)
    requires IsForwarded(msg)
    ensures Forwarded(rows, msg, io).rows - {msg.from} == rows - {msg.from}
  {
  }

  /** With a store failure nothing changes; otherwise the sender's row exists,
      is collecting, and (unless the item was admitted) holds the prepared
      buffer unchanged: a rejected or unsupported item is never stored. */
  lemma ForwardedRowOutcome(rows: map<UserId, Session>, msg: Message, io: Io)
    requires IsForwarded(msg)
    ensures io.storeFault ==> Forwarded(rows, msg, io).rows == rows
    ensures !io.storeFault ==>
              && msg.from in Forwarded(rows, msg, io).rows
              && Forwarded(rows, msg, io).rows[msg.from].state == Collecting
    ensures !io.storeFault && (!Classify(msg).Candidate? ||
              !Limits.ValidateNewMessage(Some(Prepared(rows, msg.from).messages), ItemOf(msg, Classify(msg))).valid) ==>
              Forwarded(rows, msg, io).rows == rows[msg.from := Prepared(rows, msg.from)]
    ensures !io.storeFault && Classify(msg).Candidate? &&
              Limits.ValidateNewMessage(Some(Prepared(rows, msg.from).messages), ItemOf(msg, Classify(msg))).valid ==>
              && Forwarded(rows, msg, io).rows[msg.from].messages
                   == Store.SortByTimestamp(Prepared(rows, msg.from).messages + [ItemOf(msg, Classify(msg))])
              && |Forwarded(rows, msg, io).rows[msg.from].messages| == |Prepared(rows, msg.from).messages| + 1
  {
  }

  /** A rejected candidate is reported with the limit's message and recorded
      as limit_exceeded with its limit code and the buffer length. */
  lemma RejectionIsReported(rows: map<UserId, Session>, msg: Message, io: Io)
    requires IsForwarded(msg) && !io.storeFault && Classify(msg).Candidate?
    requires !Limits.ValidateNewMessage(Some(Prepared(rows, msg.from).messages), ItemOf(msg, Classify(msg))).valid
    ensures Forwarded(rows, msg, io).out
              == [Send(Limits.ErrorMessage(Limits.ValidateNewMessage(Some(Prepared(rows, msg.from).messages),
                                                                     ItemOf(msg, Classify(msg))).limitType.value), NoKeyboard)]
    ensures Forwarded(rows, msg, io).stats
              == Logged(io, Store.Stat(msg.from, "limit_exceeded",
                                       Limits.ValidateNewMessage(Some(Prepared(rows, msg.from).messages),
                                                                 ItemOf(msg, Classify(msg))).limitType,
                                       Some(|Prepared(rows, msg.from).messages|), false))
  {
  }

  /** Forwarded ingestion keeps the table invariant. */
  lemma ForwardedKeepsValid(rows: map<UserId, Session>, msg: Message, io: Io)
    requires IsForwarded(msg)
    requires Store.ValidRows(rows)
    ensures Store.ValidRows(Forwarded(rows, msg, io).rows)
  {
    if !io.storeFault {
      var session := Prepared(rows, msg.from);
      PreparedValid(rows, msg.from);
      if Classify(msg).Candidate? {
        var item := ItemOf(msg, Classify(msg));
        if Limits.ValidateNewMessage(Some(session.messages), item).valid {
          GrownValid(session, item);
          Store.ValidRowsUpdate(rows, msg.from, Admitted(session, item, io).row);
          return;
        }
      }
      Store.ValidRowsUpdate(rows, msg.from, session);
    }
  }

  /** A conversation row with five items that receives an admitted text item
      is reset first: it ends collecting, holding just that item. */
  lemma ConversationRowRestartsOnForward(rows: map<UserId, Session>, msg: Message, io: Io)
    requires IsForwarded(msg) && !io.storeFault
    requires msg.from in rows && rows[msg.from].state == Conversation && |rows[msg.from].messages| == 5
    requires msg.text != ""
    ensures Forwarded(rows, msg, io).rows[msg.from].state == Collecting
    ensures Forwarded(rows, msg, io).rows[msg.from].messages == [ItemOf(msg, Classify(msg))]
  {
    var session := Prepared(rows, msg.from);
    var item := ItemOf(msg, Classify(msg));
    assert session == NewSession(Collecting);
    assert Limits.ValidateNewMessage(Some(session.messages), item).valid;
    assert Ingested(session, msg, io) == Considered(session, item, msg.from, io);
    assert Store.SortByTimestamp([] + [item]) == [item] by {
      assert [] + [item] == [item];
      assert Store.SortByTimestamp([item]) == Store.InsertByTimestamp(item, Store.SortByTimestamp([]));
    }
    assert Admitted(session, item, io).row.messages == [item];
  }

  // ---------------------------------------------------------------------------
  // Free text and button presses

  const NoSessionHint: string := "Переслай сообщения и используй /analyze"
  const CollectingHint: string := "💡 Используй /analyze"
  const SessionExpiredAlert: string := "❌ Сессия истекла"
  const NoInstructionAlert: string := "❌ Нет предыдущей инструкции"
  const ServiceAlert: string := "❌ Сервис временно недоступен"

  const AnalyzeAction: string := "/analyze"
  const ClearAction: string := "clear"
  const RegenerateAction: string := "regenerate"

  /** processMultimodalContext with the reply taken from the outside world:
      one chat completion asked about the buffer and the instruction, the
      body it sends (plain exactly when the buffer has no downloadable media)
      and the model's reply, or None when the call throws. */
  method ProcessContext(messages: seq<Item>, instruction: string, io: Io)
    returns (out: seq<Outbound>, request: Media.Request, result: Option<string>)
    ensures result == io.completion
    ensures out == [Infer(Media.Query(messages, instruction, io.fetches))]
    ensures request == Media.RequestFor(messages, instruction, io.fetches)
    ensures request.PlainRequest? <==> !Media.HasMedia(messages)
    ensures request.PlainRequest? ==> request.prompt == Text.BuildPrompt(messages, instruction)
  {
    var hasMedia;
    request, hasMedia := Media.BuildRequest(messages, instruction, io.fetches);
    out := [Infer(Media.Query(messages, instruction, io.fetches))];
    result := io.completion;
  }

  /** The free-text branch. No row: a hint. A collecting row: another hint.
      Otherwise the text is the instruction: on a reply the row moves to
      conversation and remembers the text; when inference fails nothing
      changes but the notice and a message_error row. */
  method HandleFreeText(db: Store.SessionTable, userId: UserId, text: string, io: Io) returns (out: seq<Outbound>)
    requires db.Valid()
    modifies db
    ensures db.Valid()
    ensures db.rows - {userId} == old(db.rows) - {userId}
    ensures io.storeFault ==>
              && db.rows == old(db.rows)
              && out == [Send(ServiceNotice, NoKeyboard)]
              && db.statistics == old(db.statistics) + Logged(io, ErrorStat(userId, "message_error"))
    ensures !io.storeFault && userId !in old(db.rows) ==>
              db.rows == old(db.rows) && out == [Send(NoSessionHint, NoKeyboard)] && db.statistics == old(db.statistics)
    ensures !io.storeFault && userId in old(db.rows) && old(db.rows)[userId].state == Collecting ==>
              db.rows == old(db.rows) && out == [Send(CollectingHint, NoKeyboard)] && db.statistics == old(db.statistics)
    ensures !io.storeFault && userId in old(db.rows) && old(db.rows)[userId].state != Collecting ==>
              var row := old(db.rows)[userId];
              && |out| == 2 && out[0] == Infer(Media.Query(row.messages, text, io.fetches))
              && (io.completion.None? ==>
                    && db.rows == old(db.rows)
                    && out[1] == Send(ServiceNotice, NoKeyboard)
                    && db.statistics == old(db.statistics) + Logged(io, ErrorStat(userId, "message_error")))
              && (io.completion.Some? ==>
                    && db.rows == old(db.rows)[userId := row.(state := Conversation, lastInstruction := Some(text))]
                    && out[1] == Send(io.completion.value, RegenerateButton)
                    && db.statistics == old(db.statistics)
                         + Logged(io, Store.Stat(userId, "custom_request", None, Some(|row.messages|), false)))
  {
    if io.storeFault {
      out := [Send(ServiceNotice, NoKeyboard)];
      db.LogAction(ErrorStat(userId, "message_error"), io.logOk);
      return;
    }
    var session := db.GetSession(userId);
    if session.None? {
      out := [Send(NoSessionHint, NoKeyboard)];
      return;
    }
    var row := session.value;
    if row.state == Collecting {
      out := [Send(CollectingHint, NoKeyboard)];
      return;
    }
    out := AnswerFreeText(db, userId, row, text, io);
  }

  /** The free-text branch on a row that is not collecting: the text is the
      instruction. On a reply the row moves to conversation and remembers the
      text; when inference fails nothing changes but the notice and a
      message_error row. */
  method AnswerFreeText(db: Store.SessionTable, userId: UserId, row: Session, text: string, io: Io)
    returns (out: seq<Outbound>)
    requires db.Valid() && userId in db.rows && db.rows[userId] == row
    modifies db
    ensures db.Valid()
    ensures |out| == 2 && out[0] == Infer(Media.Query(row.messages, text, io.fetches))
    ensures io.completion.None? ==>
              && db.rows == old(db.rows)
              && out[1] == Send(ServiceNotice, NoKeyboard)
              && db.statistics == old(db.statistics) + Logged(io, ErrorStat(userId, "message_error"))
    ensures io.completion.Some? ==>
              && db.rows == old(db.rows)[userId := row.(state := Conversation, lastInstruction := Some(text))]
              && out[1] == Send(io.completion.value, RegenerateButton)
              && db.statistics == old(db.statistics)
                   + Logged(io, Store.Stat(userId, "custom_request", None, Some(|row.messages|), false))
  {
    var asked, request, result := ProcessContext(row.messages, text, io);
    var replied := DeliverFreeTextReply(db, userId, row, text, result, io);
    out := asked + replied;
  }

  /** What follows the model call on free text: the reply with the
      regenerate button, the state change and a custom_request row; or,
      without a reply, the notice and a message_error row. */
  method DeliverFreeTextReply(db: Store.SessionTable, userId: UserId, row: Session, text: string,
                              result: Option<string>, io: Io)
    returns (out: seq<Outbound>)
    requires db.Valid() && userId in db.rows && db.rows[userId] == row
    modifies db
    ensures db.Valid()
    ensures result.None? ==>
              && db.rows == old(db.rows)
              && out == [Send(ServiceNotice, NoKeyboard)]
              && db.statistics == old(db.statistics) + Logged(io, ErrorStat(userId, "message_error"))
    ensures result.Some? ==>
              && db.rows == old(db.rows)[userId := row.(state := Conversation, lastInstruction := Some(text))]
              && out == [Send(result.value, RegenerateButton)]
              && db.statistics == old(db.statistics)
                   + Logged(io, Store.Stat(userId, "custom_request", None, Some(|row.messages|), false))
  {
    if result.None? {
      out := [Send(ServiceNotice, NoKeyboard)];
      db.LogAction(ErrorStat(userId, "message_error"), io.logOk);
      return;
    }
    out := [Send(result.value, RegenerateButton)];
    var updated := db.UpdateSession(userId, Store.Patch(Some(Conversation), None, Some(Some(text)), None));
    Store.ValidRowsUpdate(old(db.rows), userId, row.(state := Conversation, lastInstruction := Some(text)));
    db.LogAction(Store.Stat(userId, "custom_request", None, Some(|row.messages|), false), io.logOk);
  }

  /** `session.last_instruction` is truthy: present and non-empty. */
  predicate HasInstruction(lastInstruction: Option<string>)
  {
    lastInstruction.Some? && lastInstruction.value != ""
  }

  /** A template button or regenerate: infer, and on a reply send it with the
      regenerate button, record `stat` and answer the query; when inference
      fails, alert and record a callback_error row. The state change, if any,
      is `changed`. */
  method AnswerWithModel(db: Store.SessionTable, userId: UserId, row: Session, instruction: string,
                         changed: Option<Session>, stat: Store.Stat, io: Io)
    returns (out: seq<Outbound>)
    requires db.Valid() && userId in db.rows && db.rows[userId] == row
    requires changed.Some? ==> changed.value == row.(state := Conversation, lastInstruction := Some(instruction))
    modifies db
    ensures db.Valid()
    ensures |out| >= 2 && out[0] == Infer(Media.Query(row.messages, instruction, io.fetches))
    ensures io.completion.None? ==>
              && db.rows == old(db.rows)
              && out[1..] == [Alert(ServiceAlert)]
              && db.statistics == old(db.statistics) + Logged(io, ErrorStat(userId, "callback_error"))
    ensures io.completion.Some? ==>
              && db.rows == (if changed.Some? then old(db.rows)[userId := changed.value] else old(db.rows))
              && out[1..] == [Send(io.completion.value, RegenerateButton), Answer]
              && db.statistics == old(db.statistics) + Logged(io, stat)
  {
    var asked, request, result := ProcessContext(row.messages, instruction, io);
    var replied := DeliverCallbackReply(db, userId, row, instruction, changed, stat, result, io);
    out := asked + replied;
  }

  /** What follows the model call on a button press: the reply with the
      regenerate button, the state change, `stat` and the answer; or, without
      a reply, the alert and a callback_error row. */
  method DeliverCallbackReply(db: Store.SessionTable, userId: UserId, row: Session, instruction: string,
                              changed: Option<Session>, stat: Store.Stat, result: Option<string>, io: Io)
    returns (out: seq<Outbound>)
    requires db.Valid() && userId in db.rows && db.rows[userId] == row
    requires changed.Some? ==> changed.value == row.(state := Conversation, lastInstruction := Some(instruction))
    modifies db
    ensures db.Valid()
    ensures result.None? ==>
              && db.rows == old(db.rows)
              && out == [Alert(ServiceAlert)]
              && db.statistics == old(db.statistics) + Logged(io, ErrorStat(userId, "callback_error"))
    ensures result.Some? ==>
              && db.rows == (if changed.Some? then old(db.rows)[userId := changed.value] else old(db.rows))
              && out == [Send(result.value, RegenerateButton), Answer]
              && db.statistics == old(db.statistics) + Logged(io, stat)
  {
    if result.None? {
      out := [Alert(ServiceAlert)];
      db.LogAction(ErrorStat(userId, "callback_error"), io.logOk);
      return;
    }
    out := [Send(result.value, RegenerateButton)];
    if changed.Some? {
      var updated := db.UpdateSession(userId, Store.Patch(Some(Conversation), None, Some(Some(instruction)), None));
      Store.ValidRowsUpdate(old(db.rows), userId, changed.value);
    }
    db.LogAction(stat, io.logOk);
    out := out + [Answer];
  }

  /** handleCallback. With the store unreachable: an alert and a
      callback_error row. No row: an alert, nothing else. Otherwise the
      action decides, as `HandleAction` states. */
  method HandleCallback(db: Store.SessionTable, userId: UserId, action: string, io: Io) returns (out: seq<Outbound>)
    requires db.Valid()
    modifies db
    ensures db.Valid()
    ensures db.rows - {userId} == old(db.rows) - {userId}
    ensures io.storeFault ==>
              && db.rows == old(db.rows)
              && out == [Alert(ServiceAlert)]
              && db.statistics == old(db.statistics) + Logged(io, ErrorStat(userId, "callback_error"))
    ensures !io.storeFault && userId !in old(db.rows) ==>
              db.rows == old(db.rows) && out == [Alert(SessionExpiredAlert)] && db.statistics == old(db.statistics)
  {
    if io.storeFault {
      out := [Alert(ServiceAlert)];
      db.LogAction(ErrorStat(userId, "callback_error"), io.logOk);
      return;
    }
    var session := db.GetSession(userId);
    if session.None? {
      out := [Alert(SessionExpiredAlert)];
      return;
    }
    out := HandleAction(db, userId, session.value, action, io);
  }

  /** The clear button: the row is deleted and the deletion confirmed. */
  method ClearButton(db: Store.SessionTable, userId: UserId, io: Io) returns (out: seq<Outbound>)
    requires db.Valid()
    modifies db
    ensures db.Valid()
    ensures db.rows == old(db.rows) - {userId}
    ensures out == [Send(ClearedNotice, NoKeyboard), Answer]
    ensures db.statistics == old(db.statistics) + Logged(io, Store.Event(userId, "button_clear"))
  {
    db.DeleteSession(userId);
    Store.ValidRowsRemove(old(db.rows), userId);
    out := [Send(ClearedNotice, NoKeyboard)];
    db.LogAction(Store.Event(userId, "button_clear"), io.logOk);
    out := out + [Answer];
  }

  /** The regenerate button: an alert without a stored instruction,
      otherwise a new reply for it with the row unchanged. */
  method Regenerate(db: Store.SessionTable, userId: UserId, row: Session, io: Io) returns (out: seq<Outbound>)
    requires db.Valid() && userId in db.rows && db.rows[userId] == row
    modifies db
    ensures db.Valid()
    ensures db.rows == old(db.rows)
    ensures !HasInstruction(row.lastInstruction) ==> out == [Alert(NoInstructionAlert)] && db.statistics == old(db.statistics)
    ensures HasInstruction(row.lastInstruction) ==>
              && |out| >= 2 && out[0] == Infer(Media.Query(row.messages, row.lastInstruction.value, io.fetches))
              && (io.completion.None? ==>
                    out[1..] == [Alert(ServiceAlert)]
                    && db.statistics == old(db.statistics) + Logged(io, ErrorStat(userId, "callback_error")))
              && (io.completion.Some? ==>
                    out[1..] == [Send(io.completion.value, RegenerateButton), Answer]
                    && db.statistics == old(db.statistics)
                         + Logged(io, Store.Stat(userId, "regenerate", None, Some(|row.messages|), false)))
  {
    if !HasInstruction(row.lastInstruction) {
      out := [Alert(NoInstructionAlert)];
      return;
    }
    out := AnswerWithModel(db, userId, row, row.lastInstruction.value, None,
                           Store.Stat(userId, "regenerate", None, Some(|row.messages|), false), io);
  }

  /** A template button: a reply for the template, and with it the row moves
      to conversation with the key as its instruction. */
  method TemplateButton(db: Store.SessionTable, userId: UserId, row: Session, action: string, io: Io)
    returns (out: seq<Outbound>)
    requires db.Valid() && userId in db.rows && db.rows[userId] == row
    modifies db
    ensures db.Valid()
    ensures |out| >= 2 && out[0] == Infer(Media.Query(row.messages, action, io.fetches))
    ensures io.completion.None? ==>
              && db.rows == old(db.rows)
              && out[1..] == [Alert(ServiceAlert)]
              && db.statistics == old(db.statistics) + Logged(io, ErrorStat(userId, "callback_error"))
    ensures io.completion.Some? ==>
              && db.rows == old(db.rows)[userId := row.(state := Conversation, lastInstruction := Some(action))]
              && out[1..] == [Send(io.completion.value, RegenerateButton), Answer]
              && db.statistics == old(db.statistics)
                   + Logged(io, Store.Stat(userId, "button_" + action, None, Some(|row.messages|), false))
  {
    var changed := row.(state := Conversation, lastInstruction := Some(action));
    out := AnswerWithModel(db, userId, row, action, Some(changed),
                           Store.Stat(userId, "button_" + action, None, Some(|row.messages|), false), io);
  }

  /** The callback data that select an action are pairwise different. */
  lemma ActionsDistinct(action: string)
    ensures Text.IsTemplateKey(action) ==> action != AnalyzeAction && action != ClearAction && action != RegenerateAction
    ensures AnalyzeAction != ClearAction && AnalyzeAction != RegenerateAction && ClearAction != RegenerateAction
  {
    assert AnalyzeAction[0] == '/' && ClearAction[0] == 'c' && RegenerateAction[0] == 'r';
    assert Text.SummaryKey[0] == 's' && Text.FormalKey[0] == 'f' && Text.FriendlyKey[0] == 'f';
  }

  /** The actions of a button press on an existing row. "/analyze": the
      /analyze command, then the answer. A template key: the row moves to
      conversation with the key as its instruction. "clear": the row is
      deleted. "regenerate": an alert without a stored instruction, otherwise
      a new reply for it with the row unchanged. Any other data: nothing. */
  method HandleAction(db: Store.SessionTable, userId: UserId, row: Session, action: string, io: Io)
    returns (out: seq<Outbound>)
    requires db.Valid() && userId in db.rows && db.rows[userId] == row
    modifies db
    ensures db.Valid()
    ensures db.rows - {userId} == old(db.rows) - {userId}
    ensures action == AnalyzeAction ==>
              && (row.messages == [] ==>
                    && db.rows == old(db.rows)
                    && out == [Send(Commands.NoMessagesNotice, NoKeyboard), Answer]
                    && db.statistics == old(db.statistics))
              && (row.messages != [] ==>
                    && db.rows == old(db.rows)[userId := row.(state := WaitingAction)]
                    && out == [Send(Commands.AnalyzeReply(|row.messages|), ActionButtons), Answer]
                    && db.statistics == old(db.statistics)
                         + Logged(io, Store.Stat(userId, "analyze_clicked", None, Some(|row.messages|), false)))
    ensures Text.IsTemplateKey(action) ==>
              && |out| >= 2 && out[0] == Infer(Media.Query(row.messages, action, io.fetches))
              && (io.completion.None? ==>
                    && db.rows == old(db.rows)
                    && out[1..] == [Alert(ServiceAlert)]
                    && db.statistics == old(db.statistics) + Logged(io, ErrorStat(userId, "callback_error")))
              && (io.completion.Some? ==>
                    && db.rows == old(db.rows)[userId := row.(state := Conversation, lastInstruction := Some(action))]
                    && out[1..] == [Send(io.completion.value, RegenerateButton), Answer]
                    && db.statistics == old(db.statistics)
                         + Logged(io, Store.Stat(userId, "button_" + action, None, Some(|row.messages|), false)))
    ensures action == ClearAction ==>
              && db.rows == old(db.rows) - {userId}
              && out == [Send(ClearedNotice, NoKeyboard), Answer]
              && db.statistics == old(db.statistics) + Logged(io, Store.Event(userId, "button_clear"))
    ensures action == RegenerateAction ==>
              && (!HasInstruction(row.lastInstruction) ==>
                    db.rows == old(db.rows) && out == [Alert(NoInstructionAlert)] && db.statistics == old(db.statistics))
              && (HasInstruction(row.lastInstruction) ==>
                    && db.rows == old(db.rows)
                    && |out| >= 2 && out[0] == Infer(Media.Query(row.messages, row.lastInstruction.value, io.fetches))
                    && (io.completion.None? ==>
                          out[1..] == [Alert(ServiceAlert)]
                          && db.statistics == old(db.statistics) + Logged(io, ErrorStat(userId, "callback_error")))
                    && (io.completion.Some? ==>
                          out[1..] == [Send(io.completion.value, RegenerateButton), Answer]
                          && db.statistics == old(db.statistics)
                               + Logged(io, Store.Stat(userId, "regenerate", None, Some(|row.messages|), false))))
    ensures action != AnalyzeAction && !Text.IsTemplateKey(action) && action != ClearAction && action != RegenerateAction ==>
              db.rows == old(db.rows) && out == [] && db.statistics == old(db.statistics)
  {
    ActionsDistinct(action);
    if action == AnalyzeAction {
      out := Commands.HandleAnalyze(db, userId, io.(storeFault := false));
      out := out + [Answer];
      return;
    }
    if Text.IsTemplateKey(action) {
      out := TemplateButton(db, userId, row, action, io);
    } else if action == ClearAction {
      out := ClearButton(db, userId, io);
    } else if action == RegenerateAction {
      out := Regenerate(db, userId, row, io);
    } else {
      out := [];
    }
  }

  /** handleMessage: a forwarded message goes to ingestion, free text to the
      free-text branch, anything else (commands included) does nothing here.
      Only the sender's row can change. */
  method HandleMessage(db: Store.SessionTable, msg: Message, io: Io) returns (out: seq<Outbound>)
    requires db.Valid()
    modifies db
    ensures db.Valid()
    ensures db.rows - {msg.from} == old(db.rows) - {msg.from}
    ensures !IsForwarded(msg) && !IsFreeText(msg) ==>
              db.rows == old(db.rows) && out == [] && db.statistics == old(db.statistics)
  {
    if IsForwarded(msg) {
      out := HandleForwarded(db, msg, io);
    } else if IsFreeText(msg) {
      out := HandleFreeText(db, msg.from, msg.text, io);
    } else {
      out := [];
    }
  }
}
