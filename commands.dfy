// The slash commands (src/commands.js): /analyze moves a non-empty buffer to
// the choice of action, /clear drops the row, /help only answers.
module Commands {
  import opened Wrappers
  import opened Domain
  import opened Strings
  import opened Chat
  import Store

  const NoMessagesNotice: string := "❌ Нет сообщений в буфере"
  const AnalyzeHead: string := "📊 В буфере "
  const AnalyzeTail: string := " сообщений.\n\nВыбери действие:"

  /** The /help text, paragraph by paragraph. */
  const HelpText: string :=
    "🤖 Telegram Context Assistant Bot\n\n"
    + "Я помогаю анализировать переписки и составлять ответы.\n\n"
    + "📖 Как пользоваться:\n\n"
    + "1️⃣ Перешли мне сообщения из диалога (один или несколько)\n2️⃣ Используй команду /analyze\n3️⃣ Выбери действие:\n   • 📝 Резюме - краткое содержание переписки\n   • 💼 Официально - помощь с формальным ответом\n   • 😊 Дружески - помощь с дружеским ответом\n   • Или напиши свою инструкцию\n\n"
    + "4️⃣ Получи результат и используй 🔄 для других вариантов\n\n"
    + "⚙️ Команды:\n/analyze - Анализировать собранные сообщения\n/clear - Очистить буфер сообщений\n/help - Показать это сообщение\n\n"
    + "💡 Совет: Я определяю, какие сообщения написал ты, а какие - собеседник."

  /** The /analyze reply for a buffer of n items; the count can be read back
      from it. */
  function AnalyzeReply(n: nat): (r: string)
    ensures |r| == |AnalyzeHead| + |NatToString(n)| + |AnalyzeTail|
    ensures r[..|AnalyzeHead|] == AnalyzeHead
    ensures r[|AnalyzeHead|..|AnalyzeHead| + |NatToString(n)|] == NatToString(n)
    ensures ParseDecimal(r[|AnalyzeHead|..|AnalyzeHead| + |NatToString(n)|]) == n
  {
    var r := AnalyzeHead + NatToString(n) + AnalyzeTail;
    assert r[|AnalyzeHead|..|AnalyzeHead| + |NatToString(n)|] == NatToString(n);
    ParseNatToString(n);
    r
  }

  /** Different buffer lengths give different replies. */
  lemma AnalyzeReplyInjective(m: nat, n: nat)
    ensures AnalyzeReply(m) == AnalyzeReply(n) <==> m == n
  {
    if AnalyzeReply(m) == AnalyzeReply(n) {
      assert |NatToString(m)| == |NatToString(n)|;
    }
  }

  /** handleAnalyze. A store failure on the lookup gives the notice and an
      analyze_error row. An absent row or an empty buffer gives the "no
      messages" notice and changes nothing. Otherwise the row, whatever its
      state, moves to waiting_action with its buffer untouched, the reply
      reports the buffer length and carries the action buttons. */
  method HandleAnalyze(db: Store.SessionTable, userId: UserId, io: Io) returns (out: seq<Outbound>)
    requires db.Valid()
    modifies db
    ensures db.Valid()
    ensures io.storeFault ==>
              && db.rows == old(db.rows)
              && out == [Send(ServiceNotice, NoKeyboard)]
              && db.statistics == old(db.statistics) + Logged(io, ErrorStat(userId, "analyze_error"))
    ensures !io.storeFault && (userId !in old(db.rows) || old(db.rows)[userId].messages == []) ==>
              && db.rows == old(db.rows)
              && out == [Send(NoMessagesNotice, NoKeyboard)]
              && db.statistics == old(db.statistics)
    ensures !io.storeFault && userId in old(db.rows) && old(db.rows)[userId].messages != [] ==>
              && db.rows == old(db.rows)[userId := old(db.rows)[userId].(state := WaitingAction)]
              && out == [Send(AnalyzeReply(|old(db.rows)[userId].messages|), ActionButtons)]
              && db.statistics == old(db.statistics)
                   + Logged(io, Store.Stat(userId, "analyze_clicked", None, Some(|old(db.rows)[userId].messages|), false))
  {
    if io.storeFault {
      out := [Send(ServiceNotice, NoKeyboard)];
      db.LogAction(ErrorStat(userId, "analyze_error"), io.logOk);
      return;
    }
    var session := db.GetSession(userId);
    if session.None? || |session.value.messages| == 0 {
      out := [Send(NoMessagesNotice, NoKeyboard)];
      return;
    }
    out := AnalyzeRow(db, userId, session.value, io);
  }

  /** The /analyze path on a row with a non-empty buffer. */
  method AnalyzeRow(db: Store.SessionTable, userId: UserId, row: Session, io: Io) returns (out: seq<Outbound>)
    requires db.Valid()
    requires userId in db.rows && db.rows[userId] == row && row.messages != []
    modifies db
    ensures db.Valid()
    ensures db.rows == old(db.rows)[userId := row.(state := WaitingAction)]
    ensures out == [Send(AnalyzeReply(|row.messages|), ActionButtons)]
    ensures db.statistics == old(db.statistics)
              + Logged(io, Store.Stat(userId, "analyze_clicked", None, Some(|row.messages|), false))
  {
    var patch := Store.Patch(Some(WaitingAction), None, None, None);
    assert Store.ApplyPatch(row, patch) == row.(state := WaitingAction);
    var updated := db.UpdateSession(userId, patch);
    Store.ValidRowsUpdate(old(db.rows), userId, row.(state := WaitingAction));
    var count := |row.messages|;
    out := [Send(AnalyzeReply(count), ActionButtons)];
    db.LogAction(Store.Stat(userId, "analyze_clicked", None, Some(count), false), io.logOk);
  }

  /** handleClear: the row is deleted whether or not it existed; a store
      failure gives the notice and a clear_error row instead. */
  method HandleClear(db: Store.SessionTable, userId: UserId, io: Io) returns (out: seq<Outbound>)
    requires db.Valid()
    modifies db
    ensures db.Valid()
    ensures io.storeFault ==>
              && db.rows == old(db.rows)
              && out == [Send(ServiceNotice, NoKeyboard)]
              && db.statistics == old(db.statistics) + Logged(io, ErrorStat(userId, "clear_error"))
    ensures !io.storeFault ==>
              && db.rows == old(db.rows) - {userId}
              && out == [Send(ClearedNotice, NoKeyboard)]
              && db.statistics == old(db.statistics) + Logged(io, Store.Event(userId, "clear_command"))
  {
    if io.storeFault {
      out := [Send(ServiceNotice, NoKeyboard)];
      db.LogAction(ErrorStat(userId, "clear_error"), io.logOk);
      return;
    }
    db.DeleteSession(userId);
    Store.ValidRowsRemove(old(db.rows), userId);
    out := [Send(ClearedNotice, NoKeyboard)];
    db.LogAction(Store.Event(userId, "clear_command"), io.logOk);
  }

  /** handleHelp: the help text and a help_command row; the sessions table is
      not touched. */
  method HandleHelp(db: Store.SessionTable, userId: UserId, io: Io) returns (out: seq<Outbound>)
    modifies db`statistics
    ensures out == [Send(HelpText, NoKeyboard)]
    ensures db.statistics == old(db.statistics) + Logged(io, Store.Event(userId, "help_command"))
  {
    out := [Send(HelpText, NoKeyboard)];
    db.LogAction(Store.Event(userId, "help_command"), io.logOk);
  }
}
