# A verified model of the ai-dialog-bot session core

The bot collects messages that a Telegram user forwards to it into a per-user
session buffer. The buffer is a row in a Postgres `sessions` table. When the
user asks, the bot sends the buffer to a language model, together with a
chosen or free-text instruction. Images and voice notes go to the model as
multimodal parts.

This project models that core in Dafny:

- **Admission limits** (`Limits`, `limits.js`): at most 50 items, 5 images and
  7 voice notes per session, and voice notes of at most 60 seconds. The check
  short-circuits in a fixed order. `Limits` also holds the progress text.
- **The store** (`Store`, `db.js`): the two tables are fields of the class
  `Store.SessionTable`. `rows` is a map from user id to row, and `statistics`
  is an append-only log. Each method has the row-level effect of the SQL
  statement it runs.
  - The append re-sorts the whole buffer by timestamp.
  - `updateSession`'s statement builder is four `if` blocks in a row. Each
    block pushes one numbered placeholder assignment and its value. Executing
    the SET list against the values is proved equal to the field-wise update.
- **Transcript and prompt** (`Text`, `text.js`): the instruction templates,
  the `[HH:MM] label: text` transcript and the prompt template.
- **Multimodal content** (`Media`, `media.js`): the loop that turns a buffer
  into content parts, with every download supplied as an outcome. Also the
  choice between the plain request and the multimodal one. An inference call
  is recorded as a `Media.Query` (buffer, instruction key, download outcomes);
  the body it sends is `Media.RequestFor` of the query.
- **The commands** (`Commands`, `commands.js`): `/analyze`, `/clear` and
  `/help`.
- **The handlers** (`Handlers`, `handlers.js`): forwarded-message
  ingestion, free text, and button presses, as methods on the store.
  - Each state-changing handler is proved against a function of the old state
    (`Forwarded`, `Ingested`, `Considered`, `Admitted`).
  - Lemmas about those functions state the state-machine properties.
  - Every handler keeps the table invariant `SessionTable.Valid`: every
    stored buffer is within the limits and sorted by timestamp.

Telegram and the model service are outside the model. A handler returns the
list of outbound calls it makes (`Chat.Outbound`). All answers from the
outside world arrive in one `Chat.Io` record:

| `Chat.Io` field | what it supplies |
|---|---|
| `storeFault` | the handler's first store call throws |
| `logOk` | whether the statistics insert succeeds |
| `sentId` | the id of a sent message |
| `edit` | the outcome of an edit |
| `fetches` | the outcome of each media download |
| `completion` | the model's reply, or none when inference throws |

## Model

| member | source | states |
|---|---|---|
| Limits.OfKind | src/validators/limits.js:24-25 | The filter keeps only items of the kind, and is a sub-multiset of the buffer |
| Limits.OfKindMultiplicity | src/validators/limits.js:24-25 | The filter keeps every occurrence of every item of the kind and no other item |
| Limits.CountKind | src/validators/limits.js:24-25 | The count of a kind is at most the buffer length, and zero exactly when no item has that kind |
| Limits.SessionStats | src/validators/limits.js:20-27 | The total is the buffer length, and the image and voice counts are the per-kind counts; images plus voice never exceed it; a missing buffer gives all-zero stats |
| Limits.ImagesAndVoiceBounded | src/validators/limits.js:20-27 | Images plus voice notes never exceed the buffer length |
| Limits.CountKindAppend | src/validators/limits.js:24-25 | Per-kind counts add over concatenation |
| Limits.CountKindRemove | src/validators/limits.js:24-25 | Removing one item lowers its kind's count by one and leaves other kinds' counts alone |
| Limits.MultisetRemove | src/validators/limits.js:24-25 | Removing a shared element from two permutations of each other leaves permutations |
| Limits.CountKindPermutation | src/validators/limits.js:24-25 | Per-kind counts do not depend on the buffer order, so re-sorting does not change the stats |
| Limits.ValidateNewMessage | src/validators/limits.js:30-75 | Valid exactly when no limit code is set. A set code comes with its fixed message. Each code is given exactly when earlier checks pass and its own check fails, in the order total, images, voice count, voice duration |
| Limits.AdmittedIff | src/validators/limits.js:30-75 | Admission holds iff: fewer than 50 items; fewer than 5 images for an image; fewer than 7 voice notes and a duration of at most 60 s for a voice note |
| Limits.ValidationDependsOnlyOnStats | src/validators/limits.js:30-31 | The verdict depends only on the session stats, the candidate's kind and its duration |
| Limits.VoiceAtDurationLimitAdmitted | src/validators/limits.js:64-65 | A voice note of exactly 60 s, or with no duration, is not too long |
| Limits.AdmissionPreservesLimits | src/validators/limits.js:30-75 | Appending an admitted item to a buffer within the limits keeps it within the limits |
| Limits.WithinLimitsPermutation | src/validators/limits.js:20-27 | Being within the limits survives any reordering of the buffer |
| Limits.HintStartsWithNewline | src/validators/limits.js:96 | The /analyze hint starts on a new line |
| Limits.ProgressParts | src/validators/limits.js:80-90 | The total part always comes first; an image part only when there are images; a voice part, last, only when there are voice notes |
| Limits.NoNewlineInParts | src/validators/limits.js:82-90 | No progress part contains a newline |
| Limits.NoNewlineInDigits | src/validators/limits.js:82-90 | A decimal count contains no newline |
| Limits.FormatProgressMessage | src/validators/limits.js:78-100 | The text is the progress parts joined by ", ", followed by the hint exactly when the buffer is non-empty. It starts with the total part and contains a newline exactly when the buffer is non-empty |
| Limits.ProgressForEmptyBuffer | src/validators/limits.js:78-100 | For an empty buffer the text is the 0/50 total part alone |
| Limits.ProgressThreeWithOneImage | src/validators/limits.js:78-100 | Three items with one image give the total part, ", 1/5 images" and the hint |
| Strings.DigitValue | src/validators/limits.js:82 | A decimal digit's value is below 10, and the digit is the character for that value |
| Strings.NatToString | src/validators/limits.js:82 | The decimal rendering is non-empty and all digits. It has one digit exactly for values below 10 |
| Strings.ParseNatToString | src/validators/limits.js:82 | Reading the decimal rendering back gives the number |
| Strings.NatToStringInjective | src/validators/limits.js:82 | Different numbers render differently |
| Strings.Pad2 | src/processors/text.js:20-21 | `padStart(2, '0')` on a value below 100 gives two digits |
| Strings.Pad2Value | src/processors/text.js:20-21 | The two padded digits read back as the value |
| Strings.JoinAppend | src/validators/limits.js:92 | Joining a concatenation puts one separator between the two joins |
| Strings.JoinAvoids | src/validators/limits.js:92 | A character in neither the parts nor the separator is not in the join |
| Strings.JoinStartsWithFirst | src/validators/limits.js:92 | The join starts with the first part |
| Strings.Contains | src/handlers.js:163-165 | `includes` holds exactly when the needle occurs at some position |
| Store.InsertByTimestamp | src/services/db.js:186-188 | Inserting one item lengthens the buffer by one and adds exactly that item |
| Store.InsertKeepsSorted | src/services/db.js:187 | Inserting into a sorted buffer keeps it sorted |
| Store.SortByTimestamp | src/services/db.js:186-188 | The re-sort keeps length and contents (a permutation) and orders by timestamp |
| Store.Timestamps | src/services/db.js:187 | The timestamp projection has one entry per item, in order |
| Store.InsertLatest | src/services/db.js:187 | An item no earlier than every element is inserted at the end |
| Store.SortSortedIsIdentity | src/services/db.js:186-188 | Re-sorting a sorted buffer changes nothing |
| Store.AppendToSortedIsInsert | src/services/db.js:186-188 | On a sorted buffer, appending and re-sorting is inserting in order |
| Store.SortAppendLatest | src/services/db.js:186-188 | A latest item appended to a buffer the sort fixes stays at the end |
| Store.SortedInit | src/services/db.js:187 | A sorted buffer without its last element is sorted, and no element is later than the last |
| Store.OutOfOrderArrivalsEndSorted | src/services/db.js:182-200 | Items stamped 3, then 1, then 2, appended one at a time to an empty buffer, end in the order 1, 2, 3 |
| Store.FirstArrival | src/services/db.js:182-200 | The first append to an empty buffer gives the singleton |
| Store.SecondArrival | src/services/db.js:182-200 | An earlier second item goes in front |
| Store.ThirdArrival | src/services/db.js:182-200 | A third item stamped between the two lands between them |
| Store.ArrivalBetween | src/services/db.js:182-200 | In general, an item stamped between a sorted pair lands between them |
| Store.InsertBetween | src/services/db.js:187 | Inserting between a sorted pair gives the triple in order |
| Store.SortedRemoveAt | src/services/db.js:187 | Removing one element keeps a buffer sorted |
| Store.MoveToFrontKeepsTimestamps | src/services/db.js:187 | Moving an item of the leading equal-timestamp run to the front keeps the timestamp sequence |
| Store.SortedPermutationsShareTimestamps | src/services/db.js:187 | Any two sorted permutations of the same items have the same timestamp sequence, whatever the tie order |
| Store.ApplyPatch | src/services/db.js:141-156 | The row-level meaning of a partial update: each supplied field replaces the stored one |
| Store.ApplyPatchIdempotent | src/services/db.js:136-169 | Applying the same partial update twice equals applying it once |
| Store.EmptyPatchIsIdentity | src/services/db.js:136-169 | An update that supplies no field leaves the row as it was |
| Store.RenderAll | src/services/db.js:143-159 | Each assignment renders to one SET entry, in order |
| Store.ExecuteIgnoresLaterValues | src/services/db.js:138-163 | Values after the last referenced placeholder are never read by the SET list |
| Store.PushFieldEffect | src/services/db.js:142-157 | Pushing one numbered assignment and its value keeps the placeholders numbered, and the list now also sets that field |
| Store.PushClosing | src/services/db.js:159-160 | Appending `updated_at = NOW()` and the user id leaves the effect of the SET list unchanged |
| Store.PushField | src/services/db.js:142-157 | One `if (data.x !== undefined)` block advances paramIndex by one. The assignment and value lists stay in step, stay numbered, and now also set the field |
| Store.PushSupplied | src/services/db.js:138-157 | After the four blocks: one numbered placeholder per supplied field, paramIndex one past them, and the SET list realizes the partial update |
| Store.BuildUpdate | src/services/db.js:138-162 | The WHERE placeholder is one past the supplied fields and binds the last value, the user id. The SET list ends with `updated_at`. Executing it against the values is the field-wise update |
| Store.ValidRowsUpdate | src/services/db.js:182-200 | Storing a valid row keeps the table invariant |
| Store.ValidRowsRemove | src/services/db.js:172-179 | Deleting a row keeps the table invariant |
| Store.Overwrite | src/services/db.js:136-169 | A second write to a row replaces the first |
| Store.NewSessionValid | src/services/db.js:56-69 | A freshly created row is within the limits and sorted |
| Store.SessionTable.constructor | src/services/db.js:7-9 | A new store connection sees empty tables, and the invariant holds |
| Store.SessionTable.GetSession | src/services/db.js:42-53 | Returns the row exactly when the user has one; `null` otherwise |
| Store.SessionTable.CreateSession | src/services/db.js:56-69 | A second insert for the same user fails with the primary-key violation and changes nothing. Otherwise a fresh row is inserted |
| Store.SessionTable.EnsureSession | src/services/db.js:72-92 | The row is afterwards a fresh one in the given state, whether or not it existed |
| Store.SessionTable.ResetSession | src/services/db.js:95-109 | An existing row restarts in the given state. For an absent user nothing is matched and nothing is created |
| Store.SessionTable.GetOrCreateSession | src/services/db.js:112-133 | An existing row is returned untouched; otherwise a fresh row is inserted and returned |
| Store.SessionTable.UpdateSession | src/services/db.js:136-169 | The matched row takes exactly the supplied fields; no other row changes. An absent user leaves the table alone and yields no row |
| Store.SessionTable.DeleteSession | src/services/db.js:172-179 | Afterwards the user has no row, and nothing else changes |
| Store.SessionTable.AddMessageToSession | src/services/db.js:182-200 | The buffer becomes the old buffer plus the item, re-sorted by timestamp. Other fields and rows are unchanged. An absent user matches nothing |
| Store.SessionTable.LogAction | src/services/db.js:203-237 | Never fails. A successful insert appends exactly its row, a failed insert appends nothing, and the sessions table is untouched |
| Text.Template | src/processors/text.js:6-10 | The template table has exactly the three keys summary, formal and friendly |
| Text.GetInstruction | src/processors/text.js:13-15 | Each key resolves to its own template; any other string is passed through verbatim |
| Text.TemplatesAreNotKeys | src/processors/text.js:6-10 | No template text is itself a key |
| Text.GetInstructionIdempotent | src/processors/text.js:13-15 | Resolving a resolved instruction changes nothing |
| Text.GetInstructionAsWritten | src/processors/text.js:13-15 | The lookup as written: keys resolve, ordinary strings pass through, inherited Object.prototype names render as their member |
| Text.ToStringIsNotPassedThrough | src/processors/text.js:13-15 | As written, "toString" becomes "function toString() { [native code] }". The intended lookup passes it through |
| Text.Hours | src/processors/text.js:19-20 | The hour of the day is below 24 |
| Text.Minutes | src/processors/text.js:19-21 | The minute is below 60 |
| Text.FormatTime | src/processors/text.js:18-23 | Always five characters: two digits, a colon, two digits |
| Text.FormatTimeFields | src/processors/text.js:18-23 | The digits read back as the hour and the minute of the timestamp |
| Text.Label | src/processors/text.js:29 | The user's own items are labelled "Ты"; others carry the author's name |
| Text.Lines | src/processors/text.js:27-30 | One transcript line per item, in buffer order |
| Text.LinesAppend | src/processors/text.js:27-30 | The lines of a concatenation are the concatenated lines |
| Text.ConversationAppend | src/processors/text.js:26-32 | The transcript of two non-empty buffers is the two transcripts joined by one newline |
| Text.ConversationSmall | src/processors/text.js:26-32 | One item gives its line; an empty buffer gives "" |
| Text.CountCharAppend | src/processors/text.js:31 | Character counts add over concatenation |
| Text.CountCharAbsent | src/processors/text.js:31 | An absent character is counted zero times |
| Text.LineHasNoNewline | src/processors/text.js:28-30 | A line has no newline when its label and text have none |
| Text.OneLinePerItem | src/processors/text.js:26-32 | For items without newlines, the transcript has exactly one newline fewer than it has items |
| Text.BuildConversationString | src/processors/text.js:26-32 | An empty buffer gives "". Otherwise the transcript starts with the first item's line, and one item gives exactly its line |
| Text.BuildPrompt | src/processors/text.js:41-53 | The prompt opens with the fixed head, carries the transcript right after it and ends with the resolved instruction |
| Text.Prompt | src/processors/text.js:46-53 | The prompt is the head, then the transcript, then the middle, then the instruction, each at its fixed offset |
| Text.PromptInjective | src/processors/text.js:46-53 | Of two transcripts of equal length, the prompt recovers both transcript and instruction |
| Media.HasMedia | src/processors/media.js:92-94 | True exactly when some item is an image or voice note with a truthy file_id |
| Media.ItemParts | src/processors/media.js:24-78 | Per item: a downloaded image becomes `[HH:MM] label: [отправил изображение]` plus an image_url part with the data. A downloaded voice note becomes the voice caption plus a wav input_audio part. A failed download becomes its prefix with the image or voice placeholder. Anything else becomes its transcript line |
| Media.Blocks | src/processors/media.js:24-78 | One block of parts per item, each that item's parts |
| Media.PartsStep | src/processors/media.js:24-79 | One more item appends exactly its own parts |
| Media.PushItem | src/processors/media.js:25-78 | One loop iteration appends exactly the item's parts |
| Media.BuildMultimodalMessages | src/processors/media.js:21-82 | The parts are the item blocks in buffer order. A failed download never aborts the loop |
| Media.PartCount | src/processors/media.js:21-82 | Part count is plain items, plus twice the fetched media, plus the failed media |
| Media.WeightedLength | src/processors/media.js:21-82 | Blocks whose lengths are the items' weights concatenate to the weighted count |
| Media.KindsCover | src/processors/media.js:29-78 | Every item is exactly one of plain, fetched medium or failed medium |
| Media.PartCountAllFetched | src/processors/media.js:21-82 | When every download works: one part per plain item, two per media item |
| Media.MediaSplit | src/processors/media.js:32-74 | When every download works, no medium fails and the fetched count is the media count |
| Media.PrefixOfAppend | src/processors/media.js:31-77 | Pushing onto the list keeps what was already there as a prefix |
| Media.ConcatPrefix | src/processors/media.js:24-79 | The parts of fewer items are a prefix of the parts of more |
| Media.BlockInConcat | src/processors/media.js:24-79 | Block i sits in the whole list right after the blocks before it |
| Media.PartsPrefix | src/processors/media.js:24-79 | The parts of a shorter buffer prefix start the parts of a longer one |
| Media.OffsetMonotone | src/processors/media.js:24-79 | Item offsets grow along the buffer |
| Media.ItemBlock | src/processors/media.js:24-79 | Item i's parts are the slice between its offset and the next item's offset |
| Media.PartsInBufferOrder | src/processors/media.js:24-79 | Every item has at least one part, and an item's parts end before any later item's parts begin |
| Media.ConcatOrder | src/processors/media.js:24-79 | A non-empty block strictly advances the offset, and later offsets are no smaller |
| Media.BlockOfPrefix | src/processors/media.js:24-79 | A block pushed after a prefix sits right after it |
| Media.SingletonBlocks | src/processors/media.js:24-79 | One-part blocks concatenate to their parts, one per block |
| Media.NoMediaPartsAreTranscriptLines | src/processors/media.js:29-31 | Without downloadable media every part is a bare string, and the strings are the transcript lines, in order |
| Media.Trailer | src/processors/media.js:169 | The closing text part ends with the resolved instruction |
| Media.RequestFor | src/processors/media.js:87-170 | Plain exactly when no item has downloadable media. Plain: the plain system prompt and the text prompt. Multimodal: the multimodal system prompt, max_tokens 2000, and content made of the header, the item parts, and the trailer with the resolved instruction |
| Media.TrailerInjective | src/processors/media.js:169 | The trailer determines its instruction |
| Media.RequestDeterminesInstruction | src/processors/media.js:87-170 | For one buffer and one set of downloads, two instructions give the same request exactly when they resolve to the same text |
| Media.BuildRequest | src/processors/media.js:87-187 | The request is RequestFor of the inputs. Reports hasMedia exactly when some item is downloadable. Without media: the plain system prompt and the text prompt. With media: the multimodal system prompt, header + item parts + trailer, and max_tokens 2000 |
| Media.MultimodalContentShape | src/processors/media.js:166-170 | The multimodal content opens with the header, carries the item parts in the middle and closes with the resolved instruction |
| Chat.Logged | src/services/db.js:203-237 | A logAction call leaves at most one row: exactly its own row when the insert succeeds, none otherwise |
| Chat.ErrorStat | src/handlers.js:198-203 | An error row records the user, the action and the error flag |
| Domain.FileIdOf | src/processors/media.js:32 | A file id is present exactly for image or voice metadata with a non-empty id, and it is that id |
| Domain.DurationOf | src/validators/limits.js:64 | `metadata?.duration \|\| 0`: a voice note's recorded duration, and 0 when there is none |
| Chat.EditGone | src/handlers.js:163-165 | The three edit errors that mean the progress message is gone (no ensures; used by ProgressStep) |
| Chat.EditNotModified | src/handlers.js:180 | The edit error that is ignored (no ensures; used by ProgressStep) |
| Commands.AnalyzeReply | src/commands.js:20-22 | The reply embeds the buffer length in decimal at a fixed offset, and the count reads back |
| Commands.AnalyzeReplyInjective | src/commands.js:20-22 | Two buffer lengths give the same reply iff they are equal |
| Commands.HandleAnalyze | src/commands.js:5-48 | A store failure: the notice and an analyze_error row. No row or an empty buffer: "no messages", and nothing changes. Otherwise as AnalyzeRow. The invariant holds |
| Commands.AnalyzeRow | src/commands.js:17-42 | The row moves to waiting_action with its buffer untouched. The reply carries the count and the action buttons. One analyze_clicked row with the count |
| Commands.HandleClear | src/commands.js:51-68 | The row is deleted, the deletion confirmed, and a clear_command row logged. A store failure changes nothing but gives the notice and a clear_error row |
| Commands.HandleHelp | src/commands.js:71-109 | Sends the help text and logs help_command; the sessions table is untouched |
| Handlers.IsForwarded | src/handlers.js:28 | `!!msg.forward_date`: a forward date is present and non-zero (no ensures; used by HandleMessage) |
| Handlers.IsFreeText | src/handlers.js:211 | Text is present and does not start with "/" (no ensures; used by HandleMessage) |
| Handlers.OrUnknown | src/handlers.js:47 | `name \|\| 'Unknown'` is never empty, keeps a non-empty name, and turns an empty one into "Unknown" |
| Handlers.DetectAuthor | src/handlers.js:43-57 | The author is the user exactly when the message was forwarded from the user's own account. A hidden sender has no id. The name is the sender's name, or "Unknown" when the forwarded-from user has no first name or the hidden sender has no name |
| Handlers.Classify | src/handlers.js:66-115 | The first present kind wins; no kind present means skip. A photo keeps its last size's file data, and an empty size list throws. Only images and voice notes carry metadata; text keeps its text |
| Handlers.ItemOf | src/handlers.js:60-64 | The item carries the forward date as its timestamp, the detected author and the classified fields |
| Handlers.Prepared | src/handlers.js:35-40 | A collecting row is used as it is. Any other row, or none, is replaced by a fresh collecting row |
| Handlers.PreparedValid | src/handlers.js:35-40 | The prepared row is valid under the table invariant |
| Handlers.Grown | src/handlers.js:131 | The append adds exactly the item, keeps the buffer sorted and leaves the other fields alone |
| Handlers.GrownValid | src/handlers.js:118-131 | Appending an admitted item to a valid row gives a valid row |
| Handlers.PrepareSession | src/handlers.js:35-40 | Afterwards the user's row is the prepared row, and no other row changes |
| Handlers.HasProgressMessage | src/handlers.js:149 | `session.last_message_id` is truthy (no ensures; used by ProgressStep) |
| Handlers.ProgressStep | src/handlers.js:139-187 | Progress handling always makes at least one call |
| Handlers.ProgressRecovery | src/handlers.js:139-187 | No stored message: send one and store its id. Otherwise edit it. A vanished message is re-sent with the /analyze button and its id stored. "Not modified" is ignored. Any other edit error fails and keeps the stored id |
| Handlers.ProgressKeyboard | src/handlers.js:141-147 | The /analyze button appears exactly when the buffer is non-empty |
| Handlers.ReportProgress | src/handlers.js:139-187 | Makes ProgressStep's calls and stores its message id in the row. It fails exactly when ProgressStep fails |
| Handlers.AppendCandidate | src/handlers.js:131-134 | The row read back is the prepared row with the item merged in; the invariant holds |
| Handlers.Admitted | src/handlers.js:131-203 | On the admitted path the buffer is sorted in with the item. The calls start with ProgressStep's calls on the grown row, the stored id is ProgressStep's, and the error flag is set exactly when ProgressStep fails. A failure ends with the notice; otherwise forward_message is logged with the new length |
| Handlers.AdmittedOn | src/handlers.js:137-203 | After the append only the message id changes, to the one ProgressStep stores. The calls start with ProgressStep's calls, and the error flag is set exactly when it fails. A failed edit ends with the notice; otherwise forward_message with the buffer length |
| Handlers.AdmitCandidate | src/handlers.js:137-203 | The progress step on the row read back, then the statistics row, as AdmittedOn. The invariant holds |
| Handlers.Admit | src/handlers.js:130-203 | Append, read back and progress: the row, the calls and the statistics are AdmittedOn of the grown row |
| Handlers.Considered | src/handlers.js:117-203 | At most one statistics row, exactly when the log insert succeeds, for the sender. A rejected item leaves the row as it was |
| Handlers.Consider | src/handlers.js:117-203 | A rejected item is answered with the limit's message and logged as limit_exceeded with the code and length, and nothing is stored. An admitted item goes through Admit |
| Handlers.Ingested | src/handlers.js:59-203 | At most one statistics row, for the sender and only when the log insert succeeds. An unsupported message has no effect at all; only a candidate item can change the row |
| Handlers.Ingest | src/handlers.js:59-203 | Unsupported: nothing at all. An empty photo list: the notice and forward_error. Otherwise as Consider |
| Handlers.Forwarded | src/handlers.js:33-204 | At most one statistics row, for the sender. A store failure changes no row and sends the notice. Otherwise exactly the sender's row is added to the table's users |
| Handlers.HandleForwarded | src/handlers.js:33-204 | The net effect is Forwarded of the old table: the rows, the calls and the statistics. The table invariant holds |
| Handlers.ForwardedTouchesOnlySender | src/handlers.js:33-204 | Forwarded ingestion changes no row but the sender's |
| Handlers.ForwardedRowOutcome | src/handlers.js:33-204 | With a store failure nothing changes. Otherwise the sender's row exists and is collecting. A rejected or unsupported item leaves the prepared buffer. An admitted one adds exactly one item, sorted in |
| Handlers.RejectionIsReported | src/handlers.js:118-128 | A rejected item: exactly the limit's message, and a limit_exceeded row with the code and the buffer length |
| Handlers.ForwardedKeepsValid | src/handlers.js:33-204 | Forwarded ingestion keeps every buffer within the limits and sorted |
| Handlers.ConversationRowRestartsOnForward | src/handlers.js:35-40 | A text item forwarded onto a five-item conversation row restarts the buffer: the row is collecting and holds just that item |
| Handlers.ProcessContext | src/processors/media.js:87-195 | One inference call asked about this buffer, instruction and downloads. Its body is RequestFor of them: plain exactly when the buffer has no downloadable media, carrying the text prompt when plain. The result is the model's answer |
| Handlers.HandleFreeText | src/handlers.js:211-275 | No row: a hint. A collecting row: another hint. Otherwise one inference call on the row's buffer with the text as instruction. A reply sets the row to conversation and logs custom_request. Failed inference changes no row and gives the notice and message_error. Only the sender's row can change |
| Handlers.AnswerFreeText | src/handlers.js:231-275 | One inference call on the row's buffer with the text as instruction, then as DeliverFreeTextReply |
| Handlers.DeliverFreeTextReply | src/handlers.js:240-275 | A reply is sent with the regenerate button, the row moves to conversation with the text, and custom_request is logged. No reply: the notice and message_error, and no row changes |
| Handlers.HasInstruction | src/handlers.js:358 | `session.last_instruction` is truthy (no ensures; used by Regenerate) |
| Handlers.AnswerWithModel | src/handlers.js:313-345 | One inference call on the row's buffer with the given instruction, then on a reply: send it with the regenerate button, apply the state change, log and answer. Failed inference gives an alert and callback_error, and no row changes |
| Handlers.DeliverCallbackReply | src/handlers.js:319-345 | A reply is sent with the regenerate button, the state change applied, `stat` logged and the query answered. No reply: an alert and callback_error, and no row changes |
| Handlers.TemplateButton | src/handlers.js:312-345 | One inference call for the template key; on a reply the row moves to conversation with the key and button_<key> is logged |
| Handlers.ActionsDistinct | src/handlers.js:294-400 | The callback data "/analyze", "clear", "regenerate" and the template keys are pairwise different, so at most one action applies |
| Handlers.HandleCallback | src/handlers.js:279-414 | A store failure: an alert and callback_error. No row: the "session expired" alert and nothing else. Only the presser's row can change, and the invariant holds |
| Handlers.ClearButton | src/handlers.js:346-355 | Deletes the row, confirms, logs button_clear and answers the query |
| Handlers.Regenerate | src/handlers.js:356-400 | No stored instruction: an alert and nothing else. Otherwise one inference call for the stored instruction and a new reply, with the row unchanged, and a regenerate row |
| Handlers.HandleAction | src/handlers.js:294-400 | "/analyze": the command, then the answer. A template key: one inference call for the key, and the row moves to conversation with the key, and button_<key> is logged. "clear": delete. "regenerate": as Regenerate. Other data: nothing |
| Handlers.HandleMessage | src/handlers.js:26-276 | Forwarded messages go to ingestion, free text to the free-text branch; anything else does nothing. Only the sender's row changes |

## Left out

- The per-user promise queue (`processWithQueue`, src/handlers.js:7-23) and all concurrency: each handler is one atomic run against the tables.
- The Postgres pool, migrations, `query`, `logToDb` and `close` in src/services/db.js. The SQL text is modelled only for updateSession's statement builder; every other statement is modelled by its row-level effect.
- Failures of the Telegram calls themselves (sendMessage, answerCallbackQuery, editMessageText outside the handled cases) are not modelled. `sendChatAction` typing indicators are left out because their failures are swallowed. So `help_error` is never produced.
- Store failures: only the handler's first store call can throw (`Io.storeFault`). A fault in a later store call of the same run is not modelled.
- The statistics columns model_used, tokens_used, response_time_ms and error_message, and the JSON encoding of action_data. Model name, token usage and timing come from the outside world. The limit code is kept as a typed field.
- The clock and the time zone: formatTime reads timestamps in UTC, since the server's local zone is not part of the model.
- src/processors/vision.js, src/processors/voice.js, src/services/openrouter.js, src/services/telegram-media.js, src/services/telegram.js, src/logger.js, src/index.js and src/config.js are not part of this model. Downloads and inference are the `fetches` and `completion` fields of `Chat.Io`.
- media.js has its own copy of formatTime and of the plain-text prompt (src/processors/media.js:10-15, 99-113). Both are modelled once, by `Text.FormatTime` and `Text.Prompt`, because the text is identical.
- processContext in src/processors/text.js:35-89 is called by no handler. Its prompt is `Text.BuildPrompt`, and its request is the plain branch of `Media.BuildRequest`; it has no member of its own. Its model name (config.TEXT_MODEL) is not modelled.
- The model name in the request: `config.UNIFIED_MODEL` is read in src/processors/media.js:123 and 157, but src/config.js does not define it.
- Store.SortByTimestamp: Postgres leaves the order among equal timestamps open; the model keeps arrival order. `Store.SortedPermutationsShareTimestamps` shows every admissible order has the same timestamp sequence.
- Handlers.HandleCallback: its per-action outcomes are stated on `Handlers.HandleAction`, which it calls on the existing row. HandleCallback's own contract covers the store failure, the missing row and the frame.
- Handlers.HandleMessage: states the routing and the frame; each branch's outcome is stated on `Handlers.HandleForwarded` and `Handlers.HandleFreeText`.
- Handlers.Classify: a photo list reaching `msg.photo[length - 1]` with no sizes throws in the source. The model reports it as `Malformed` and takes the generic error path.
- Media.BuildRequest and the handlers resolve instructions with the corrected `Text.GetInstruction`. For an instruction that names an inherited Object.prototype member ("toString", "constructor", ...), the modelled request therefore carries the name itself, where the source carries the member's text (see Findings).
- Store.SessionTable.AddMessageToSession: the re-sort casts each timestamp with `(elem->>'timestamp')::int` (src/services/db.js:187), a 32-bit Postgres integer. A forward date of 2^31 or more makes the statement fail. The model orders by unbounded timestamps and does not model that failure.
- Telegram message fields the handlers do not read, and the real structure of the inline keyboards, are abstracted: keyboards are the named `Chat.Keyboard` shapes.

## Findings

| source | as written | input that shows it | evidently intended | confidence | as-written member | corrected member |
|---|---|---|---|---|---|---|
| src/processors/text.js:13-15 | `INSTRUCTION_TEMPLATES[key] \|\| key` looks the key up on an ordinary object literal, so inherited Object.prototype members are found too | a free-text request "toString" (or "constructor", "valueOf", ...) becomes "function toString() { [native code] }" in the prompt | only the three template keys resolve; every other instruction is used verbatim | not executed | Text.GetInstructionAsWritten, Text.ToStringIsNotPassedThrough | Text.GetInstruction |
