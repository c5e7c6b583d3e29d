// Multimodal context assembly (src/processors/media.js): the content parts built
// from a buffer, with every media download supplied as an outcome, and the
// choice between the plain-text request and the multimodal one.
module Media {
  import opened Wrappers
  import opened Domain
  import opened Strings
  import Text

  /** One element of `parts`: a bare string, or one of the typed parts. */
  datatype Part =
    | Str(s: string)
    | TextPart(text: string)
    | ImageUrl(url: string)
    | InputAudio(data: string, format: string)

  /** What the download of one item's file gave: its base64 data, or an error. */
  datatype FetchOutcome = Fetched(data: string) | FetchFailed

  /** The outcome for item i; an item past the supplied outcomes fails. */
  function FetchAt(fetches: seq<FetchOutcome>, i: nat): FetchOutcome
  {
    if i < |fetches| then fetches[i] else FetchFailed
  }

  /** An image or voice item with a truthy file_id: the items whose file is
      downloaded. */
  predicate Resolvable(m: Item)
  {
    (m.kind == Image || m.kind == Voice) && FileIdOf(m.metadata).Some?
  }

  /** `messages.some(...)`: does the buffer hold any downloadable media? */
  function HasMedia(messages: seq<Item>): (r: bool)
    ensures r <==> exists i :: 0 <= i < |messages| && Resolvable(messages[i])
  {
    if messages == [] then false
    else if Resolvable(messages[0]) then true
    else
      assert forall i :: 1 <= i < |messages| ==> messages[i] == messages[1..][i - 1];
      HasMedia(messages[1..])
  }

  const ImageCaption: string := "[отправил изображение]"
  const VoiceCaption: string := "[отправил голосовое сообщение]"
  const ImagePlaceholder: string := "[Изображение - не удалось загрузить]"
  const VoicePlaceholder: string := "[Голосовое сообщение - не удалось загрузить]"
  const AudioFormat: string := "wav"

  /** The parts one loop iteration pushes for an item. */
  function ItemParts(m: Item, fetch: FetchOutcome): (r: seq<Part>)
    ensures |r| == if Resolvable(m) && fetch.Fetched? then 2 else 1
    ensures !Resolvable(m) ==> r == [Str(Text.Line(m))]
    ensures Resolvable(m) && fetch.FetchFailed? && m.kind == Image ==> r == [Str(Text.Prefix(m) + ImagePlaceholder)]
    ensures Resolvable(m) && fetch.FetchFailed? && m.kind == Voice ==> r == [Str(Text.Prefix(m) + VoicePlaceholder)]
    ensures Resolvable(m) && fetch.Fetched? && m.kind == Image ==>
              r == [TextPart(Text.Prefix(m) + ImageCaption), ImageUrl(fetch.data)]
    ensures Resolvable(m) && fetch.Fetched? && m.kind == Voice ==>
              r == [TextPart(Text.Prefix(m) + VoiceCaption), InputAudio(fetch.data, AudioFormat)]
  {
    var prefix := Text.Prefix(m);
    if m.kind == Text then [Str(prefix + m.text)]
    else if m.kind == Image && FileIdOf(m.metadata).Some? then
      match fetch
      case Fetched(data) => [TextPart(prefix + ImageCaption), ImageUrl(data)]
      case FetchFailed => [Str(prefix + ImagePlaceholder)]
    else if m.kind == Voice && FileIdOf(m.metadata).Some? then
      match fetch
      case Fetched(data) => [TextPart(prefix + VoiceCaption), InputAudio(data, AudioFormat)]
      case FetchFailed => [Str(prefix + VoicePlaceholder)]
    else [Str(prefix + m.text)]
  }

  /** The parts each item pushes, item by item. */
  function Blocks(messages: seq<Item>, fetches: seq<FetchOutcome>): (b: seq<seq<Part>>)
    ensures |b| == |messages|
    ensures forall i :: 0 <= i < |messages| ==> b[i] == ItemParts(messages[i], FetchAt(fetches, i))
  {
    seq(|messages|, i requires 0 <= i < |messages| => ItemParts(messages[i], FetchAt(fetches, i)))
  }

  /** The first n blocks, one after the other. */
  function Concat(blocks: seq<seq<Part>>, n: nat): seq<Part>
    requires n <= |blocks|
  {
    if n == 0 then [] else Concat(blocks, n - 1) + blocks[n - 1]
  }

  /** The parts of the first n items, in buffer order. */
  function PartsUpTo(messages: seq<Item>, fetches: seq<FetchOutcome>, n: nat): seq<Part>
    requires n <= |messages|
  {
    Concat(Blocks(messages, fetches), n)
  }

  /** One more item appends its own parts. */
  lemma PartsStep(messages: seq<Item>, fetches: seq<FetchOutcome>, n: nat)
    requires n < |messages|
    ensures PartsUpTo(messages, fetches, n + 1)
              == PartsUpTo(messages, fetches, n) + ItemParts(messages[n], FetchAt(fetches, n))
  {
    var b := Blocks(messages, fetches);
    assert Concat(b, n + 1) == Concat(b, n) + b[n];
  }

  /** buildMultimodalMessages: one pass over the buffer pushing each item's
      parts. A failed download never aborts the loop. */
  method BuildMultimodalMessages(messages: seq<Item>, fetches: seq<FetchOutcome>) returns (parts: seq<Part>)
    ensures parts == PartsUpTo(messages, fetches, |messages|)
  {
    parts := [];
    var i := 0;
    while i < |messages|
      invariant 0 <= i <= |messages|
      invariant parts == PartsUpTo(messages, fetches, i)
    {
      parts := PushItem(parts, messages[i], FetchAt(fetches, i));
      PartsStep(messages, fetches, i);
      i := i + 1;
    }
  }

  /** The body of the loop for one item: its caption or text, then its media
      part when the download worked. */
  method PushItem(before: seq<Part>, m: Item, fetch: FetchOutcome) returns (parts: seq<Part>)
    ensures parts == before + ItemParts(m, fetch)
  {
    parts := before;
    var prefix := Text.Prefix(m);
    if m.kind == Text {
      parts := parts + [Str(prefix + m.text)];
    } else if m.kind == Image && FileIdOf(m.metadata).Some? {
      match fetch
      case Fetched(data) =>
        parts := parts + [TextPart(prefix + ImageCaption)];
        parts := parts + [ImageUrl(data)];
      case FetchFailed =>
        parts := parts + [Str(prefix + ImagePlaceholder)];
    } else if m.kind == Voice && FileIdOf(m.metadata).Some? {
      match fetch
      case Fetched(data) =>
        parts := parts + [TextPart(prefix + VoiceCaption)];
        parts := parts + [InputAudio(data, AudioFormat)];
      case FetchFailed =>
        parts := parts + [Str(prefix + VoicePlaceholder)];
    } else {
      parts := parts + [Str(prefix + m.text)];
    }
  }

  // ---------------------------------------------------------------------------
  // Counting and ordering the parts

  /** Items among the first n with a downloadable file whose download worked. */
  function FetchedCount(messages: seq<Item>, fetches: seq<FetchOutcome>, n: nat): nat
    requires n <= |messages|
  {
    if n == 0 then 0
    else FetchedCount(messages, fetches, n - 1)
         + (if Resolvable(messages[n - 1]) && FetchAt(fetches, n - 1).Fetched? then 1 else 0)
  }

  /** Items among the first n with a downloadable file whose download failed. */
  function FailedCount(messages: seq<Item>, fetches: seq<FetchOutcome>, n: nat): nat
    requires n <= |messages|
  {
    if n == 0 then 0
    else FailedCount(messages, fetches, n - 1)
         + (if Resolvable(messages[n - 1]) && FetchAt(fetches, n - 1).FetchFailed? then 1 else 0)
  }

  /** Items among the first n without a downloadable file. */
  function PlainCount(messages: seq<Item>, n: nat): nat
    requires n <= |messages|
  {
    if n == 0 then 0 else PlainCount(messages, n - 1) + (if Resolvable(messages[n - 1]) then 0 else 1)
  }

  /** How many parts an item pushes. */
  function Weight(m: Item, fetch: FetchOutcome): nat
  {
    if Resolvable(m) && fetch.Fetched? then 2 else 1
  }

  /** Part count = plain items + 2 x fetched media + failed media. */
  lemma PartCount(messages: seq<Item>, fetches: seq<FetchOutcome>, n: nat)
    requires n <= |messages|
    ensures |PartsUpTo(messages, fetches, n)|
              == PlainCount(messages, n) + 2 * FetchedCount(messages, fetches, n) + FailedCount(messages, fetches, n)
  {
    var b := Blocks(messages, fetches);
    forall i | 0 <= i < n ensures |b[i]| == Weight(messages[i], FetchAt(fetches, i)) {
      assert b[i] == ItemParts(messages[i], FetchAt(fetches, i));
    }
    WeightedLength(b, messages, fetches, n);
  }

  /** Blocks as long as their items' weights concatenate to the weighted count. */
  lemma {:induction false} WeightedLength(blocks: seq<seq<Part>>, messages: seq<Item>, fetches: seq<FetchOutcome>, n: nat)
    requires n <= |blocks| && n <= |messages|
    requires forall i :: 0 <= i < n ==> |blocks[i]| == Weight(messages[i], FetchAt(fetches, i))
    ensures |Concat(blocks, n)|
              == PlainCount(messages, n) + 2 * FetchedCount(messages, fetches, n) + FailedCount(messages, fetches, n)
  {
    if n > 0 {
      WeightedLength(blocks, messages, fetches, n - 1);
      assert Concat(blocks, n) == Concat(blocks, n - 1) + blocks[n - 1];
    }
  }

  /** Every item is plain, fetched media or failed media. */
  lemma {:induction false} KindsCover(messages: seq<Item>, fetches: seq<FetchOutcome>, n: nat)
    requires n <= |messages|
    ensures PlainCount(messages, n) + FetchedCount(messages, fetches, n) + FailedCount(messages, fetches, n) == n
  {
    if n > 0 {
      KindsCover(messages, fetches, n - 1);
    }
  }

  /** Items among the first n with a downloadable file. */
  function MediaCount(messages: seq<Item>, n: nat): nat
    requires n <= |messages|
  {
    if n == 0 then 0 else MediaCount(messages, n - 1) + (if Resolvable(messages[n - 1]) then 1 else 0)
  }

  /** When every download works, the buffer yields one part per plain item and
      two per media item. */
  lemma {:induction false} PartCountAllFetched(messages: seq<Item>, fetches: seq<FetchOutcome>, n: nat)
    requires n <= |messages|
    requires forall i :: 0 <= i < n && Resolvable(messages[i]) ==> FetchAt(fetches, i).Fetched?
    ensures |PartsUpTo(messages, fetches, n)| == (n - MediaCount(messages, n)) + 2 * MediaCount(messages, n)
  {
    PartCount(messages, fetches, n);
    MediaSplit(messages, fetches, n);
  }

  lemma {:induction false} MediaSplit(messages: seq<Item>, fetches: seq<FetchOutcome>, n: nat)
    requires n <= |messages|
    requires forall i :: 0 <= i < n && Resolvable(messages[i]) ==> FetchAt(fetches, i).Fetched?
    ensures FetchedCount(messages, fetches, n) == MediaCount(messages, n)
    ensures FailedCount(messages, fetches, n) == 0
    ensures PlainCount(messages, n) == n - MediaCount(messages, n)
  {
    if n > 0 {
      MediaSplit(messages, fetches, n - 1);
    }
  }

  /** A prefix of a list is a prefix of the list with anything appended. */
  lemma PrefixOfAppend(c: seq<Part>, a: seq<Part>, block: seq<Part>)
    requires c <= a
    ensures c <= a + block
  {
    assert (a + block)[..|c|] == a[..|c|];
  }

  /** Fewer blocks concatenated start more blocks concatenated. */
  lemma {:induction false} ConcatPrefix(blocks: seq<seq<Part>>, m: nat, n: nat)
    requires m <= n <= |blocks|
    ensures Concat(blocks, m) <= Concat(blocks, n)
    decreases n - m
  {
    if m < n {
      ConcatPrefix(blocks, m, n - 1);
      PrefixOfAppend(Concat(blocks, m), Concat(blocks, n - 1), blocks[n - 1]);
    }
  }

  /** Block i sits in the whole concatenation right after the blocks before it. */
  lemma BlockInConcat(blocks: seq<seq<Part>>, i: nat)
    requires i < |blocks|
    ensures |Concat(blocks, i + 1)| == |Concat(blocks, i)| + |blocks[i]|
    ensures |Concat(blocks, i + 1)| <= |Concat(blocks, |blocks|)|
    ensures Concat(blocks, |blocks|)[|Concat(blocks, i)|..|Concat(blocks, i + 1)|] == blocks[i]
  {
    ConcatPrefix(blocks, i + 1, |blocks|);
    BlockOfPrefix(Concat(blocks, |blocks|), Concat(blocks, i), blocks[i]);
  }

  /** The parts of a shorter prefix start the parts of a longer one. */
  lemma PartsPrefix(messages: seq<Item>, fetches: seq<FetchOutcome>, m: nat, n: nat)
    requires m <= n <= |messages|
    ensures PartsUpTo(messages, fetches, m) <= PartsUpTo(messages, fetches, n)
  {
    ConcatPrefix(Blocks(messages, fetches), m, n);
  }

  /** Where the parts of item i begin. */
  function Offset(messages: seq<Item>, fetches: seq<FetchOutcome>, i: nat): nat
    requires i <= |messages|
  {
    |PartsUpTo(messages, fetches, i)|
  }

  /** Offsets only grow along the buffer. */
  lemma OffsetMonotone(messages: seq<Item>, fetches: seq<FetchOutcome>, i: nat, j: nat)
    requires i <= j <= |messages|
    ensures Offset(messages, fetches, i) <= Offset(messages, fetches, j)
  {
    PartsPrefix(messages, fetches, i, j);
  }

  /** Item i's parts sit, as one block, between Offset(i) and Offset(i + 1) of
      the whole list. */
  lemma ItemBlock(messages: seq<Item>, fetches: seq<FetchOutcome>, i: nat)
    requires i < |messages|
    ensures Offset(messages, fetches, i + 1) <= Offset(messages, fetches, |messages|)
    ensures Offset(messages, fetches, i + 1) == Offset(messages, fetches, i) + |ItemParts(messages[i], FetchAt(fetches, i))|
    ensures PartsUpTo(messages, fetches, |messages|)[Offset(messages, fetches, i)..Offset(messages, fetches, i + 1)]
              == ItemParts(messages[i], FetchAt(fetches, i))
  {
    var b := Blocks(messages, fetches);
    BlockInConcat(b, i);
    assert b[i] == ItemParts(messages[i], FetchAt(fetches, i));
  }

  /** Parts keep buffer order: the block of item i ends before the block of
      any later item j begins. */
  lemma PartsInBufferOrder(messages: seq<Item>, fetches: seq<FetchOutcome>, i: nat, j: nat)
    requires i < j < |messages|
    ensures Offset(messages, fetches, i) < Offset(messages, fetches, i + 1) <= Offset(messages, fetches, j)
  {
    var b := Blocks(messages, fetches);
    assert |b[i]| >= 1 by {
      assert b[i] == ItemParts(messages[i], FetchAt(fetches, i));
    }
    ConcatOrder(b, i, j);
  }

  /** With a non-empty block i, the blocks before i end before the blocks up
      to i do, and those end no later than the blocks before any later j. */
  lemma ConcatOrder(blocks: seq<seq<Part>>, i: nat, j: nat)
    requires i < j <= |blocks| && |blocks[i]| >= 1
    ensures |Concat(blocks, i)| < |Concat(blocks, i + 1)| <= |Concat(blocks, j)|
  {
    assert Concat(blocks, i + 1) == Concat(blocks, i) + blocks[i];
    ConcatPrefix(blocks, i + 1, j);
  }

  /** A block appended to make a prefix of `all` sits in `all` right after
      what preceded it. */
  lemma BlockOfPrefix(all: seq<Part>, before: seq<Part>, block: seq<Part>)
    requires before + block <= all
    ensures |before| + |block| <= |all|
    ensures all[|before|..|before| + |block|] == block
  {
    assert all[..|before| + |block|] == before + block;
    assert (before + block)[|before|..] == block;
  }

  /** Blocks of one part each concatenate to their parts, one per block. */
  lemma {:induction false} SingletonBlocks(blocks: seq<seq<Part>>, n: nat)
    requires n <= |blocks|
    requires forall i :: 0 <= i < n ==> |blocks[i]| == 1
    ensures |Concat(blocks, n)| == n
    ensures forall i :: 0 <= i < n ==> Concat(blocks, n)[i] == blocks[i][0]
  {
    if n > 0 {
      SingletonBlocks(blocks, n - 1);
      assert Concat(blocks, n) == Concat(blocks, n - 1) + blocks[n - 1];
    }
  }

  /** Without downloadable media every part is a bare string, and the strings
      are exactly the transcript lines of text.js, in order. */
  lemma {:induction false} NoMediaPartsAreTranscriptLines(messages: seq<Item>, fetches: seq<FetchOutcome>, n: nat)
    requires n <= |messages|
    requires forall i :: 0 <= i < n ==> !Resolvable(messages[i])
    ensures |PartsUpTo(messages, fetches, n)| == n
    ensures forall i :: 0 <= i < n ==> PartsUpTo(messages, fetches, n)[i] == Str(Text.Lines(messages)[i])
  {
    var b := Blocks(messages, fetches);
    forall i | 0 <= i < n ensures b[i] == [Str(Text.Lines(messages)[i])] {
      assert b[i] == ItemParts(messages[i], FetchAt(fetches, i));
    }
    SingletonBlocks(b, n);
  }

  // ---------------------------------------------------------------------------
  // The request processMultimodalContext sends

  const PlainSystem: string := "Ты помогаешь в переписках"
  const MultimodalSystem: string := PlainSystem + ". " + "Анализируй весь контекст: текст, изображения и голосовые сообщения."
  const ContextHeader: string := "КОНТЕКСТ ПЕРЕПИСКИ:"
  const MultimodalMaxTokens: nat := 2000

  /** The closing text part, with the resolved instruction at its end. */
  function Trailer(instructionText: string): (r: string)
    ensures |r| == |Text.PromptMiddle| + |instructionText|
    ensures r[|r| - |instructionText|..] == instructionText
  {
    Text.PromptMiddle + instructionText
  }

  /** The chat-completion request: system prompt and user prompt for a buffer
      without media, or system prompt, typed content parts and a token cap. The
      model name is not part of the model. */
  datatype Request =
    | PlainRequest(system: string, prompt: string)
    | MultimodalRequest(system: string, content: seq<Part>, maxTokens: nat)

  /** What one chat completion is asked about: the buffer, the instruction key
      and the outcome of each download. The body sent for it is
      `RequestFor(messages, instruction, fetches)`. */
  datatype Query = Query(messages: seq<Item>, instruction: string, fetches: seq<FetchOutcome>)

  /** The request processMultimodalContext sends for a buffer, an instruction
      key and the outcomes of the downloads: the plain prompt when no item has
      a downloadable file, the header, item parts and trailer otherwise. */
  function RequestFor(messages: seq<Item>, instruction: string, fetches: seq<FetchOutcome>): (r: Request)
    ensures r.PlainRequest? <==> !HasMedia(messages)
    ensures r.PlainRequest? ==> r.system == PlainSystem && r.prompt == Text.BuildPrompt(messages, instruction)
    ensures r.MultimodalRequest? ==> r.system == MultimodalSystem && r.maxTokens == MultimodalMaxTokens
    ensures r.MultimodalRequest? ==>
              |r.content| == |PartsUpTo(messages, fetches, |messages|)| + 2
              && r.content[0] == TextPart(ContextHeader)
              && r.content[1..|r.content| - 1] == PartsUpTo(messages, fetches, |messages|)
              && r.content[|r.content| - 1] == TextPart(Trailer(Text.GetInstruction(instruction)))
  {
    if !HasMedia(messages) then
      PlainRequest(PlainSystem, Text.BuildPrompt(messages, instruction))
    else
      var parts := PartsUpTo(messages, fetches, |messages|);
      var content := [TextPart(ContextHeader)] + parts + [TextPart(Trailer(Text.GetInstruction(instruction)))];
      assert content[1..|content| - 1] == parts;
      MultimodalRequest(MultimodalSystem, content, MultimodalMaxTokens)
  }

  /** The trailer determines the instruction it closes with. */
  lemma TrailerInjective(a: string, b: string)
    requires Trailer(a) == Trailer(b)
    ensures a == b
  {
    assert a == Trailer(a)[|Text.PromptMiddle|..];
    assert b == Trailer(b)[|Text.PromptMiddle|..];
  }

  /** For one buffer and one set of downloads, the request determines the
      resolved instruction: two instructions give the same request exactly
      when they resolve to the same text. */
  lemma RequestDeterminesInstruction(messages: seq<Item>, fetches: seq<FetchOutcome>, i1: string, i2: string)
    ensures RequestFor(messages, i1, fetches) == RequestFor(messages, i2, fetches)
            <==> Text.GetInstruction(i1) == Text.GetInstruction(i2)
  {
    var r1 := RequestFor(messages, i1, fetches);
    var r2 := RequestFor(messages, i2, fetches);
    if r1 == r2 {
      if r1.PlainRequest? {
        var c := Text.BuildConversationString(messages);
        Text.PromptInjective(c, Text.GetInstruction(i1), c, Text.GetInstruction(i2));
      } else {
        assert r1.content[|r1.content| - 1] == r2.content[|r2.content| - 1];
        TrailerInjective(Text.GetInstruction(i1), Text.GetInstruction(i2));
      }
    }
  }

  /** processMultimodalContext up to the network call: the request, and the
      `metadata.hasMedia` flag it reports. */
  method BuildRequest(messages: seq<Item>, instruction: string, fetches: seq<FetchOutcome>)
    returns (request: Request, hasMedia: bool)
    ensures request == RequestFor(messages, instruction, fetches)
    ensures hasMedia <==> exists i :: 0 <= i < |messages| && Resolvable(messages[i])
    ensures !hasMedia ==> request == PlainRequest(PlainSystem, Text.BuildPrompt(messages, instruction))
    ensures hasMedia ==> request.MultimodalRequest? && request.system == MultimodalSystem
    ensures hasMedia ==> request.maxTokens == MultimodalMaxTokens
    ensures hasMedia ==>
              request.content == [TextPart(ContextHeader)] + PartsUpTo(messages, fetches, |messages|)
                                 + [TextPart(Trailer(Text.GetInstruction(instruction)))]
  {
    hasMedia := HasMedia(messages);
    if !hasMedia {
      var conversationText := Text.BuildConversationString(messages);
      var instructionText := Text.GetInstruction(instruction);
      request := PlainRequest(PlainSystem, Text.Prompt(conversationText, instructionText));
      return;
    }
    var contentParts := BuildMultimodalMessages(messages, fetches);
    var instructionText := Text.GetInstruction(instruction);
    request := MultimodalRequest(
      MultimodalSystem,
      [TextPart(ContextHeader)] + contentParts + [TextPart(Trailer(instructionText))],
      MultimodalMaxTokens);
  }

  /** The multimodal content opens with the header, closes with the trailer
      holding the resolved instruction, and carries the item parts in between. */
  lemma MultimodalContentShape(messages: seq<Item>, fetches: seq<FetchOutcome>, instruction: string)
    ensures var content := [TextPart(ContextHeader)] + PartsUpTo(messages, fetches, |messages|)
                           + [TextPart(Trailer(Text.GetInstruction(instruction)))];
            && content[0] == TextPart(ContextHeader)
            && content[1..|content| - 1] == PartsUpTo(messages, fetches, |messages|)
            && content[|content| - 1].TextPart?
            && content[|content| - 1].text[|content[|content| - 1].text| - |Text.GetInstruction(instruction)|..]
               == Text.GetInstruction(instruction)
  {
    var content := [TextPart(ContextHeader)] + PartsUpTo(messages, fetches, |messages|)
                   + [TextPart(Trailer(Text.GetInstruction(instruction)))];
    assert content[1..|content| - 1] == PartsUpTo(messages, fetches, |messages|);
  }
}
