// Admission control for the session buffer (src/validators/limits.js): the
// derived counters, the short-circuiting limit check and the progress text.
module Limits {
  import opened Wrappers
  import opened Domain
  import opened Strings

  const MaxMessagesPerSession: nat := 50
  const MaxImagesPerSession: nat := 5
  const MaxVoicePerSession: nat := 7
  const MaxVoiceDurationSeconds: int := 60

  /** The `limitType` codes: max_messages, max_images, max_voice, voice_too_long. */
  datatype LimitType = MaxMessages | MaxImages | MaxVoice | VoiceTooLong

  const ErrMaxMessages: string := "⚠️ Достигнут лимит: максимум 50 сообщений в одной сессии.\nИспользуй /clear чтобы начать новую сессию."
  const ErrMaxImages: string := "⚠️ Достигнут лимит: максимум 5 изображений в одной сессии.\nИспользуй /clear чтобы начать новую сессию."
  const ErrMaxVoice: string := "⚠️ Достигнут лимит: максимум 7 голосовых сообщений в одной сессии.\nИспользуй /clear чтобы начать новую сессию."
  const ErrVoiceTooLong: string := "⚠️ Голосовое сообщение слишком длинное.\nМаксимальная длительность: 1 минута (60 секунд)."

  /** The user-facing text that goes with each limit code. */
  function ErrorMessage(l: LimitType): string
  {
    match l
    case MaxMessages => ErrMaxMessages
    case MaxImages => ErrMaxImages
    case MaxVoice => ErrMaxVoice
    case VoiceTooLong => ErrVoiceTooLong
  }

  // ---------------------------------------------------------------------------
  // Session statistics

  datatype Stats = Stats(totalMessages: nat, imagesCount: nat, voiceCount: nat)

  /** `messages.filter(m => m.type === k)`. */
  function OfKind(s: seq<Item>, k: Kind): (r: seq<Item>)
    ensures |r| <= |s|
    ensures forall i :: 0 <= i < |r| ==> r[i].kind == k
    ensures multiset(r) <= multiset(s)
  {
    if s == [] then []
    else
      assert s == [s[0]] + s[1..];
      (if s[0].kind == k then [s[0]] else []) + OfKind(s[1..], k)
  }

  /** The filter keeps every occurrence of an item of kind `k` and nothing else. */
  lemma {:induction false} OfKindMultiplicity(s: seq<Item>, k: Kind)
    ensures forall x :: multiset(OfKind(s, k))[x] == if x.kind == k then multiset(s)[x] else 0
  {
    if s != [] {
      assert s == [s[0]] + s[1..];
      OfKindMultiplicity(s[1..], k);
    }
  }

  /** `messages.filter(m => m.type === k).length`. */
  function CountKind(s: seq<Item>, k: Kind): (n: nat)
    ensures n <= |s|
    ensures n == 0 <==> forall i :: 0 <= i < |s| ==> s[i].kind != k
  {
    var r := OfKind(s, k);
    OfKindMultiplicity(s, k);
    if r != [] then
      assert multiset(r)[r[0]] > 0;
      |r|
    else
      assert forall i :: 0 <= i < |s| ==> multiset(s)[s[i]] > 0;
      |r|
  }

  /** `session.messages || []`: a missing buffer reads as an empty one. */
  function Buffer(messages: Option<seq<Item>>): seq<Item>
  {
    if messages.Some? then messages.value else []
  }

  /** getSessionStats. */
  function SessionStats(messages: Option<seq<Item>>): (st: Stats)
    ensures st.totalMessages == |Buffer(messages)|
    ensures st.imagesCount + st.voiceCount <= st.totalMessages
    ensures messages.None? ==> st == Stats(0, 0, 0)
    ensures st.imagesCount == CountKind(Buffer(messages), Image)
    ensures st.voiceCount == CountKind(Buffer(messages), Voice)
  {
    var s := Buffer(messages);
    ImagesAndVoiceBounded(s);
    Stats(|s|, CountKind(s, Image), CountKind(s, Voice))
  }

  /** Images and voice notes are disjoint parts of the buffer. */
  lemma {:induction false} ImagesAndVoiceBounded(s: seq<Item>)
    ensures CountKind(s, Image) + CountKind(s, Voice) <= |s|
  {
    if s != [] {
      ImagesAndVoiceBounded(s[1..]);
    }
  }

  /** Counting is additive over concatenation. */
  lemma {:induction false} CountKindAppend(a: seq<Item>, b: seq<Item>, k: Kind)
    ensures CountKind(a + b, k) == CountKind(a, k) + CountKind(b, k)
  {
    if a == [] {
      assert a + b == b;
    } else {
      assert (a + b)[0] == a[0];
      assert (a + b)[1..] == a[1..] + b;
      CountKindAppend(a[1..], b, k);
    }
  }

  /** Taking one element out of a sequence takes its kind out of the count. */
  lemma CountKindRemove(b: seq<Item>, j: nat, k: Kind)
    requires j < |b|
    ensures CountKind(b, k) == CountKind(b[..j] + b[j + 1..], k) + (if b[j].kind == k then 1 else 0)
  {
    assert b == b[..j] + ([b[j]] + b[j + 1..]);
    CountKindAppend(b[..j], [b[j]] + b[j + 1..], k);
    CountKindAppend([b[j]], b[j + 1..], k);
    CountKindAppend(b[..j], b[j + 1..], k);
    assert [b[j]][1..] == [];
  }

  lemma MultisetRemove(a: seq<Item>, b: seq<Item>, j: nat)
    requires a != [] && j < |b| && b[j] == a[0]
    requires multiset(a) == multiset(b)
    ensures multiset(a[1..]) == multiset(b[..j] + b[j + 1..])
  {
    assert b == b[..j] + [b[j]] + b[j + 1..];
    assert a == [a[0]] + a[1..];
    calc {
      multiset(a[1..]);
      multiset(a) - multiset{a[0]};
      multiset(b) - multiset{b[j]};
      multiset(b[..j]) + multiset(b[j + 1..]);
      multiset(b[..j] + b[j + 1..]);
    }
  }

  /** Counting depends only on the multiset of items, not on their order. */
  lemma {:induction false} CountKindPermutation(a: seq<Item>, b: seq<Item>, k: Kind)
    requires multiset(a) == multiset(b)
    ensures CountKind(a, k) == CountKind(b, k)
    decreases |a|
  {
    if a != [] {
      assert a[0] in multiset(b);
      var j :| 0 <= j < |b| && b[j] == a[0];
      MultisetRemove(a, b, j);
      CountKindPermutation(a[1..], b[..j] + b[j + 1..], k);
      CountKindRemove(b, j, k);
    } else {
      assert |b| == |multiset(b)| == 0;
    }
  }

  // ---------------------------------------------------------------------------
  // Validation

  /** The record validateNewMessage returns. */
  datatype Validation = Validation(valid: bool, error: Option<string>, limitType: Option<LimitType>)

  /** validateNewMessage: the checks run in a fixed order and the first failing
      one decides the limit code. */
  function ValidateNewMessage(messages: Option<seq<Item>>, candidate: Item): (v: Validation)
    ensures v.valid <==> v.limitType.None?
    ensures v.valid <==> v.error.None?
    ensures v.limitType.Some? ==> v.error == Some(ErrorMessage(v.limitType.value))
    ensures v.limitType == Some(MaxMessages) <==> SessionStats(messages).totalMessages >= MaxMessagesPerSession
    ensures v.limitType == Some(MaxImages) <==>
              SessionStats(messages).totalMessages < MaxMessagesPerSession && candidate.kind == Image &&
              SessionStats(messages).imagesCount >= MaxImagesPerSession
    ensures v.limitType == Some(MaxVoice) <==>
              SessionStats(messages).totalMessages < MaxMessagesPerSession && candidate.kind == Voice &&
              SessionStats(messages).voiceCount >= MaxVoicePerSession
    ensures v.limitType == Some(VoiceTooLong) <==>
              SessionStats(messages).totalMessages < MaxMessagesPerSession && candidate.kind == Voice &&
              SessionStats(messages).voiceCount < MaxVoicePerSession &&
              DurationOf(candidate.metadata) > MaxVoiceDurationSeconds
  {
    var stats := SessionStats(messages);
    if stats.totalMessages >= MaxMessagesPerSession then
      Validation(false, Some(ErrMaxMessages), Some(MaxMessages))
    else if candidate.kind == Image && stats.imagesCount >= MaxImagesPerSession then
      Validation(false, Some(ErrMaxImages), Some(MaxImages))
    else if candidate.kind == Voice && stats.voiceCount >= MaxVoicePerSession then
      Validation(false, Some(ErrMaxVoice), Some(MaxVoice))
    else if candidate.kind == Voice && DurationOf(candidate.metadata) > MaxVoiceDurationSeconds then
      Validation(false, Some(ErrVoiceTooLong), Some(VoiceTooLong))
    else
      Validation(true, None, None)
  }

  /** The admission condition written as one formula: below the total limit,
      and below the per-kind limit (and within the duration) for images and
      voice notes. */
  lemma AdmittedIff(messages: Option<seq<Item>>, candidate: Item)
    ensures ValidateNewMessage(messages, candidate).valid <==>
              && |Buffer(messages)| < MaxMessagesPerSession
              && (candidate.kind == Image ==> CountKind(Buffer(messages), Image) < MaxImagesPerSession)
              && (candidate.kind == Voice ==> CountKind(Buffer(messages), Voice) < MaxVoicePerSession
                                              && DurationOf(candidate.metadata) <= MaxVoiceDurationSeconds)
  {
  }

  /** Validation sees only the three counters and the candidate's type and
      duration; it reads nothing else. */
  lemma ValidationDependsOnlyOnStats(m1: Option<seq<Item>>, c1: Item, m2: Option<seq<Item>>, c2: Item)
    requires SessionStats(m1) == SessionStats(m2)
    requires c1.kind == c2.kind && DurationOf(c1.metadata) == DurationOf(c2.metadata)
    ensures ValidateNewMessage(m1, c1) == ValidateNewMessage(m2, c2)
  {
  }

  /** A voice note of exactly the maximum duration, or without a duration, is
      admitted when the counters allow it. */
  lemma VoiceAtDurationLimitAdmitted(messages: Option<seq<Item>>, candidate: Item)
    requires candidate.kind == Voice
    requires candidate.metadata.VoiceMeta?
    requires candidate.metadata.duration == Some(60) || candidate.metadata.duration.None?
    requires SessionStats(messages).totalMessages < MaxMessagesPerSession
    requires SessionStats(messages).voiceCount < MaxVoicePerSession
    ensures ValidateNewMessage(messages, candidate).valid
  {
  }

  // ---------------------------------------------------------------------------
  // The buffer invariant

  /** The three bounds every stored buffer keeps. */
  predicate WithinLimits(s: seq<Item>)
  {
    && |s| <= MaxMessagesPerSession
    && CountKind(s, Image) <= MaxImagesPerSession
    && CountKind(s, Voice) <= MaxVoicePerSession
  }

  /** Appending an admitted candidate keeps every bound. */
  lemma AdmissionPreservesLimits(s: seq<Item>, candidate: Item)
    requires WithinLimits(s)
    requires ValidateNewMessage(Some(s), candidate).valid
    ensures WithinLimits(s + [candidate])
  {
    CountKindAppend(s, [candidate], Image);
    CountKindAppend(s, [candidate], Voice);
    assert [candidate][1..] == [];
  }

  /** The bounds do not depend on the order of the buffer. */
  lemma WithinLimitsPermutation(a: seq<Item>, b: seq<Item>)
    requires multiset(a) == multiset(b)
    requires WithinLimits(a)
    ensures WithinLimits(b)
  {
    CountKindPermutation(a, b, Image);
    CountKindPermutation(a, b, Voice);
    assert |a| == |multiset(a)| == |multiset(b)| == |b|;
  }

  // ---------------------------------------------------------------------------
  // Progress text

  const AnalyzeHint: string := "\n" + "💡 Используй /analyze чтобы выбрать действие или ввести свой запрос"

  lemma HintStartsWithNewline()
    ensures |AnalyzeHint| >= 1 && AnalyzeHint[0] == '\n'
  {
  }

  function TotalFragment(n: nat): string
  {
    "📝 Накоплено: " + NatToString(n) + "/50 сообщений"
  }

  function ImagesFragment(n: nat): string
  {
    NatToString(n) + "/5 изображений"
  }

  function VoiceFragment(n: nat): string
  {
    NatToString(n) + "/7 голосовых"
  }

  /** The `parts` list formatProgressMessage joins: the total always, then the
      image and voice counters only when they are non-zero. */
  function ProgressParts(st: Stats): (parts: seq<string>)
    ensures |parts| == 1 + (if st.imagesCount > 0 then 1 else 0) + (if st.voiceCount > 0 then 1 else 0)
    ensures parts[0] == TotalFragment(st.totalMessages)
    ensures st.imagesCount > 0 ==> parts[1] == ImagesFragment(st.imagesCount)
    ensures st.voiceCount > 0 ==> parts[|parts| - 1] == VoiceFragment(st.voiceCount)
  {
    [TotalFragment(st.totalMessages)]
    + (if st.imagesCount > 0 then [ImagesFragment(st.imagesCount)] else [])
    + (if st.voiceCount > 0 then [VoiceFragment(st.voiceCount)] else [])
  }

  lemma NoNewlineInDigits(s: string)
    requires AllDigits(s)
    ensures '\n' !in s
  {
  }

  lemma NoNewlineInParts(st: Stats)
    ensures forall i :: 0 <= i < |ProgressParts(st)| ==> '\n' !in ProgressParts(st)[i]
  {
    NoNewlineInDigits(NatToString(st.totalMessages));
    NoNewlineInDigits(NatToString(st.imagesCount));
    NoNewlineInDigits(NatToString(st.voiceCount));
    assert '\n' !in "📝 Накоплено: ";
    assert '\n' !in "/50 сообщений";
    assert '\n' !in "/5 изображений";
    assert '\n' !in "/7 голосовых";
  }

  /** formatProgressMessage. */
  function FormatProgressMessage(messages: Option<seq<Item>>): (r: string)
    ensures TotalFragment(SessionStats(messages).totalMessages) <= r
    ensures '\n' in r <==> SessionStats(messages).totalMessages >= 1
    ensures SessionStats(messages).totalMessages >= 1 ==>
              |r| >= |AnalyzeHint| && r[|r| - |AnalyzeHint|..] == AnalyzeHint
    ensures r == Join(ProgressParts(SessionStats(messages)), ", ") +
                 (if SessionStats(messages).totalMessages >= 1 then AnalyzeHint else "")
  {
    var stats := SessionStats(messages);
    var parts := ProgressParts(stats);
    var result := Join(parts, ", ");
    NoNewlineInParts(stats);
    JoinAvoids(parts, ", ", '\n');
    JoinStartsWithFirst(parts, ", ");
    HintStartsWithNewline();
    if stats.totalMessages >= 1 then
      assert (result + AnalyzeHint)[|result|] == '\n';
      result + AnalyzeHint
    else
      result
  }

  /** An empty buffer shows the bare total and no hint. */
  lemma ProgressForEmptyBuffer()
    ensures FormatProgressMessage(Some([])) == "📝 Накоплено: " + "0" + "/50 сообщений"
  {
    assert NatToString(0) == "0";
  }

  /** Three items of which one is an image: the total, the image counter, no
      voice counter, and the hint. */
  lemma ProgressThreeWithOneImage(s: seq<Item>)
    requires SessionStats(Some(s)) == Stats(3, 1, 0)
    ensures FormatProgressMessage(Some(s)) ==
              "📝 Накоплено: " + "3" + "/50 сообщений" + ", " + "1" + "/5 изображений" + AnalyzeHint
  {
    var st := SessionStats(Some(s));
    assert NatToString(3) == "3";
    assert NatToString(1) == "1";
    var parts := ProgressParts(st);
    assert parts == [TotalFragment(3), ImagesFragment(1)];
    assert Join(parts, ", ") == TotalFragment(3) + ", " + ImagesFragment(1);
  }
}
