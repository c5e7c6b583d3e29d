// Context assembly for the language model (src/processors/text.js): the
// instruction templates, the `[HH:MM] label: text` transcript of a buffer and
// the prompt that embeds both.
module Text {
  import opened Wrappers
  import opened Domain
  import opened Strings

  // ---------------------------------------------------------------------------
  // Instruction templates

  const SummaryKey: string := "summary"
  const FormalKey: string := "formal"
  const FriendlyKey: string := "friendly"

  const SummaryTemplate: string := "Кратко резюмируй переписку: что хотел собеседник, что ответил пользователь, что лучше ответить дальше"
  const FormalTemplate: string := "Помоги составить официальный ответ. Вежливый и профессиональный"
  const FriendlyTemplate: string := "Помоги составить дружеский ответ. Теплый и естественный"

  predicate IsTemplateKey(key: string)
  {
    key == SummaryKey || key == FormalKey || key == FriendlyKey
  }

  /** The own properties of INSTRUCTION_TEMPLATES. */
  function Template(key: string): (r: Option<string>)
    ensures r.Some? <==> IsTemplateKey(key)
  {
    if key == SummaryKey then Some(SummaryTemplate)
    else if key == FormalKey then Some(FormalTemplate)
    else if key == FriendlyKey then Some(FriendlyTemplate)
    else None
  }

  /** getInstruction: a template key resolves to its template, and anything
      else, including a user's own free-text request, is used verbatim. (The
      source's property lookup also reaches inherited object members; this is
      the intended behaviour, see GetInstructionAsWritten.) */
  function GetInstruction(key: string): (r: string)
    ensures key == SummaryKey ==> r == SummaryTemplate
    ensures key == FormalKey ==> r == FormalTemplate
    ensures key == FriendlyKey ==> r == FriendlyTemplate
    ensures !IsTemplateKey(key) ==> r == key
  {
    match Template(key)
    case Some(t) => t
    case None => key
  }

  /** No template text is itself a template key. */
  lemma TemplatesAreNotKeys()
    ensures !IsTemplateKey(SummaryTemplate)
    ensures !IsTemplateKey(FormalTemplate)
    ensures !IsTemplateKey(FriendlyTemplate)
  {
    assert |SummaryTemplate| > |FriendlyKey|;
    assert |FormalTemplate| > |FriendlyKey|;
    assert |FriendlyTemplate| > |FriendlyKey|;
  }

  /** Resolving a resolved instruction changes nothing: a template text passes
      through verbatim. */
  lemma GetInstructionIdempotent(key: string)
    ensures GetInstruction(GetInstruction(key)) == GetInstruction(key)
  {
    TemplatesAreNotKeys();
  }

  // ---------------------------------------------------------------------------
  // The property lookup as written: `INSTRUCTION_TEMPLATES[key] || key`

  /** The names every object literal inherits from Object.prototype. */
  predicate IsInheritedName(key: string)
  {
    || key == "constructor" || key == "toString" || key == "toLocaleString" || key == "valueOf"
    || key == "hasOwnProperty" || key == "isPrototypeOf" || key == "propertyIsEnumerable"
    || key == "__proto__" || key == "__defineGetter__" || key == "__defineSetter__"
    || key == "__lookupGetter__" || key == "__lookupSetter__"
  }

  const NativeBody: string := "() { [native code] }"

  /** How an inherited member reads once interpolated into the prompt: the
      member itself is truthy, so `||` returns it, and the template literal
      renders it through String(). */
  function InheritedRendering(key: string): string
  {
    if key == "__proto__" then "[object Object]"
    else if key == "constructor" then "function " + "Object" + NativeBody
    else "function " + key + NativeBody
  }

  /** getInstruction as written: the lookup is not restricted to own
      properties. */
  function GetInstructionAsWritten(key: string): (r: string)
    ensures IsTemplateKey(key) ==> r == GetInstruction(key)
    ensures !IsTemplateKey(key) && !IsInheritedName(key) ==> r == key
    ensures IsInheritedName(key) ==> r == InheritedRendering(key)
  {
    if IsTemplateKey(key) then GetInstruction(key)
    else if IsInheritedName(key) then InheritedRendering(key)
    else key
  }

  /** A user who types "toString" as a custom request does not get it passed
      through: the model is asked to do "function toString() { [native code] }". */
  lemma ToStringIsNotPassedThrough()
    ensures GetInstructionAsWritten("toString") == "function " + "toString" + NativeBody
    ensures GetInstructionAsWritten("toString") != "toString"
    ensures GetInstruction("toString") == "toString"
  {
    assert IsInheritedName("toString");
    assert !IsTemplateKey("toString");
    assert ("function " + "toString" + NativeBody)[0] == 'f';
  }

  // ---------------------------------------------------------------------------
  // Transcript

  const SecondsPerMinute: nat := 60
  const SecondsPerHour: nat := 3600

  function Hours(timestamp: int): (h: nat)
    ensures h < 24
  {
    (timestamp / SecondsPerHour) % 24
  }

  function Minutes(timestamp: int): (m: nat)
    ensures m < 60
  {
    (timestamp / SecondsPerMinute) % 60
  }

  /** formatTime on a Unix timestamp in seconds, read in UTC: `HH:MM` with both
      fields zero-padded. */
  function FormatTime(timestamp: int): (r: string)
    ensures |r| == 5 && r[2] == ':'
    ensures AllDigits(r[..2]) && AllDigits(r[3..])
  {
    var hh := Pad2(Hours(timestamp));
    var mm := Pad2(Minutes(timestamp));
    hh + ":" + mm
  }

  /** The hour field reads back as the hour of the day (00 to 23) and the
      minute field as the minute of the hour (00 to 59). */
  lemma FormatTimeFields(timestamp: int)
    ensures ParseDecimal(FormatTime(timestamp)[..2]) == Hours(timestamp) < 24
    ensures ParseDecimal(FormatTime(timestamp)[3..]) == Minutes(timestamp) < 60
  {
    var r := FormatTime(timestamp);
    Pad2Value(Hours(timestamp));
    Pad2Value(Minutes(timestamp));
    assert r[..2] == Pad2(Hours(timestamp));
    assert r[3..] == Pad2(Minutes(timestamp));
  }

  const UserLabel: string := "Ты"

  /** `msg.author.isUser ? 'Ты' : msg.author.name`. */
  function Label(a: Author): (r: string)
    ensures a.isUser ==> r == UserLabel
    ensures !a.isUser ==> r == a.name
  {
    if a.isUser then UserLabel else a.name
  }

  /** `[${time}] ${author}: `. */
  function Prefix(m: Item): string
  {
    "[" + FormatTime(m.timestamp) + "] " + Label(m.author) + ": "
  }

  /** One transcript line. */
  function Line(m: Item): string
  {
    Prefix(m) + m.text
  }

  /** `messages.map(...)`: one line per item, in buffer order. */
  function Lines(messages: seq<Item>): (r: seq<string>)
    ensures |r| == |messages|
    ensures forall i :: 0 <= i < |messages| ==> r[i] == Line(messages[i])
  {
    if messages == [] then [] else [Line(messages[0])] + Lines(messages[1..])
  }

  /** buildConversationString: the lines joined by newlines. */
  function BuildConversationString(messages: seq<Item>): (r: string)
    ensures messages == [] ==> r == ""
    ensures messages != [] ==> Line(messages[0]) <= r
    ensures |messages| == 1 ==> r == Line(messages[0])
  {
    var lines := Lines(messages);
    if lines == [] then ""
    else
      JoinStartsWithFirst(lines, "\n");
      Join(lines, "\n")
  }

  lemma LinesAppend(a: seq<Item>, b: seq<Item>)
    ensures Lines(a + b) == Lines(a) + Lines(b)
  {
    var l := Lines(a + b);
    var r := Lines(a) + Lines(b);
    forall i | 0 <= i < |l| ensures l[i] == r[i] {
      if i < |a| {
        assert (a + b)[i] == a[i];
      } else {
        assert (a + b)[i] == b[i - |a|];
      }
    }
  }

  /** The transcript of a buffer is the transcript of any split of it, joined by
      one newline: items keep their order and each contributes its own line. */
  lemma ConversationAppend(a: seq<Item>, b: seq<Item>)
    requires a != [] && b != []
    ensures BuildConversationString(a + b) == BuildConversationString(a) + "\n" + BuildConversationString(b)
  {
    LinesAppend(a, b);
    JoinAppend(Lines(a), Lines(b), "\n");
  }

  /** A one-item buffer is exactly that item's line; an empty one is empty. */
  lemma ConversationSmall(m: Item)
    ensures BuildConversationString([m]) == Line(m)
    ensures BuildConversationString([]) == ""
  {
  }

  function CountChar(s: string, c: char): nat
  {
    if s == [] then 0 else (if s[0] == c then 1 else 0) + CountChar(s[1..], c)
  }

  lemma {:induction false} CountCharAppend(a: string, b: string, c: char)
    ensures CountChar(a + b, c) == CountChar(a, c) + CountChar(b, c)
    decreases |a|
  {
    if a != [] {
      assert (a + b)[0] == a[0];
      assert (a + b)[1..] == a[1..] + b;
      CountCharAppend(a[1..], b, c);
      assert CountChar(a + b, c) == (if a[0] == c then 1 else 0) + CountChar(a[1..] + b, c);
    } else {
      assert a + b == b;
    }
  }

  lemma {:induction false} CountCharAbsent(s: string, c: char)
    requires c !in s
    ensures CountChar(s, c) == 0
    decreases |s|
  {
    if s != [] {
      CountCharAbsent(s[1..], c);
    }
  }

  /** A line breaks only where its label or text does. */
  lemma LineHasNoNewline(m: Item)
    requires '\n' !in Label(m.author) && '\n' !in m.text
    ensures '\n' !in Line(m)
  {
    var t := FormatTime(m.timestamp);
    assert forall i :: 0 <= i < |t| ==> t[i] != '\n' by {
      forall i | 0 <= i < |t| ensures t[i] != '\n' {
        if i < 2 { assert IsDigit(t[..2][i]); }
        else if i > 2 { assert IsDigit(t[3..][i - 3]); }
      }
    }
    assert Line(m) == "[" + t + "] " + Label(m.author) + ": " + m.text;
  }

  /** When no label and no text contains a newline, the transcript has exactly
      one line per buffered item. */
  lemma {:induction false} OneLinePerItem(messages: seq<Item>)
    requires messages != []
    requires forall i :: 0 <= i < |messages| ==> '\n' !in Label(messages[i].author) && '\n' !in messages[i].text
    ensures CountChar(BuildConversationString(messages), '\n') == |messages| - 1
    decreases |messages|
  {
    var m := messages[0];
    LineHasNoNewline(m);
    CountCharAbsent(Line(m), '\n');
    ConversationSmall(m);
    if |messages| == 1 {
      assert messages == [m];
    } else {
      var rest := messages[1..];
      assert forall i :: 0 <= i < |rest| ==> rest[i] == messages[i + 1];
      OneLinePerItem(rest);
      assert messages == [m] + rest;
      ConversationAppend([m], rest);
      CountCharAppend(Line(m) + "\n", BuildConversationString(rest), '\n');
      CountCharAppend(Line(m), "\n", '\n');
    }
  }

  // ---------------------------------------------------------------------------
  // Prompt

  const PromptHead: string := "Ты - ассистент для помощи в переписках." + "\n\n" + "КОНТЕКСТ ПЕРЕПИСКИ:" + "\n"
  const PromptMiddle: string := "\n\n" + "ВАЖНО: 'Ты' - это пользователь. Остальные - собеседники." + "\n\n" + "ЗАДАЧА: "

  /** The prompt template of processContext around a transcript and a resolved
      instruction. */
  function Prompt(conversation: string, instructionText: string): (r: string)
    ensures |r| == |PromptHead| + |conversation| + |PromptMiddle| + |instructionText|
    ensures r[..|PromptHead|] == PromptHead
    ensures r[|PromptHead|..|PromptHead| + |conversation|] == conversation
    ensures r[|PromptHead| + |conversation|..|r| - |instructionText|] == PromptMiddle
    ensures r[|r| - |instructionText|..] == instructionText
  {
    var r := PromptHead + conversation + PromptMiddle + instructionText;
    assert r == PromptHead + (conversation + (PromptMiddle + instructionText));
    r
  }

  /** The prompt processContext sends for a buffer and an instruction key. */
  function BuildPrompt(messages: seq<Item>, instruction: string): (r: string)
    ensures |r| == |PromptHead| + |BuildConversationString(messages)| + |PromptMiddle| + |GetInstruction(instruction)|
    ensures r[..|PromptHead|] == PromptHead
    ensures r[|PromptHead|..|PromptHead| + |BuildConversationString(messages)|] == BuildConversationString(messages)
    ensures r[|r| - |GetInstruction(instruction)|..] == GetInstruction(instruction)
  {
    Prompt(BuildConversationString(messages), GetInstruction(instruction))
  }

  /** The prompt determines both its transcript and its task: two prompts with
      transcripts of the same length are equal exactly when both parts are. */
  lemma PromptInjective(c1: string, i1: string, c2: string, i2: string)
    requires |c1| == |c2|
    requires Prompt(c1, i1) == Prompt(c2, i2)
    ensures c1 == c2 && i1 == i2
  {
    var p1 := Prompt(c1, i1);
    assert c1 == p1[|PromptHead|..|PromptHead| + |c1|];
    assert i1 == p1[|p1| - |i1|..];
  }
}
