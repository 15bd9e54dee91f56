/**
 * The reply generator: the system prompt, the outbound message list, the canned
 * fallback lines and the decision between the provider's text and a fallback.
 * The provider call itself is not modelled; its outcome is a parameter.
 */
module Echo {
  import opened Types

  // ---------------------------------------------------------------------------
  // Whitespace trimming (String.prototype.trim over ASCII white space)

  /** Tab, line feed, vertical tab, form feed, carriage return and space. */
  predicate IsSpace(c: char) {
    c == ' ' || c == '\t' || c == '\n' || c == '\r' || c == '\U{000B}' || c == '\U{000C}'
  }

  /** Every character of s in [lo, hi) is white space. */
  predicate SpaceRun(s: string, lo: nat, hi: nat)
    requires lo <= hi <= |s|
  {
    forall i :: lo <= i < hi ==> IsSpace(s[i])
  }

  /** The first position at or after i that does not hold white space (|s| if none). */
  function SkipSpaces(s: string, i: nat): (k: nat)
    requires i <= |s|
    ensures i <= k <= |s| && SpaceRun(s, i, k)
    ensures k < |s| ==> !IsSpace(s[k])
    decreases |s| - i
  {
    if i == |s| || !IsSpace(s[i]) then i else SkipSpaces(s, i + 1)
  }

  /** The end of the text before the white space that runs up to position j. */
  function SkipSpacesBack(s: string, j: nat): (k: nat)
    requires j <= |s|
    ensures k <= j && SpaceRun(s, k, j)
    ensures k > 0 ==> !IsSpace(s[k - 1])
  {
    if j == 0 || !IsSpace(s[j - 1]) then j else SkipSpacesBack(s, j - 1)
  }

  /**
   * The text with white space removed from both ends: a slice of the input whose two
   * cut-off ends are all white space and which neither begins nor ends with white space.
   */
  function Trim(s: string): (r: string)
    ensures exists i, j :: 0 <= i <= j <= |s| && r == s[i..j] && SpaceRun(s, 0, i) && SpaceRun(s, j, |s|)
    ensures r != [] ==> !IsSpace(r[0]) && !IsSpace(r[|r| - 1])
    ensures r == [] <==> SpaceRun(s, 0, |s|)
  {
    var i := SkipSpaces(s, 0);
    var j := if i == |s| then i else SkipSpacesBack(s, |s|);
    assert i < |s| ==> !IsSpace(s[i]);
    s[i..j]
  }

  /** Trimming twice trims nothing more. */
  lemma TrimIdempotent(s: string)
    ensures Trim(Trim(s)) == Trim(s)
  {
    var t := Trim(s);
    if t != [] {
      assert SkipSpaces(t, 0) == 0;
      assert SkipSpacesBack(t, |t|) == |t|;
      assert t[0..|t|] == t;
    }
  }

  // ---------------------------------------------------------------------------
  // System prompt (buildSystemPrompt)

  const PersonaBase: string :=
    "You are Rebound AI — a calm, emotionally intelligent listener who helps users heal from heartbreak. Speak with warmth and insight, never judging."
  const WhatIfSentence: string :=
    " You guide users through 'what-if' scenarios, imagining alternate timelines with empathy and creativity."
  const ClosureSentence: string :=
    " Help them process loss, regret, and forgiveness. Keep your tone gentle and grounded."
  const ConfidenceSentence: string :=
    " You rebuild confidence and self-love through uplifting, motivating tone."

  /** The summary sentence; the summary appears in it verbatim, between quotes. */
  function SummarySentence(summary: string): string {
    " The user's situation summary: \"" + summary + "\". Use this as emotional context."
  }

  /** The stage sentence, naming the stage. */
  function StageSentence(stage: string): string {
    " The current emotional stage is " + stage + ". Adjust your tone accordingly."
  }

  /** JavaScript truthiness of an optional string: present and non-empty. */
  predicate Truthy(s: Option<string>) {
    s.Some? && s.value != ""
  }

  predicate IsWhatIfMode(mode: string) { mode == "alt_future" || mode == "alternate" }
  predicate IsClosureMode(mode: string) { mode == "closure" }
  predicate IsConfidenceMode(mode: string) { mode == "rebound" || mode == "supportive" }

  /** No mode passes two of the three mode tests. */
  lemma ModeTestsExclusive(mode: string)
    ensures !(IsWhatIfMode(mode) && IsClosureMode(mode))
    ensures !(IsWhatIfMode(mode) && IsConfidenceMode(mode))
    ensures !(IsClosureMode(mode) && IsConfidenceMode(mode))
  {
    if IsWhatIfMode(mode) {
      assert mode[0] == 'a';
    } else if IsClosureMode(mode) {
      assert mode[0] == 'c';
    }
  }

  /**
   * The three mode tests of buildSystemPrompt, each appending its sentence
   * independently; since the tests exclude each other, at most one sentence,
   * the one ModeSentence names, is appended.
   */
  function WithModeSentences(base: string, mode: string): (r: string)
    ensures r == base + ModeSentence(mode)
  {
    ModeTestsExclusive(mode);
    AppendEmpty(base);
    var b1 := if IsWhatIfMode(mode) then base + WhatIfSentence else base;
    var b2 := if IsClosureMode(mode) then b1 + ClosureSentence else b1;
    var b3 := if IsConfidenceMode(mode) then b2 + ConfidenceSentence else b2;
    b3
  }

  /**
   * buildSystemPrompt, one conditional append after another, as the source
   * writes it. The prompt is the persona sentence, then at most one mode
   * sentence, then the summary segment, then the stage segment.
   */
  function BuildSystemPrompt(stage: string, summary: Option<string>, mode: string): (p: string)
    ensures p == PersonaBase + ModeSentence(mode) + SummaryPart(summary) + StagePart(stage)
  {
    var b1 := WithModeSentences(PersonaBase, mode);
    AppendEmpty(b1);
    var b2 := if Truthy(summary) then b1 + SummarySentence(summary.value) else b1;
    AppendEmpty(b2);
    var b3 := if stage != "" then b2 + StageSentence(stage) else b2;
    b3
  }

  /** The modes that add a sentence of their own. */
  const PromptModes: set<string> := {"alt_future", "alternate", "closure", "rebound", "supportive"}

  /** The one mode sentence a mode adds: the mode tests exclude each other. */
  function ModeSentence(mode: string): string {
    if IsWhatIfMode(mode) then WhatIfSentence
    else if IsClosureMode(mode) then ClosureSentence
    else if IsConfidenceMode(mode) then ConfidenceSentence
    else ""
  }

  /**
   * The mode sentences by mode: "alt_future" and "alternate" share the what-if
   * sentence, "rebound" and "supportive" the confidence sentence, and any other
   * mode adds none.
   */
  lemma ModeSentenceTable(mode: string)
    ensures mode in {"alt_future", "alternate"} ==> ModeSentence(mode) == WhatIfSentence
    ensures mode in {"rebound", "supportive"} ==> ModeSentence(mode) == ConfidenceSentence
    ensures mode == "closure" ==> ModeSentence(mode) == ClosureSentence
    ensures mode !in PromptModes ==> ModeSentence(mode) == ""
  {
    ModeTestsExclusive(mode);
  }

  /** The summary segment: present exactly when the summary is truthy. */
  function SummaryPart(summary: Option<string>): string {
    if Truthy(summary) then SummarySentence(summary.value) else ""
  }

  /** The stage segment: present exactly when the stage is non-empty. */
  function StagePart(stage: string): string {
    if stage != "" then StageSentence(stage) else ""
  }

  lemma AppendEmpty(a: string)
    ensures a + "" == a
  {
  }

  /** Regrouping a concatenation of four strings. */
  lemma ConcatAssoc(a: string, b: string, c: string, d: string)
    ensures a + b + c + d == a + (b + c + d)
  {
  }

  /** Slicing a concatenation of three strings. */
  lemma SliceOfConcat(a: string, b: string, c: string)
    ensures (a + b + c)[..|a|] == a
    ensures (a + b + c)[|a|..|a| + |b|] == b
    ensures (a + b + c)[|a| + |b|..] == c
  {
  }

  /** The prompt always begins with the persona sentence. */
  lemma PromptStartsWithPersona(stage: string, summary: Option<string>, mode: string)
    ensures var p := BuildSystemPrompt(stage, summary, mode);
      |p| >= |PersonaBase| && p[..|PersonaBase|] == PersonaBase
  {
    ConcatAssoc(PersonaBase, ModeSentence(mode), SummaryPart(summary), StagePart(stage));
    SliceOfConcat(PersonaBase, ModeSentence(mode) + SummaryPart(summary) + StagePart(stage), "");
  }

  /** A truthy summary is quoted right after the mode sentence; otherwise nothing sits there. */
  lemma PromptQuotesSummary(stage: string, summary: Option<string>, mode: string)
    ensures var p := BuildSystemPrompt(stage, summary, mode);
      var k := |PersonaBase| + |ModeSentence(mode)|;
      && k + |SummaryPart(summary)| <= |p|
      && p[k..k + |SummaryPart(summary)|] == SummaryPart(summary)
      && (Truthy(summary) ==> SummaryPart(summary) == SummarySentence(summary.value))
      && (!Truthy(summary) ==> |p| == k + |StagePart(stage)|)
  {
    SliceOfConcat(PersonaBase + ModeSentence(mode), SummaryPart(summary), StagePart(stage));
  }

  /** A non-empty stage's sentence closes the prompt; an empty stage adds nothing. */
  lemma PromptEndsWithStage(stage: string, summary: Option<string>, mode: string)
    ensures var p := BuildSystemPrompt(stage, summary, mode);
      var k := |PersonaBase| + |ModeSentence(mode)| + |SummaryPart(summary)|;
      && k <= |p|
      && p[k..] == StagePart(stage)
      && (stage != "" ==> StagePart(stage) == StageSentence(stage))
      && (stage == "" ==> |p| == k)
  {
    SliceOfConcat(PersonaBase + ModeSentence(mode), SummaryPart(summary), StagePart(stage));
  }

  // ---------------------------------------------------------------------------
  // Fallback lines (randomFallback)

  const ClosureFallbacks: seq<string> := [
    "It’s okay — you’ve come a long way. What’s still lingering on your mind?",
    "You don’t have to rush closure. Sometimes it comes in quiet waves.",
    "I’m here. Tell me what you wish they’d understood."
  ]
  const AlternateFallbacks: seq<string> := [
    "In another timeline, maybe this played out differently… want to imagine it?",
    "Let’s rewrite this story together. Where does it start?",
    "What would have happened if you’d said something else that day?"
  ]
  const SupportiveFallbacks: seq<string> := [
    "You’re doing better than you think — let’s keep going.",
    "Even the strongest people need to talk. I’m listening.",
    "Healing doesn’t mean forgetting — it means forgiving yourself."
  ]
  const ReboundFallbacks: seq<string> := [
    "You’re allowed to start again. What do you want to build next?",
    "Energy attracts energy. You’re glowing more than you realize.",
    "This is your comeback arc — and I’m here for it."
  ]

  /** The keys of the fallback table. */
  const FallbackModes: set<string> := {"closure", "alternate", "supportive", "rebound"}

  /** The fallback table entry for a mode, if the mode is one of its keys. */
  function FallbackTable(mode: string): (entry: Option<seq<string>>)
    ensures entry.Some? <==> mode in FallbackModes
  {
    match mode
    case "closure" => Some(ClosureFallbacks)
    case "alternate" => Some(AlternateFallbacks)
    case "supportive" => Some(SupportiveFallbacks)
    case "rebound" => Some(ReboundFallbacks)
    case _ => None
  }

  /** The mode's fallback lines, or the closure lines when the mode has no entry. */
  function FallbackList(mode: string): (list: seq<string>)
    ensures mode in FallbackModes ==> Some(list) == FallbackTable(mode)
    ensures mode !in FallbackModes ==> list == ClosureFallbacks
  {
    FallbackTable(mode).GetOr(ClosureFallbacks)
  }

  /** Every fallback list is non-empty and holds only non-empty lines. */
  lemma FallbackListsNonEmpty(mode: string)
    ensures |FallbackList(mode)| > 0
    ensures forall k :: 0 <= k < |FallbackList(mode)| ==> FallbackList(mode)[k] != ""
  {
  }

  /** The floor of r * n, for a draw r in [0, 1): a valid index into n elements. */
  function FloorIndex(r: real, n: nat): (i: nat)
    requires 0.0 <= r < 1.0 && n > 0
    ensures i < n
    ensures i as real <= r * n as real < i as real + 1.0
  {
    ScaledDrawBounds(r, n as real);
    FloorBelow(r * n as real, n)
  }

  /** The floor of a real in [0, n) is an index below n. */
  function FloorBelow(x: real, n: nat): (i: nat)
    requires 0.0 <= x < n as real
    ensures i < n
    ensures i as real <= x < i as real + 1.0
  {
    x.Floor
  }

  /** Scaling a draw in [0, 1) by a positive n lands in [0, n). */
  lemma ScaledDrawBounds(r: real, n: real)
    requires 0.0 <= r < 1.0 && n > 0.0
    ensures 0.0 <= r * n < n
  {
    var gap := 1.0 - r;
    assert gap > 0.0;
    assert gap * n > 0.0;
    assert r * n == n - gap * n;
  }

  /** randomFallback, with the draw of Math.random as the parameter r. */
  function RandomFallback(mode: string, r: real): (line: string)
    requires 0.0 <= r < 1.0
    ensures line in FallbackList(mode)
    ensures line != ""
  {
    FallbackListsNonEmpty(mode);
    var list := FallbackList(mode);
    list[FloorIndex(r, |list|)]
  }

  /** Every line of the mode's list is drawn for some r, namely k / n. */
  lemma EveryFallbackReachable(mode: string, k: nat)
    requires k < |FallbackList(mode)|
    ensures var r := k as real / |FallbackList(mode)| as real;
      0.0 <= r < 1.0 && RandomFallback(mode, r) == FallbackList(mode)[k]
  {
    var n := |FallbackList(mode)|;
    var r := k as real / n as real;
    assert r * n as real == k as real;
    assert FloorIndex(r, n) == k;
  }

  // ---------------------------------------------------------------------------
  // Outbound messages

  /** The roles the provider accepts. */
  datatype ApiRole = SystemRole | UserRole | AssistantRole

  datatype ApiMsg = ApiMsg(role: ApiRole, content: string)

  function ApiRoleOf(role: Role): ApiRole {
    match role
    case User => UserRole
    case Assistant => AssistantRole
  }

  /** Each message copied to the provider's shape: the same role and content. */
  function ToApi(ms: seq<ChatMsg>): (out: seq<ApiMsg>)
    ensures |out| == |ms|
    ensures forall i :: 0 <= i < |ms| ==> out[i] == ApiMsg(ApiRoleOf(ms[i].role), ms[i].content)
  {
    if ms == [] then [] else [ApiMsg(ApiRoleOf(ms[0].role), ms[0].content)] + ToApi(ms[1..])
  }

  /** The chat messages in an outbound list: the system message dropped, the rest converted back. */
  function FromApi(out: seq<ApiMsg>): seq<ChatMsg> {
    if out == [] then []
    else
      var rest := FromApi(out[1..]);
      match out[0].role
      case SystemRole => rest
      case UserRole => [ChatMsg(User, out[0].content)] + rest
      case AssistantRole => [ChatMsg(Assistant, out[0].content)] + rest
  }

  /** The outbound list: the system prompt, then the recent messages in order. */
  function OutboundMessages(systemPrompt: string, lastMessages: Option<seq<ChatMsg>>): (out: seq<ApiMsg>)
    ensures |out| == 1 + |lastMessages.GetOr([])|
    ensures out[0] == ApiMsg(SystemRole, systemPrompt)
    ensures lastMessages.None? ==> out == [ApiMsg(SystemRole, systemPrompt)]
  {
    [ApiMsg(SystemRole, systemPrompt)] + ToApi(lastMessages.GetOr([]))
  }

  /** Converting to the provider's form loses nothing. */
  lemma {:induction false} FromApiToApi(ms: seq<ChatMsg>)
    ensures FromApi(ToApi(ms)) == ms
  {
    if ms != [] {
      var out := ToApi(ms);
      assert out[1..] == ToApi(ms[1..]);
      FromApiToApi(ms[1..]);
      assert ms == [ms[0]] + ms[1..];
    }
  }

  /** The outbound list carries exactly the recent messages, after the system prompt. */
  lemma OutboundCarriesMessages(systemPrompt: string, lastMessages: Option<seq<ChatMsg>>)
    ensures FromApi(OutboundMessages(systemPrompt, lastMessages)) == lastMessages.GetOr([])
  {
    var out := OutboundMessages(systemPrompt, lastMessages);
    assert out[1..] == ToApi(lastMessages.GetOr([]));
    FromApiToApi(lastMessages.GetOr([]));
  }

  /** What generateEcho sends: the prompt for the stage, summary and mode, then the messages. */
  function EchoRequest(stage: string, summary: Option<string>, mode: string,
                       lastMessages: Option<seq<ChatMsg>>): (out: seq<ApiMsg>)
    ensures |out| == 1 + |lastMessages.GetOr([])|
    ensures out[0] == ApiMsg(SystemRole, BuildSystemPrompt(stage, summary, mode))
    ensures FromApi(out) == lastMessages.GetOr([])
  {
    OutboundCarriesMessages(BuildSystemPrompt(stage, summary, mode), lastMessages);
    OutboundMessages(BuildSystemPrompt(stage, summary, mode), lastMessages)
  }

  // ---------------------------------------------------------------------------
  // Reply decision

  /** How the provider call ended: it threw, it answered without text, or it answered. */
  datatype Completion = ProviderFailed | NoContent | Content(text: string)

  /** The text of the first choice, or the empty text when there is none. */
  function RawText(c: Completion): string {
    match c
    case Content(text) => text
    case _ => ""
  }

  /** The provider's text is used when the call succeeded and its text, trimmed, is not empty. */
  predicate HasUsableText(c: Completion) {
    !c.ProviderFailed? && Trim(RawText(c)) != ""
  }

  /**
   * generateEcho's result: the trimmed text when it is non-empty, otherwise (empty
   * text, no text or a failed call) a fallback line for the mode. Never empty.
   */
  function EchoReply(completion: Completion, mode: string, r: real): (reply: string)
    requires 0.0 <= r < 1.0
    ensures reply != ""
    ensures HasUsableText(completion) ==> reply == Trim(completion.text)
    ensures !HasUsableText(completion) ==> reply in FallbackList(mode)
  {
    if completion.ProviderFailed? then RandomFallback(mode, r)
    else
      var clean := Trim(RawText(completion));
      if |clean| > 0 then clean else RandomFallback(mode, r)
  }
}
