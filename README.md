# Rebound AI backend core, in Dafny

Rebound AI is a chat backend that helps users work through a breakup. A client
opens a session (`POST /rebound/start`), sends messages (`POST /rebound/reply`)
and reads the conversation back (`GET /rebound/history`). For each message the
server:

1. sanitises the text (`clampText`);
2. classifies the user's emotional stage from their messages (`nextStageFromTranscript`);
3. builds a system prompt for the session's mode, summary and stage (`buildSystemPrompt`);
4. asks a language-model provider for a reply and trims it, or falls back to a
   canned line for the mode (`generateEcho`, `randomFallback`);
5. appends both turns to the session's history.

This project models that core and proves its properties:

| file | module | models |
|---|---|---|
| `types.dfy` | `Types` | the `ChatMsg` and `Session` records, the declared modes, an `Option` for `undefined` |
| `sanitizer.dfy` | `Sanitizer` | `clampText`: NUL removal, then truncation to `max` (default 2000) |
| `stage.dfy` | `StageClassifier` | `nextStageFromTranscript`: three ordered `\b(...)\b` phrase rules over the lower-cased last utterance, then a length-based default |
| `stage_examples.dfy` | `StageExamples` | the classifier on concrete utterances, and general facts about word-boundary matching used for them |
| `echo.dfy` | `Echo` | `buildSystemPrompt`, `randomFallback`, the outbound message list and the trim-or-fallback decision of `generateEcho` |
| `rebound.dfy` | `Rebound` | the session map and the `/start`, `/reply` and `/history` handlers |

The session map is a class, `SessionStore`, with a `map<string, Session>` field.

- `Start` and `Reply` are methods that modify it.
- `History` only reads it.
- The class invariant `Valid` says that:
  - every session is filed under its own id;
  - every mode is one that `/start` accepts;
  - summaries are clamped;
  - histories are made of user/assistant pairs, with user messages sanitised and replies never empty.

The pure parts are functions and lemmas. The effectful parts of the source become parameters:

- The provider's answer is a `Completion` value:
  - the call threw;
  - it answered without text;
  - it answered with some text.
- `Math.random()` is a real `r` in [0, 1).
- The UUID that `/start` draws is an `id` parameter.
- A JSON request field is a `Field`: absent, a string, or some other JSON value.

### Where the code differs from what a client might expect

The model follows the code in each case.

- **Malformed `/start` body.** A client might expect a 400. The code passes the zod error to the global error handler (src/server.ts:41-46), and that error carries no status, so the answer is a 500. `StartResponse.Status` gives 500.
- **Malformed `/reply` body.** The code answers with the fixed apology and status 500, not a client error.
- **`/reply` on an unknown session id.** The code creates a temporary session: mode `closure`, no summary, empty history. It does not answer 404.
- **The `alt_future` mode.** `/start` accepts `alt_future`, but the `Session` record's declared modes do not list it, and the fallback table has no entry for it. Such a session:
  - gets the "what-if" prompt sentence of `alternate`;
  - gets the `closure` fallback lines.

  `Rebound.AltFutureMode` states this.

## Model

| member | source | states |
|---|---|---|
| Sanitizer.StripNul | src/lib/sanitizer.ts:2 | the NUL-stripped text contains no NUL and is no longer than the input |
| Sanitizer.ClampText | src/lib/sanitizer.ts:1-4 | the result has no NUL, is at most `max` long (2000 when omitted) and is a prefix of the NUL-stripped input; it is that whole text when it fits, and exactly `max` characters of it otherwise |
| Sanitizer.StripNulAppend | src/lib/sanitizer.ts:2 | NUL removal is global: stripping a concatenation is concatenating the stripped parts, so the kept characters keep their order |
| Sanitizer.StripNulCounts | src/lib/sanitizer.ts:2 | every character other than NUL occurs in the output exactly as often as in the input |
| Sanitizer.StripNulFixpoint | src/lib/sanitizer.ts:2 | stripping leaves a text unchanged exactly when it has no NUL |
| Sanitizer.ClampIdempotent | src/lib/sanitizer.ts:2-3 | clamping twice with the same limit equals clamping once |
| StageClassifier.Label | src/lib/stage.ts:1 | every stage is spelled "confrontation", "reflection" or "release" |
| StageClassifier.ScanFrom | src/lib/stage.ts:6-8 | scanning from position i succeeds exactly when the phrase matches between word boundaries at some position at or after i |
| StageClassifier.TestPhrases | src/lib/stage.ts:6-8 | the regular-expression test succeeds exactly when some phrase of the alternation occurs between word boundaries |
| StageClassifier.ContainsAnyWordCons | src/lib/stage.ts:6-8 | an alternation matches exactly when its first phrase or one of the remaining phrases does |
| StageClassifier.NextStageFromTranscript | src/lib/stage.ts:3-12 | a release phrase gives release whatever else occurs; otherwise a reflection phrase gives reflection; otherwise a confrontation phrase gives confrontation; with no phrase, more than 12 utterances give reflection and at most 12 give confrontation |
| StageClassifier.DependsOnLastAndCount | src/lib/stage.ts:4-11 | two transcripts of the same length whose lower-cased last utterances agree get the same stage |
| StageClassifier.CaseInsensitive | src/lib/stage.ts:4 | lower-casing the last utterance beforehand does not change the stage |
| StageClassifier.PhrasesAreWordDelimited | src/lib/stage.ts:6-8 | every phrase of the three rules begins and ends with a word character |
| StageClassifier.EmptyTranscript | src/lib/stage.ts:4-11 | an empty transcript gives confrontation |
| StageClassifier.MatchStartsAWord | src/lib/stage.ts:6-8 | a phrase beginning with a word character matches only where a word begins |
| StageExamples.WordStartsOfJoin | src/lib/stage.ts:6-8 | in words joined by single spaces, every position that starts a word holds the first letter of one of the words |
| StageExamples.NoPhraseInWords | src/lib/stage.ts:6-8 | words joined by spaces, none starting with a phrase's first letter, match none of the phrases |
| StageExamples.MatchAtFront | src/lib/stage.ts:6-8 | a phrase at the start of a text, followed by a non-word character or the end, matches |
| StageExamples.MatchAfter | src/lib/stage.ts:6-8 | a phrase between non-word characters, or the text's ends, matches at its position |
| StageExamples.ReleaseBeatsReflection | src/lib/stage.ts:6-7 | "thank you, I think I finally understand" contains the reflection phrase "i think" and still gives release |
| StageExamples.AlwaysGivesConfrontation | src/lib/stage.ts:6-8 | "you always ruined everything" gives confrontation |
| StageExamples.HallwaysIsNotAlways | src/lib/stage.ts:8 | "always" does not match inside "hallways" |
| Echo.Trim | src/lib/openai.ts:37 | the trimmed text is a slice of the input whose cut-off ends are white space, it neither begins nor ends with white space, and it is empty exactly when the input is all white space |
| Echo.TrimIdempotent | src/lib/openai.ts:37 | trimming twice equals trimming once |
| Echo.ModeTestsExclusive | src/lib/openai.ts:57-68 | no mode passes two of the three mode tests |
| Echo.WithModeSentences | src/lib/openai.ts:57-68 | the three independent mode tests append exactly the one sentence the mode selects (`ModeSentence`), or none |
| Echo.ModeSentenceTable | src/lib/openai.ts:57-68 | "alt_future" and "alternate" add the what-if sentence, "rebound" and "supportive" the confidence sentence, "closure" its own, and every other mode none |
| Echo.BuildSystemPrompt | src/lib/openai.ts:54-76 | the prompt is the persona sentence, then at most one mode sentence, then the summary sentence iff the summary is non-empty, then the stage sentence iff the stage is non-empty |
| Echo.PromptStartsWithPersona | src/lib/openai.ts:55-56 | every prompt begins with the fixed persona sentence |
| Echo.PromptQuotesSummary | src/lib/openai.ts:69-71 | a non-empty summary is quoted verbatim right after the mode sentence; without one, only the stage segment follows the mode sentence |
| Echo.PromptEndsWithStage | src/lib/openai.ts:72-75 | a non-empty stage's sentence is the last segment of the prompt; an empty stage adds nothing |
| Echo.FallbackTable | src/lib/openai.ts:82-103 | the table has an entry exactly for closure, alternate, supportive and rebound |
| Echo.FallbackList | src/lib/openai.ts:105 | a mode's list is its table entry when it has one, and the closure list otherwise |
| Echo.FallbackListsNonEmpty | src/lib/openai.ts:82-103 | every list is non-empty and holds only non-empty lines |
| Echo.FloorIndex | src/lib/openai.ts:106 | floor(r * n) for r in [0, 1) is an index below n |
| Echo.RandomFallback | src/lib/openai.ts:81-107 | the line drawn is a non-empty member of the mode's list, or of the closure list for a mode without an entry |
| Echo.EveryFallbackReachable | src/lib/openai.ts:105-106 | every line of a mode's list is drawn for some r in [0, 1) |
| Echo.ToApi | src/lib/openai.ts:19-22 | the converted messages are as many as the originals, each with the same role and content, in the same order |
| Echo.FromApiToApi | src/lib/openai.ts:19-22 | converting the messages to the provider's form loses nothing: converting back returns them |
| Echo.OutboundMessages | src/lib/openai.ts:29-32 | the outbound list is the system message followed by one entry per recent message; a missing list gives the system message alone |
| Echo.OutboundCarriesMessages | src/lib/openai.ts:19-32 | after the system message, the outbound list carries exactly the recent messages, in order |
| Echo.EchoRequest | src/lib/openai.ts:18-32 | the request starts with the prompt built from stage, summary and mode, and carries exactly the recent messages |
| Echo.EchoReply | src/lib/openai.ts:36-47 | the reply is never empty; it is the trimmed provider text when that is non-empty, and otherwise (empty text, no text, or a failed call) a line from the mode's fallback list |
| Rebound.ParseStartMode | src/routes/rebound.ts:13-16 | a missing mode becomes "closure", "closure" and "alt_future" are kept, and anything else is rejected |
| Rebound.ReplyAccepted | src/routes/rebound.ts:36-40 | an accepted body carries a text message, which the 2000-character clamp at src/routes/rebound.ts:60 only strips of NULs and never truncates |
| Rebound.ParseStartSummary | src/routes/rebound.ts:15-25 | a non-string summary is rejected; a non-empty one is stored clamped to 2000 and NUL-free; an empty or missing one is not stored |
| Rebound.UserContents | src/routes/rebound.ts:63-67 | there are no more user contents than messages; `UserContentsPush` fixes their order and `UserContentsMembers` which texts they are |
| Rebound.UserContentsMembers | src/routes/rebound.ts:63-67 | a text is among the user contents exactly when the history holds a user message with that content |
| Rebound.UserContentsPush | src/routes/rebound.ts:61-67 | appending a message extends the user contents by its content exactly when a user wrote it |
| Rebound.LastN | src/routes/rebound.ts:74 | the window is the last min(n, length) messages of the history |
| Rebound.PushExchange | src/routes/rebound.ts:60-78 | appending a sanitised user message and a non-empty reply keeps a history well formed |
| Rebound.UserContentsOfWellFormed | src/routes/rebound.ts:63-67 | in a well-formed history the user contents are the contents at the even positions, half as many as the messages |
| Rebound.RequestEndsWithMessage | src/routes/rebound.ts:70-75 | the provider receives between 2 and 13 messages, the last being the user message just sent |
| Rebound.SessionOrNew | src/routes/rebound.ts:47-58 | a stored id yields its session; an unknown id yields a session under exactly that id with mode "closure", no summary and no history |
| Rebound.Exchange | src/routes/rebound.ts:60-81 | one exchange appends the clamped user message and then the reply, changing nothing else in the session. The stage classifies all of the session's user messages, including the new one. The provider gets the last 12 messages. The reply is never empty, and a well-formed session stays well formed |
| Rebound.SessionStore.constructor | src/routes/rebound.ts:10 | the store starts empty and valid |
| Rebound.SessionStore.Put | src/routes/rebound.ts:28 | storing a well-formed session under its id replaces that entry only and keeps the invariant |
| Rebound.SessionStore.Start | src/routes/rebound.ts:18-33 | a rejected body stores nothing; otherwise a session with the parsed mode, the clamped summary and an empty history is stored under the id, other entries untouched, and the invariant kept |
| Rebound.SessionStore.Reply | src/routes/rebound.ts:42-90 | a rejected body gives the apology and leaves the store unchanged. Otherwise only that session changes, created first if unknown: its history grows by the clamped user message and the reply. The answer is the stage and the reply, and the reply is never empty. The invariant is kept |
| Rebound.SessionStore.Answer | src/routes/rebound.ts:46-81 | on an accepted body, the stored session, or a new closure session when the id is unknown, gets one exchange and is stored back; nothing else changes; the answer is the stage and a non-empty reply; the provider gets 2 to 13 messages ending with the clamped user message; the invariant is kept |
| Rebound.SessionStore.History | src/routes/rebound.ts:93-98 | a missing, empty or unknown id gives 404; otherwise the stored history, mode and summary, whose history alternates user and assistant with half of it user messages; nothing is changed |
| Rebound.AltFutureMode | src/routes/rebound.ts:14 | "alt_future" is accepted by /start but is not a declared session mode and has no fallback entry: it draws closure lines while its prompt gets the what-if sentence |

## Left out

- The mobile client (src/screens/ReboundChat.js) and the server set-up: Express middleware, CORS, logging, rate limiting, the health route and `listen`. These are I/O and framework plumbing. The rate limiter module is not part of this model.
- The provider call and its parameters (model name, temperature, token limit). The call is an outcome parameter of type `Completion`, and the logging around it is dropped.
- `Math.random`: its draw is the parameter `r` in [0, 1).
- `uuid()`: the new session's id is a parameter. The model keeps `Map.set` overwrite semantics and does not assume the id is new.
- Concurrency: two replies on the same session can interleave around the provider call. Each reply is modelled as atomic.
- A request body that is not a JSON object at all. Only its fields are modelled.
- `randomFallback`'s `stage` argument: the source never reads it, so it is dropped.
- The fallback table lookup `fallbacks[mode]` also finds inherited object properties such as `"constructor"`. The model treats only the four keys as entries. Stored sessions only ever hold "closure" or "alt_future".
- The `"I'm listening. Tell me more."` default of /reply is modelled, but the branch is never taken, because the generated reply is never empty.
- Sanitizer.ClampText: requires a string. A null or undefined input, which throws in the source, is not modelled. Lengths count characters, not UTF-16 code units.
- StageClassifier.NextStageFromTranscript: lower-cases ASCII letters only, where JavaScript's `toLowerCase` covers all of Unicode.
- Echo.Trim: removes ASCII white space only (space, tab, line feed, vertical tab, form feed, carriage return). JavaScript's `trim` also removes Unicode spaces and line terminators.
- Rebound.ReplyAccepted: the 1..2000 bound is checked on characters, not UTF-16 code units.
