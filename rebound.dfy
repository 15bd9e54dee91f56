/**
 * The /rebound routes: an in-memory session store with the /start, /reply and
 * /history handlers. Request bodies are modelled field by field; the session id
 * that /start would draw from a UUID generator and the provider's answer are
 * parameters.
 */
module Rebound {
  import opened Types
  import opened Sanitizer
  import opened StageClassifier
  import opened Echo

  /** A field of a JSON request: missing, a string, or some other JSON value. */
  datatype Field = Absent | Text(value: string) | NotText

  /** The modes /start accepts, and the one it picks when none is given. */
  const StartModes: set<string> := {"closure", "alt_future"}
  const DefaultMode: string := "closure"

  /** The longest message /reply accepts, and the clamp applied to summaries. */
  const MaxMessage: nat := 2000
  const MaxSummary: nat := 2000

  /** How many recent messages go to the provider. */
  const Window: nat := 12

  const Apology: string := "Something went wrong on my end — try again in a moment, I’m still here."
  const ListeningDefault: string := "I'm listening. Tell me more."

  /** The /start answer: the new session's id, or a rejected body (status 500 from the error handler). */
  datatype StartResponse = Started(sessionId: string) | StartRejected {
    function Status(): int {
      if Started? then 200 else 500
    }
  }

  /** The /reply answer: the stage and reply, or the apology with status 500. */
  datatype ReplyResponse = Replied(stage: string, reply: string) | ReplyFailed(reply: string) {
    function Status(): int {
      if Replied? then 200 else 500
    }
  }

  /** The /history answer: the stored session's contents, or 404. */
  datatype HistoryResponse = HistoryFound(history: seq<ChatMsg>, mode: string, summary: Option<string>) | SessionNotFound {
    function Status(): int {
      if HistoryFound? then 200 else 404
    }
  }

  // ---------------------------------------------------------------------------
  // Request parsing

  /** StartSchema's mode: an enum with a default. */
  function ParseStartMode(mode: Field): (m: Option<string>)
    ensures m.Some? ==> m.value in StartModes
    ensures mode.Absent? ==> m == Some(DefaultMode)
    ensures mode.Text? && mode.value in StartModes ==> m == Some(mode.value)
    ensures m.Some? <==> mode.Absent? || (mode.Text? && mode.value in StartModes)
  {
    match mode
    case Absent => Some(DefaultMode)
    case Text(s) => if s in StartModes then Some(s) else None
    case NotText => None
  }

  /**
   * StartSchema's optional summary, and the stored value: a non-empty summary is
   * clamped, an empty or missing one is not stored. `None` means the body is rejected.
   */
  function ParseStartSummary(summary: Field): (s: Option<Option<string>>)
    ensures s.None? <==> summary.NotText?
    ensures s.Some? && s.value.Some? ==> NUL !in s.value.value && |s.value.value| <= MaxSummary
    ensures summary.Text? && summary.value != "" ==> s == Some(Some(ClampText(summary.value, MaxSummary)))
    ensures (summary.Absent? || summary == Text("")) ==> s == Some(None)
  {
    match summary
    case Absent => Some(None)
    case Text(t) => Some(if t != "" then Some(ClampText(t, MaxSummary)) else None)
    case NotText => None
  }

  /**
   * ReplySchema: a non-empty session id and a message of 1 to 2000 characters.
   * The 2000-character clamp applied afterwards then never truncates an accepted
   * message: it only removes NUL characters.
   */
  predicate ReplyAccepted(sessionId: Field, message: Field): (ok: bool)
    ensures ok ==> message.Text? && ClampText(message.value, MaxMessage) == StripNul(message.value)
  {
    && sessionId.Text? && |sessionId.value| >= 1
    && message.Text? && 1 <= |message.value| <= MaxMessage
  }

  // ---------------------------------------------------------------------------
  // Histories

  /** The contents of the user's messages, in the order they were sent. */
  function UserContents(h: seq<ChatMsg>): (r: seq<string>)
    ensures |r| <= |h|
  {
    if h == [] then []
    else
      var last := h[|h| - 1];
      UserContents(h[..|h| - 1]) + (if last.role == User then [last.content] else [])
  }

  /** A text is among the user contents exactly when the user sent a message with that content. */
  lemma {:induction false} UserContentsMembers(h: seq<ChatMsg>, x: string)
    ensures x in UserContents(h) <==> exists i :: 0 <= i < |h| && h[i].role == User && h[i].content == x
  {
    if h != [] {
      var init := h[..|h| - 1];
      UserContentsMembers(init, x);
      if x in UserContents(init) {
        var i :| 0 <= i < |init| && init[i].role == User && init[i].content == x;
        assert h[i] == init[i];
      }
      if exists i :: 0 <= i < |h| && h[i].role == User && h[i].content == x {
        var i :| 0 <= i < |h| && h[i].role == User && h[i].content == x;
        if i < |init| {
          assert init[i] == h[i];
        }
      }
    }
  }

  /** Appending a message extends the user contents by that message's content, if a user wrote it. */
  lemma UserContentsPush(h: seq<ChatMsg>, m: ChatMsg)
    ensures UserContents(h + [m]) == UserContents(h) + (if m.role == User then [m.content] else [])
  {
    assert (h + [m])[..|h|] == h;
  }

  /** The last n messages of a history, or all of them when there are fewer. */
  function LastN(h: seq<ChatMsg>, n: nat): (r: seq<ChatMsg>)
    ensures |r| == if |h| < n then |h| else n
    ensures r == h[|h| - |r|..]
  {
    if |h| <= n then h else h[|h| - n..]
  }

  /** A message at position i of a history holds what the routes put there. */
  predicate WellPlaced(h: seq<ChatMsg>, i: int)
    requires 0 <= i < |h|
  {
    if i % 2 == 0 then h[i].role == User && NUL !in h[i].content && |h[i].content| <= MaxMessage
    else h[i].role == Assistant && h[i].content != ""
  }

  /**
   * A history as /reply builds it: user and assistant messages in pairs, user
   * messages sanitised and clamped, assistant messages never empty.
   */
  predicate WellFormedHistory(h: seq<ChatMsg>) {
    |h| % 2 == 0 && forall i :: 0 <= i < |h| ==> WellPlaced(h, i)
  }

  /** A stored session: filed under its own id, with a /start mode, a clamped summary and a well-formed history. */
  predicate WellFormedSession(id: string, s: Session) {
    && s.id == id
    && s.mode in StartModes
    && (s.summary.Some? ==> NUL !in s.summary.value && |s.summary.value| <= MaxSummary)
    && WellFormedHistory(s.history)
  }

  /** Adding one exchange keeps a history well formed. */
  lemma PushExchange(h: seq<ChatMsg>, userText: string, aiText: string)
    requires WellFormedHistory(h)
    requires NUL !in userText && |userText| <= MaxMessage && aiText != ""
    ensures WellFormedHistory(h + [ChatMsg(User, userText), ChatMsg(Assistant, aiText)])
  {
    var h' := h + [ChatMsg(User, userText), ChatMsg(Assistant, aiText)];
    forall i | 0 <= i < |h'|
      ensures WellPlaced(h', i)
    {
      if i < |h| {
        assert h'[i] == h[i] && WellPlaced(h, i);
      }
    }
  }

  /** Dropping the last exchange keeps a history well formed. */
  lemma DropExchange(h: seq<ChatMsg>)
    requires WellFormedHistory(h) && |h| >= 2
    ensures WellFormedHistory(h[..|h| - 2])
  {
    var init := h[..|h| - 2];
    forall i | 0 <= i < |init|
      ensures WellPlaced(init, i)
    {
      assert init[i] == h[i] && WellPlaced(h, i);
    }
  }

  /** A closing exchange of a user message and a reply contributes the user message alone. */
  lemma LastExchangeContents(h: seq<ChatMsg>)
    requires |h| >= 2 && h[|h| - 2].role == User && h[|h| - 1].role == Assistant
    ensures UserContents(h) == UserContents(h[..|h| - 2]) + [h[|h| - 2].content]
  {
    var init := h[..|h| - 2];
    var u := h[|h| - 2];
    var a := h[|h| - 1];
    assert h == (init + [u]) + [a];
    UserContentsPush(init, u);
    UserContentsPush(init + [u], a);
  }

  /** In a well-formed history the user contents are the contents of the even positions. */
  lemma {:induction false} UserContentsOfWellFormed(h: seq<ChatMsg>)
    requires WellFormedHistory(h)
    ensures |UserContents(h)| == |h| / 2
    ensures forall k :: 0 <= k < |h| / 2 ==> UserContents(h)[k] == h[2 * k].content
  {
    if h != [] {
      var init := h[..|h| - 2];
      DropExchange(h);
      UserContentsOfWellFormed(init);
      assert (|h| - 2) % 2 == 0 && (|h| - 1) % 2 == 1;
      assert WellPlaced(h, |h| - 2) && WellPlaced(h, |h| - 1);
      LastExchangeContents(h);
      forall k | 0 <= k < |h| / 2
        ensures UserContents(h)[k] == h[2 * k].content
      {
        if k < |init| / 2 {
          assert h[2 * k] == init[2 * k];
        }
      }
    }
  }

  /** Every session of the map is well formed and filed under its own id. */
  predicate ValidMap(sessions: map<string, Session>) {
    forall id :: id in sessions ==> WellFormedSession(id, sessions[id])
  }

  /** Storing a well-formed session keeps the map valid. */
  lemma StorePreservesValid(sessions: map<string, Session>, id: string, s: Session)
    requires ValidMap(sessions) && WellFormedSession(id, s)
    ensures ValidMap(sessions[id := s])
  {
  }

  /** The messages sent with a reply end with the message being answered, after the system prompt. */
  lemma RequestEndsWithMessage(stage: string, summary: Option<string>, mode: string,
                               h: seq<ChatMsg>, userText: string)
    ensures var req := EchoRequest(stage, summary, mode, Some(LastN(h + [ChatMsg(User, userText)], Window)));
      2 <= |req| <= 1 + Window && req[|req| - 1] == ApiMsg(UserRole, userText)
  {
    var recent := LastN(h + [ChatMsg(User, userText)], Window);
    assert recent[|recent| - 1] == ChatMsg(User, userText);
    var req := EchoRequest(stage, summary, mode, Some(recent));
    assert req == [ApiMsg(SystemRole, BuildSystemPrompt(stage, summary, mode))] + ToApi(recent);
  }

  /** The stored session, or the temporary one /reply creates for an unknown id. */
  function SessionOrNew(sessions: map<string, Session>, id: string): (s: Session)
    ensures id in sessions ==> s == sessions[id]
    ensures id !in sessions ==> s == Session(id, DefaultMode, None, [])
  {
    if id in sessions then sessions[id] else Session(id, DefaultMode, None, [])
  }

  /**
   * One exchange on a session, as /reply performs it: the clamped message is appended,
   * the stage is classified from all of the session's user messages, the provider is
   * asked with the last twelve messages, and its reply is appended. The session keeps
   * its pairs: one more user message, one more reply, and a well-formed session stays so.
   */
  method Exchange(sess: Session, message: string, completion: Completion, r: real)
    returns (updated: Session, stage: string, aiText: string, request: seq<ApiMsg>)
    requires 0.0 <= r < 1.0
    ensures var userText := ClampText(message);
      && stage == Label(NextStageFromTranscript(UserContents(sess.history) + [userText]))
      && aiText == EchoReply(completion, sess.mode, r)
      && updated == sess.(history := sess.history + [ChatMsg(User, userText), ChatMsg(Assistant, aiText)])
      && request == EchoRequest(stage, sess.summary, sess.mode,
                                Some(LastN(sess.history + [ChatMsg(User, userText)], Window)))
    ensures aiText != ""
    ensures 2 <= |request| <= 1 + Window && request[|request| - 1] == ApiMsg(UserRole, ClampText(message))
    ensures UserContents(updated.history) == UserContents(sess.history) + [ClampText(message)]
    ensures WellFormedSession(sess.id, sess) ==> WellFormedSession(sess.id, updated)
  {
    var userMsg := ChatMsg(User, ClampText(message));
    var history := sess.history + [userMsg];
    UserContentsPush(sess.history, userMsg);
    stage := Label(NextStageFromTranscript(UserContents(history)));

    request := EchoRequest(stage, sess.summary, sess.mode, Some(LastN(history, Window)));
    RequestEndsWithMessage(stage, sess.summary, sess.mode, sess.history, userMsg.content);
    aiText := EchoReply(completion, sess.mode, r);

    var aiMsg := ChatMsg(Assistant, aiText);
    history := history + [aiMsg];
    updated := sess.(history := history);
    ExchangeHistory(sess, userMsg.content, aiText);
  }

  /** The history facts behind Exchange: the pair is appended, one user content is added, well-formedness is kept. */
  lemma ExchangeHistory(sess: Session, userText: string, aiText: string)
    requires NUL !in userText && |userText| <= MaxMessage && aiText != ""
    ensures var h := sess.history + [ChatMsg(User, userText)] + [ChatMsg(Assistant, aiText)];
      && h == sess.history + [ChatMsg(User, userText), ChatMsg(Assistant, aiText)]
      && UserContents(h) == UserContents(sess.history) + [userText]
      && (WellFormedSession(sess.id, sess) ==> WellFormedSession(sess.id, sess.(history := h)))
  {
    var u := ChatMsg(User, userText);
    var a := ChatMsg(Assistant, aiText);
    UserContentsPush(sess.history, u);
    UserContentsPush(sess.history + [u], a);
    assert sess.history + [u] + [a] == sess.history + [u, a];
    if WellFormedHistory(sess.history) {
      PushExchange(sess.history, userText, aiText);
    }
  }

  /** The session a reply works on is well formed, whether stored or just created. */
  lemma SessionOrNewWellFormed(sessions: map<string, Session>, id: string)
    requires ValidMap(sessions)
    ensures WellFormedSession(id, SessionOrNew(sessions, id))
  {
  }

  // ---------------------------------------------------------------------------
  // The store

  /** The process-wide session map behind the three routes. */
  class SessionStore {
    var sessions: map<string, Session>

    /** Every stored session is well formed and filed under its own id. */
    predicate Valid()
      reads this
    {
      ValidMap(sessions)
    }

    constructor()
      ensures Valid() && sessions == map[]
    {
      sessions := map[];
    }

    /** Stores a well-formed session under its id, replacing any earlier one. */
    method Put(id: string, s: Session)
      requires Valid() && WellFormedSession(id, s)
      modifies this
      ensures Valid() && sessions == old(sessions)[id := s]
    {
      StorePreservesValid(sessions, id, s);
      sessions := sessions[id := s];
    }

    /**
     * POST /start. A body with an unknown mode or a non-string summary is rejected and
     * nothing is stored; otherwise a session with an empty history is stored under id.
     */
    method Start(mode: Field, summary: Field, id: string) returns (resp: StartResponse)
      requires Valid()
      modifies this
      ensures Valid()
      ensures (ParseStartMode(mode).None? || ParseStartSummary(summary).None?) ==>
                resp == StartRejected && sessions == old(sessions)
      ensures ParseStartMode(mode).Some? && ParseStartSummary(summary).Some? ==>
                && resp == Started(id)
                && sessions == old(sessions)[id := Session(id, ParseStartMode(mode).value, ParseStartSummary(summary).value, [])]
    {
      var m := ParseStartMode(mode);
      var s := ParseStartSummary(summary);
      if m.None? || s.None? {
        resp := StartRejected;
        return;
      }
      var sess := Session(id, m.value, s.value, []);
      sessions := sessions[id := sess];
      resp := Started(id);
    }

    /**
     * POST /reply. A rejected body yields the apology and changes nothing. Otherwise the
     * session (created on the fly for an unknown id) gains the clamped user message and
     * the generated reply; the stage classifies all of the session's user messages, and
     * the provider receives the prompt and the last twelve messages, ending with the new one.
     */
    method Reply(sessionId: Field, message: Field, completion: Completion, r: real)
      returns (resp: ReplyResponse, request: Option<seq<ApiMsg>>)
      requires Valid()
      requires 0.0 <= r < 1.0
      modifies this
      ensures Valid()
      ensures resp.reply != ""
      ensures !ReplyAccepted(sessionId, message) ==>
                resp == ReplyFailed(Apology) && request.None? && sessions == old(sessions)
      ensures ReplyAccepted(sessionId, message) ==>
                var id := sessionId.value;
                var sess := SessionOrNew(old(sessions), id);
                var userText := ClampText(message.value);
                var stage := Label(NextStageFromTranscript(UserContents(sess.history) + [userText]));
                var aiText := EchoReply(completion, sess.mode, r);
                && sessions == old(sessions)[id := sess.(history := sess.history + [ChatMsg(User, userText), ChatMsg(Assistant, aiText)])]
                && resp == Replied(stage, aiText)
                && request == Some(EchoRequest(stage, sess.summary, sess.mode,
                                               Some(LastN(sess.history + [ChatMsg(User, userText)], Window))))
      ensures ReplyAccepted(sessionId, message) ==>
                && request.Some?
                && 2 <= |request.value| <= 1 + Window
                && request.value[|request.value| - 1] == ApiMsg(UserRole, ClampText(message.value))
    {
      if !ReplyAccepted(sessionId, message) {
        resp := ReplyFailed(Apology);
        request := None;
        return;
      }
      var sent;
      resp, sent := Answer(sessionId.value, message.value, completion, r);
      request := Some(sent);
    }

    /** The accepted path of /reply: one exchange on the stored or new session, stored back. */
    method Answer(id: string, message: string, completion: Completion, r: real)
      returns (resp: ReplyResponse, request: seq<ApiMsg>)
      requires Valid()
      requires 0.0 <= r < 1.0
      modifies this
      ensures Valid()
      ensures var sess := SessionOrNew(old(sessions), id);
                var userText := ClampText(message);
                var stage := Label(NextStageFromTranscript(UserContents(sess.history) + [userText]));
                var aiText := EchoReply(completion, sess.mode, r);
                && sessions == old(sessions)[id := sess.(history := sess.history + [ChatMsg(User, userText), ChatMsg(Assistant, aiText)])]
                && resp == Replied(stage, aiText)
                && aiText != ""
                && request == EchoRequest(stage, sess.summary, sess.mode,
                                          Some(LastN(sess.history + [ChatMsg(User, userText)], Window)))
      ensures 2 <= |request| <= 1 + Window && request[|request| - 1] == ApiMsg(UserRole, ClampText(message))
    {
      var sess := SessionOrNew(sessions, id);
      SessionOrNewWellFormed(sessions, id);
      var updated, stage, aiText, sent := Exchange(sess, message, completion, r);
      request := sent;
      Put(id, updated);

      var reply := if aiText != "" then aiText else ListeningDefault;
      resp := Replied(stage, reply);
    }

    /**
     * GET /history. A missing or empty id, or one not stored, yields 404; otherwise the
     * stored history, mode and summary, whose history is well formed.
     */
    method History(sessionId: Field) returns (resp: HistoryResponse)
      requires Valid()
      ensures resp.HistoryFound? <==> sessionId.Text? && sessionId.value != "" && sessionId.value in sessions
      ensures resp.HistoryFound? ==>
                var s := sessions[sessionId.value];
                resp == HistoryFound(s.history, s.mode, s.summary)
      ensures resp.HistoryFound? ==>
                WellFormedHistory(resp.history) && |UserContents(resp.history)| == |resp.history| / 2
    {
      if !sessionId.Text? || sessionId.value == "" || sessionId.value !in sessions {
        return SessionNotFound;
      }
      var s := sessions[sessionId.value];
      UserContentsOfWellFormed(s.history);
      resp := HistoryFound(s.history, s.mode, s.summary);
    }
  }

  /**
   * "alt_future", which /start accepts, is not among the modes the session record
   * declares and has no fallback lines of its own: its fallbacks are the closure ones,
   * while its prompt gets the what-if sentence of "alternate".
   */
  lemma AltFutureMode()
    ensures "alt_future" in StartModes && "alt_future" !in DeclaredModes
    ensures "alt_future" !in FallbackModes && FallbackList("alt_future") == ClosureFallbacks
    ensures ModeSentence("alt_future") == ModeSentence("alternate") == WhatIfSentence
  {
    ModeSentenceTable("alt_future");
    ModeSentenceTable("alternate");
  }
}
