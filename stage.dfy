/**
 * The stage classifier: three ordered keyword rules over the lower-cased last
 * utterance, each a regular expression `\b(p1|p2|...)\b`, then a default that
 * depends only on how many utterances there are.
 */
module StageClassifier {

  /** The three stage labels. */
  datatype Stage = Confrontation | Reflection | Release

  /** The label as the routes and the prompt spell it. */
  function Label(s: Stage): (r: string)
    ensures r in {"confrontation", "reflection", "release"}
  {
    match s
    case Confrontation => "confrontation"
    case Reflection => "reflection"
    case Release => "release"
  }

  const ReleasePhrases: seq<string> :=
    ["thank you", "i see", "makes sense", "i'm ready", "goodbye", "farewell"]
  const ReflectionPhrases: seq<string> :=
    ["maybe", "i guess", "i understand", "i think", "why did we"]
  const ConfrontationPhrases: seq<string> :=
    ["hate", "never", "always", "you ruined", "angry", "mad", "why did you"]

  /** Above this many utterances, an unmatched utterance defaults to reflection. */
  const LongTranscript: nat := 12

  // ---------------------------------------------------------------------------
  // Lower-casing (ASCII)

  function LowerChar(c: char): char {
    if 'A' <= c <= 'Z' then (c as int + 32) as char else c
  }

  /** The text with every ASCII capital replaced by its small letter. */
  function ToLower(s: string): string {
    seq(|s|, i requires 0 <= i < |s| => LowerChar(s[i]))
  }

  lemma ToLowerIdempotent(s: string)
    ensures ToLower(ToLower(s)) == ToLower(s)
  {
  }

  // ---------------------------------------------------------------------------
  // Word-boundary matching

  /** The regular-expression class `\w`: ASCII letters, digits and underscore. */
  predicate IsWordChar(c: char) {
    'a' <= c <= 'z' || 'A' <= c <= 'Z' || '0' <= c <= '9' || c == '_'
  }

  /**
   * `\b` holds at position i (between s[i-1] and s[i]) when exactly one of the two
   * neighbours is a word character; a position outside the text counts as non-word.
   */
  predicate IsBoundary(s: string, i: int)
    requires 0 <= i <= |s|
  {
    (i > 0 && IsWordChar(s[i - 1])) != (i < |s| && IsWordChar(s[i]))
  }

  /** `\bp\b` matches s at position i. */
  predicate MatchAt(s: string, p: string, i: int) {
    0 <= i && i + |p| <= |s| && s[i..i + |p|] == p && IsBoundary(s, i) && IsBoundary(s, i + |p|)
  }

  /** `\bp\b` matches somewhere in s. */
  ghost predicate ContainsWord(s: string, p: string) {
    exists i :: MatchAt(s, p, i)
  }

  /** `\b(p1|...|pn)\b` matches somewhere in s. */
  ghost predicate ContainsAnyWord(s: string, ps: seq<string>) {
    exists k :: 0 <= k < |ps| && ContainsWord(s, ps[k])
  }

  /** Tries every start position from i on. */
  function ScanFrom(s: string, p: string, i: nat): (found: bool)
    ensures found <==> exists j :: i <= j && MatchAt(s, p, j)
    decreases |s| + 1 - i
  {
    if i + |p| > |s| then false
    else MatchAt(s, p, i) || ScanFrom(s, p, i + 1)
  }

  /** The alternation matches when its first phrase does or the remaining ones do. */
  lemma ContainsAnyWordCons(s: string, ps: seq<string>)
    requires ps != []
    ensures ContainsAnyWord(s, ps) <==> ContainsWord(s, ps[0]) || ContainsAnyWord(s, ps[1..])
  {
    if ContainsAnyWord(s, ps) {
      var k :| 0 <= k < |ps| && ContainsWord(s, ps[k]);
      if k > 0 {
        assert ps[1..][k - 1] == ps[k];
      }
    }
    if ContainsAnyWord(s, ps[1..]) {
      var k :| 0 <= k < |ps| - 1 && ContainsWord(s, ps[1..][k]);
      assert ps[k + 1] == ps[1..][k];
    }
  }

  /** RegExp.test for the alternation of the phrases ps between `\b`s. */
  function TestPhrases(s: string, ps: seq<string>): (found: bool)
    ensures found <==> ContainsAnyWord(s, ps)
  {
    if ps == [] then false
    else
      ContainsAnyWordCons(s, ps);
      ScanFrom(s, ps[0], 0) || TestPhrases(s, ps[1..])
  }

  // ---------------------------------------------------------------------------
  // The classifier

  /** The last utterance, or the empty text when there is none. */
  function LastUtterance(messages: seq<string>): string {
    if |messages| == 0 then "" else messages[|messages| - 1]
  }

  /** The text the rules are tested against. */
  function Lowered(messages: seq<string>): string {
    ToLower(LastUtterance(messages))
  }

  /**
   * nextStageFromTranscript: release phrases win over reflection phrases, which win
   * over confrontation phrases; with no phrase the length of the transcript decides.
   */
  function NextStageFromTranscript(messages: seq<string>): (stage: Stage)
    ensures ContainsAnyWord(Lowered(messages), ReleasePhrases) ==> stage == Release
    ensures (!ContainsAnyWord(Lowered(messages), ReleasePhrases)
             && ContainsAnyWord(Lowered(messages), ReflectionPhrases))
            ==> stage == Reflection
    ensures (!ContainsAnyWord(Lowered(messages), ReleasePhrases)
             && !ContainsAnyWord(Lowered(messages), ReflectionPhrases)
             && ContainsAnyWord(Lowered(messages), ConfrontationPhrases))
            ==> stage == Confrontation
    ensures (!ContainsAnyWord(Lowered(messages), ReleasePhrases)
             && !ContainsAnyWord(Lowered(messages), ReflectionPhrases)
             && !ContainsAnyWord(Lowered(messages), ConfrontationPhrases))
            ==> stage == (if |messages| > LongTranscript then Reflection else Confrontation)
  {
    var last := Lowered(messages);
    if TestPhrases(last, ReleasePhrases) then Release
    else if TestPhrases(last, ReflectionPhrases) then Reflection
    else if TestPhrases(last, ConfrontationPhrases) then Confrontation
    else if |messages| > LongTranscript then Reflection
    else Confrontation
  }

  // ---------------------------------------------------------------------------
  // Properties

  /** Only the last utterance and the number of utterances matter. */
  lemma DependsOnLastAndCount(a: seq<string>, b: seq<string>)
    requires |a| == |b|
    requires Lowered(a) == Lowered(b)
    ensures NextStageFromTranscript(a) == NextStageFromTranscript(b)
  {
  }

  /** Lower-casing the last utterance first does not change the stage. */
  lemma CaseInsensitive(earlier: seq<string>, last: string)
    ensures NextStageFromTranscript(earlier + [ToLower(last)])
         == NextStageFromTranscript(earlier + [last])
  {
    ToLowerIdempotent(last);
    DependsOnLastAndCount(earlier + [ToLower(last)], earlier + [last]);
  }

  /** Starts and ends with a word character, so `\b` at either end means "not inside a word". */
  predicate WordDelimited(p: string) {
    |p| > 0 && IsWordChar(p[0]) && IsWordChar(p[|p| - 1])
  }

  /** Every phrase begins and ends with a word character. */
  lemma PhrasesAreWordDelimited()
    ensures forall k :: 0 <= k < |ReleasePhrases| ==> WordDelimited(ReleasePhrases[k])
    ensures forall k :: 0 <= k < |ReflectionPhrases| ==> WordDelimited(ReflectionPhrases[k])
    ensures forall k :: 0 <= k < |ConfrontationPhrases| ==> WordDelimited(ConfrontationPhrases[k])
  {
  }

  /** A transcript with no utterances gives confrontation. */
  lemma EmptyTranscript()
    ensures NextStageFromTranscript([]) == Confrontation
  {
    assert ToLower("") == "";
  }

  /** A phrase that begins with a word character can only match where a word begins. */
  lemma MatchStartsAWord(s: string, p: string, i: int)
    requires MatchAt(s, p, i) && |p| > 0 && IsWordChar(p[0])
    ensures s[i] == p[0] && (i == 0 || !IsWordChar(s[i - 1]))
  {
    assert s[i..i + |p|][0] == p[0];
  }
}
