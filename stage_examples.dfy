/**
 * The classifier on the utterances its authors use as examples. Utterances are
 * written as pieces joined together, so that the proofs reason about the pieces
 * rather than about every position of a long literal.
 */
module StageExamples {
  import opened StageClassifier

  /** Position i begins a word: a word character with none right before it. */
  predicate WordStartAt(s: string, i: int) {
    0 <= i < |s| && IsWordChar(s[i]) && (i == 0 || !IsWordChar(s[i - 1]))
  }

  /** A non-empty run of word characters. */
  predicate IsWord(w: string) {
    |w| > 0 && forall i :: 0 <= i < |w| ==> IsWordChar(w[i])
  }

  /** The words separated by single spaces. */
  function JoinWords(ws: seq<string>): string {
    if |ws| == 0 then ""
    else if |ws| == 1 then ws[0]
    else ws[0] + " " + JoinWords(ws[1..])
  }

  /** In words joined by spaces, every word start is the first character of one of the words. */
  lemma {:induction false} WordStartsOfJoin(ws: seq<string>, j: int)
    requires forall k :: 0 <= k < |ws| ==> IsWord(ws[k])
    requires WordStartAt(JoinWords(ws), j)
    ensures exists k :: 0 <= k < |ws| && |ws[k]| > 0 && JoinWords(ws)[j] == ws[k][0]
  {
    var s := JoinWords(ws);
    var w := ws[0];
    if |ws| == 1 {
      assert s[j] == ws[0][0];
    } else {
      var rest := JoinWords(ws[1..]);
      assert s == w + " " + rest;
      if j < |w| {
        assert s[j] == ws[0][0];
      } else if j > |w| {
        var j' := j - |w| - 1;
        assert s[j] == rest[j'];
        if j' > 0 {
          assert s[j - 1] == rest[j' - 1];
        }
        forall k | 0 <= k < |ws[1..]| ensures IsWord(ws[1..][k]) {
          assert ws[1..][k] == ws[k + 1];
        }
        WordStartsOfJoin(ws[1..], j');
        var k' :| 0 <= k' < |ws[1..]| && |ws[1..][k']| > 0 && rest[j'] == ws[1..][k'][0];
        assert ws[1..][k'] == ws[k' + 1];
      }
    }
  }

  /**
   * A phrase can only match where a word begins, so no phrase matches in words joined
   * by spaces when no phrase begins with the first character of any of the words.
   */
  lemma NoPhraseInWords(ws: seq<string>, ps: seq<string>)
    requires forall k :: 0 <= k < |ws| ==> IsWord(ws[k])
    requires forall m :: 0 <= m < |ps| ==> |ps[m]| > 0 && IsWordChar(ps[m][0])
    requires forall k, m :: 0 <= k < |ws| && 0 <= m < |ps| && |ws[k]| > 0 && |ps[m]| > 0
               ==> ws[k][0] != ps[m][0]
    ensures !ContainsAnyWord(JoinWords(ws), ps)
  {
    var s := JoinWords(ws);
    forall m, j | 0 <= m < |ps| && MatchAt(s, ps[m], j) ensures false {
      MatchStartsAWord(s, ps[m], j);
      WordStartsOfJoin(ws, j);
    }
  }

  /** `\bp\b` matches at the start of p + rest when rest does not continue p's last word. */
  lemma MatchAtFront(p: string, rest: string)
    requires WordDelimited(p)
    requires rest != [] ==> !IsWordChar(rest[0])
    ensures MatchAt(p + rest, p, 0)
  {
    assert (p + rest)[..|p|] == p;
  }

  /** `\bp\b` matches right after pre when pre ends outside a word. */
  lemma MatchAfter(pre: string, p: string, rest: string)
    requires WordDelimited(p)
    requires pre != [] ==> !IsWordChar(pre[|pre| - 1])
    requires rest != [] ==> !IsWordChar(rest[0])
    ensures MatchAt(pre + p + rest, p, |pre|)
  {
    assert (pre + p + rest)[|pre|..|pre| + |p|] == p;
  }

  lemma ToLowerAppend(a: string, b: string)
    ensures ToLower(a + b) == ToLower(a) + ToLower(b)
  {
  }

  lemma LowerThankYouComma()
    ensures ToLower("thank you, ") == "thank you, "
  {
  }

  lemma LowerIThink()
    ensures ToLower("I think") == "i think"
  {
  }

  /** The release example, lower-cased piece by piece. */
  lemma ThankYouLowered(u: string)
    requires u == "thank you, " + "I think" + " I finally understand"
    ensures Lowered([u]) == "thank you" + ", " + "i think" + ToLower(" I finally understand")
  {
    var a, c, d := "thank you, ", "I think", " I finally understand";
    assert LastUtterance([u]) == u;
    ToLowerAppend(a + c, d);
    ToLowerAppend(a, c);
    LowerThankYouComma();
    LowerIThink();
    assert "thank you, " == "thank you" + ", ";
  }

  /** Both phrases occur in the lower-cased release example. */
  lemma ThankYouAndIThink(s: string, rest: string)
    requires s == "thank you" + ", " + "i think" + rest
    requires rest != [] && rest[0] == ' '
    ensures MatchAt(s, ReleasePhrases[0], 0)
    ensures MatchAt(s, ReflectionPhrases[3], 11)
  {
    assert s == "thank you" + (", " + "i think" + rest);
    MatchAtFront("thank you", ", " + "i think" + rest);
    assert s == ("thank you" + ", ") + "i think" + rest;
    MatchAfter("thank you" + ", ", "i think", rest);
  }

  lemma ThankYouPieces(u: string)
    requires u == "thank you, I think I finally understand"
    ensures u == "thank you, " + "I think" + " I finally understand"
  {
  }

  lemma FinallyUnderstandLowered()
    ensures var rest := ToLower(" I finally understand"); rest != [] && rest[0] == ' '
  {
  }

  /**
   * "thank you, I think I finally understand" contains a reflection phrase ("i think")
   * as well as a release phrase ("thank you"), and gives release.
   */
  lemma ReleaseBeatsReflection(u: string)
    requires u == "thank you, I think I finally understand"
    ensures ContainsAnyWord(Lowered([u]), ReflectionPhrases)
    ensures NextStageFromTranscript([u]) == Release
  {
    ThankYouPieces(u);
    ThankYouLowered(u);
    FinallyUnderstandLowered();
    ThankYouAndIThink(Lowered([u]), ToLower(" I finally understand"));
  }

  /** The utterance "you always ruined everything", word by word. */
  const AlwaysWords: seq<string> := ["you", "always", "ruined", "everything"]

  lemma JoinRuinedEverything()
    ensures JoinWords(["ruined", "everything"]) == "ruined everything"
  {
    assert ["ruined", "everything"][1..] == ["everything"];
  }

  lemma JoinAlwaysRuinedEverything()
    ensures JoinWords(["always", "ruined", "everything"]) == "always ruined everything"
  {
    assert ["always", "ruined", "everything"][1..] == ["ruined", "everything"];
    JoinRuinedEverything();
  }

  lemma AlwaysUtterance()
    ensures JoinWords(AlwaysWords) == "you always ruined everything"
  {
    assert AlwaysWords[1..] == ["always", "ruined", "everything"];
    JoinAlwaysRuinedEverything();
  }

  lemma AlwaysAreWords()
    ensures forall k :: 0 <= k < |AlwaysWords| ==> IsWord(AlwaysWords[k])
  {
    assert IsWord("you") && IsWord("always") && IsWord("ruined") && IsWord("everything");
  }

  lemma AlwaysIsLowerCase(u: string)
    requires u == "you always ruined everything"
    ensures ToLower(u) == u
  {
    ToLowerAppend("you always", " ruined everything");
    assert ToLower("you always") == "you always";
    assert ToLower(" ruined everything") == " ruined everything";
  }

  lemma AlwaysHasNoReleaseOrReflection(u: string)
    requires u == "you always ruined everything"
    ensures !ContainsAnyWord(u, ReleasePhrases)
    ensures !ContainsAnyWord(u, ReflectionPhrases)
  {
    AlwaysUtterance();
    AlwaysAreWords();
    PhrasesAreWordDelimited();
    NoPhraseInWords(AlwaysWords, ReleasePhrases);
    NoPhraseInWords(AlwaysWords, ReflectionPhrases);
  }

  lemma AlwaysHasAlways(u: string)
    requires u == "you always ruined everything"
    ensures ContainsAnyWord(u, ConfrontationPhrases)
  {
    assert u == "you " + "always" + " ruined everything";
    MatchAfter("you ", "always", " ruined everything");
    assert MatchAt(u, ConfrontationPhrases[2], 4);
  }

  /** "you always ruined everything" matches only the confrontation rule ("always"). */
  lemma AlwaysGivesConfrontation(u: string)
    requires u == "you always ruined everything"
    ensures NextStageFromTranscript([u]) == Confrontation
  {
    assert LastUtterance([u]) == u;
    AlwaysIsLowerCase(u);
    AlwaysHasNoReleaseOrReflection(u);
    AlwaysHasAlways(u);
  }

  /** "hallways" does not match "always": the phrase sits inside a word. */
  lemma HallwaysIsNotAlways()
    ensures !ContainsWord("hallways", "always")
  {
    forall j | MatchAt("hallways", "always", j) ensures false {
      MatchStartsAWord("hallways", "always", j);
    }
  }
}
