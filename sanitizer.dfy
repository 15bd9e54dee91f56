/**
 * Text clamping: remove every NUL character, then cut the rest down to at most
 * `max` characters.
 */
module Sanitizer {

  const NUL: char := '\0'

  /** The default limit when the caller passes none. */
  const DefaultMax: nat := 2000

  /** The input with every NUL removed, all other characters kept in order. */
  function StripNul(s: string): (r: string)
    ensures NUL !in r
    ensures |r| <= |s|
  {
    if s == [] then []
    else (if s[0] == NUL then [] else [s[0]]) + StripNul(s[1..])
  }

  /**
   * clampText: strip NULs, then keep the first `max` characters when the stripped
   * text is longer than `max`.
   */
  function ClampText(input: string, max: nat := DefaultMax): (r: string)
    ensures NUL !in r
    ensures |r| <= max
    ensures r <= StripNul(input)
    ensures |StripNul(input)| <= max ==> r == StripNul(input)
    ensures |StripNul(input)| > max ==> |r| == max
  {
    var safe := StripNul(input);
    if |safe| > max then safe[..max] else safe
  }

  /** Removing NULs commutes with concatenation, so the kept characters keep their order. */
  lemma {:induction false} StripNulAppend(a: string, b: string)
    ensures StripNul(a + b) == StripNul(a) + StripNul(b)
  {
    if a == [] {
      assert a + b == b;
    } else {
      assert (a + b)[0] == a[0];
      assert (a + b)[1..] == a[1..] + b;
      StripNulAppend(a[1..], b);
    }
  }

  /** Every character other than NUL occurs in the output exactly as often as in the input. */
  lemma {:induction false} StripNulCounts(s: string, c: char)
    requires c != NUL
    ensures multiset(StripNul(s))[c] == multiset(s)[c]
  {
    if s != [] {
      StripNulCounts(s[1..], c);
      assert s == [s[0]] + s[1..];
    }
  }

  /** Text without NULs is left as it is, and only such text is. */
  lemma {:induction false} StripNulFixpoint(s: string)
    ensures StripNul(s) == s <==> NUL !in s
  {
    if s != [] {
      StripNulFixpoint(s[1..]);
      if s[0] == NUL {
        assert |StripNul(s)| < |s|;
      } else {
        assert s == [s[0]] + s[1..];
      }
    }
  }

  /** Clamping twice with the same limit is the same as clamping once. */
  lemma ClampIdempotent(s: string, max: nat)
    ensures ClampText(ClampText(s, max), max) == ClampText(s, max)
  {
    var once := ClampText(s, max);
    StripNulFixpoint(once);
  }
}
