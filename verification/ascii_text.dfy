/** Ordinal, case-insensitive substring search over ASCII, as
    `string.Contains(value, StringComparison.OrdinalIgnoreCase)` performs it
    on the ASCII MIME strings the bot looks for. */
module AsciiText {

  /** Simple upper-case mapping of one character; only `a`..`z` change. */
  function UpperAscii(c: char): char
  {
    if 'a' <= c <= 'z' then (c as int - 32) as char else c
  }

  /** Two characters are equal under ordinal case-insensitive comparison. */
  predicate EqualsIgnoreCase(c: char, d: char)
  {
    UpperAscii(c) == UpperAscii(d)
  }

  /** The whole string upper-cased, character by character. */
  function UpperString(s: string): (u: string)
    ensures |u| == |s|
    ensures forall i :: 0 <= i < |s| ==> u[i] == UpperAscii(s[i])
  {
    seq(|s|, i requires 0 <= i < |s| => UpperAscii(s[i]))
  }

  /** `hay` begins with `needle`, ignoring case. */
  predicate StartsWithIgnoreCase(hay: string, needle: string)
  {
    |needle| <= |hay| && forall i :: 0 <= i < |needle| ==> EqualsIgnoreCase(hay[i], needle[i])
  }

  /** `needle` occurs in `hay` at offset `k`, ignoring case. */
  ghost predicate MatchesAt(hay: string, needle: string, k: int)
  {
    0 <= k && k + |needle| <= |hay| &&
    forall i :: 0 <= i < |needle| ==> EqualsIgnoreCase(hay[k + i], needle[i])
  }

  /** Scans `hay` from the left for an occurrence of `needle`, ignoring
      case. An empty needle is contained in every string. */
  function ContainsIgnoreCase(hay: string, needle: string): bool
    decreases |hay|
  {
    if |hay| < |needle| then false
    else StartsWithIgnoreCase(hay, needle) || ContainsIgnoreCase(hay[1..], needle)
  }

  /** The scan finds a match exactly when some offset matches. */
  lemma {:induction false} ContainsIgnoreCaseSpec(hay: string, needle: string)
    ensures ContainsIgnoreCase(hay, needle) <==> exists k :: MatchesAt(hay, needle, k)
    decreases |hay|
  {
    if |hay| < |needle| {
      assert forall k :: !MatchesAt(hay, needle, k);
    } else if StartsWithIgnoreCase(hay, needle) {
      assert MatchesAt(hay, needle, 0);
    } else {
      assert !MatchesAt(hay, needle, 0);
      ContainsIgnoreCaseSpec(hay[1..], needle);
      if exists k :: MatchesAt(hay[1..], needle, k) {
        var k :| MatchesAt(hay[1..], needle, k);
        assert MatchesAt(hay, needle, k + 1);
      }
      if exists k :: MatchesAt(hay, needle, k) {
        var k :| MatchesAt(hay, needle, k);
        assert MatchesAt(hay[1..], needle, k - 1);
      }
    }
  }

  /** A match needs at least as many characters as the needle has. */
  lemma ContainsIgnoreCaseLength(hay: string, needle: string)
    ensures ContainsIgnoreCase(hay, needle) ==> |needle| <= |hay|
  {
    ContainsIgnoreCaseSpec(hay, needle);
  }

  /** Upper-casing is idempotent on a single character. */
  lemma UpperAsciiIdempotent(c: char)
    ensures UpperAscii(UpperAscii(c)) == UpperAscii(c)
  {
  }

  lemma MatchesAtUpperHay(hay: string, needle: string, k: int)
    ensures MatchesAt(UpperString(hay), needle, k) <==> MatchesAt(hay, needle, k)
  {
    var u := UpperString(hay);
    if 0 <= k && k + |needle| <= |hay| {
      forall i | 0 <= i < |needle|
        ensures EqualsIgnoreCase(u[k + i], needle[i]) <==> EqualsIgnoreCase(hay[k + i], needle[i])
      {
        UpperAsciiIdempotent(hay[k + i]);
      }
    }
  }

  lemma MatchesAtUpperNeedle(hay: string, needle: string, k: int)
    ensures MatchesAt(hay, UpperString(needle), k) <==> MatchesAt(hay, needle, k)
  {
    var u := UpperString(needle);
    if 0 <= k && k + |needle| <= |hay| {
      forall i | 0 <= i < |needle|
        ensures EqualsIgnoreCase(hay[k + i], u[i]) <==> EqualsIgnoreCase(hay[k + i], needle[i])
      {
        UpperAsciiIdempotent(needle[i]);
      }
    }
  }

  /** Case does not matter: upper-casing the haystack never changes whether
      the needle is found. */
  lemma ContainsIgnoreCaseUpper(hay: string, needle: string)
    ensures ContainsIgnoreCase(UpperString(hay), needle) == ContainsIgnoreCase(hay, needle)
  {
    ContainsIgnoreCaseSpec(hay, needle);
    ContainsIgnoreCaseSpec(UpperString(hay), needle);
    forall k ensures MatchesAt(UpperString(hay), needle, k) <==> MatchesAt(hay, needle, k) {
      MatchesAtUpperHay(hay, needle, k);
    }
  }

  /** Case does not matter on the needle's side either. */
  lemma ContainsIgnoreCaseUpperNeedle(hay: string, needle: string)
    ensures ContainsIgnoreCase(hay, UpperString(needle)) == ContainsIgnoreCase(hay, needle)
  {
    ContainsIgnoreCaseSpec(hay, needle);
    ContainsIgnoreCaseSpec(hay, UpperString(needle));
    forall k ensures MatchesAt(hay, UpperString(needle), k) <==> MatchesAt(hay, needle, k) {
      MatchesAtUpperNeedle(hay, needle, k);
    }
  }

  /** Extra text around an occurrence does not hide it: the search is a
      substring search, not an equality test. */
  lemma ContainsIgnoreCaseInfix(prefix: string, needle: string, suffix: string)
    ensures ContainsIgnoreCase(prefix + needle + suffix, needle)
  {
    var hay := prefix + needle + suffix;
    assert MatchesAt(hay, needle, |prefix|) by {
      forall i | 0 <= i < |needle| ensures hay[|prefix| + i] == needle[i] {
      }
    }
    ContainsIgnoreCaseSpec(hay, needle);
  }
}
