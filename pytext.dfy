/**
 * The handful of Python `str` operations the pipeline relies on: `strip()`,
 * `startswith`, `endswith`, `split('\n')`, `replace(old, '')` and `str(int)`,
 * each written out so that the rule-text and log-line logic above it can be
 * reasoned about character by character.
 */
module PyText {

  /** Python's `str.isspace()` for one character (the characters `strip()` removes). */
  predicate IsSpace(c: char) {
    || c == ' '
    || ('\t' <= c <= '\r')
    || ('\U{1c}' <= c <= '\U{1f}')
    || c == '\U{85}' || c == '\U{a0}' || c == '\U{1680}'
    || ('\U{2000}' <= c <= '\U{200a}')
    || c == '\U{2028}' || c == '\U{2029}' || c == '\U{202f}' || c == '\U{205f}' || c == '\U{3000}'
  }

  /** `s.lstrip()`: drops the longest all-whitespace prefix. */
  function StripLeft(s: string): (r: string)
    ensures |r| <= |s| && r == s[|s| - |r|..]
    ensures forall i :: 0 <= i < |s| - |r| ==> IsSpace(s[i])
    ensures r == [] || !IsSpace(r[0])
  {
    if s != [] && IsSpace(s[0]) then StripLeft(s[1..]) else s
  }

  /** `s.rstrip()`: drops the longest all-whitespace suffix. */
  function StripRight(s: string): (r: string)
    ensures |r| <= |s| && r == s[..|r|]
    ensures forall i :: |r| <= i < |s| ==> IsSpace(s[i])
    ensures r == [] || !IsSpace(r[|r| - 1])
  {
    if s != [] && IsSpace(s[|s| - 1]) then StripRight(s[..|s| - 1]) else s
  }

  /** `s.strip()`: a slice of `s` that neither starts nor ends with whitespace. */
  function Strip(s: string): (r: string)
    ensures |r| <= |s|
    ensures r == [] || (!IsSpace(r[0]) && !IsSpace(r[|r| - 1]))
  {
    StripRight(StripLeft(s))
  }

  predicate StartsWith(s: string, prefix: string) {
    |prefix| <= |s| && s[..|prefix|] == prefix
  }

  predicate EndsWith(s: string, suffix: string) {
    |suffix| <= |s| && s[|s| - |suffix|..] == suffix
  }

  /** `s.startswith(tuple(prefixes))`. */
  predicate StartsWithAny(s: string, prefixes: seq<string>) {
    exists k :: 0 <= k < |prefixes| && StartsWith(s, prefixes[k])
  }

  /** Stripping a string that already has no whitespace at either end changes nothing. */
  lemma StripTrimmed(s: string)
    requires s == [] || (!IsSpace(s[0]) && !IsSpace(s[|s| - 1]))
    ensures Strip(s) == s
  {
  }

  /** Stripping only removes characters: whatever is left was in `s`. */
  lemma StripChars(s: string)
    ensures forall i :: 0 <= i < |Strip(s)| ==> Strip(s)[i] in s
  {
    var l := StripLeft(s);
    forall i | 0 <= i < |Strip(s)|
      ensures Strip(s)[i] in s
    {
      assert Strip(s)[i] == l[i] == s[|s| - |l| + i];
    }
  }

  /** Stripping keeps a leading word that holds no whitespace. */
  lemma StripKeepsPrefix(s: string, word: string)
    requires StartsWith(s, word) && word != []
    requires forall i :: 0 <= i < |word| ==> !IsSpace(word[i])
    ensures StartsWith(Strip(s), word)
  {
    assert s[0] == word[0] && s[|word| - 1] == word[|word| - 1];
  }

  // ---------------------------------------------------------------------
  // split('\n') and its inverse

  /** `s.split(sep)` for a one-character separator: never empty, no piece holds `sep`. */
  function Split(s: string, sep: char): (parts: seq<string>)
    ensures |parts| >= 1
    ensures forall k :: 0 <= k < |parts| ==> sep !in parts[k]
  {
    if s == [] then [[]]
    else
      var rest := Split(s[1..], sep);
      if s[0] == sep then [[]] + rest
      else [[s[0]] + rest[0]] + rest[1..]
  }

  /** `sep.join(parts)`. */
  function Join(parts: seq<string>, sep: char): string
    requires |parts| >= 1
  {
    if |parts| == 1 then parts[0] else parts[0] + [sep] + Join(parts[1..], sep)
  }

  /** Splitting loses nothing: joining the pieces gives the text back. */
  lemma {:induction false} JoinSplit(s: string, sep: char)
    ensures Join(Split(s, sep), sep) == s
  {
    if s != [] {
      var rest := Split(s[1..], sep);
      JoinSplit(s[1..], sep);
      if s[0] == sep {
        assert ([[]] + rest)[1..] == rest;
      } else {
        var parts := [[s[0]] + rest[0]] + rest[1..];
        assert parts[1..] == rest[1..];
        if |rest| > 1 {
          assert Join(rest, sep) == rest[0] + [sep] + Join(rest[1..], sep);
        }
      }
    }
  }

  // ---------------------------------------------------------------------
  // replace('```', '')

  /** The markdown code fence that rule extraction deletes. */
  const Fence: string := "```"

  /** `s.replace(pat, '')`: scans left to right, deleting non-overlapping occurrences. */
  function Remove(s: string, pat: string): (r: string)
    requires pat != []
    ensures |r| <= |s|
    ensures forall i :: 0 <= i < |r| ==> r[i] in s
    decreases |s|
  {
    if |s| < |pat| then s
    else if s[..|pat|] == pat then Remove(s[|pat|..], pat)
    else [s[0]] + Remove(s[1..], pat)
  }

  /** No three backticks in a row anywhere in `s`. */
  predicate FenceFree(s: string) {
    forall i :: 0 <= i && i + 2 < |s| ==> !(s[i] == '`' && s[i + 1] == '`' && s[i + 2] == '`')
  }

  lemma LeadingTick(s: string)
    requires |Remove(s, Fence)| >= 1 && Remove(s, Fence)[0] == '`'
    ensures |s| >= 1 && s[0] == '`'
  {
  }

  lemma LeadingTicks(s: string)
    requires |Remove(s, Fence)| >= 2 && Remove(s, Fence)[0] == '`' && Remove(s, Fence)[1] == '`'
    ensures |s| >= 2 && s[0] == '`' && s[1] == '`'
  {
    if |s| >= 3 && s[..3] != Fence {
      LeadingTick(s[1..]);
    }
  }

  /** Deleting every fence leaves none behind, even where deletion brings backticks together. */
  lemma {:induction false} RemoveLeavesNoFence(s: string)
    ensures FenceFree(Remove(s, Fence))
  {
    if |s| >= 3 {
      if s[..3] == Fence {
        RemoveLeavesNoFence(s[3..]);
      } else {
        var rest := Remove(s[1..], Fence);
        RemoveLeavesNoFence(s[1..]);
        var r := [s[0]] + rest;
        assert s[..3] == [s[0], s[1], s[2]];
        forall i | 0 <= i && i + 2 < |r|
          ensures !(r[i] == '`' && r[i + 1] == '`' && r[i + 2] == '`')
        {
          if i == 0 {
            if rest[0] == '`' && rest[1] == '`' {
              LeadingTicks(s[1..]);
            }
          } else {
            assert r[i] == rest[i - 1] && r[i + 1] == rest[i] && r[i + 2] == rest[i + 1];
          }
        }
      }
    }
  }

  /** On a fence-free string the deletion does nothing. */
  lemma {:induction false} RemoveFenceFree(s: string)
    requires FenceFree(s)
    ensures Remove(s, Fence) == s
  {
    if |s| >= 3 {
      assert s[..3] != Fence by {
        assert !(s[0] == '`' && s[1] == '`' && s[2] == '`');
      }
      assert FenceFree(s[1..]) by {
        forall i | 0 <= i && i + 2 < |s[1..]|
          ensures !(s[1..][i] == '`' && s[1..][i + 1] == '`' && s[1..][i + 2] == '`')
        {
          assert s[1..][i] == s[i + 1] && s[1..][i + 1] == s[i + 2] && s[1..][i + 2] == s[i + 3];
        }
      }
      RemoveFenceFree(s[1..]);
    }
  }

  /** A leading word without backticks survives the deletion. */
  lemma {:induction false} RemoveKeepsPrefix(s: string, word: string)
    requires StartsWith(s, word)
    requires '`' !in word
    ensures StartsWith(Remove(s, Fence), word)
  {
    if word != [] {
      assert s[0] == word[0];
      if |s| >= 3 {
        assert s[..3] != Fence by { assert s[..3][0] == s[0]; }
        RemoveKeepsPrefix(s[1..], word[1..]);
        assert Remove(s, Fence) == [s[0]] + Remove(s[1..], Fence);
      }
    }
  }

  /** Any slice of a fence-free string is fence-free. */
  lemma FenceFreeSlice(s: string, lo: nat, hi: nat)
    requires FenceFree(s) && lo <= hi <= |s|
    ensures FenceFree(s[lo..hi])
  {
    var t := s[lo..hi];
    forall i | 0 <= i && i + 2 < |t|
      ensures !(t[i] == '`' && t[i + 1] == '`' && t[i + 2] == '`')
    {
      assert t[i] == s[lo + i] && t[i + 1] == s[lo + i + 1] && t[i + 2] == s[lo + i + 2];
    }
  }

  /** Stripping never creates a fence. */
  lemma {:induction false} StripKeepsFenceFree(s: string)
    requires FenceFree(s)
    ensures FenceFree(Strip(s))
  {
    var l := StripLeft(s);
    var r := StripRight(l);
    var a := |s| - |l|;
    assert FenceFree(l) by {
      FenceFreeSlice(s, a, |s|);
      assert s[a..|s|] == l;
    }
    assert FenceFree(r) by {
      FenceFreeSlice(l, 0, |r|);
      assert l[0..|r|] == r;
    }
  }

  // ---------------------------------------------------------------------
  // str(int)

  function DigitChar(d: nat): (c: char)
    requires d < 10
    ensures '0' <= c <= '9'
  {
    (48 + d) as char
  }

  /** `str(n)` for a natural number: decimal digits, most significant first. */
  function NatToString(n: nat): (r: string)
    ensures r != []
    ensures forall i :: 0 <= i < |r| ==> '0' <= r[i] <= '9'
  {
    if n < 10 then [DigitChar(n)] else NatToString(n / 10) + [DigitChar(n % 10)]
  }

  /** `str(i)` for any Python int. */
  function IntToString(i: int): string {
    if i < 0 then "-" + NatToString(-i) else NatToString(i)
  }

  /** `int(s)` for a string of decimal digits. */
  function DigitsValue(s: string): nat
    requires forall i :: 0 <= i < |s| ==> '0' <= s[i] <= '9'
  {
    if s == [] then 0 else 10 * DigitsValue(s[..|s| - 1]) + (s[|s| - 1] as int - 48)
  }

  /** Reading the decimal text back gives the number: `int(str(n)) == n`. */
  lemma {:induction false} DigitsRoundTrip(n: nat)
    ensures DigitsValue(NatToString(n)) == n
  {
    if n >= 10 {
      DigitsRoundTrip(n / 10);
      var r := NatToString(n);
      assert r[..|r| - 1] == NatToString(n / 10);
    }
  }
}
