/**
  String helpers the scripts use through the .NET string API, on `seq<char>` with
  ordinal (code-unit) comparison.
 */
module Text {

  /** String.StartsWith, ordinal. */
  predicate StartsWith(s: string, prefix: string) {
    |prefix| <= |s| && s[..|prefix|] == prefix
  }

  /** String.EndsWith, ordinal. */
  predicate EndsWith(s: string, suffix: string) {
    |suffix| <= |s| && s[|s| - |suffix|..] == suffix
  }

  /** String.Contains: `sub` occurs in `s` as a contiguous run. */
  predicate Contains(s: string, sub: string)
    decreases |s|
  {
    StartsWith(s, sub) || (|s| > 0 && Contains(s[1..], sub))
  }

  /** An occurrence at position `i` makes `Contains` true. */
  lemma {:induction false} ContainsAt(s: string, sub: string, i: nat)
    requires i + |sub| <= |s| && s[i..i + |sub|] == sub
    ensures Contains(s, sub)
    decreases i
  {
    if i == 0 {
      assert s[..|sub|] == sub;
    } else {
      assert s[1..][i - 1..i - 1 + |sub|] == s[i..i + |sub|];
      ContainsAt(s[1..], sub, i - 1);
    }
  }

  /** A string never contains a longer one. */
  lemma {:induction false} ContainsNoLonger(s: string, sub: string)
    requires Contains(s, sub)
    ensures |sub| <= |s|
    decreases |s|
  {
    if !StartsWith(s, sub) {
      ContainsNoLonger(s[1..], sub);
    }
  }

  /** char.ToUpper restricted to ASCII letters. */
  function UpperChar(c: char): char {
    if 'a' <= c <= 'z' then (c as int - 32) as char else c
  }

  /** String.ToUpper restricted to ASCII letters. */
  function ToUpper(s: string): (r: string)
    ensures |r| == |s|
  {
    seq(|s|, i requires 0 <= i < |s| => UpperChar(s[i]))
  }

  /** No lower-case ASCII letter: a word ToUpper leaves as it is. */
  predicate NoLower(t: string) {
    forall i :: 0 <= i < |t| ==> !('a' <= t[i] <= 'z')
  }

  /** One character upper-cases to `u` exactly when it is `u` or, for a capital
      letter `u`, its lower-case form. */
  lemma UpperCharMatches(c: char, u: char)
    requires !('a' <= u <= 'z')
    ensures UpperChar(c) == u <==> c == u || ('A' <= u <= 'Z' && c == (u as int + 32) as char)
  {
  }

  /** A string upper-cases to a word without lower-case letters exactly when it is
      that word with each letter in either case ("reset", "Reset", "RESET"). */
  lemma ToUpperMatches(s: string, t: string)
    requires NoLower(t)
    ensures ToUpper(s) == t <==>
      |s| == |t| && forall i :: 0 <= i < |s| ==> s[i] == t[i] || ('A' <= t[i] <= 'Z' && s[i] == (t[i] as int + 32) as char)
  {
    if |s| == |t| {
      forall i | 0 <= i < |s|
        ensures UpperChar(s[i]) == t[i] <==> s[i] == t[i] || ('A' <= t[i] <= 'Z' && s[i] == (t[i] as int + 32) as char)
      {
        UpperCharMatches(s[i], t[i]);
      }
      if ToUpper(s) == t {
        assert forall i :: 0 <= i < |s| ==> UpperChar(s[i]) == ToUpper(s)[i];
      }
    }
  }

  /** A run of `n` blanks. */
  function Spaces(n: nat): (r: string)
    ensures |r| == n && forall i :: 0 <= i < n ==> r[i] == ' '
  {
    seq(n, _ => ' ')
  }

  /** String.PadRight(n): blanks appended up to width `n`; never shortens. */
  function PadRight(s: string, n: nat): (r: string)
    ensures |r| == if |s| >= n then |s| else n
    ensures r[..|s|] == s
    ensures forall i :: |s| <= i < |r| ==> r[i] == ' '
  {
    if |s| >= n then s else s + Spaces(n - |s|)
  }

  /** `s.Length > n ? s.Substring(0, n) : s`: the first `n` characters at most. */
  function Truncate(s: string, n: nat): (r: string)
    ensures |r| <= n && |r| <= |s| && r == s[..|r|]
    ensures |s| <= n ==> r == s
    ensures |s| > n ==> |r| == n
  {
    if |s| > n then s[..n] else s
  }
}
