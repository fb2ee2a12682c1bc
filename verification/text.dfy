/** What the submit handler does to the text the learner typed before it
    looks at it: the trim of `String.prototype.trim`, the upper-casing of an
    answer, and the answer test `/^[A-D]$/`. */
module TextInput {

  /** The code points `String.prototype.trim` strips: ECMAScript's WhiteSpace
      (tab, vertical tab, form feed, space, no-break space, byte order mark and
      the space separators) and LineTerminator (line feed, carriage return,
      line and paragraph separators). */
  predicate IsSpace(c: char) {
    c == '\t' || c == '\n' || c == '\U{000B}' || c == '\U{000C}' || c == '\r' ||
    c == ' ' || c == '\U{00A0}' || c == '\U{1680}' || ('\U{2000}' <= c <= '\U{200A}') ||
    c == '\U{2028}' || c == '\U{2029}' || c == '\U{202F}' || c == '\U{205F}' ||
    c == '\U{3000}' || c == '\U{FEFF}'
  }

  /** A text that is blank: every character is white space. */
  predicate AllSpace(s: string) {
    forall i :: 0 <= i < |s| ==> IsSpace(s[i])
  }

  /** `s` without its leading white space: a suffix of `s` that starts with
      a non-space, everything cut off being white space. */
  function TrimStart(s: string): (r: string)
    ensures |r| <= |s| && r == s[|s| - |r|..]
    ensures r == [] || !IsSpace(r[0])
    ensures AllSpace(s[..|s| - |r|])
  {
    if s != [] && IsSpace(s[0]) then TrimStart(s[1..]) else s
  }

  /** `s` without its trailing white space: a prefix of `s` that ends with a
      non-space, everything cut off being white space. */
  function TrimEnd(s: string): (r: string)
    ensures |r| <= |s| && r == s[..|r|]
    ensures r == [] || !IsSpace(r[|r| - 1])
    ensures AllSpace(s[|r|..])
  {
    if s != [] && IsSpace(s[|s| - 1]) then TrimEnd(s[..|s| - 1]) else s
  }

  /** `String.prototype.trim`: never longer than its input, empty exactly when
      the input is blank, and with no white space at either end. */
  function Trim(s: string): (r: string)
    ensures |r| <= |s|
    ensures r == [] <==> AllSpace(s)
    ensures r == [] || (!IsSpace(r[0]) && !IsSpace(r[|r| - 1]))
  {
    TrimBothEnds(s);
    TrimEnd(TrimStart(s))
  }

  /** Cutting both ends leaves nothing exactly when the input is blank, and
      what is left starts with a non-space. */
  lemma TrimBothEnds(s: string)
    ensures TrimEnd(TrimStart(s)) == [] <==> AllSpace(s)
    ensures TrimEnd(TrimStart(s)) == [] || !IsSpace(TrimEnd(TrimStart(s))[0])
  {
    var t := TrimStart(s);
    var r := TrimEnd(t);
    var k := |s| - |t|;
    assert t == s[k..];
    if r == [] {
      assert t == t[0..];
      forall i | 0 <= i < |s| ensures IsSpace(s[i]) {
        if i < k { assert s[i] == s[..k][i]; } else { assert s[i] == t[i - k]; }
      }
    } else {
      assert r[0] == t[0] == s[k];
    }
  }

  /** JavaScript's `toUpperCase` on one character, for the ASCII letters. */
  function UpperChar(c: char): char {
    if 'a' <= c <= 'z' then (c as int - 32) as char else c
  }

  /** `toUpperCase` on a string, character by character: each ASCII
      lower-case letter becomes its capital, every other character is kept, so
      no ASCII lower-case letter is left. */
  function Upper(s: string): (r: string)
    ensures |r| == |s|
    ensures forall i :: 0 <= i < |s| && 'a' <= s[i] <= 'z' ==> r[i] as int == s[i] as int - ('a' as int - 'A' as int)
    ensures forall i :: 0 <= i < |s| && !('a' <= s[i] <= 'z') ==> r[i] == s[i]
    ensures forall i :: 0 <= i < |r| ==> !('a' <= r[i] <= 'z')
  {
    seq(|s|, i requires 0 <= i < |s| => UpperChar(s[i]))
  }

  /** The answer test `/^[A-D]$/` (without the `m` flag `$` matches only at
      the end): the text is exactly one of "A", "B", "C", "D". */
  predicate IsAnswerLabel(s: string)
    ensures IsAnswerLabel(s) <==> s in {"A", "B", "C", "D"}
  {
    |s| == 1 && (assert s == [s[0]]; 'A' <= s[0] <= 'D')
  }

  /** The trimmed text is a contiguous piece of the input with only white
      space cut from both ends. */
  lemma TrimCutsOnlySpace(s: string) returns (k: nat)
    ensures k + |Trim(s)| <= |s|
    ensures Trim(s) == s[k..k + |Trim(s)|]
    ensures AllSpace(s[..k]) && AllSpace(s[k + |Trim(s)|..])
  {
    var t := TrimStart(s);
    var r := TrimEnd(t);
    k := |s| - |t|;
    PrefixOfSuffix(s, k, r);
  }

  /** A prefix `r` of the suffix of `s` from `k` on is the slice of `s` from
      `k`, and what follows it in that suffix is what follows it in `s`. */
  lemma PrefixOfSuffix(s: string, k: nat, r: string)
    requires k <= |s| && |r| <= |s| - k && r == s[k..][..|r|]
    ensures r == s[k..k + |r|]
    ensures s[k..][|r|..] == s[k + |r|..]
  {
  }

  /** Upper-casing and then testing `/^[A-D]$/` accepts exactly the eight
      one-letter answers a, b, c, d, A, B, C, D. */
  lemma AcceptedAnswers(s: string)
    ensures IsAnswerLabel(Upper(s)) <==> s in {"A", "B", "C", "D", "a", "b", "c", "d"}
  {
    if |s| == 1 {
      assert s == [s[0]];
      assert Upper(s)[0] == UpperChar(s[0]);
    }
  }
}
