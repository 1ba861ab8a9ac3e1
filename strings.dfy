/** Option, for values the screens read that may be absent (`null`/`undefined`). */
module Wrappers {
  datatype Option<+T> = None | Some(value: T)
}

/**
 * The three string operations the form screens apply to their input:
 * `String.prototype.trim`, `String.prototype.includes` (written `c in s`)
 * and `String.prototype.toLowerCase`, the last restricted to ASCII letters.
 */
module Strings {

  /** The characters `trim` removes: ECMAScript WhiteSpace and LineTerminator. */
  predicate IsWhiteSpace(c: char) {
    c == '\t' || c == '\n' || c == '\U{000B}' || c == '\U{000C}' || c == '\r' ||
    c == ' ' || c == '\U{00A0}' || c == '\U{1680}' ||
    ('\U{2000}' <= c <= '\U{200A}') ||
    c == '\U{2028}' || c == '\U{2029}' || c == '\U{202F}' || c == '\U{205F}' ||
    c == '\U{3000}' || c == '\U{FEFF}'
  }

  predicate AllWhiteSpace(s: string) {
    forall i :: 0 <= i < |s| ==> IsWhiteSpace(s[i])
  }

  /** `s` with its leading white space removed: the longest suffix not starting with white space. */
  function TrimStart(s: string): (r: string)
    ensures |r| <= |s| && r == s[|s| - |r|..]
    ensures r == [] || !IsWhiteSpace(r[0])
    ensures forall i :: 0 <= i < |s| - |r| ==> IsWhiteSpace(s[i])
  {
    if s != [] && IsWhiteSpace(s[0]) then TrimStart(s[1..]) else s
  }

  /** `s` with its trailing white space removed: the longest prefix not ending in white space. */
  function TrimEnd(s: string): (r: string)
    ensures |r| <= |s| && r == s[..|r|]
    ensures r == [] || !IsWhiteSpace(r[|r| - 1])
    ensures forall i :: |r| <= i < |s| ==> IsWhiteSpace(s[i])
  {
    if s != [] && IsWhiteSpace(s[|s| - 1]) then TrimEnd(s[..|s| - 1]) else s
  }

  /**
   * `s.trim()`, no longer than `s`; `TrimEmptyIff`, `TrimEdges`, `TrimKeeps`
   * and `TrimIdempotent` state what it keeps and what it removes.
   */
  function Trim(s: string): (r: string)
    ensures |r| <= |s|
  {
    TrimEnd(TrimStart(s))
  }

  /** `!s.trim()` holds exactly when `s` is empty or made only of white space. */
  lemma TrimEmptyIff(s: string)
    ensures Trim(s) == [] <==> AllWhiteSpace(s)
  {
  }

  /** `s.trim()` neither starts nor ends with white space. */
  lemma TrimEdges(s: string)
    ensures Trim(s) == [] || (!IsWhiteSpace(Trim(s)[0]) && !IsWhiteSpace(Trim(s)[|Trim(s)| - 1]))
  {
    var t := TrimStart(s);
    var r := TrimEnd(t);
    if r != [] {
      assert r[0] == t[0];
    }
  }

  /**
   * What `trim` leaves is `TrimStart(s)` without a white-space tail: `trim`
   * cuts only white space, and only at the two ends.
   */
  lemma TrimStartSplits(s: string)
    ensures TrimStart(s) == Trim(s) + TrimStart(s)[|Trim(s)|..]
    ensures AllWhiteSpace(TrimStart(s)[|Trim(s)|..])
  {
    var t := TrimStart(s);
    var r := TrimEnd(t);
    assert t == r + t[|r|..];
    forall k | 0 <= k < |t| - |r| ensures IsWhiteSpace(t[|r|..][k]) {
      assert t[|r|..][k] == t[|r| + k];
    }
  }

  /** A string with no white space at either end is its own trim. */
  lemma TrimOfTrimmed(s: string)
    requires s == [] || (!IsWhiteSpace(s[0]) && !IsWhiteSpace(s[|s| - 1]))
    ensures Trim(s) == s
  {
    if s != [] {
      assert TrimStart(s) == s;
      assert TrimEnd(s) == s;
    }
  }

  /** A character that is not white space survives `trim`, and `trim` adds none. */
  lemma TrimKeeps(s: string, c: char)
    requires !IsWhiteSpace(c)
    ensures c in s <==> c in Trim(s)
  {
    if c in s {
      var k :| 0 <= k < |s| && s[k] == c;
      TrimKeepsAt(s, k);
    }
    if c in Trim(s) {
      TrimAddsNothing(s, c);
    }
  }

  lemma TrimAddsNothing(s: string, c: char)
    requires c in Trim(s)
    ensures c in s
  {
    var t := TrimStart(s);
    var r := TrimEnd(t);
    var k :| 0 <= k < |r| && r[k] == c;
    assert t[k] == c;
    assert s[|s| - |t| + k] == c;
  }

  lemma TrimKeepsAt(s: string, k: int)
    requires 0 <= k < |s| && !IsWhiteSpace(s[k])
    ensures s[k] in Trim(s)
  {
    var t := TrimStart(s);
    var lead := |s| - |t|;
    assert k >= lead;
    var r := TrimEnd(t);
    assert t[k - lead] == s[k];
    assert k - lead < |r|;
    assert r[k - lead] == s[k];
  }

  /** Trimming a trimmed string changes nothing. */
  lemma TrimIdempotent(s: string)
    ensures Trim(Trim(s)) == Trim(s)
  {
    TrimEdges(s);
    TrimOfTrimmed(Trim(s));
  }

  /** `toLowerCase` on one character, for the ASCII range only. */
  function LowerChar(c: char): char {
    if 'A' <= c <= 'Z' then (c as int + 32) as char else c
  }

  /** `s.toLowerCase()`, ASCII letters only. */
  function ToLowerAscii(s: string): (r: string)
    ensures |r| == |s|
    ensures forall i :: 0 <= i < |s| ==> r[i] == LowerChar(s[i])
  {
    if s == [] then [] else [LowerChar(s[0])] + ToLowerAscii(s[1..])
  }

  predicate HasNoUpperAscii(s: string) {
    forall i :: 0 <= i < |s| ==> !('A' <= s[i] <= 'Z')
  }

  /** On one character: lower-casing is idempotent and moves only the letters 'A' to 'Z'. */
  lemma LowerCharFacts(c: char)
    ensures !('A' <= LowerChar(c) <= 'Z')
    ensures LowerChar(LowerChar(c)) == LowerChar(c)
    ensures LowerChar(c) == '@' <==> c == '@'
    ensures IsWhiteSpace(LowerChar(c)) <==> IsWhiteSpace(c)
  {
    if 'A' <= c <= 'Z' {
      assert 'a' <= LowerChar(c) <= 'z';
    }
  }

  /**
   * Lower-casing leaves no upper-case ASCII letter, keeps '@' exactly where
   * it was, keeps white space where it was, and is idempotent.
   */
  lemma ToLowerAsciiFacts(s: string)
    ensures HasNoUpperAscii(ToLowerAscii(s))
    ensures '@' in s <==> '@' in ToLowerAscii(s)
    ensures ToLowerAscii(ToLowerAscii(s)) == ToLowerAscii(s)
    ensures forall i :: 0 <= i < |s| ==> (IsWhiteSpace(ToLowerAscii(s)[i]) <==> IsWhiteSpace(s[i]))
  {
    var r := ToLowerAscii(s);
    forall i | 0 <= i < |s|
      ensures !('A' <= r[i] <= 'Z') && LowerChar(r[i]) == r[i]
      ensures (r[i] == '@' <==> s[i] == '@') && (IsWhiteSpace(r[i]) <==> IsWhiteSpace(s[i]))
    {
      LowerCharFacts(s[i]);
    }
    assert ToLowerAscii(r) == r;
    if '@' in r {
      var k :| 0 <= k < |r| && r[k] == '@';
      assert s[k] == '@';
    }
    if '@' in s {
      var k :| 0 <= k < |s| && s[k] == '@';
      assert r[k] == '@';
    }
  }
}
