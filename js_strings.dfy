/**
 * The ECMAScript string operations the components rely on:
 * String.prototype.trim, String.prototype.toLowerCase (ASCII letters only)
 * and String.prototype.includes, each with an independent characterisation.
 */
module JsStrings {

  /**
   * The WhiteSpace and LineTerminator code points of ECMAScript (ECMA-262,
   * 2022 edition, sections 12.2 and 12.3): TAB, VT, FF, ZWNBSP, the space
   * separators of Unicode category Zs, LF, CR, LS and PS. Both `trim` and
   * `parseInt` strip exactly these.
   */
  predicate IsWhiteSpace(c: char) {
    || c == '\t' || c == '\n' || c == '\U{000B}' || c == '\U{000C}' || c == '\r'
    || c == ' ' || c == '\U{00A0}' || c == '\U{1680}'
    || ('\U{2000}' <= c <= '\U{200A}')
    || c == '\U{2028}' || c == '\U{2029}' || c == '\U{202F}' || c == '\U{205F}'
    || c == '\U{3000}' || c == '\U{FEFF}'
  }

  /** The length of the longest prefix of `s` whose characters all satisfy `p`. */
  function LeadingRun(s: string, p: char -> bool): (n: nat)
    ensures n <= |s|
    ensures forall i :: 0 <= i < n ==> p(s[i])
    ensures n < |s| ==> !p(s[n])
  {
    if s == [] || !p(s[0]) then 0 else 1 + LeadingRun(s[1..], p)
  }

  /** The length of the longest suffix of `s` whose characters all satisfy `p`. */
  function TrailingRun(s: string, p: char -> bool): (n: nat)
    ensures n <= |s|
    ensures forall i :: |s| - n <= i < |s| ==> p(s[i])
    ensures n < |s| ==> !p(s[|s| - 1 - n])
  {
    if s == [] || !p(s[|s| - 1]) then 0 else 1 + TrailingRun(s[..|s| - 1], p)
  }

  /** A run is determined by its two defining properties. */
  lemma LeadingRunIs(s: string, p: char -> bool, k: nat)
    requires k <= |s|
    requires forall i :: 0 <= i < k ==> p(s[i])
    requires k < |s| ==> !p(s[k])
    ensures LeadingRun(s, p) == k
  {
  }

  /** `s` with its leading white space removed (the first step of `parseInt`). */
  function TrimStart(s: string): string {
    s[LeadingRun(s, IsWhiteSpace)..]
  }

  /** TrimStart keeps a suffix of `s`, drops only white space, and starts with no white space. */
  lemma TrimStartRemovesLeadingWhiteSpace(s: string)
    ensures var r := TrimStart(s);
      && |r| <= |s| && r == s[|s| - |r|..]
      && (forall i :: 0 <= i < |s| - |r| ==> IsWhiteSpace(s[i]))
      && (r == [] || !IsWhiteSpace(r[0]))
  {
  }

  /** String.prototype.trim: leading, then trailing white space removed. */
  function Trim(s: string): (r: string)
    ensures r == [] || (!IsWhiteSpace(r[0]) && !IsWhiteSpace(r[|r| - 1]))
    ensures IsInfix(s, r)
    ensures exists a: nat :: (OccursAt(s, r, a)
                              && (forall i :: 0 <= i < a ==> IsWhiteSpace(s[i]))
                              && (forall i :: a + |r| <= i < |s| ==> IsWhiteSpace(s[i])))
  {
    var a := LeadingRun(s, IsWhiteSpace);
    var t := TrimStart(s);
    var r := t[..|t| - TrailingRun(t, IsWhiteSpace)];
    assert OccursAt(s, r, a) by {
      assert s[a..][..|r|] == r;
    }
    assert forall i :: a + |r| <= i < |s| ==> s[i] == t[i - a];
    r
  }

  /** A string trims to "" exactly when every one of its characters is white space. */
  lemma {:induction false} TrimIsEmptyIffBlank(s: string)
    ensures Trim(s) == [] <==> forall i :: 0 <= i < |s| ==> IsWhiteSpace(s[i])
  {
    var k := LeadingRun(s, IsWhiteSpace);
    var t := s[k..];
    if forall i :: 0 <= i < |s| ==> IsWhiteSpace(s[i]) {
      LeadingRunIs(s, IsWhiteSpace, |s|);
      assert t == [];
    } else {
      var j :| 0 <= j < |s| && !IsWhiteSpace(s[j]);
      assert k < |s|;
      assert !IsWhiteSpace(t[0]);
      assert TrailingRun(t, IsWhiteSpace) < |t|;
    }
  }

  /** ASCII `toLowerCase` of one character. */
  function LowerChar(c: char): char {
    if 'A' <= c <= 'Z' then (c as int + 32) as char else c
  }

  /** String.prototype.toLowerCase, with case mapping limited to ASCII letters. */
  function ToLowerCase(s: string): (r: string)
    ensures |r| == |s|
    ensures forall i :: 0 <= i < |s| ==> r[i] == LowerChar(s[i])
  {
    if s == [] then [] else [LowerChar(s[0])] + ToLowerCase(s[1..])
  }

  /** A string with no upper-case ASCII letter is its own lower case. */
  lemma ToLowerCaseKeepsNonLetters(s: string)
    requires forall i :: 0 <= i < |s| ==> !('A' <= s[i] <= 'Z')
    ensures ToLowerCase(s) == s
  {
  }

  /** `t` occurs in `s` starting at position `i`. */
  predicate OccursAt(s: string, t: string, i: nat) {
    i + |t| <= |s| && s[i..i + |t|] == t
  }

  /** `t` is a contiguous piece of `s`: the meaning of `s.includes(t)`. */
  ghost predicate IsInfix(s: string, t: string) {
    exists i: nat :: OccursAt(s, t, i)
  }

  /** An occurrence in `s[1..]` is an occurrence in `s` one position further on. */
  lemma OccursShift(s: string, t: string)
    requires s != []
    ensures forall i: nat :: OccursAt(s[1..], t, i) <==> OccursAt(s, t, i + 1)
  {
    forall i: nat
      ensures OccursAt(s[1..], t, i) <==> OccursAt(s, t, i + 1)
    {
      if i + 1 + |t| <= |s| {
        assert s[1..][i..i + |t|] == s[i + 1..i + 1 + |t|];
      }
    }
  }

  /** String.prototype.includes: whether `t` occurs anywhere in `s`. */
  function Includes(s: string, t: string): (b: bool)
    ensures b <==> IsInfix(s, t)
    decreases |s|
  {
    if |t| > |s| then
      false
    else if s[..|t|] == t then
      assert OccursAt(s, t, 0);
      true
    else
      OccursShift(s, t);
      assert forall i: nat :: OccursAt(s, t, i) ==> i > 0 && OccursAt(s[1..], t, i - 1);
      Includes(s[1..], t)
  }
}
