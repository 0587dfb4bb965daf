/**
 * The JavaScript built-ins the core relies on, restricted to ASCII: `toLowerCase`, `trim`,
 * `includes`, the `\s` character class, decimal rendering of a number inside a template
 * literal, and `Error.prototype.toString`.
 */
module Js {

  /** ASCII part of JavaScript whitespace (`\s` and what `trim` removes): space, \t, \n, \v, \f, \r. */
  predicate IsSpace(c: char) {
    c == ' ' || c == '\t' || c == '\n' || c == '\U{B}' || c == '\U{C}' || c == '\r'
  }

  predicate IsUpper(c: char) {
    'A' <= c <= 'Z'
  }

  function LowerChar(c: char): char {
    if IsUpper(c) then (c as int + 32) as char else c
  }

  /** `String.prototype.toLowerCase`, ASCII letters only. */
  function Lower(s: string): (r: string)
    ensures |r| == |s|
    ensures forall k :: 0 <= k < |s| ==> r[k] == LowerChar(s[k])
  {
    if s == [] then [] else [LowerChar(s[0])] + Lower(s[1..])
  }

  /** Lower-casing twice is lower-casing once, and lower-cased text has no upper-case letter. */
  lemma LowerIdempotent(s: string)
    ensures Lower(Lower(s)) == Lower(s)
    ensures forall k :: 0 <= k < |s| ==> !IsUpper(Lower(s)[k])
  {
    assert forall k :: 0 <= k < |s| ==> LowerChar(LowerChar(s[k])) == LowerChar(s[k]);
  }

  /** The helper `includes` is built on: `p` is a prefix of `s`, compared character by character. */
  predicate StartsWith(s: string, p: string) {
    p == [] || (s != [] && s[0] == p[0] && StartsWith(s[1..], p[1..]))
  }

  /** `StartsWith` is "p is the first |p| characters of s". */
  lemma {:induction false} StartsWithIsPrefix(s: string, p: string)
    ensures StartsWith(s, p) <==> |p| <= |s| && s[..|p|] == p
  {
    if p != [] && s != [] {
      StartsWithIsPrefix(s[1..], p[1..]);
      if |p| <= |s| {
        assert s[..|p|] == [s[0]] + s[1..][..|p| - 1];
        assert p == [p[0]] + p[1..];
      }
    }
  }

  /** `s.includes(sub)`: `sub` occurs in `s` at some offset (the empty string occurs everywhere). */
  predicate Contains(s: string, sub: string)
    decreases |s|
  {
    StartsWith(s, sub) || (|s| > 0 && Contains(s[1..], sub))
  }

  /** `sub` occurs in `s` starting at offset `k`. */
  predicate OccursAt(s: string, sub: string, k: int) {
    0 <= k && k + |sub| <= |s| && s[k..k + |sub|] == sub
  }

  /** Contains is exactly "occurs at some offset k": this direction, and `ContainsOnlyIfOccurs` for the other. */
  lemma {:induction false} ContainsAt(s: string, sub: string, k: nat)
    requires k + |sub| <= |s| && s[k..k + |sub|] == sub
    ensures Contains(s, sub)
    decreases k
  {
    if k > 0 {
      assert s[1..][k - 1..k - 1 + |sub|] == s[k..k + |sub|];
      ContainsAt(s[1..], sub, k - 1);
    } else {
      assert s[..|sub|] == sub;
      StartsWithIsPrefix(s, sub);
    }
  }

  /** Every `Contains` has a witness: `sub` occurs in `s` at some offset. */
  lemma {:induction false} ContainsOnlyIfOccurs(s: string, sub: string)
    requires Contains(s, sub)
    ensures exists k :: OccursAt(s, sub, k)
    decreases |s|
  {
    StartsWithIsPrefix(s, sub);
    if StartsWith(s, sub) {
      assert OccursAt(s, sub, 0);
    } else {
      ContainsOnlyIfOccurs(s[1..], sub);
      var k :| OccursAt(s[1..], sub, k);
      assert s[1..][k..k + |sub|] == s[k + 1..k + 1 + |sub|];
      assert OccursAt(s, sub, k + 1);
    }
  }

  /** `includes` in both directions. */
  lemma ContainsIffOccurs(s: string, sub: string)
    ensures Contains(s, sub) <==> exists k :: OccursAt(s, sub, k)
  {
    if Contains(s, sub) {
      ContainsOnlyIfOccurs(s, sub);
    } else if k :| OccursAt(s, sub, k) {
      ContainsAt(s, sub, k);
    }
  }

  /** No position of `s` holds `c1` followed by `c2`, once lower-cased. */
  predicate NoPair(s: string, c1: char, c2: char) {
    forall k :: 0 <= k < |s| - 1 ==> !(LowerChar(s[k]) == c1 && LowerChar(s[k + 1]) == c2)
  }

  /** A pair is absent from `a + b` if it is absent from both and does not straddle the seam. */
  lemma NoPairConcat(a: string, b: string, c1: char, c2: char)
    requires NoPair(a, c1, c2) && NoPair(b, c1, c2)
    requires a == [] || b == [] || !(LowerChar(a[|a| - 1]) == c1 && LowerChar(b[0]) == c2)
    ensures NoPair(a + b, c1, c2)
  {
    var ab := a + b;
    forall k | 0 <= k < |ab| - 1
      ensures !(LowerChar(ab[k]) == c1 && LowerChar(ab[k + 1]) == c2)
    {
      if k + 1 < |a| {
        assert ab[k] == a[k] && ab[k + 1] == a[k + 1];
      } else if k >= |a| {
        assert ab[k] == b[k - |a|] && ab[k + 1] == b[k + 1 - |a|];
      }
    }
  }

  /** Two adjacent characters of `sub` that never occur adjacently in `t` rule out `t.includes(sub)`. */
  lemma {:induction false} PairRulesOut(t: string, sub: string, i: nat)
    requires i + 1 < |sub|
    requires forall k :: 0 <= k < |t| - 1 ==> !(t[k] == sub[i] && t[k + 1] == sub[i + 1])
    ensures !Contains(t, sub)
    decreases |t|
  {
    StartsWithIsPrefix(t, sub);
    if |sub| <= |t| {
      assert t[..|sub|][i] == t[i] && t[..|sub|][i + 1] == t[i + 1];
    }
    if |t| > 0 {
      PairRulesOut(t[1..], sub, i);
    }
  }

  /** The same, for a lower-cased text: `s.toLowerCase().includes(sub)` is false. */
  lemma LowerPairRulesOut(s: string, sub: string, i: nat)
    requires i + 1 < |sub|
    requires NoPair(s, sub[i], sub[i + 1])
    ensures !Contains(Lower(s), sub)
  {
    PairRulesOut(Lower(s), sub, i);
  }

  function TrimStart(s: string): (r: string)
    ensures |r| <= |s| && r == s[|s| - |r|..]
    ensures r == [] || !IsSpace(r[0])
    ensures forall k :: 0 <= k < |s| - |r| ==> IsSpace(s[k])
  {
    if s != [] && IsSpace(s[0]) then TrimStart(s[1..]) else s
  }

  function TrimEnd(s: string): (r: string)
    ensures |r| <= |s| && r == s[..|r|]
    ensures r == [] || !IsSpace(r[|r| - 1])
    ensures forall k :: |r| <= k < |s| ==> IsSpace(s[k])
  {
    if s != [] && IsSpace(s[|s| - 1]) then TrimEnd(s[..|s| - 1]) else s
  }

  /**
   * `String.prototype.trim` (ASCII whitespace): the text between the leading and the trailing
   * whitespace. It is empty exactly when every character is whitespace; otherwise it neither
   * starts nor ends with whitespace.
   */
  function Trim(s: string): (r: string)
    ensures r == [] <==> forall k :: 0 <= k < |s| ==> IsSpace(s[k])
    ensures r == [] || (!IsSpace(r[0]) && !IsSpace(r[|r| - 1]))
    ensures |r| <= |s|
    ensures exists i :: 0 <= i && WindowAt(s, r, i)
  {
    TrimSpans(s);
    TrimWindow(s);
    TrimEnd(TrimStart(s))
  }

  /** `r` is the part of `s` from index `i`, with only whitespace before and after it. */
  predicate WindowAt(s: string, r: string, i: int) {
    0 <= i && i + |r| <= |s| && s[i..i + |r|] == r &&
    (forall k :: 0 <= k < i ==> IsSpace(s[k])) && (forall k :: i + |r| <= k < |s| ==> IsSpace(s[k]))
  }

  /** Trimming both ends keeps a window of the input with only whitespace on either side of it. */
  lemma TrimWindow(s: string)
    ensures exists i :: 0 <= i && WindowAt(s, TrimEnd(TrimStart(s)), i)
  {
    var t := TrimStart(s);
    var r := TrimEnd(t);
    var i := |s| - |t|;
    assert t == s[i..] && r == t[..|r|];
    assert s[i..][..|r|] == s[i..i + |r|];
    forall k | i + |r| <= k < |s|
      ensures IsSpace(s[k])
    {
      assert s[k] == t[k - i];
    }
    assert WindowAt(s, r, i);
  }

  /** Trimming both ends leaves nothing exactly when every character is whitespace. */
  lemma TrimSpans(s: string)
    ensures TrimEnd(TrimStart(s)) == [] <==> forall k :: 0 <= k < |s| ==> IsSpace(s[k])
  {
    var t := TrimStart(s);
    var d := |s| - |t|;
    if TrimEnd(t) == [] {
      assert t == [];
    } else {
      assert s[d] == t[0];
    }
  }

  /** The decimal digit for 0..9. */
  function Digit(d: nat): (c: char)
    requires d < 10
    ensures '0' <= c <= '9'
  {
    ('0' as int + d) as char
  }

  predicate IsDigit(c: char) {
    '0' <= c <= '9'
  }

  /** A number rendered in a template literal (`${n}`), for non-negative integers. */
  function NatToString(n: nat): (r: string)
    ensures |r| >= 1
    ensures forall k :: 0 <= k < |r| ==> IsDigit(r[k])
    ensures |r| > 1 ==> r[0] != '0'
  {
    if n < 10 then [Digit(n)] else NatToString(n / 10) + [Digit(n % 10)]
  }

  /** Reads a string of decimal digits back as a number. */
  function ParseDecimal(s: string): nat
    requires forall k :: 0 <= k < |s| ==> IsDigit(s[k])
  {
    if s == [] then 0 else ParseDecimal(s[..|s| - 1]) * 10 + DigitValue(s[|s| - 1])
  }

  function DigitValue(c: char): nat
    requires IsDigit(c)
  {
    c as int - '0' as int
  }

  /** The rendered number reads back as itself, so distinct numbers render differently. */
  lemma {:induction false} NatToStringRoundTrip(n: nat)
    ensures ParseDecimal(NatToString(n)) == n
  {
    if n >= 10 {
      var r := NatToString(n);
      assert r[..|r| - 1] == NatToString(n / 10);
      NatToStringRoundTrip(n / 10);
    }
  }

  /** An ECMAScript Error object as far as the core reads it: its `name` and `message`. */
  datatype JsError = JsError(name: string, message: string)

  /** What `new Error(message)` creates. */
  function PlainError(message: string): JsError {
    JsError("Error", message)
  }

  /** `Error.prototype.toString`: the name, the message, or "name: message". */
  function ErrorToString(e: JsError): string {
    if e.name == "" then e.message
    else if e.message == "" then e.name
    else e.name + ": " + e.message
  }
}
