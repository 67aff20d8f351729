/**
 * Case conversion as `str.lower()` and `str.upper()` perform it on ASCII letters.
 * Every other character is left as it is.
 */
module Ascii {

  predicate IsUpper(c: char) { 'A' <= c <= 'Z' }

  predicate IsLower(c: char) { 'a' <= c <= 'z' }

  function LowerChar(c: char): (d: char)
    ensures IsUpper(c) ==> IsLower(d) && d as int == c as int + 32
    ensures !IsUpper(c) ==> d == c
  {
    if IsUpper(c) then (c as int + 32) as char else c
  }

  function UpperChar(c: char): (d: char)
    ensures IsLower(c) ==> IsUpper(d) && d as int == c as int - 32
    ensures !IsLower(c) ==> d == c
  {
    if IsLower(c) then (c as int - 32) as char else c
  }

  /** `s.lower()`: the same length, each character lowered on its own. */
  function Lower(s: string): (r: string)
    ensures |r| == |s|
    ensures forall i :: 0 <= i < |s| ==> r[i] == LowerChar(s[i])
  {
    if s == [] then [] else [LowerChar(s[0])] + Lower(s[1..])
  }

  /** `s.upper()`: the same length, each character raised on its own. */
  function Upper(s: string): (r: string)
    ensures |r| == |s|
    ensures forall i :: 0 <= i < |s| ==> r[i] == UpperChar(s[i])
  {
    if s == [] then [] else [UpperChar(s[0])] + Upper(s[1..])
  }

  /** An upper-case letter is the image of exactly itself and its lower-case partner. */
  lemma UpperCharPreimage(c: char, d: char)
    requires IsUpper(c)
    ensures UpperChar(d) == c <==> d == c || d == LowerChar(c)
  {
  }

  /** Raising a string a second time changes nothing. */
  lemma {:induction false} UpperIdempotent(s: string)
    ensures Upper(Upper(s)) == Upper(s)
  {
    if s != [] {
      UpperIdempotent(s[1..]);
      assert Upper(s) == [UpperChar(s[0])] + Upper(s[1..]);
      assert Upper(Upper(s)) == [UpperChar(UpperChar(s[0]))] + Upper(Upper(s)[1..]);
      assert Upper(s)[1..] == Upper(s[1..]);
    }
  }

  /** A character at position `i` of `s` shows up raised at position `i` of `Upper(s)`. */
  lemma UpperHas(s: string, i: nat)
    requires i < |s|
    ensures UpperChar(s[i]) in Upper(s)
  {
  }

  /** Every character of `Upper(s)` is the raised form of a character of `s`. */
  lemma UpperFrom(s: string, d: char)
    requires d in Upper(s)
    ensures exists i :: 0 <= i < |s| && UpperChar(s[i]) == d
  {
  }

  /**
   * An upper-case letter occurs in `Upper(s)` exactly when it or its lower-case
   * partner occurs in `s`: a membership test on the raised string ignores case.
   */
  lemma UpperContains(s: string, c: char)
    requires IsUpper(c)
    ensures c in Upper(s) <==> c in s || LowerChar(c) in s
  {
    if c in Upper(s) {
      UpperFrom(s, c);
      var i :| 0 <= i < |s| && UpperChar(s[i]) == c;
      UpperCharPreimage(c, s[i]);
      assert s[i] in s;
    }
    if c in s {
      var i :| 0 <= i < |s| && s[i] == c;
      UpperHas(s, i);
    }
    if LowerChar(c) in s {
      var i :| 0 <= i < |s| && s[i] == LowerChar(c);
      UpperHas(s, i);
    }
  }
}
