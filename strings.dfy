/**
 * Finding a separator in a string, for the names the core formats as
 * `<part><separator><rest>`.
 */
module Strings {

  /** The position of the first `c` in `s`, or `|s|` when there is none. */
  function FirstOf(s: string, c: char): (i: nat)
    ensures i <= |s|
    ensures i < |s| ==> s[i] == c
    ensures forall j :: 0 <= j < i ==> s[j] != c
  {
    if s == [] then 0 else if s[0] == c then 0 else 1 + FirstOf(s[1..], c)
  }

  /**
   * A string formatted as `p`, the separator `c` and `q`, with no `c` in `p`,
   * splits at its first `c` back into `p` and `q`.
   */
  lemma {:induction false} SplitAtFirst(p: string, c: char, q: string)
    requires c !in p
    ensures var s := p + [c] + q;
            FirstOf(s, c) == |p| && s[..|p|] == p && s[|p| + 1..] == q
  {
    var s := p + [c] + q;
    if p == [] {
      assert s == [c] + q;
    } else {
      SplitAtFirst(p[1..], c, q);
      assert s[0] == p[0];
      assert s[1..] == p[1..] + [c] + q;
    }
  }
}
