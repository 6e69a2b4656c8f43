/** Facts about strings used by the region check and the URL builders. */
module Text {

  /** `p` is a prefix of `s`. */
  predicate IsPrefix(p: string, s: string) {
    |p| <= |s| && s[..|p|] == p
  }

  /** `p` is a suffix of `s`. */
  predicate IsSuffix(p: string, s: string) {
    |p| <= |s| && s[|s| - |p|..] == p
  }

  /** The literal `t` occurs in `s` starting at index `i`. */
  predicate OccursAt(t: string, s: string, i: nat) {
    i + |t| <= |s| && s[i..i + |t|] == t
  }

  /** `t` occurs somewhere in `s`: what an unanchored regular-expression
      search for the literal `t` decides. */
  predicate Contains(s: string, t: string) {
    exists i: nat :: i <= |s| && OccursAt(t, s, i)
  }

  /** Whatever surrounds it, a literal is found inside `a + t + b`. */
  lemma ContainsInside(a: string, t: string, b: string)
    ensures Contains(a + t + b, t)
  {
    var s := a + t + b;
    assert s[|a|..|a| + |t|] == t;
    assert OccursAt(t, s, |a|);
  }

  /** Two strings of the same length: one contains the other only if equal. */
  lemma ContainsSameLength(s: string, t: string)
    requires |s| == |t|
    ensures Contains(s, t) <==> s == t
  {
    if Contains(s, t) {
      var i: nat :| i <= |s| && OccursAt(t, s, i);
      assert i == 0;
      assert s[0..|t|] == s;
    }
    if s == t {
      assert s[0..|t|] == s;
      assert OccursAt(t, s, 0);
    }
  }
}
