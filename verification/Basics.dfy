/** Small things several modules share: a value or nothing, and lists without repetition. */
module Basics {
  datatype Option<T> = None | Some(value: T)

  ghost predicate NoDups<T>(s: seq<T>) {
    forall i, j :: 0 <= i < j < |s| ==> s[i] != s[j]
  }

  /** list_del: `s` without its first `x`. */
  function Without<T(==)>(s: seq<T>, x: T): seq<T> {
    if s == [] then [] else if s[0] == x then s[1..] else [s[0]] + Without(s[1..], x)
  }

  lemma {:induction false} WithoutFacts<T>(s: seq<T>, x: T)
    requires NoDups(s)
    ensures var r := Without(s, x);
      && (forall i :: 0 <= i < |r| ==> r[i] in s && r[i] != x)
      && (forall i :: 0 <= i < |s| && s[i] != x ==> s[i] in r)
      && NoDups(r)
      && |r| == |s| - if x in s then 1 else 0
  {
    if s != [] && s[0] != x {
      WithoutFacts(s[1..], x);
      var r := Without(s[1..], x);
      assert forall i :: 0 < i < |[s[0]] + r| ==> ([s[0]] + r)[i] == r[i - 1];
      assert forall i :: 0 < i < |s| ==> s[i] == s[1..][i - 1];
    }
  }
}
