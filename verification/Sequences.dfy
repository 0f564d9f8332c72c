/** Sequences without repetition. */
module Sequences {
  ghost predicate Distinct<T>(s: seq<T>) {
    forall i, j :: 0 <= i < j < |s| ==> s[i] != s[j]
  }

  lemma DistinctMore<T>(s: seq<T>, t: seq<T>, x: T)
    ensures Distinct(s + [x]) <==> Distinct(s) && x !in s
    ensures Distinct(s + t) ==> Distinct(s)
  {
    var more := s + [x];
    if Distinct(more) {
      assert forall i :: 0 <= i < |s| ==> more[i] == s[i] && more[i] != more[|s|];
    }
    if Distinct(s + t) {
      assert forall i :: 0 <= i < |s| ==> (s + t)[i] == s[i];
    }
  }

  /** Taking one more element of b after all of a. */
  lemma TakeMore<T>(a: seq<T>, b: seq<T>, i: nat)
    requires i < |b|
    ensures a + b[..i] + [b[i]] == a + b[..i + 1]
  {
    assert b[..i + 1] == b[..i] + [b[i]];
    Associative(a, b[..i], [b[i]]);
  }

  lemma Associative<T>(a: seq<T>, b: seq<T>, c: seq<T>)
    ensures a + b + c == a + (b + c)
  {
  }
}
