// Sorting by a key. Callers learn only that the result is some sorted permutation, which is
// all an unstable library sort promises.
module Sorting {

  ghost predicate SortedBy<T>(s: seq<T>, key: T -> real) {
    forall i, j :: 0 <= i < j < |s| ==> key(s[i]) <= key(s[j])
  }

  method SortBy<T>(s: seq<T>, key: T -> real) returns (t: seq<T>)
    ensures SortedBy(t, key) && multiset(t) == multiset(s) && |t| == |s|
  {
    t := [];
    var rest := s;
    while rest != []
      invariant SortedBy(t, key) && multiset(t) + multiset(rest) == multiset(s)
      invariant forall i, j :: 0 <= i < |t| && 0 <= j < |rest| ==> key(t[i]) <= key(rest[j])
      decreases |rest|
    {
      var least := IndexOfLeast(rest, key);
      TakeOut(rest, least);
      t := t + [rest[least]];
      rest := rest[..least] + rest[least + 1..];
    }
    assert |multiset(t)| == |multiset(s)|;
  }

  lemma TakeOut<T>(s: seq<T>, i: nat)
    requires i < |s|
    ensures multiset(s) == multiset(s[..i] + s[i + 1..]) + multiset{s[i]}
  {
    assert s == s[..i] + [s[i]] + s[i + 1..];
  }

  method IndexOfLeast<T>(s: seq<T>, key: T -> real) returns (least: nat)
    requires s != []
    ensures least < |s| && forall j :: 0 <= j < |s| ==> key(s[least]) <= key(s[j])
  {
    least := 0;
    for i := 1 to |s|
      invariant least < |s| && forall j :: 0 <= j < i ==> key(s[least]) <= key(s[j])
    {
      if key(s[i]) < key(s[least]) {
        least := i;
      }
    }
  }
}
