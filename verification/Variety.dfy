/**
 Breaking up runs of exercises of one type, in place.

 The promise is that no more than three exercises in a row have the same type. The code keeps
 it unless a run reaches the end of the list; when that happens is decided by one counter that
 runs over the input once.
 */
module Variety {
  import opened Options
  import opened Content

  const MAX_RUN: nat := 3

  // A missing type counts as the empty one.
  function TypeOf(s: ContentSelection): string {
    if s.content.exerciseType.Some? then s.content.exerciseType.value else ""
  }

  function Types(s: seq<ContentSelection>): (t: seq<string>)
    ensures |t| == |s| && forall i :: 0 <= i < |s| ==> t[i] == TypeOf(s[i])
  {
    seq(|s|, i requires 0 <= i < |s| => TypeOf(s[i]))
  }

  // ----- Long runs -----

  // The four types ending at position e are the same.
  predicate RunEndsAt(types: seq<string>, e: nat)
    requires e < |types|
  {
    e >= MAX_RUN && forall k :: e - MAX_RUN <= k < e ==> types[k] == types[e]
  }

  predicate HasLongRun(types: seq<string>) {
    exists e: nat :: e < |types| && RunEndsAt(types, e)
  }

  // A long run is four alike.
  ghost predicate FourAlikeAt(types: seq<string>, e: nat)
    requires e < |types|
  {
    3 <= e && types[e - 3] == types[e - 2] == types[e - 1] == types[e]
  }

  lemma LongRunIsFourAlike(types: seq<string>)
    ensures HasLongRun(types) <==> exists e: nat :: e < |types| && FourAlikeAt(types, e)
  {
    forall e: nat | e < |types|
      ensures RunEndsAt(types, e) <==> FourAlikeAt(types, e)
    {
    }
  }

  // Selections are of one type if their exercises are; no type and the empty one are the same.
  lemma SameTypeIff(a: ContentSelection, b: ContentSelection)
    ensures Types([a])[0] == Types([b])[0] <==>
              || a.content.exerciseType == b.content.exerciseType
              || ({a.content.exerciseType, b.content.exerciseType} == {None, Some("")})
  {
  }

  // From a to the end there is only one type.
  ghost predicate UniformFrom(types: seq<string>, a: nat)
    requires a < |types|
  {
    forall k :: a <= k < |types| ==> types[k] == types[a]
  }

  // A run that ends at e, if there is one, goes on to the end of the list.
  ghost predicate Settled(types: seq<string>, e: nat)
    requires e < |types|
  {
    RunEndsAt(types, e) ==> UniformFrom(types, e - MAX_RUN)
  }

  ghost predicate RunsReachTheEnd(types: seq<string>) {
    forall e: nat :: e < |types| ==> Settled(types, e)
  }

  // ----- The counter -----

  datatype Run = Run(kind: string, length: nat)

  // Another item of the same type lengthens the run. One of a different type starts a new
  // run, unless the run is too long: then it is used up to break three off.
  function Next(r: Run, kind: string): Run {
    if kind == r.kind then r.(length := r.length + 1)
    else if r.length > MAX_RUN then r.(length := r.length - MAX_RUN)
    else Run(kind, 1)
  }

  function Scan(types: seq<string>, n: nat): Run
    requires n <= |types|
  {
    if n == 0 then Run("", 0) else Next(Scan(types, n - 1), types[n - 1])
  }

  lemma {:induction false} ScanAgrees(a: seq<string>, b: seq<string>, m: nat, n: nat)
    requires m <= n <= |a| && n <= |b|
    requires Scan(a, m) == Scan(b, m)
    requires forall k :: m <= k < n ==> a[k] == b[k]
    ensures Scan(a, n) == Scan(b, n)
    decreases n - m
  {
    if m < n {
      ScanAgrees(a, b, m + 1, n);
    }
  }

  lemma {:induction false} ScanOfRun(types: seq<string>, m: nat, n: nat, kind: string)
    requires m <= n <= |types| && Scan(types, m).kind == kind
    requires forall k :: m <= k < n ==> types[k] == kind
    ensures Scan(types, n) == Run(kind, Scan(types, m).length + (n - m))
  {
    if m < n {
      ScanOfRun(types, m, n - 1, kind);
    }
  }

  // The first n items end in exactly this run.
  ghost predicate EndsInRun(types: seq<string>, n: nat, r: Run)
    requires n <= |types|
  {
    && r.length <= n
    && (forall k :: n - r.length <= k < n ==> types[k] == r.kind)
    && (r.length < n ==> types[n - r.length - 1] != r.kind)
  }

  // Where no long run has been seen, the counter measures the run at the end.
  lemma {:induction false} ScanMeasuresRun(types: seq<string>, n: nat)
    requires n <= |types|
    requires forall e: nat :: e < n ==> !RunEndsAt(types, e)
    ensures EndsInRun(types, n, Scan(types, n)) && Scan(types, n).length <= MAX_RUN
  {
    if n > 0 {
      ScanMeasuresRun(types, n - 1);
      var r := Scan(types, n - 1);
      assert types[n - 1] == r.kind && r.length == MAX_RUN ==> RunEndsAt(types, n - 1);
    }
  }

  // Trading the item at i, the fourth of a run, for the first later one of another type.
  function Swapped<T>(s: seq<T>, i: nat, j: nat): seq<T>
    requires i < |s| && j < |s|
  {
    s[i := s[j]][j := s[i]]
  }

  ghost predicate BreaksRun(types: seq<string>, i: nat, j: nat) {
    && i < j < |types|
    && RunEndsAt(types, i)
    && (forall e: nat :: e < i ==> !RunEndsAt(types, e))
    && (forall k :: i <= k < j ==> types[k] == types[i])
    && types[j] != types[i]
  }

  // The swap moves the other item up in front of what is left of the run.
  lemma ScanOfSwapped(types: seq<string>, after: seq<string>, i: nat, j: nat)
    requires BreaksRun(types, i, j) && after == Swapped(types, i, j)
    requires Scan(types, i) == Run(types[i], MAX_RUN) && Scan(after, i) == Scan(types, i)
    ensures Scan(types, j + 1) == Scan(after, j + 1)
  {
    var kind := types[i];
    ScanOfRun(types, i, j, kind);
    assert Scan(types, j + 1) == Run(kind, j - i);
    assert Scan(after, i + 1) == Run(types[j], 1);
    assert Scan(after, i + 2) == Run(kind, 1);
    ScanOfRun(after, i + 2, j + 1, kind);
  }

  // The counter cannot tell the difference.
  lemma ScanSurvivesSwap(types: seq<string>, i: nat, j: nat)
    requires BreaksRun(types, i, j)
    ensures Scan(Swapped(types, i, j), |types|) == Scan(types, |types|)
  {
    var after := Swapped(types, i, j);
    ScanMeasuresRun(types, i);
    assert types[i - 1] == types[i - 2] == types[i - 3] == types[i];
    ScanAgrees(types, after, 0, i);
    ScanOfSwapped(types, after, i, j);
    ScanAgrees(types, after, j + 1, |types|);
  }

  // When every long run reaches the end, the counter measures the run at the end.
  lemma ScanMeasuresLastRun(types: seq<string>)
    requires RunsReachTheEnd(types)
    ensures EndsInRun(types, |types|, Scan(types, |types|))
    ensures HasLongRun(types) <==> Scan(types, |types|).length > MAX_RUN
  {
    if e: nat :| e < |types| && RunEndsAt(types, e) {
      var first := FirstRun(types, e);
      ScanMeasuresRun(types, first);
      var kind := types[first];
      assert Settled(types, first);
      assert types[first - 1] == types[first - 2] == types[first - 3] == kind;
      assert Scan(types, first) == Run(kind, MAX_RUN);
      ScanOfRun(types, first, |types|, kind);
    } else {
      ScanMeasuresRun(types, |types|);
    }
  }

  lemma {:induction false} FirstRun(types: seq<string>, e: nat) returns (first: nat)
    requires e < |types| && RunEndsAt(types, e)
    ensures first <= e && RunEndsAt(types, first)
    ensures forall k: nat :: k < first ==> !RunEndsAt(types, k)
  {
    first := e;
    if k: nat :| k < e && RunEndsAt(types, k) {
      first := FirstRun(types, k);
    }
  }

  // ----- The loops -----

  method SelectionsTypeMatch(s: array<ContentSelection>, endIdx: nat, runLen: nat) returns (matches: bool)
    requires endIdx < s.Length && runLen == MAX_RUN
    ensures matches <==> RunEndsAt(Types(s[..]), endIdx)
  {
    if endIdx < runLen {
      return false;
    }
    var t := TypeOf(s[endIdx]);
    for k := 1 to runLen + 1
      invariant forall m :: endIdx - k < m < endIdx ==> TypeOf(s[m]) == t
    {
      if TypeOf(s[endIdx - k]) != t {
        return false;
      }
    }
    return true;
  }

  method FindLongRun(s: array<ContentSelection>, maxRun: nat) returns (found: bool)
    requires maxRun == MAX_RUN
    ensures found <==> HasLongRun(Types(s[..]))
  {
    var i := maxRun;
    while i < s.Length
      invariant forall e: nat :: e < i && e < s.Length ==> !RunEndsAt(Types(s[..]), e)
    {
      var matches := SelectionsTypeMatch(s, i, maxRun);
      if matches {
        return true;
      }
      i := i + 1;
    }
    return false;
  }

  // What holds between two turns of a pass that has settled every run ending before i.
  ghost predicate Rearranged(was: seq<ContentSelection>, now: seq<ContentSelection>) {
    && |now| == |was| && multiset(now) == multiset(was)
    && Scan(Types(now), |now|) == Scan(Types(was), |was|)
  }

  ghost predicate SettledBefore(types: seq<string>, i: nat) {
    forall e: nat :: e < i && e < |types| ==> Settled(types, e)
  }

  lemma NoRunBefore(types: seq<string>, i: nat, j: nat)
    requires SettledBefore(types, i) && i < j < |types| && types[i] != types[j]
    ensures forall e: nat :: e < i ==> !RunEndsAt(types, e)
  {
    forall e: nat | e < i
      ensures !RunEndsAt(types, e)
    {
      assert Settled(types, e);
      assert types[i] != types[j];
    }
  }

  lemma SwapSettles(types: seq<string>, i: nat, j: nat)
    requires BreaksRun(types, i, j)
    ensures SettledBefore(Swapped(types, i, j), i + 1)
  {
    var after := Swapped(types, i, j);
    forall e: nat | e <= i
      ensures !RunEndsAt(after, e)
    {
      if e < i {
        assert !RunEndsAt(types, e);
        assert forall k :: 0 <= k <= e ==> types[k] == after[k];
      } else {
        assert after[i] != after[i - 1];
      }
    }
  }

  lemma SwapKeeps(was: seq<ContentSelection>, now: seq<ContentSelection>, i: nat, j: nat)
    requires Rearranged(was, now) && SettledBefore(Types(now), i) && i < j < |now|
    requires RunEndsAt(Types(now), i) && TypeOf(now[j]) != TypeOf(now[i])
    requires forall k :: i <= k < j ==> TypeOf(now[k]) == TypeOf(now[i])
    ensures Rearranged(was, Swapped(now, i, j)) && SettledBefore(Types(Swapped(now, i, j)), i + 1)
  {
    NoRunBefore(Types(now), i, j);
    ScanSurvivesSwap(Types(now), i, j);
    SwapSettles(Types(now), i, j);
    assert Types(Swapped(now, i, j)) == Swapped(Types(now), i, j);
    assert multiset(Swapped(now, i, j)) == multiset(now);
  }

  // The inner search and swap of a pass.
  method BreakRunAt(s: array<ContentSelection>, i: nat, ghost was: seq<ContentSelection>)
    requires i < s.Length && RunEndsAt(Types(s[..]), i)
    requires Rearranged(was, s[..]) && SettledBefore(Types(s[..]), i)
    modifies s
    ensures Rearranged(was, s[..]) && SettledBefore(Types(s[..]), i + 1)
  {
    var j := i + 1;
    while j < s.Length
      invariant i < j <= s.Length && s[..] == old(s[..])
      invariant forall k :: i <= k < j ==> TypeOf(s[k]) == TypeOf(s[i])
    {
      if TypeOf(s[j]) != TypeOf(s[i]) {
        SwapKeeps(was, s[..], i, j);
        s[i], s[j] := s[j], s[i];
        assert s[..] == Swapped(old(s[..]), i, j);
        return;
      }
      j := j + 1;
    }
    assert UniformFrom(Types(s[..]), i - MAX_RUN);
  }

  // The list is rearranged so that a run of more than three reaches the end, and the run at
  // the end is as long as the counter says of the list as it was.
  method EnforceVariety(s: array<ContentSelection>)
    modifies s
    ensures multiset(s[..]) == multiset(old(s[..]))
    ensures RunsReachTheEnd(Types(s[..]))
    ensures EndsInRun(Types(s[..]), s.Length, Scan(Types(old(s[..])), s.Length))
    ensures HasLongRun(Types(s[..])) <==> Scan(Types(old(s[..])), s.Length).length > MAX_RUN
  {
    ghost var was := s[..];
    if s.Length > MAX_RUN {
      var attempt := 0;
      var more := true;
      while attempt < 10 && more
        invariant Rearranged(was, s[..])
        invariant attempt > 0 || !more ==> RunsReachTheEnd(Types(s[..]))
        decreases 10 - attempt, more
      {
        more := FindLongRun(s, MAX_RUN);
        if more {
          for i := MAX_RUN to s.Length
            invariant Rearranged(was, s[..]) && SettledBefore(Types(s[..]), i)
          {
            var matches := SelectionsTypeMatch(s, i, MAX_RUN);
            if matches {
              BreakRunAt(s, i, was);
            }
          }
          attempt := attempt + 1;
        }
      }
    }
    ScanMeasuresLastRun(Types(s[..]));
  }

  // A run at the end is left standing even where another order would have no long run.
  lemma VarietyCanFail(b: ContentSelection, a: ContentSelection)
    requires TypeOf(a) != TypeOf(b)
    ensures Scan(Types([b, a, a, a, a]), 5).length > MAX_RUN
    ensures !HasLongRun(Types([a, a, b, a, a]))
    ensures multiset([a, a, b, a, a]) == multiset([b, a, a, a, a])
  {
    var types := Types([b, a, a, a, a]);
    assert Scan(types, 1) == Run(TypeOf(b), 1);
    assert Scan(types, 2) == Run(TypeOf(a), 1);
    ScanOfRun(types, 2, 5, TypeOf(a));
    var better := Types([a, a, b, a, a]);
    assert better[2] != better[1] && better[2] != better[3];
  }
}
