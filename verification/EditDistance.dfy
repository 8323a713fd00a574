/**
 The edit distance of the error classifier.

 `Dist` is the recursive definition, on strings read from their ends, and `Lev` is its value on
 whole strings. Its independent meaning is given by chains of single-character edits:
 `Lev(a, b)` is the number of edits of a shortest chain from `a` to `b`
 (`LevBoundsEveryChain` and `ChainOfLevExists`). The two-row loop of the classifier is
 proved to compute `Lev`.
 */
module EditDistance {
  import opened Sequences
  import opened Numbers

  // Drop a last character on either side, or match the two last characters.
  function Cheapest(dropLeft: nat, dropRight: nat, keepBoth: nat, same: bool): nat {
    Min(Min(dropLeft, dropRight) + 1, keepBoth + if same then 0 else 1)
  }

  // A string read from its end.
  datatype Text = Empty | Snoc(front: Text, last: char)

  // The first i characters of s.
  function Prefix(s: string, i: nat): Text
    requires i <= |s|
  {
    if i == 0 then Empty else Snoc(Prefix(s, i - 1), s[i - 1])
  }

  function Length(a: Text): nat {
    if a.Empty? then 0 else Length(a.front) + 1
  }

  function Dist(a: Text, b: Text): nat {
    if a.Empty? then Length(b)
    else if b.Empty? then Length(a)
    else
      Cheapest(Dist(a.front, b), Dist(a, b.front), Dist(a.front, b.front), a.last == b.last)
  }

  function Lev(a: string, b: string): nat {
    Dist(Prefix(a, |a|), Prefix(b, |b|))
  }

  // ----- Single edits and chains of them -----

  ghost predicate Deletes(a: string, b: string) {
    exists k: nat :: k < |a| && b == Without(a, k)
  }

  ghost predicate Substitutes(a: string, b: string) {
    |a| == |b| && exists k: nat :: k < |a| && b == a[k := b[k]]
  }

  ghost predicate OneEdit(a: string, b: string) {
    Deletes(a, b) || Deletes(b, a) || Substitutes(a, b)
  }

  // A chain visits |c| strings, hence spends |c| - 1 edits.
  ghost predicate Chain(c: seq<string>, a: string, b: string) {
    && c != []
    && c[0] == a
    && c[|c| - 1] == b
    && forall i :: 0 <= i < |c| - 1 ==> OneEdit(c[i], c[i + 1])
  }

  // ----- Lev is a metric -----

  lemma {:induction false} DistBounds(a: Text, b: Text)
    ensures Length(a) <= Dist(a, b) + Length(b)
    ensures Length(b) <= Dist(a, b) + Length(a)
    ensures Dist(a, b) <= Length(a) + Length(b)
  {
    if a.Snoc? && b.Snoc? {
      DistBounds(a.front, b);
      DistBounds(a, b.front);
      DistBounds(a.front, b.front);
    }
  }

  lemma {:induction false} DistSymmetric(a: Text, b: Text)
    ensures Dist(a, b) == Dist(b, a)
  {
    if a.Snoc? && b.Snoc? {
      DistSymmetric(a.front, b);
      DistSymmetric(a, b.front);
      DistSymmetric(a.front, b.front);
    }
  }

  lemma {:induction false} DistZeroIffEqual(a: Text, b: Text)
    ensures Dist(a, b) == 0 <==> a == b
  {
    if a.Snoc? && b.Snoc? {
      DistZeroIffEqual(a.front, b.front);
    }
  }

  lemma {:induction false} DistTriangle(a: Text, b: Text, c: Text)
    ensures Dist(a, c) <= Dist(a, b) + Dist(b, c)
  {
    if a.Empty? || b.Empty? || c.Empty? {
      DistBounds(a, b);
      DistBounds(b, c);
      DistBounds(a, c);
    } else if Dist(a, b) == Dist(a.front, b) + 1 {
      DistTriangle(a.front, b, c);
    } else if Dist(b, c) == Dist(b, c.front) + 1 {
      DistTriangle(a, b, c.front);
    } else {
      // Both distances spend the last character of the middle text.
      var a' := if Dist(a, b) == Dist(a, b.front) + 1 then a else a.front;
      var c' := if Dist(b, c) == Dist(b.front, c) + 1 then c else c.front;
      DistTriangle(a', b.front, c');
    }
  }

  lemma {:induction false} PrefixLength(s: string, i: nat)
    requires i <= |s|
    ensures Length(Prefix(s, i)) == i
  {
    if i > 0 {
      PrefixLength(s, i - 1);
    }
  }

  lemma {:induction false} PrefixEqual(a: string, i: nat, b: string, j: nat)
    requires i <= |a| && j <= |b|
    ensures Prefix(a, i) == Prefix(b, j) <==> i == j && forall k :: 0 <= k < i ==> a[k] == b[k]
  {
    if i > 0 {
      PrefixEqual(a, i - 1, b, if j > 0 then j - 1 else 0);
    }
  }

  lemma LevZeroIffEqual(a: string, b: string)
    ensures Lev(a, b) == 0 <==> a == b
  {
    DistZeroIffEqual(Prefix(a, |a|), Prefix(b, |b|));
    PrefixEqual(a, |a|, b, |b|);
  }

  lemma LevSymmetric(a: string, b: string)
    ensures Lev(a, b) == Lev(b, a)
  {
    DistSymmetric(Prefix(a, |a|), Prefix(b, |b|));
  }

  lemma LevTriangle(a: string, b: string, c: string)
    ensures Lev(a, c) <= Lev(a, b) + Lev(b, c)
  {
    DistTriangle(Prefix(a, |a|), Prefix(b, |b|), Prefix(c, |c|));
  }

  // ----- No chain of single edits is cheaper than Lev -----

  // Deleting character k costs at most one on every prefix that contains it.
  lemma {:induction false} DeletionCostsOne(a: string, k: nat, i: nat)
    requires k < i <= |a|
    ensures Dist(Prefix(a, i), Prefix(Without(a, k), i - 1)) <= 1
  {
    if i == k + 1 {
      PrefixEqual(a, k, Without(a, k), k);
      DistZeroIffEqual(Prefix(a, k), Prefix(Without(a, k), k));
    } else {
      DeletionCostsOne(a, k, i - 1);
    }
  }

  lemma {:induction false} SubstitutionCostsOne(a: string, b: string, k: nat, i: nat)
    requires k < i <= |a| == |b|
    requires b == a[k := b[k]]
    ensures Dist(Prefix(a, i), Prefix(b, i)) <= 1
  {
    if i == k + 1 {
      PrefixEqual(a, k, b, k);
      DistZeroIffEqual(Prefix(a, k), Prefix(b, k));
    } else {
      SubstitutionCostsOne(a, b, k, i - 1);
    }
  }

  lemma OneEditCostsOne(a: string, b: string)
    requires OneEdit(a, b)
    ensures Lev(a, b) <= 1
  {
    if Deletes(a, b) {
      var k: nat :| k < |a| && b == Without(a, k);
      DeletionCostsOne(a, k, |a|);
    } else if Deletes(b, a) {
      var k: nat :| k < |b| && a == Without(b, k);
      DeletionCostsOne(b, k, |b|);
      LevSymmetric(a, b);
    } else {
      var k: nat :| k < |a| && b == a[k := b[k]];
      SubstitutionCostsOne(a, b, k, |a|);
    }
  }

  lemma {:induction false} LevBoundsEveryChain(chain: seq<string>, a: string, b: string)
    requires Chain(chain, a, b)
    ensures Lev(a, b) <= |chain| - 1
  {
    if |chain| == 1 {
      LevZeroIffEqual(a, b);
    } else {
      OneEditCostsOne(chain[0], chain[1]);
      LevBoundsEveryChain(chain[1..], chain[1], b);
      LevTriangle(a, chain[1], b);
    }
  }

  // ----- Some chain of single edits costs exactly Lev -----

  lemma OneEditExtends(a: string, b: string, c: char)
    requires OneEdit(a, b)
    ensures OneEdit(a + [c], b + [c])
  {
    if Deletes(a, b) {
      var k: nat :| k < |a| && b == Without(a, k);
      assert b + [c] == Without(a + [c], k);
    } else if Deletes(b, a) {
      var k: nat :| k < |b| && a == Without(b, k);
      assert a + [c] == Without(b + [c], k);
    } else {
      var k: nat :| k < |a| && b == a[k := b[k]];
      assert b + [c] == (a + [c])[k := (b + [c])[k]];
    }
  }

  lemma SnocIsOneEdit(s: string, c: char)
    ensures OneEdit(s + [c], s) && OneEdit(s, s + [c])
  {
    assert s == Without(s + [c], |s|);
  }

  lemma ChangeLastIsOneEdit(s: string, c: char, d: char)
    ensures OneEdit(s + [c], s + [d])
  {
    assert s + [d] == (s + [c])[|s| := (s + [d])[|s|]];
  }

  lemma ChainPrepend(x: string, chain: seq<string>, a: string, b: string)
    requires OneEdit(x, a) && Chain(chain, a, b)
    ensures Chain([x] + chain, x, b)
  {
  }

  lemma ChainAppend(chain: seq<string>, a: string, b: string, x: string)
    requires Chain(chain, a, b) && OneEdit(b, x)
    ensures Chain(chain + [x], a, x)
  {
  }

  lemma ChainExtends(chain: seq<string>, a: string, b: string, c: char) returns (longer: seq<string>)
    requires Chain(chain, a, b)
    ensures Chain(longer, a + [c], b + [c]) && |longer| == |chain|
  {
    longer := seq(|chain|, i requires 0 <= i < |chain| => chain[i] + [c]);
    forall i | 0 <= i < |chain| - 1
      ensures OneEdit(longer[i], longer[i + 1])
    {
      OneEditExtends(chain[i], chain[i + 1], c);
    }
  }

  lemma {:induction false} PrefixChain(a: string, i: nat, b: string, j: nat) returns (chain: seq<string>)
    requires i <= |a| && j <= |b|
    ensures Chain(chain, a[..i], b[..j])
    ensures |chain| - 1 == Dist(Prefix(a, i), Prefix(b, j))
  {
    if i == 0 && j == 0 {
      chain := [a[..i]];
    } else if i > 0 && (j == 0 || Dist(Prefix(a, i), Prefix(b, j)) == Dist(Prefix(a, i - 1), Prefix(b, j)) + 1) {
      var rest := PrefixChain(a, i - 1, b, j);
      PrefixSnoc(a, i);
      SnocIsOneEdit(a[..i - 1], a[i - 1]);
      ChainPrepend(a[..i], rest, a[..i - 1], b[..j]);
      chain := [a[..i]] + rest;
    } else if j > 0 && (i == 0 || Dist(Prefix(a, i), Prefix(b, j)) == Dist(Prefix(a, i), Prefix(b, j - 1)) + 1) {
      var rest := PrefixChain(a, i, b, j - 1);
      PrefixSnoc(b, j);
      SnocIsOneEdit(b[..j - 1], b[j - 1]);
      ChainAppend(rest, a[..i], b[..j - 1], b[..j]);
      chain := rest + [b[..j]];
    } else {
      var rest := PrefixChain(a, i - 1, b, j - 1);
      PrefixSnoc(a, i);
      PrefixSnoc(b, j);
      chain := ChainThroughLast(rest, a[..i - 1], b[..j - 1], a[i - 1], b[j - 1]);
    }
  }

  lemma PrefixSnoc(s: string, i: nat)
    requires 0 < i <= |s|
    ensures s[..i] == s[..i - 1] + [s[i - 1]]
  {
  }

  lemma ChainThroughLast(inner: seq<string>, a: string, b: string, x: char, y: char) returns (chain: seq<string>)
    requires Chain(inner, a, b)
    ensures Chain(chain, a + [x], b + [y])
    ensures |chain| == |inner| + if x == y then 0 else 1
  {
    chain := ChainExtends(inner, a, b, y);
    if x != y {
      ChangeLastIsOneEdit(a, x, y);
      ChainPrepend(a + [x], chain, a + [y], b + [y]);
      chain := [a + [x]] + chain;
    }
  }

  lemma ChainOfLevExists(a: string, b: string)
    ensures exists chain :: Chain(chain, a, b) && |chain| - 1 == Lev(a, b)
  {
    var chain := PrefixChain(a, |a|, b, |b|);
    assert a == a[..|a|] && b == b[..|b|];
  }

  // Distance one, one character longer: a single deletion explains it.
  lemma DistanceOneLongerIsDeletion(a: string, b: string)
    requires Lev(a, b) == 1 && |a| == |b| + 1
    ensures Deletes(a, b)
  {
    ChainOfLevExists(a, b);
    var chain :| Chain(chain, a, b) && |chain| - 1 == Lev(a, b);
    assert OneEdit(chain[0], chain[1]);
  }

  // ----- The two-row loop -----

  // A row holds the distances from the first i characters of s1 to each prefix of s2 up to length n.
  ghost predicate IsRow(row: seq<nat>, s1: string, i: nat, s2: string, n: nat)
    requires i <= |s1| && n <= |s2|
  {
    |row| == n + 1 && forall j {:trigger row[j]} :: 0 <= j <= n ==> row[j] == Dist(Prefix(s1, i), Prefix(s2, j))
  }

  lemma RowExtends(row: seq<nat>, s1: string, i: nat, s2: string, n: nat, d: nat)
    requires i <= |s1| && n < |s2|
    requires IsRow(row, s1, i, s2, n)
    requires d == Dist(Prefix(s1, i), Prefix(s2, n + 1))
    ensures IsRow(row + [d], s1, i, s2, n + 1)
  {
  }

  lemma EmptyRow(s2: string)
    ensures forall j {:trigger Prefix(s2, j)} :: 0 <= j <= |s2| ==> Dist(Empty, Prefix(s2, j)) == j
  {
    forall j | 0 <= j <= |s2|
      ensures Dist(Empty, Prefix(s2, j)) == j
    {
      PrefixLength(s2, j);
    }
  }

  method LevenshteinDistance(s1: string, s2: string) returns (d: nat)
    ensures d == Lev(s1, s2)
    decreases if |s1| < |s2| then 1 else 0
  {
    if |s1| < |s2| {
      LevSymmetric(s1, s2);
      d := LevenshteinDistance(s2, s1);
      return;
    }
    PrefixLength(s1, |s1|);
    if |s2| == 0 {
      return |s1|;
    }
    EmptyRow(s2);
    var previousRow: seq<nat> := seq(|s2| + 1, (j: nat) => j);
    for i := 0 to |s1|
      invariant IsRow(previousRow, s1, i, s2, |s2|)
    {
      PrefixLength(s1, i + 1);
      var currentRow: seq<nat> := [i + 1];
      for j := 0 to |s2|
        invariant IsRow(currentRow, s1, i + 1, s2, j)
      {
        var insertions := previousRow[j + 1] + 1;
        var deletions := currentRow[j] + 1;
        var substitutions := previousRow[j] + if s1[i] != s2[j] then 1 else 0;
        var best := Min(Min(insertions, deletions), substitutions);
        RowExtends(currentRow, s1, i + 1, s2, j, best);
        currentRow := currentRow + [best];
      }
      previousRow := currentRow;
    }
    d := previousRow[|previousRow| - 1];
  }
}
