// Numbers in general.
module Numbers {

  function Min(x: int, y: int): int {
    if x <= y then x else y
  }

  function Max(x: int, y: int): int {
    if x <= y then y else x
  }

  lemma TimesGrows(n: nat, k: int)
    requires k >= 1
    ensures n * k >= n
  {
  }

  lemma TimesMinus(n: nat, a: int, b: int)
    ensures n * a - n * b == n * (a - b)
  {
  }

  lemma QuotientIsUnique(n: nat, a: int, r: nat, b: int, s: nat)
    requires r < n && s < n && n * a + r == n * b + s
    ensures a == b
  {
    TimesMinus(n, a, b);
    if a > b {
      TimesGrows(n, a - b);
    } else if b > a {
      TimesMinus(n, b, a);
      TimesGrows(n, b - a);
    }
  }

  lemma RemainderIs(x: nat, n: nat, a: nat, r: nat)
    requires r < n && x == n * a + r
    ensures x % n == r && x / n == a
  {
    QuotientIsUnique(n, a, r, x / n, x % n);
  }
}
