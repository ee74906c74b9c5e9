/** The few facts about products, quotients, remainders and sizes that several proofs need. */
module Arith {
  lemma MulMonotone(a: int, b: int, c: nat)
    requires a <= b
    ensures a * c <= b * c
  {
    assert b * c - a * c == (b - a) * c;
  }

  lemma QuotientBound(n: int, r: nat, d: nat)
    requires r > 0 && n * r <= d
    ensures n <= d / r
  {
    var q := d / r;
    var t := q + 1 - n;
    assert t * r == q * r + r - n * r;
    assert t * r > 0;
  }

  lemma Regroup(d: int, a: int, b: int)
    ensures (d * a) * b == d * (a * b)
  {
  }

  /** A number below `d * p` has a quotient below `p`. */
  lemma QuotientBelow(n: nat, d: nat, p: nat)
    requires d > 0 && n < d * p
    ensures n / d < p && n == (n / d) * d + n % d
  {
    var q := n / d;
    assert q * d <= n;
    if q >= p { MulMonotone(p, q, d); }
  }

  lemma PositiveFactor(t: int, n: int)
    requires n > 0 && t * n > 0
    ensures t > 0
  {
  }

  /** The only multiple of `n` strictly between `-n` and `n` is zero. */
  lemma SmallMultiple(d: int, n: int)
    requires n > 0 && -n < d * n < n
    ensures d == 0
  {
    var p, q := (d - 1) * n, (d + 1) * n;
    assert p == d * n - n && q == d * n + n;
    assert (1 - d) * n == -p;
    PositiveFactor(1 - d, n);
    PositiveFactor(d + 1, n);
  }

  lemma ModUnique(q: int, r: nat, n: nat)
    requires r < n
    ensures (q * n + r) / n == q && (q * n + r) % n == r
  {
    var x := q * n + r;
    var d := x / n - q;
    assert x == (x / n) * n + x % n;
    assert d * n == (x / n) * n - q * n;
    SmallMultiple(d, n);
  }

  lemma AddMultiple(x: int, k: int, n: nat)
    requires n > 0
    ensures (x + k * n) % n == x % n
  {
    assert x + k * n == (x / n + k) * n + x % n;
    ModUnique(x / n + k, x % n, n);
  }

  lemma NextMod(c: nat, n: nat)
    requires n > 0
    ensures (c + 1) % n == if c % n == n - 1 then 0 else c % n + 1
  {
    var q, r := c / n, c % n;
    assert c == q * n + r;
    if r == n - 1 {
      assert c + 1 == (q + 1) * n + 0;
      ModUnique(q + 1, 0, n);
    } else {
      ModUnique(q, r + 1, n);
    }
  }

  lemma ModNext(c: nat, n: nat)
    requires n > 0
    ensures (c % n + 1) % n == (c + 1) % n
  {
    NextMod(c, n);
    ModUnique(0, c % n, n);
    NextMod(c % n, n);
  }

  /** Two numbers less than `n` apart with one residue are equal. */
  lemma ResidueUnique(x: int, y: int, n: nat)
    requires n > 0 && y - n < x < y + n && x % n == y % n
    ensures x == y
  {
    var d := x / n - y / n;
    assert x == (x / n) * n + x % n && y == (y / n) * n + y % n;
    assert d * n == x - y;
    SmallMultiple(d, n);
  }

  lemma SubsetSize<T>(a: set<T>, b: set<T>)
    requires a <= b
    ensures |a| <= |b|
  {
    assert b == a + (b - a);
  }

  /** The numbers below `n`. */
  ghost function Below(n: nat): (r: set<nat>)
    ensures |r| == n && forall k: nat :: k in r <==> k < n
  {
    if n == 0 then {} else Below(n - 1) + {n - 1}
  }

  ghost function Members(s: seq<nat>): (r: set<nat>)
    ensures forall v :: v in r <==> v in s
  {
    if s == [] then {} else Members(s[..|s| - 1]) + {s[|s| - 1]}
  }

  ghost predicate Distinct(s: seq<nat>) {
    forall i, j :: 0 <= i < j < |s| ==> s[i] != s[j]
  }

  lemma {:induction false} MembersSize(s: seq<nat>)
    requires Distinct(s)
    ensures |Members(s)| == |s|
    decreases |s|
  {
    if s != [] {
      MembersSize(s[..|s| - 1]);
      assert s[|s| - 1] !in s[..|s| - 1];
    }
  }
}
