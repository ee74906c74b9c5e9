/** The powers of 3 run through every non-zero element of GF(2^8), so logarithms give inverses. */
module Generator {
  import opened Arith
  import opened GaloisField

  function Pow(i: nat): bv8 {
    if i == 0 then 1 else Triple(Pow(i - 1))
  }

  lemma {:induction false} PowSum(i: nat, j: nat)
    ensures Mul(Pow(i), Pow(j)) == Pow(i + j)
  {
    hide Triple, Mul;
    if i == 0 {
      OneTimes(Pow(j));
    } else {
      PowSum(i - 1, j);
      TripleMul(Pow(i - 1), Pow(j));
    }
  }

  lemma Literal(a: bv8, b: bv8)
    ensures Mul(a, b) == Product(a, b)
  {
    hide Mul, XTime, Add, Pick;
    var a4 := XTime(XTime(XTime(XTime(a))));
    Four(a, b);
    Four(a4, b >> 4);
    MulZero(XTime(XTime(XTime(XTime(a4)))));
    Gone(b);
  }

  lemma Gone(b: bv8)
    ensures (b >> 4) >> 4 == 0
  {
  }

  /** The product with its eight steps written out. */
  function Product(a: bv8, b: bv8): bv8 {
    var a1 := XTime(a); var a2 := XTime(a1); var a3 := XTime(a2);
    var a4 := XTime(a3); var a5 := XTime(a4); var a6 := XTime(a5); var a7 := XTime(a6);
    Add(Pick(b, a), Add(Pick(b >> 1, a1), Add(Pick(b >> 2, a2), Add(Pick(b >> 3, a3),
    Add(Pick(b >> 4, a4), Add(Pick((b >> 4) >> 1, a5), Add(Pick((b >> 4) >> 2, a6), Add(Pick((b >> 4) >> 3, a7), 0))))))))
  }

  // ------------------------------------------------------------------ the order of 3

  lemma Step(i: nat, j: nat, a: bv8, b: bv8, c: bv8)
    requires Pow(i) == a && Pow(j) == b && Product(a, b) == c
    ensures Pow(i + j) == c
  {
    hide Pow, Product;
    PowSum(i, j);
    Literal(a, b);
  }

  lemma Values()
    ensures Pow(15) == 0x35 && Pow(51) == 0x0c && Pow(85) == 0xbd && Pow(255) == 1
  {
    hide Product, Pow;
    PowOne();
    Table();
    Step(1, 1, 0x03, 0x03, 0x05);
    Step(2, 2, 0x05, 0x05, 0x11);
    Step(4, 4, 0x11, 0x11, 0x1a);
    Step(8, 8, 0x1a, 0x1a, 0x5f);
    Step(16, 16, 0x5f, 0x5f, 0xe5);
    Step(32, 32, 0xe5, 0xe5, 0x4c);
    Step(1, 2, 0x03, 0x05, 0x0f);
    Step(3, 4, 0x0f, 0x11, 0xff);
    Step(7, 8, 0xff, 0x1a, 0x35);
    Step(16, 32, 0x5f, 0xe5, 0x53);
    Step(3, 48, 0x0f, 0x53, 0x0c);
    Step(1, 4, 0x03, 0x11, 0x33);
    Step(5, 16, 0x33, 0x5f, 0x73);
    Step(21, 64, 0x73, 0x4c, 0xbd);
    Step(85, 85, 0xbd, 0xbd, 0xbc);
    Step(85, 170, 0xbd, 0xbc, 0x01);
  }

  lemma PowOne()
    ensures Pow(1) == 3
  {
    assert Pow(0) == 1;
  }

  lemma Table()
    ensures Product(0x03, 0x03) == 0x05
    ensures Product(0x05, 0x05) == 0x11
    ensures Product(0x11, 0x11) == 0x1a
    ensures Product(0x1a, 0x1a) == 0x5f
    ensures Product(0x5f, 0x5f) == 0xe5
    ensures Product(0xe5, 0xe5) == 0x4c
    ensures Product(0x03, 0x05) == 0x0f
    ensures Product(0x0f, 0x11) == 0xff
    ensures Product(0xff, 0x1a) == 0x35
    ensures Product(0x5f, 0xe5) == 0x53
    ensures Product(0x0f, 0x53) == 0x0c
    ensures Product(0x03, 0x11) == 0x33
    ensures Product(0x33, 0x5f) == 0x73
    ensures Product(0x73, 0x4c) == 0xbd
    ensures Product(0xbd, 0xbd) == 0xbc
    ensures Product(0xbd, 0xbc) == 0x01
  {
  }

  /** Exponents count modulo any exponent whose power is 1. */
  lemma {:induction false} PowMod(a: nat, b: nat)
    requires a > 0 && Pow(a) == 1
    ensures Pow(b) == Pow(b % a)
    decreases b
  {
    hide Pow;
    if b < a {
      ModUnique(0, b, a);
    } else {
      PowSum(a, b - a);
      OneTimes(Pow(b - a));
      PowMod(a, b - a);
      AddMultiple(b - a, 1, a);
    }
  }

  lemma {:induction false} NoSmallerPeriod(k: nat)
    requires 0 < k < 255
    ensures Pow(k) != 1
    decreases k
  {
    hide Pow;
    if Pow(k) == 1 {
      Values();
      var r := 255 % k;
      PowMod(k, 255);
      if r > 0 {
        NoSmallerPeriod(r);
      } else {
        Divisors(k);
        PowMod(k, 15);
        PowMod(k, 51);
        PowMod(k, 85);
        PowZero();
      }
    }
  }

  lemma PowZero()
    ensures Pow(0) == 1
  {
  }

  lemma Divisors(g: nat)
    requires 0 < g < 255 && 255 % g == 0
    ensures 15 % g == 0 || 51 % g == 0 || 85 % g == 0
  {
    var q := 255 / g;
    assert g * q == 255;
    if g > 15 {
      SmallQuotient(g, q);
      assert q == 1 || q == 3 || q == 5 || q == 15;
    }
  }

  lemma SmallQuotient(g: nat, q: nat)
    requires g >= 16 && g * q == 255
    ensures q < 16
  {
    if q >= 16 { MulMonotone(16, q, g); }
  }

  lemma TripleInjective(a: bv8, b: bv8)
    requires Triple(a) == Triple(b)
    ensures a == b
  {
  }

  lemma {:induction false} PowInjective(i: nat, j: nat)
    requires i < 255 && j < 255 && Pow(i) == Pow(j)
    ensures i == j
    decreases i
  {
    hide Triple;
    if i == 0 {
      if j > 0 { NoSmallerPeriod(j); }
    } else if j == 0 {
      NoSmallerPeriod(i);
    } else {
      TripleInjective(Pow(i - 1), Pow(j - 1));
      PowInjective(i - 1, j - 1);
    }
  }

  // ------------------------------------------------------------------ logarithms and inverses

  /** `n` distinct numbers below `n` are all of them. */
  lemma Pigeonhole(s: seq<nat>, v: nat)
    requires Distinct(s) && v < |s| && forall i :: 0 <= i < |s| ==> s[i] < |s|
    ensures v in s
  {
    MembersSize(s);
    var m, b := Members(s), Below(|s|);
    assert m <= b && b == m + (b - m);
  }

  lemma PowNonZero(i: nat)
    ensures Pow(i) != 0
  {
    if i > 0 {
      PowNonZero(i - 1);
      TripleNonZero(Pow(i - 1));
    }
  }

  lemma TripleNonZero(a: bv8)
    ensures a != 0 ==> Triple(a) != 0
  {
  }

  lemma Below256(a: bv8, b: bv8)
    ensures 0 <= a as int < 256
    ensures a != 0 ==> a as int != 0
    ensures a as int == b as int ==> a == b
  {
  }

  /** The table index of a power. */
  function PowAt(i: nat): (r: nat)
    requires i < 255
    ensures 0 < r < 256 && r == Pow(i) as int
  {
    hide Pow;
    PowNonZero(i);
    Below256(Pow(i), 0);
    Pow(i) as int
  }

  lemma PowAtDistinct(i: nat, j: nat)
    requires i < 255 && j < 255 && PowAt(i) == PowAt(j)
    ensures i == j
  {
    hide Pow;
    Below256(Pow(i), Pow(j));
    PowInjective(i, j);
  }

  /** Every non-zero element is a power of 3. */
  lemma PowSurjective(x: bv8)
    requires x != 0
    ensures exists i :: 0 <= i < 255 && Pow(i) == x
  {
    hide Pow, PowAt;
    var s: seq<nat> := seq(255, i requires 0 <= i < 255 => PowAt(i) - 1);
    forall i, j | 0 <= i < j < 255 ensures s[i] != s[j] {
      if s[i] == s[j] { PowAtDistinct(i, j); }
    }
    Below256(x, 0);
    Pigeonhole(s, x as int - 1);
    var i :| 0 <= i < 255 && s[i] == x as int - 1;
    Below256(Pow(i), x);
  }

  lemma InverseUnique(x: bv8, y: bv8, z: bv8)
    requires Mul(x, y) == 1 && Mul(x, z) == 1 && x != 0
    ensures y == z
  {
    hide Mul;
    PowSurjective(x);
    var i :| 0 <= i < 255 && Pow(i) == x;
    Cancel(i, y, z);
  }

  lemma {:induction false} Cancel(i: nat, y: bv8, z: bv8)
    requires Mul(Pow(i), y) == Mul(Pow(i), z)
    ensures y == z
  {
    hide Mul, Triple;
    if i == 0 {
      OneTimes(y);
      OneTimes(z);
    } else {
      TripleMul(Pow(i - 1), y);
      TripleMul(Pow(i - 1), z);
      TripleInjective(Mul(Pow(i - 1), y), Mul(Pow(i - 1), z));
      Cancel(i - 1, y, z);
    }
  }

  lemma PowInverse(i: nat)
    requires i < 255
    ensures Mul(Pow(i), Pow((255 - i) % 255)) == 1
  {
    hide Mul, Pow;
    Values();
    PowZero();
    PowSum(i, (255 - i) % 255);
  }

  lemma HasInverse(x: bv8)
    requires x != 0
    ensures exists y :: Mul(x, y) == 1
  {
    hide Mul, Pow;
    PowSurjective(x);
    var i :| 0 <= i < 255 && Pow(i) == x;
    PowInverse(i);
  }

  /** The multiplicative inverse, and 0 for 0. */
  ghost function Inverse(x: bv8): (y: bv8)
    ensures if x == 0 then y == 0 else Mul(x, y) == 1
  {
    if x == 0 then 0 else HasInverse(x); var y :| Mul(x, y) == 1; y
  }

  lemma InverseInjective(x: bv8, z: bv8)
    requires Inverse(x) == Inverse(z)
    ensures x == z
  {
    hide Mul, Inverse;
    MulNothing(0);
    if x == 0 || z == 0 {
      MulNothing(x);
      MulNothing(z);
    } else {
      InverseSymmetric(x, Inverse(x));
      InverseSymmetric(z, Inverse(z));
      MulNothing(Inverse(x));
      InverseUnique(Inverse(x), x, z);
    }
  }

  lemma MulNothing(a: bv8)
    ensures Mul(a, 0) == 0 && Mul(0, a) == 0
  {
    hide XTime;
    XTimeZero();
    NothingTimes(a);
  }

  lemma {:induction false} NothingTimes(a: bv8)
    ensures Mul(0, a) == 0
    decreases a
  {
    hide XTime;
    XTimeZero();
    if a != 0 { NothingTimes(a >> 1); }
  }

  lemma InverseSymmetric(x: bv8, y: bv8)
    requires x != 0 && Mul(x, y) == 1
    ensures y != 0 && Mul(y, x) == 1
  {
    hide Mul;
    MulNothing(x);
    MulComm(x, y);
  }

  // ------------------------------------------------------------------ the laws of the field

  lemma MulComm(x: bv8, y: bv8)
    ensures Mul(x, y) == Mul(y, x)
  {
    hide Mul, Pow;
    MulNothing(x);
    MulNothing(y);
    if x != 0 && y != 0 {
      PowSurjective(x);
      PowSurjective(y);
      var i :| 0 <= i < 255 && Pow(i) == x;
      var j :| 0 <= j < 255 && Pow(j) == y;
      PowSum(i, j);
      PowSum(j, i);
      assert i + j == j + i;
    }
  }

  lemma PowAssoc(i: nat, j: nat, k: nat)
    ensures Mul(Mul(Pow(i), Pow(j)), Pow(k)) == Mul(Pow(i), Mul(Pow(j), Pow(k)))
  {
    hide Mul, Pow;
    PowSum(i, j);
    PowSum(j, k);
    PowSum(i + j, k);
    PowSum(i, j + k);
  }

  lemma MulAssoc(x: bv8, y: bv8, z: bv8)
    ensures Mul(Mul(x, y), z) == Mul(x, Mul(y, z))
  {
    hide Mul, Pow;
    if x == 0 {
      MulNothing(y);
      MulNothing(z);
      MulNothing(Mul(y, z));
    } else if y == 0 {
      MulNothing(x);
      MulNothing(z);
    } else if z == 0 {
      MulNothing(x);
      MulNothing(y);
      MulNothing(Mul(x, y));
    } else {
      PowSurjective(x);
      PowSurjective(y);
      PowSurjective(z);
      var i, j, k :| 0 <= i < 255 && Pow(i) == x && 0 <= j < 255 && Pow(j) == y && 0 <= k < 255 && Pow(k) == z;
      PowAssoc(i, j, k);
    }
  }

  lemma MulAdd(x: bv8, y: bv8, z: bv8)
    ensures Mul(x, Add(y, z)) == Add(Mul(x, y), Mul(x, z))
  {
    hide Mul, Add;
    MulComm(x, Add(y, z));
    MulLinear(y, z, x);
    MulComm(x, y);
    MulComm(x, z);
  }

  lemma TimesOne(x: bv8)
    ensures Mul(x, 1) == x
  {
    hide Mul;
    MulComm(x, 1);
    OneTimes(x);
  }
}
