/** Arithmetic in GF(2^8) with the reduction polynomial of AES. */
module GaloisField {
  /** Addition is exclusive or. */
  function Add(a: bv8, b: bv8): bv8 {
    a ^ b
  }

  function Reduce(x: bv8): bv8 {
    if x & 0x80 != 0 then 0x1b else 0
  }

  function XTime(x: bv8): bv8 {
    Add(x << 1, Reduce(x))
  }

  /** Multiplication, bit by bit of `b`. */
  function Mul(a: bv8, b: bv8): bv8
    decreases b
  {
    if b == 0 then 0 else Add(Pick(b, a), Mul(XTime(a), b >> 1))
  }

  function Pick(b: bv8, a: bv8): bv8 {
    if b & 1 != 0 then a else 0
  }

  function Triple(x: bv8): bv8 {
    Add(x, XTime(x))
  }

  // ------------------------------------------------------------------ sums

  lemma AddZero(a: bv8)
    ensures Add(a, 0) == a && Add(0, a) == a && Add(a, a) == 0
  {
  }

  lemma AddComm(a: bv8, b: bv8)
    ensures Add(a, b) == Add(b, a)
  {
  }

  lemma AddAssoc(a: bv8, b: bv8, c: bv8)
    ensures Add(Add(a, b), c) == Add(a, Add(b, c))
  {
  }

  lemma Interleave(a: bv8, b: bv8, c: bv8, d: bv8)
    ensures Add(Add(a, b), Add(c, d)) == Add(Add(a, c), Add(b, d))
  {
    hide Add;
    AddAssoc(a, b, Add(c, d));
    AddAssoc(b, c, d);
    AddComm(b, c);
    AddAssoc(c, b, d);
    AddAssoc(a, c, Add(b, d));
  }

  // ------------------------------------------------------------------ linearity

  lemma XTimeLinear(a: bv8, b: bv8)
    ensures XTime(Add(a, b)) == Add(XTime(a), XTime(b))
  {
    hide Add, Reduce;
    ShiftLinear(a, b);
    Interleave(a << 1, b << 1, Reduce(a), Reduce(b));
  }

  lemma ShiftLinear(a: bv8, b: bv8)
    ensures Add(a, b) << 1 == Add(a << 1, b << 1)
    ensures Reduce(Add(a, b)) == Add(Reduce(a), Reduce(b))
  {
  }

  lemma {:induction false} MulLinear(a: bv8, b: bv8, c: bv8)
    ensures Mul(Add(a, b), c) == Add(Mul(a, c), Mul(b, c))
    decreases c
  {
    hide Add, XTime;
    AddZero(0);
    if c != 0 {
      XTimeLinear(a, b);
      MulLinear(XTime(a), XTime(b), c >> 1);
      Interleave(Pick(c, a), Pick(c, b), Mul(XTime(a), c >> 1), Mul(XTime(b), c >> 1));
    }
  }

  lemma {:induction false} MulXTime(a: bv8, c: bv8)
    ensures Mul(XTime(a), c) == XTime(Mul(a, c))
    decreases c
  {
    hide Add, XTime;
    XTimeZero();
    if c != 0 {
      MulXTime(XTime(a), c >> 1);
      XTimeLinear(Pick(c, a), Mul(XTime(a), c >> 1));
    }
  }

  lemma XTimeZero()
    ensures XTime(0) == 0
  {
  }

  lemma TripleMul(a: bv8, c: bv8)
    ensures Mul(Triple(a), c) == Triple(Mul(a, c))
  {
    hide Add, XTime, Mul;
    MulLinear(a, XTime(a), c);
    MulXTime(a, c);
  }

  // ------------------------------------------------------------------ multiplication by hand

  lemma OneTimes(b: bv8)
    ensures Mul(1, b) == b
  {
    hide Mul, XTime, Add, Pick;
    Powers();
    Four(0x01, b);
    Four(0x10, b >> 4);
    MulZero(0x1b);
    Bits(b);
  }

  lemma Powers()
    ensures XTime(0x01) == 0x02 && XTime(0x02) == 0x04 && XTime(0x04) == 0x08 && XTime(0x08) == 0x10
    ensures XTime(0x10) == 0x20 && XTime(0x20) == 0x40 && XTime(0x40) == 0x80 && XTime(0x80) == 0x1b
  {
  }

  lemma MulZero(a: bv8)
    ensures Mul(a, 0) == 0
  {
  }

  lemma Bits(b: bv8)
    ensures (b >> 4) >> 4 == 0
    ensures Add(Pick(b, 0x01), Add(Pick(b >> 1, 0x02), Add(Pick(b >> 2, 0x04), Add(Pick(b >> 3, 0x08),
            Add(Pick(b >> 4, 0x10), Add(Pick((b >> 4) >> 1, 0x20), Add(Pick((b >> 4) >> 2, 0x40), Add(Pick((b >> 4) >> 3, 0x80), 0)))))))) == b
  {
  }

  lemma Four(a: bv8, b: bv8)
    ensures var a1 := XTime(a); var a2 := XTime(a1); var a3 := XTime(a2);
            Mul(a, b) == Add(Pick(b, a), Add(Pick(b >> 1, a1), Add(Pick(b >> 2, a2), Add(Pick(b >> 3, a3), Mul(XTime(a3), b >> 4)))))
  {
    hide XTime, Add, Pick, Mul;
    var a1 := XTime(a); var a2 := XTime(a1); var a3 := XTime(a2);
    One(a, b);
    One(a1, b >> 1);
    One(a2, b >> 2);
    One(a3, b >> 3);
    Shifts(b);
  }

  lemma Shifts(b: bv8)
    ensures (b >> 1) >> 1 == b >> 2 && (b >> 2) >> 1 == b >> 3 && (b >> 3) >> 1 == b >> 4
  {
  }

  lemma One(a: bv8, b: bv8)
    ensures Mul(a, b) == Add(Pick(b, a), Mul(XTime(a), b >> 1))
  {
    hide XTime;
    if b == 0 {
      assert b >> 1 == 0;
      assert Pick(b, a) == 0;
      AddZero(0);
    }
  }

  lemma SmallFactors(x: bv8)
    ensures var x2 := XTime(x); var x4 := XTime(x2); var x8 := XTime(x4);
            && Mul(x, 0x02) == x2 && Mul(x, 0x03) == Add(x, x2)
            && Mul(x, 0x09) == Add(x, x8) && Mul(x, 0x0b) == Add(x, Add(x2, x8))
            && Mul(x, 0x0d) == Add(x, Add(x4, x8)) && Mul(x, 0x0e) == Add(x2, Add(x4, x8))
  {
    hide Mul, XTime, Add;
    var x2 := XTime(x); var x4 := XTime(x2); var x8 := XTime(x4);
    Factor(x, 0x02); Factor(x, 0x03); Factor(x, 0x09); Factor(x, 0x0b); Factor(x, 0x0d); Factor(x, 0x0e);
    AddZero(0); AddZero(x); AddZero(x2); AddZero(x4); AddZero(x8);
    AddZero(Add(x2, x8)); AddZero(Add(x4, x8)); AddZero(Add(x2, Add(x4, x8)));
  }

  lemma Factor(x: bv8, b: bv8)
    requires b >> 4 == 0
    ensures var x2 := XTime(x); var x4 := XTime(x2); var x8 := XTime(x4);
            Mul(x, b) == Add(Pick(b, x), Add(Pick(b >> 1, x2), Add(Pick(b >> 2, x4), Pick(b >> 3, x8))))
  {
    hide Mul, XTime, Add, Pick;
    Four(x, b);
    MulZero(XTime(XTime(XTime(XTime(x)))));
    AddZero(Pick(b >> 3, XTime(XTime(XTime(x)))));
  }

  method GfMul(x: bv8, y: bv8) returns (p: bv8)
    ensures p == Mul(x, y)
  {
    hide XTime, Add;
    AddZero(Mul(x, y));
    var a, b := x, y;
    p := 0;
    while b != 0
      invariant Add(p, Mul(a, b)) == Mul(x, y)
      decreases b
    {
      AddAssoc(p, Pick(b, a), Mul(XTime(a), b >> 1));
      AddZero(p);
      if b & 1 != 0 { p := Add(p, a); }
      a := XTime(a);
      b := b >> 1;
    }
    AddZero(p);
  }
}
