/** AES-128 as FIPS 197 defines it: the cipher, its inverse, and the equivalent inverse cipher. */
module Aes {
  import opened GaloisField
  import opened Generator
  import opened AesTables

  datatype State = State(w: Col, x: Col, y: Col, z: Col)

  // ------------------------------------------------------------------ the four transformations

  function AddKey(s: State, k: State): State {
    State(AddCol(s.w, k.w), AddCol(s.x, k.x), AddCol(s.y, k.y), AddCol(s.z, k.z))
  }

  ghost function SubCol(c: Col): Col {
    Col(SBox(c.a), SBox(c.b), SBox(c.c), SBox(c.d))
  }

  ghost function InvSubCol(c: Col): Col {
    Col(InvSBox(c.a), InvSBox(c.b), InvSBox(c.c), InvSBox(c.d))
  }

  ghost function SubBytes(s: State): State {
    State(SubCol(s.w), SubCol(s.x), SubCol(s.y), SubCol(s.z))
  }

  ghost function InvSubBytes(s: State): State {
    State(InvSubCol(s.w), InvSubCol(s.x), InvSubCol(s.y), InvSubCol(s.z))
  }

  /** Row `r` moves left by `r`. */
  function ShiftRows(s: State): State {
    State(Col(s.w.a, s.x.b, s.y.c, s.z.d), Col(s.x.a, s.y.b, s.z.c, s.w.d),
          Col(s.y.a, s.z.b, s.w.c, s.x.d), Col(s.z.a, s.w.b, s.x.c, s.y.d))
  }

  function InvShiftRows(s: State): State {
    State(Col(s.w.a, s.z.b, s.y.c, s.x.d), Col(s.x.a, s.w.b, s.z.c, s.y.d),
          Col(s.y.a, s.x.b, s.w.c, s.z.d), Col(s.z.a, s.y.b, s.x.c, s.w.d))
  }

  function Sum(p: bv8, q: bv8, r: bv8, s: bv8): bv8 {
    Add(Add(p, q), Add(r, s))
  }

  /** A row of MixColumns. */
  function MixRow(a: bv8, b: bv8, c: bv8, d: bv8): bv8 {
    Sum(Mul(a, 0x02), Mul(b, 0x03), c, d)
  }

  function MixCol(c: Col): Col {
    Col(MixRow(c.a, c.b, c.c, c.d), MixRow(c.b, c.c, c.d, c.a), MixRow(c.c, c.d, c.a, c.b), MixRow(c.d, c.a, c.b, c.c))
  }

  function InvMixRow(a: bv8, b: bv8, c: bv8, d: bv8): bv8 {
    Sum(Mul(a, 0x0e), Mul(b, 0x0b), Mul(c, 0x0d), Mul(d, 0x09))
  }

  function InvMixCol(c: Col): Col {
    Col(InvMixRow(c.a, c.b, c.c, c.d), InvMixRow(c.b, c.c, c.d, c.a),
        InvMixRow(c.c, c.d, c.a, c.b), InvMixRow(c.d, c.a, c.b, c.c))
  }

  function MixColumns(s: State): State {
    State(MixCol(s.w), MixCol(s.x), MixCol(s.y), MixCol(s.z))
  }

  function InvMixColumns(s: State): State {
    State(InvMixCol(s.w), InvMixCol(s.x), InvMixCol(s.y), InvMixCol(s.z))
  }

  // ------------------------------------------------------------------ the transformations invert

  lemma AddTwice(s: State, k: State)
    ensures AddKey(AddKey(s, k), k) == s
  {
    AddColTwice(s.w, k.w);
    AddColTwice(s.x, k.x);
    AddColTwice(s.y, k.y);
    AddColTwice(s.z, k.z);
  }

  lemma AddColTwice(c: Col, k: Col)
    ensures AddCol(AddCol(c, k), k) == c
  {
    hide Add;
    AddBack(c.a, k.a);
    AddBack(c.b, k.b);
    AddBack(c.c, k.c);
    AddBack(c.d, k.d);
  }

  lemma AddBack(a: bv8, k: bv8)
    ensures Add(Add(a, k), k) == a
  {
  }

  lemma SubColInverse(c: Col)
    ensures InvSubCol(SubCol(c)) == c && SubCol(InvSubCol(c)) == c
  {
    hide SBox, InvSBox;
    BoxesInverse(c.a);
    BoxesInverse(c.b);
    BoxesInverse(c.c);
    BoxesInverse(c.d);
  }

  lemma SubBytesInverse(s: State)
    ensures InvSubBytes(SubBytes(s)) == s && SubBytes(InvSubBytes(s)) == s
  {
    hide SubCol, InvSubCol;
    SubColInverse(s.w);
    SubColInverse(s.x);
    SubColInverse(s.y);
    SubColInverse(s.z);
  }

  /** Substitution works byte by byte, so it commutes with moving rows. */
  lemma ShiftThenSub(s: State)
    ensures InvShiftRows(ShiftRows(s)) == s && ShiftRows(InvShiftRows(s)) == s
    ensures SubBytes(ShiftRows(s)) == ShiftRows(SubBytes(s)) && InvSubBytes(InvShiftRows(s)) == InvShiftRows(InvSubBytes(s))
  {
    hide SBox, InvSBox;
  }

  // ------------------------------------------------------------------ MixColumns is linear and inverts

  lemma SumLinear(k: bv8, p: bv8, q: bv8, r: bv8, s: bv8)
    ensures Mul(Sum(p, q, r, s), k) == Sum(Mul(p, k), Mul(q, k), Mul(r, k), Mul(s, k))
  {
    hide Add, Mul;
    MulLinear(Add(p, q), Add(r, s), k);
    MulLinear(p, q, k);
    MulLinear(r, s, k);
  }

  lemma SumOfSums(p: bv8, q: bv8, r: bv8, s: bv8, p': bv8, q': bv8, r': bv8, s': bv8)
    ensures Add(Sum(p, q, r, s), Sum(p', q', r', s')) == Sum(Add(p, p'), Add(q, q'), Add(r, r'), Add(s, s'))
  {
    hide Add;
    Interleave(Add(p, q), Add(r, s), Add(p', q'), Add(r', s'));
    Interleave(p, q, p', q');
    Interleave(r, s, r', s');
  }

  lemma InvMixRowLinear(c: Col, k: Col)
    ensures InvMixRow(Add(c.a, k.a), Add(c.b, k.b), Add(c.c, k.c), Add(c.d, k.d)) ==
            Add(InvMixRow(c.a, c.b, c.c, c.d), InvMixRow(k.a, k.b, k.c, k.d))
  {
    hide Add, Mul, Sum;
    MulLinear(c.a, k.a, 0x0e);
    MulLinear(c.b, k.b, 0x0b);
    MulLinear(c.c, k.c, 0x0d);
    MulLinear(c.d, k.d, 0x09);
    SumOfSums(Mul(c.a, 0x0e), Mul(c.b, 0x0b), Mul(c.c, 0x0d), Mul(c.d, 0x09),
              Mul(k.a, 0x0e), Mul(k.b, 0x0b), Mul(k.c, 0x0d), Mul(k.d, 0x09));
  }

  lemma InvMixColLinear(c: Col, k: Col)
    ensures InvMixCol(AddCol(c, k)) == AddCol(InvMixCol(c), InvMixCol(k))
  {
    hide Add, InvMixRow;
    InvMixRowLinear(c, k);
    InvMixRowLinear(Col(c.b, c.c, c.d, c.a), Col(k.b, k.c, k.d, k.a));
    InvMixRowLinear(Col(c.c, c.d, c.a, c.b), Col(k.c, k.d, k.a, k.b));
    InvMixRowLinear(Col(c.d, c.a, c.b, c.c), Col(k.d, k.a, k.b, k.c));
  }

  lemma InvMixColumnsLinear(s: State, k: State)
    ensures InvMixColumns(AddKey(s, k)) == AddKey(InvMixColumns(s), InvMixColumns(k))
  {
    hide InvMixCol, AddCol;
    InvMixColLinear(s.w, k.w);
    InvMixColLinear(s.x, k.x);
    InvMixColLinear(s.y, k.y);
    InvMixColLinear(s.z, k.z);
  }

  /** A 4x4 sum taken by rows or by columns. */
  lemma Transpose(a0: bv8, a1: bv8, a2: bv8, a3: bv8, b0: bv8, b1: bv8, b2: bv8, b3: bv8,
                  c0: bv8, c1: bv8, c2: bv8, c3: bv8, d0: bv8, d1: bv8, d2: bv8, d3: bv8)
    ensures Sum(Sum(a0, b0, c0, d0), Sum(a1, b1, c1, d1), Sum(a2, b2, c2, d2), Sum(a3, b3, c3, d3)) ==
            Sum(Sum(a0, a1, a2, a3), Sum(b0, b1, b2, b3), Sum(c0, c1, c2, c3), Sum(d0, d1, d2, d3))
  {
    hide Add;
    SumOfSums(a0, b0, c0, d0, a1, b1, c1, d1);
    SumOfSums(a2, b2, c2, d2, a3, b3, c3, d3);
    SumOfSums(Add(a0, a1), Add(b0, b1), Add(c0, c1), Add(d0, d1), Add(a2, a3), Add(b2, b3), Add(c2, c3), Add(d2, d3));
  }

  lemma Factored(a: bv8, p: bv8, q: bv8, r: bv8, s: bv8)
    ensures Sum(Mul(a, p), Mul(a, q), Mul(a, r), Mul(a, s)) == Mul(a, Sum(p, q, r, s))
  {
    hide Add, Mul;
    MulAdd(a, p, q);
    MulAdd(a, r, s);
    MulAdd(a, Add(p, q), Add(r, s));
  }

  /** The products of the entries of the two matrices, by hand. */
  lemma Entries()
    ensures Mul(0x0e, 0x02) == 0x1c && Mul(0x0b, 0x02) == 0x16 && Mul(0x0d, 0x02) == 0x1a && Mul(0x09, 0x02) == 0x12
    ensures Mul(0x0e, 0x03) == 0x12 && Mul(0x0b, 0x03) == 0x1d && Mul(0x0d, 0x03) == 0x17 && Mul(0x09, 0x03) == 0x1b
  {
    hide Mul;
    SmallFactors(0x0e);
    SmallFactors(0x0b);
    SmallFactors(0x0d);
    SmallFactors(0x09);
  }

  /** A factor of one matrix after a factor of the other. */
  lemma Twice(a: bv8, k: bv8)
    ensures Mul(Mul(a, k), 0x02) == Mul(a, Mul(k, 0x02)) == Mul(Mul(a, 0x02), k)
    ensures Mul(Mul(a, k), 0x03) == Mul(a, Mul(k, 0x03)) == Mul(Mul(a, 0x03), k)
  {
    hide Mul;
    MulAssoc(a, k, 0x02);
    MulAssoc(a, k, 0x03);
    MulComm(k, 0x02);
    MulComm(k, 0x03);
    MulAssoc(a, 0x02, k);
    MulAssoc(a, 0x03, k);
  }

  lemma Unit(a: bv8)
    ensures Mul(a, Sum(0x1c, 0x1b, 0x0d, 0x0b)) == a && Mul(a, Sum(0x1c, 0x0b, 0x0d, 0x1b)) == a
  {
    hide Mul;
    TimesOne(a);
  }

  lemma Nothing(a: bv8, p: bv8, q: bv8, r: bv8, s: bv8)
    requires Sum(p, q, r, s) == 0
    ensures Sum(Mul(a, p), Mul(a, q), Mul(a, r), Mul(a, s)) == 0
  {
    hide Mul, Sum;
    Factored(a, p, q, r, s);
    MulZero(a);
  }

  /** The product of the two matrices is the identity, in either order. */
  lemma Coefficients(a: bv8)
    ensures Sum(Mul(Mul(a, 0x02), 0x0e), Mul(a, 0x0b), Mul(a, 0x0d), Mul(Mul(a, 0x03), 0x09)) == a
    ensures Sum(Mul(Mul(a, 0x03), 0x0e), Mul(Mul(a, 0x02), 0x0b), Mul(a, 0x0d), Mul(a, 0x09)) == 0
    ensures Sum(Mul(a, 0x0e), Mul(Mul(a, 0x03), 0x0b), Mul(Mul(a, 0x02), 0x0d), Mul(a, 0x09)) == 0
    ensures Sum(Mul(a, 0x0e), Mul(a, 0x0b), Mul(Mul(a, 0x03), 0x0d), Mul(Mul(a, 0x02), 0x09)) == 0
  {
    hide Mul, Sum;
    Entries();
    Twice(a, 0x0e);
    Twice(a, 0x0b);
    Twice(a, 0x0d);
    Twice(a, 0x09);
    Factored(a, 0x1c, 0x0b, 0x0d, 0x1b);
    Unit(a);
    Sums();
    Nothing(a, 0x12, 0x16, 0x0d, 0x09);
    Nothing(a, 0x0e, 0x1d, 0x1a, 0x09);
    Nothing(a, 0x0e, 0x0b, 0x17, 0x12);
  }

  lemma InvCoefficients(a: bv8)
    ensures Sum(Mul(Mul(a, 0x0e), 0x02), Mul(Mul(a, 0x09), 0x03), Mul(a, 0x0d), Mul(a, 0x0b)) == a
    ensures Sum(Mul(Mul(a, 0x0b), 0x02), Mul(Mul(a, 0x0e), 0x03), Mul(a, 0x09), Mul(a, 0x0d)) == 0
    ensures Sum(Mul(Mul(a, 0x0d), 0x02), Mul(Mul(a, 0x0b), 0x03), Mul(a, 0x0e), Mul(a, 0x09)) == 0
    ensures Sum(Mul(Mul(a, 0x09), 0x02), Mul(Mul(a, 0x0d), 0x03), Mul(a, 0x0b), Mul(a, 0x0e)) == 0
  {
    hide Mul, Sum;
    Entries();
    Twice(a, 0x0e);
    Twice(a, 0x0b);
    Twice(a, 0x0d);
    Twice(a, 0x09);
    Factored(a, 0x1c, 0x1b, 0x0d, 0x0b);
    Unit(a);
    Sums();
    Nothing(a, 0x16, 0x12, 0x09, 0x0d);
    Nothing(a, 0x1a, 0x1d, 0x0e, 0x09);
    Nothing(a, 0x12, 0x17, 0x0b, 0x0e);
  }

  lemma Sums()
    ensures Sum(0x12, 0x16, 0x0d, 0x09) == 0 && Sum(0x0e, 0x1d, 0x1a, 0x09) == 0 && Sum(0x0e, 0x0b, 0x17, 0x12) == 0
    ensures Sum(0x16, 0x12, 0x09, 0x0d) == 0 && Sum(0x1a, 0x1d, 0x0e, 0x09) == 0 && Sum(0x12, 0x17, 0x0b, 0x0e) == 0
  {
  }

  lemma MixRowInverse(a: bv8, b: bv8, c: bv8, d: bv8)
    ensures InvMixRow(MixRow(a, b, c, d), MixRow(b, c, d, a), MixRow(c, d, a, b), MixRow(d, a, b, c)) == a
  {
    hide Add, Mul, Sum;
    var a2, a3, b2, b3 := Mul(a, 0x02), Mul(a, 0x03), Mul(b, 0x02), Mul(b, 0x03);
    var c2, c3, d2, d3 := Mul(c, 0x02), Mul(c, 0x03), Mul(d, 0x02), Mul(d, 0x03);
    SumLinear(0x0e, a2, b3, c, d);
    SumLinear(0x0b, b2, c3, d, a);
    SumLinear(0x0d, c2, d3, a, b);
    SumLinear(0x09, d2, a3, b, c);
    SumRotated(Mul(b2, 0x0b), Mul(c3, 0x0b), Mul(d, 0x0b), Mul(a, 0x0b));
    SumRotated(Mul(c2, 0x0d), Mul(d3, 0x0d), Mul(a, 0x0d), Mul(b, 0x0d));
    SumRotated(Mul(d2, 0x09), Mul(a3, 0x09), Mul(b, 0x09), Mul(c, 0x09));
    Transpose(Mul(a2, 0x0e), Mul(a, 0x0b), Mul(a, 0x0d), Mul(a3, 0x09),
              Mul(b3, 0x0e), Mul(b2, 0x0b), Mul(b, 0x0d), Mul(b, 0x09),
              Mul(c, 0x0e), Mul(c3, 0x0b), Mul(c2, 0x0d), Mul(c, 0x09),
              Mul(d, 0x0e), Mul(d, 0x0b), Mul(d3, 0x0d), Mul(d2, 0x09));
    Coefficients(a);
    Coefficients(b);
    Coefficients(c);
    Coefficients(d);
    SumZeros(a);
  }

  lemma InvMixRowInverse(a: bv8, b: bv8, c: bv8, d: bv8)
    ensures MixRow(InvMixRow(a, b, c, d), InvMixRow(b, c, d, a), InvMixRow(c, d, a, b), InvMixRow(d, a, b, c)) == a
  {
    hide Add, Mul, Sum;
    var a9, ab, ad, ae := Mul(a, 0x09), Mul(a, 0x0b), Mul(a, 0x0d), Mul(a, 0x0e);
    var b9, bb, bd, be := Mul(b, 0x09), Mul(b, 0x0b), Mul(b, 0x0d), Mul(b, 0x0e);
    var c9, cb, cd, ce := Mul(c, 0x09), Mul(c, 0x0b), Mul(c, 0x0d), Mul(c, 0x0e);
    var d9, db, dd, de := Mul(d, 0x09), Mul(d, 0x0b), Mul(d, 0x0d), Mul(d, 0x0e);
    SumLinear(0x02, ae, bb, cd, d9);
    SumLinear(0x03, be, cb, dd, a9);
    SumRotated(Mul(be, 0x03), Mul(cb, 0x03), Mul(dd, 0x03), Mul(a9, 0x03));
    SumRotated(ce, db, ad, b9);
    SumRotated(de, ab, bd, c9);
    Transpose(Mul(ae, 0x02), Mul(a9, 0x03), ad, ab, Mul(bb, 0x02), Mul(be, 0x03), b9, bd,
              Mul(cd, 0x02), Mul(cb, 0x03), ce, c9, Mul(d9, 0x02), Mul(dd, 0x03), db, de);
    InvCoefficients(a);
    InvCoefficients(b);
    InvCoefficients(c);
    InvCoefficients(d);
    SumZeros(a);
  }

  lemma SumRotated(p: bv8, q: bv8, r: bv8, s: bv8)
    ensures Sum(p, q, r, s) == Sum(s, p, q, r) == Sum(r, s, p, q) == Sum(q, r, s, p)
  {
    hide Add;
    AddComm(Add(p, q), Add(r, s));
    AddComm(Add(s, p), Add(q, r));
    Interleave(p, q, s, r);
    AddComm(s, p);
    AddComm(s, r);
    AddComm(r, q);
  }

  lemma SumZeros(a: bv8)
    ensures Sum(a, 0, 0, 0) == a
  {
  }

  lemma MixColInverse(c: Col)
    ensures InvMixCol(MixCol(c)) == c && MixCol(InvMixCol(c)) == c
  {
    hide MixRow, InvMixRow;
    MixRowInverse(c.a, c.b, c.c, c.d);
    MixRowInverse(c.b, c.c, c.d, c.a);
    MixRowInverse(c.c, c.d, c.a, c.b);
    MixRowInverse(c.d, c.a, c.b, c.c);
    InvMixRowInverse(c.a, c.b, c.c, c.d);
    InvMixRowInverse(c.b, c.c, c.d, c.a);
    InvMixRowInverse(c.c, c.d, c.a, c.b);
    InvMixRowInverse(c.d, c.a, c.b, c.c);
  }

  lemma MixColumnsInverse(s: State)
    ensures InvMixColumns(MixColumns(s)) == s && MixColumns(InvMixColumns(s)) == s
  {
    hide MixCol, InvMixCol;
    MixColInverse(s.w);
    MixColInverse(s.x);
    MixColInverse(s.y);
    MixColInverse(s.z);
  }

  // ------------------------------------------------------------------ the ciphers

  type Keys = ks: seq<State> | |ks| == 11 witness seq(11, _ => State(Col(0, 0, 0, 0), Col(0, 0, 0, 0), Col(0, 0, 0, 0), Col(0, 0, 0, 0)))

  ghost function Substituted(s: State): State {
    ShiftRows(SubBytes(s))
  }

  ghost function InvSubstituted(s: State): State {
    InvSubBytes(InvShiftRows(s))
  }

  /** The state after round `r` of the cipher (section 5.1). */
  ghost function Round(ks: Keys, s: State, r: nat): State
    requires r <= 9
  {
    if r == 0 then AddKey(s, ks[0]) else AddKey(MixColumns(Substituted(Round(ks, s, r - 1))), ks[r])
  }

  ghost function Cipher(ks: Keys, s: State): State {
    AddKey(Substituted(Round(ks, s, 9)), ks[10])
  }

  /** The state of the inverse cipher (section 5.3) when it has undone the last `r` rounds but one. */
  ghost function InvRound(ks: Keys, s: State, r: nat): State
    requires r <= 9
  {
    if r == 0 then AddKey(s, ks[10]) else InvMixColumns(AddKey(InvSubstituted(InvRound(ks, s, r - 1)), ks[10 - r]))
  }

  ghost function InvCipher(ks: Keys, s: State): State {
    AddKey(InvSubstituted(InvRound(ks, s, 9)), ks[0])
  }

  /** The round keys of the equivalent inverse cipher (section 5.3.5). */
  function InvKeys(ks: Keys): Keys {
    seq(11, r requires 0 <= r < 11 => if 0 < r < 10 then InvMixColumns(ks[10 - r]) else ks[10 - r])
  }

  ghost function EqInvRound(dk: Keys, s: State, r: nat): State
    requires r <= 9
  {
    if r == 0 then AddKey(s, dk[0]) else AddKey(InvMixColumns(InvSubstituted(EqInvRound(dk, s, r - 1))), dk[r])
  }

  ghost function EqInvCipher(dk: Keys, s: State): State {
    AddKey(InvSubstituted(EqInvRound(dk, s, 9)), dk[10])
  }

  // ------------------------------------------------------------------ theorems

  lemma SubstitutedInverse(s: State)
    ensures InvSubstituted(Substituted(s)) == s && Substituted(InvSubstituted(s)) == s
  {
    hide SubBytes, InvSubBytes, ShiftRows, InvShiftRows;
    SubBytesInverse(s);
    ShiftThenSub(SubBytes(s));
    SubBytesInverse(InvShiftRows(s));
    ShiftThenSub(s);
  }

  /** Moving InvMixColumns before AddRoundKey, with transformed keys, does not change any round. */
  lemma {:induction false} EquivalentRound(ks: Keys, s: State, r: nat)
    requires r <= 9
    ensures EqInvRound(InvKeys(ks), s, r) == InvRound(ks, s, r)
    decreases r
  {
    hide AddKey, InvMixColumns, InvSubstituted;
    if r > 0 {
      EquivalentRound(ks, s, r - 1);
      InvMixColumnsLinear(InvSubstituted(InvRound(ks, s, r - 1)), ks[10 - r]);
    }
  }

  lemma EquivalentInverseCipher(ks: Keys, s: State)
    ensures EqInvCipher(InvKeys(ks), s) == InvCipher(ks, s)
  {
    hide AddKey, InvSubstituted, EqInvRound, InvRound;
    EquivalentRound(ks, s, 9);
  }

  lemma {:induction false} RoundUndone(ks: Keys, s: State, r: nat)
    requires r <= 9
    ensures InvRound(ks, Cipher(ks, s), r) == Substituted(Round(ks, s, 9 - r))
    decreases r
  {
    hide AddKey, MixColumns, InvMixColumns, InvSubstituted, Substituted;
    if r == 0 {
      AddTwice(Substituted(Round(ks, s, 9)), ks[10]);
    } else {
      RoundUndone(ks, s, r - 1);
      var mid := Round(ks, s, 9 - r);
      SubstitutedInverse(Round(ks, s, 10 - r));
      AddTwice(MixColumns(Substituted(mid)), ks[10 - r]);
      MixColumnsInverse(Substituted(mid));
    }
  }

  lemma {:induction false} RoundRedone(ks: Keys, s: State, r: nat)
    requires r <= 9
    ensures Round(ks, InvCipher(ks, s), r) == InvSubstituted(InvRound(ks, s, 9 - r))
    decreases r
  {
    hide AddKey, MixColumns, InvMixColumns, InvSubstituted, Substituted;
    if r == 0 {
      AddTwice(InvSubstituted(InvRound(ks, s, 9)), ks[0]);
    } else {
      RoundRedone(ks, s, r - 1);
      var mid := InvSubstituted(InvRound(ks, s, 9 - r));
      SubstitutedInverse(InvRound(ks, s, 10 - r));
      MixColumnsInverse(AddKey(mid, ks[r]));
      AddTwice(mid, ks[r]);
    }
  }

  /** For every key schedule and block, the cipher and its inverse undo each other. */
  lemma CipherInverts(ks: Keys, s: State)
    ensures InvCipher(ks, Cipher(ks, s)) == s
    ensures Cipher(ks, InvCipher(ks, s)) == s
  {
    hide AddKey, InvSubstituted, Substituted, MixColumns, InvMixColumns;
    RoundUndone(ks, s, 9);
    SubstitutedInverse(Round(ks, s, 0));
    AddTwice(s, ks[0]);
    RoundRedone(ks, s, 9);
    SubstitutedInverse(InvRound(ks, s, 0));
    AddTwice(s, ks[10]);
  }
}
