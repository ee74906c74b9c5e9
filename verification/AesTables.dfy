/** The S-box of AES and the lookup tables built from it. */
module AesTables {
  import opened GaloisField
  import G = Generator

  // ------------------------------------------------------------------ the S-box

  /** A byte rotated `n` times, and the sum of it and its rotations so far. */
  function Spin(x: bv8, n: nat): (bv8, bv8) {
    if n == 0 then (x, x)
    else
      var (y, s) := Spin(x, n - 1);
      (y.RotateLeft(1), Add(s, y.RotateLeft(1)))
  }

  /** The affine map of section 5.1.1 of FIPS 197. */
  function Affine(x: bv8): bv8 {
    x ^ x.RotateLeft(1) ^ x.RotateLeft(2) ^ x.RotateLeft(3) ^ x.RotateLeft(4) ^ 0x63
  }

  lemma RotateTwice(x: bv8)
    ensures x.RotateLeft(1).RotateLeft(1) == x.RotateLeft(2)
    ensures x.RotateLeft(2).RotateLeft(1) == x.RotateLeft(3)
    ensures x.RotateLeft(3).RotateLeft(1) == x.RotateLeft(4)
  {
  }

  lemma SpinIsAffine(x: bv8)
    ensures Add(Spin(x, 4).1, 0x63) == Affine(x)
  {
    RotateTwice(x);
    assert Spin(x, 1) == (x.RotateLeft(1), Add(x, x.RotateLeft(1)));
    assert Spin(x, 2) == (x.RotateLeft(2), Add(Spin(x, 1).1, x.RotateLeft(2)));
    assert Spin(x, 3) == (x.RotateLeft(3), Add(Spin(x, 2).1, x.RotateLeft(3)));
  }

  lemma AffineInjective(x: bv8, y: bv8)
    requires Affine(x) == Affine(y)
    ensures x == y
  {
  }

  ghost function SBox(x: bv8): bv8 {
    Affine(G.Inverse(x))
  }

  lemma SBoxInjective(x: bv8, y: bv8)
    requires SBox(x) == SBox(y)
    ensures x == y
  {
    hide Affine, G.Inverse;
    AffineInjective(G.Inverse(x), G.Inverse(y));
    G.InverseInjective(x, y);
  }

  lemma Bytes(i: nat)
    requires i < 256
    ensures (i as bv8) as int == i
  {
    assert i % 256 == i;
  }

  /** The table index of a substituted byte. */
  ghost function SBoxAt(i: nat): (r: nat)
    requires i < 256
    ensures r < 256 && r == SBox(i as bv8) as int
  {
    hide SBox;
    G.Below256(SBox(i as bv8), 0);
    SBox(i as bv8) as int
  }

  lemma SBoxAtDistinct(i: nat, j: nat)
    requires i < 256 && j < 256 && SBoxAt(i) == SBoxAt(j)
    ensures i == j
  {
    hide SBox;
    G.Below256(SBox(i as bv8), SBox(j as bv8));
    SBoxInjective(i as bv8, j as bv8);
    Bytes(i);
    Bytes(j);
  }

  lemma SBoxSurjective(y: bv8)
    ensures exists x :: SBox(x) == y
  {
    hide SBox, SBoxAt;
    var s := seq(256, i requires 0 <= i < 256 => SBoxAt(i));
    forall i, j | 0 <= i < j < 256 ensures s[i] != s[j] {
      if s[i] == s[j] { SBoxAtDistinct(i, j); }
    }
    G.Below256(y, 0);
    G.Pigeonhole(s, y as int);
    var i :| 0 <= i < 256 && s[i] == y as int;
    G.Below256(SBox(i as bv8), y);
  }

  ghost function InvSBox(y: bv8): (x: bv8)
    ensures SBox(x) == y
  {
    SBoxSurjective(y);
    var x :| SBox(x) == y;
    x
  }

  /** The two boxes undo each other. */
  lemma BoxesInverse(x: bv8)
    ensures InvSBox(SBox(x)) == x && SBox(InvSBox(x)) == x
  {
    hide SBox, InvSBox;
    SBoxInjective(InvSBox(SBox(x)), x);
  }

  // ------------------------------------------------------------------ words

  /** Four bytes: a column of the state, a word of the key schedule. */
  datatype Col = Col(a: bv8, b: bv8, c: bv8, d: bv8)

  function Pack(a: bv8, b: bv8, c: bv8, d: bv8): bv32 {
    ((a as bv32) << 24) | ((b as bv32) << 16) | ((c as bv32) << 8) | (d as bv32)
  }

  function Word(c: Col): bv32 {
    Pack(c.a, c.b, c.c, c.d)
  }

  function ColOf(w: bv32): Col {
    Col((w >> 24) as bv8, ((w >> 16) & 0xff) as bv8, ((w >> 8) & 0xff) as bv8, (w & 0xff) as bv8)
  }

  lemma WordCol(c: Col)
    ensures ColOf(Word(c)) == c
  {
  }

  function AddCol(x: Col, y: Col): Col {
    Col(Add(x.a, y.a), Add(x.b, y.b), Add(x.c, y.c), Add(x.d, y.d))
  }

  function Xor(v: bv32, w: bv32): bv32 {
    v ^ w
  }

  lemma ColOfXor(v: bv32, w: bv32)
    ensures ColOf(Xor(v, w)) == AddCol(ColOf(v), ColOf(w))
  {
  }

  /** The bytes of a column turned downwards by one. */
  function Turn(c: Col): Col {
    Col(c.d, c.a, c.b, c.c)
  }

  function Rot8(w: bv32): bv32 { w.RotateRight(8) }

  function Rot16(w: bv32): bv32 { w.RotateRight(16) }

  function Rot24(w: bv32): bv32 { w.RotateRight(24) }

  lemma PackRot8(a: bv8, b: bv8, c: bv8, d: bv8)
    ensures Rot8(Pack(a, b, c, d)) == Pack(d, a, b, c)
  {
  }

  lemma PackRot16(a: bv8, b: bv8, c: bv8, d: bv8)
    ensures Rot16(Pack(a, b, c, d)) == Pack(c, d, a, b)
  {
  }

  lemma PackRot24(a: bv8, b: bv8, c: bv8, d: bv8)
    ensures Rot24(Pack(a, b, c, d)) == Pack(b, c, d, a)
  {
  }

  lemma Rotated(c: Col)
    ensures Rotations(Word(c), Rot8(Word(c)), Rot16(Word(c)), Rot24(Word(c)), c)
  {
    hide Pack, Rot8, Rot16, Rot24;
    PackRot8(c.a, c.b, c.c, c.d);
    PackRot16(c.a, c.b, c.c, c.d);
    PackRot24(c.a, c.b, c.c, c.d);
  }

  /** A column and its three rotations, as words. */
  predicate Rotations(w0: bv32, w1: bv32, w2: bv32, w3: bv32, c: Col) {
    w0 == Word(c) && w1 == Word(Turn(c)) && w2 == Word(Turn(Turn(c))) && w3 == Word(Turn(Turn(Turn(c))))
  }

  /** One byte of a column, substituted, in every row of MixColumns. */
  ghost function TeCol(x: bv8): Col {
    var s := SBox(x);
    Col(Mul(s, 0x02), s, s, Mul(s, 0x03))
  }

  ghost function TdCol(x: bv8): Col {
    var s := InvSBox(x);
    Col(Mul(s, 0x0e), Mul(s, 0x09), Mul(s, 0x0d), Mul(s, 0x0b))
  }

  // ------------------------------------------------------------------ tables

  datatype Tables = Tables(sbox: seq<bv8>, invSbox: seq<bv8>, te: seq<seq<bv32>>, td: seq<seq<bv32>>)

  /** Four tables of 256 words. */
  predicate Shaped(t: seq<seq<bv32>>) {
    |t| == 4 && |t[0]| == 256 && |t[1]| == 256 && |t[2]| == 256 && |t[3]| == 256
  }

  /** Row `i` holds `c` and its rotations. */
  ghost predicate Holds(t: seq<seq<bv32>>, i: nat, c: Col)
    requires Shaped(t) && i < 256
  {
    Rotations(t[0][i], t[1][i], t[2][i], t[3][i], c)
  }

  ghost predicate Correct(t: Tables) {
    && |t.sbox| == |t.invSbox| == 256 && Shaped(t.te) && Shaped(t.td)
    && (forall x: bv8 :: t.sbox[x as int] == SBox(x) && t.invSbox[x as int] == InvSBox(x))
    && (forall x: bv8 :: Holds(t.te, x as int, TeCol(x)))
    && (forall x: bv8 :: Holds(t.td, x as int, TdCol(x)))
  }

  /** The entry for byte `x`. */
  function At(t: seq<bv32>, x: bv8): bv32
    requires |t| == 256
  {
    t[x as int]
  }

  function ByteAt(t: seq<bv8>, x: bv8): bv8
    requires |t| == 256
  {
    t[x as int]
  }

  lemma Looked(t: Tables, x: bv8)
    requires Correct(t)
    ensures ByteAt(t.sbox, x) == SBox(x) && ByteAt(t.invSbox, x) == InvSBox(x)
    ensures Rotations(At(t.te[0], x), At(t.te[1], x), At(t.te[2], x), At(t.te[3], x), TeCol(x))
    ensures Rotations(At(t.td[0], x), At(t.td[1], x), At(t.td[2], x), At(t.td[3], x), TdCol(x))
  {
    hide SBox, InvSBox, TeCol, TdCol, Rotations;
    assert Holds(t.te, x as int, TeCol(x)) && Holds(t.td, x as int, TdCol(x));
  }
}
