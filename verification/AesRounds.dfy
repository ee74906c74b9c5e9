/** One table-driven round is one round of the cipher, and the key schedule in words. */
module AesRounds {
  import opened GaloisField
  import opened AesTables
  import opened Aes

  // ------------------------------------------------------------------ words of a round

  /** One word of a table-driven round: a byte of each input word through its table. */
  function Mixed(t: seq<seq<bv32>>, p: bv32, q: bv32, r: bv32, s: bv32, k: bv32): bv32
    requires Shaped(t)
  {
    Xor(Xor(Xor(Xor(At(t[0], ColOf(p).a), At(t[1], ColOf(q).b)), At(t[2], ColOf(r).c)), At(t[3], ColOf(s).d)), k)
  }

  /** One word of the last round. */
  function Last(box: seq<bv8>, p: bv32, q: bv32, r: bv32, s: bv32, k: bv32): bv32
    requires |box| == 256
  {
    Xor(Joined(ByteAt(box, ColOf(p).a), ByteAt(box, ColOf(q).b), ByteAt(box, ColOf(r).c), ByteAt(box, ColOf(s).d)), k)
  }

  function Joined(a: bv8, b: bv8, c: bv8, d: bv8): bv32 {
    ((a as bv32) << 24) ^ ((b as bv32) << 16) ^ ((c as bv32) << 8) ^ (d as bv32)
  }

  /** The column a round reads: row `r` from the `r`-th word. */
  function Diagonal(p: bv32, q: bv32, r: bv32, s: bv32): Col {
    Col(ColOf(p).a, ColOf(q).b, ColOf(r).c, ColOf(s).d)
  }

  lemma JoinedCol(a: bv8, b: bv8, c: bv8, d: bv8)
    ensures ColOf(Joined(a, b, c, d)) == Col(a, b, c, d)
  {
  }

  lemma LastIsSubCol(t: Tables, p: bv32, q: bv32, r: bv32, s: bv32, k: bv32)
    requires Correct(t)
    ensures ColOf(Last(t.sbox, p, q, r, s, k)) == AddCol(SubCol(Diagonal(p, q, r, s)), ColOf(k))
    ensures ColOf(Last(t.invSbox, p, q, r, s, k)) == AddCol(InvSubCol(Diagonal(p, q, r, s)), ColOf(k))
  {
    hide ColOf, AddCol, SBox, InvSBox, Joined, Xor, ByteAt, At, Rotations;
    var d := Diagonal(p, q, r, s);
    Looked(t, d.a);
    Looked(t, d.b);
    Looked(t, d.c);
    Looked(t, d.d);
    JoinedCol(SBox(d.a), SBox(d.b), SBox(d.c), SBox(d.d));
    JoinedCol(InvSBox(d.a), InvSBox(d.b), InvSBox(d.c), InvSBox(d.d));
    ColOfXor(Joined(SBox(d.a), SBox(d.b), SBox(d.c), SBox(d.d)), k);
    ColOfXor(Joined(InvSBox(d.a), InvSBox(d.b), InvSBox(d.c), InvSBox(d.d)), k);
  }

  lemma FourXor(p: Col, q: Col, r: Col, s: Col)
    ensures ColOf(Xor(Xor(Xor(Word(p), Word(q)), Word(r)), Word(s))) == AddCol(AddCol(AddCol(p, q), r), s)
  {
    hide ColOf, AddCol, Word, Xor;
    WordCol(p);
    WordCol(q);
    WordCol(r);
    WordCol(s);
    ColOfXor(Word(p), Word(q));
    ColOfXor(Xor(Word(p), Word(q)), Word(r));
    ColOfXor(Xor(Xor(Word(p), Word(q)), Word(r)), Word(s));
  }

  lemma FiveXor(p: Col, q: Col, r: Col, s: Col, k: bv32)
    ensures ColOf(Xor(Xor(Xor(Xor(Word(p), Word(q)), Word(r)), Word(s)), k)) == AddCol(AddCol(AddCol(AddCol(p, q), r), s), ColOf(k))
  {
    hide ColOf, AddCol, Word, Xor;
    FourXor(p, q, r, s);
    ColOfXor(Xor(Xor(Xor(Word(p), Word(q)), Word(r)), Word(s)), k);
  }

  lemma LeftSum(p: bv8, q: bv8, r: bv8, s: bv8)
    ensures Add(Add(Add(p, q), r), s) == Sum(p, q, r, s)
  {
    hide Add;
    AddAssoc(Add(p, q), r, s);
  }

  /** The four table columns of a diagonal add up to MixColumns of its substitution. */
  lemma TeColumns(c: Col)
    ensures AddCol(AddCol(AddCol(TeCol(c.a), Turn(TeCol(c.b))), Turn(Turn(TeCol(c.c)))), Turn(Turn(Turn(TeCol(c.d))))) == MixCol(SubCol(c))
  {
    hide Add, Mul, SBox, Sum;
    var a, b, c', d := SBox(c.a), SBox(c.b), SBox(c.c), SBox(c.d);
    LeftSum(Mul(a, 0x02), Mul(b, 0x03), c', d);
    LeftSum(a, Mul(b, 0x02), Mul(c', 0x03), d);
    SumRotated(a, Mul(b, 0x02), Mul(c', 0x03), d);
    LeftSum(a, b, Mul(c', 0x02), Mul(d, 0x03));
    SumRotated(a, b, Mul(c', 0x02), Mul(d, 0x03));
    LeftSum(Mul(a, 0x03), b, c', Mul(d, 0x02));
    SumRotated(Mul(a, 0x03), b, c', Mul(d, 0x02));
  }

  lemma TdColumns(c: Col)
    ensures AddCol(AddCol(AddCol(TdCol(c.a), Turn(TdCol(c.b))), Turn(Turn(TdCol(c.c)))), Turn(Turn(Turn(TdCol(c.d))))) == InvMixCol(InvSubCol(c))
  {
    hide Add, Mul, InvSBox, Sum;
    var a, b, c', d := InvSBox(c.a), InvSBox(c.b), InvSBox(c.c), InvSBox(c.d);
    LeftSum(Mul(a, 0x0e), Mul(b, 0x0b), Mul(c', 0x0d), Mul(d, 0x09));
    LeftSum(Mul(a, 0x09), Mul(b, 0x0e), Mul(c', 0x0b), Mul(d, 0x0d));
    SumRotated(Mul(a, 0x09), Mul(b, 0x0e), Mul(c', 0x0b), Mul(d, 0x0d));
    LeftSum(Mul(a, 0x0d), Mul(b, 0x09), Mul(c', 0x0e), Mul(d, 0x0b));
    SumRotated(Mul(a, 0x0d), Mul(b, 0x09), Mul(c', 0x0e), Mul(d, 0x0b));
    LeftSum(Mul(a, 0x0b), Mul(b, 0x0d), Mul(c', 0x09), Mul(d, 0x0e));
    SumRotated(Mul(a, 0x0b), Mul(b, 0x0d), Mul(c', 0x09), Mul(d, 0x0e));
  }

  lemma MixedIsMixCol(t: Tables, p: bv32, q: bv32, r: bv32, s: bv32, k: bv32)
    requires Correct(t)
    ensures ColOf(Mixed(t.te, p, q, r, s, k)) == AddCol(MixCol(SubCol(Diagonal(p, q, r, s))), ColOf(k))
    ensures ColOf(Mixed(t.td, p, q, r, s, k)) == AddCol(InvMixCol(InvSubCol(Diagonal(p, q, r, s))), ColOf(k))
  {
    hide ColOf, AddCol, Word, Turn, TeCol, TdCol, MixCol, InvMixCol, SubCol, InvSubCol, SBox, InvSBox, Xor, At, ByteAt, Correct;
    var d := Diagonal(p, q, r, s);
    Looked(t, d.a);
    Looked(t, d.b);
    Looked(t, d.c);
    Looked(t, d.d);
    TeColumns(d);
    TdColumns(d);
    FiveXor(TeCol(d.a), Turn(TeCol(d.b)), Turn(Turn(TeCol(d.c))), Turn(Turn(Turn(TeCol(d.d)))), k);
    FiveXor(TdCol(d.a), Turn(TdCol(d.b)), Turn(Turn(TdCol(d.c))), Turn(Turn(Turn(TdCol(d.d)))), k);
  }

  // ------------------------------------------------------------------ whole rounds

  function StateOf(p: bv32, q: bv32, r: bv32, s: bv32): State {
    State(ColOf(p), ColOf(q), ColOf(r), ColOf(s))
  }

  /** The four words of a round; the inverse round reads the other diagonals. */
  lemma TableRound(t: Tables, p: bv32, q: bv32, r: bv32, s: bv32, k: State, k0: bv32, k1: bv32, k2: bv32, k3: bv32)
    requires Correct(t) && StateOf(k0, k1, k2, k3) == k
    ensures StateOf(Mixed(t.te, p, q, r, s, k0), Mixed(t.te, q, r, s, p, k1), Mixed(t.te, r, s, p, q, k2), Mixed(t.te, s, p, q, r, k3)) ==
            AddKey(MixColumns(Substituted(StateOf(p, q, r, s))), k)
    ensures StateOf(Mixed(t.td, p, s, r, q, k0), Mixed(t.td, q, p, s, r, k1), Mixed(t.td, r, q, p, s, k2), Mixed(t.td, s, r, q, p, k3)) ==
            AddKey(InvMixColumns(InvSubstituted(StateOf(p, q, r, s))), k)
  {
    hide ColOf, AddCol, Mixed, MixCol, InvMixCol, SBox, InvSBox, Correct;
    MixedIsMixCol(t, p, q, r, s, k0);
    MixedIsMixCol(t, q, r, s, p, k1);
    MixedIsMixCol(t, r, s, p, q, k2);
    MixedIsMixCol(t, s, p, q, r, k3);
    MixedIsMixCol(t, p, s, r, q, k0);
    MixedIsMixCol(t, q, p, s, r, k1);
    MixedIsMixCol(t, r, q, p, s, k2);
    MixedIsMixCol(t, s, r, q, p, k3);
  }

  lemma LastRound(t: Tables, p: bv32, q: bv32, r: bv32, s: bv32, k: State, k0: bv32, k1: bv32, k2: bv32, k3: bv32)
    requires Correct(t) && StateOf(k0, k1, k2, k3) == k
    ensures StateOf(Last(t.sbox, p, q, r, s, k0), Last(t.sbox, q, r, s, p, k1), Last(t.sbox, r, s, p, q, k2), Last(t.sbox, s, p, q, r, k3)) ==
            AddKey(Substituted(StateOf(p, q, r, s)), k)
    ensures StateOf(Last(t.invSbox, p, s, r, q, k0), Last(t.invSbox, q, p, s, r, k1), Last(t.invSbox, r, q, p, s, k2), Last(t.invSbox, s, r, q, p, k3)) ==
            AddKey(InvSubstituted(StateOf(p, q, r, s)), k)
  {
    hide ColOf, AddCol, Last, SBox, InvSBox, Correct;
    LastIsSubCol(t, p, q, r, s, k0);
    LastIsSubCol(t, q, r, s, p, k1);
    LastIsSubCol(t, r, s, p, q, k2);
    LastIsSubCol(t, s, p, q, r, k3);
    LastIsSubCol(t, p, s, r, q, k0);
    LastIsSubCol(t, q, p, s, r, k1);
    LastIsSubCol(t, r, q, p, s, k2);
    LastIsSubCol(t, s, r, q, p, k3);
  }

  lemma FirstKey(p: bv32, q: bv32, r: bv32, s: bv32, k: State, k0: bv32, k1: bv32, k2: bv32, k3: bv32)
    requires StateOf(k0, k1, k2, k3) == k
    ensures StateOf(Xor(p, k0), Xor(q, k1), Xor(r, k2), Xor(s, k3)) == AddKey(StateOf(p, q, r, s), k)
  {
    hide ColOf, AddCol, Xor;
    ColOfXor(p, k0);
    ColOfXor(q, k1);
    ColOfXor(r, k2);
    ColOfXor(s, k3);
  }

  // ------------------------------------------------------------------ the key schedule

  function RotWord(c: Col): Col {
    Col(c.b, c.c, c.d, c.a)
  }

  function RconByte(n: nat): bv8
    requires n > 0
  {
    if n == 1 then 1 else XTime(RconByte(n - 1))
  }

  type Key = k: seq<bv8> | |k| == 16 witness seq(16, _ => 0)

  /** The key expansion of section 5.2. */
  ghost function KeyWord(key: Key, i: nat): Col {
    if i < 4 then Col(key[4 * i], key[4 * i + 1], key[4 * i + 2], key[4 * i + 3])
    else if i % 4 == 0 then
      AddCol(AddCol(KeyWord(key, i - 4), SubCol(RotWord(KeyWord(key, i - 1)))), Col(RconByte(i / 4), 0, 0, 0))
    else AddCol(KeyWord(key, i - 4), KeyWord(key, i - 1))
  }

  ghost function RoundKey(key: Key, r: nat): State {
    State(KeyWord(key, 4 * r), KeyWord(key, 4 * r + 1), KeyWord(key, 4 * r + 2), KeyWord(key, 4 * r + 3))
  }

  ghost function RoundKeys(key: Key): Keys {
    seq(11, r requires 0 <= r < 11 => RoundKey(key, r))
  }

  /** The word the code derives with the S-box from the last word of a round key. */
  function SubRot(box: seq<bv8>, w: bv32): bv32
    requires |box| == 256
  {
    Joined(ByteAt(box, ColOf(w).b), ByteAt(box, ColOf(w).c), ByteAt(box, ColOf(w).d), ByteAt(box, ColOf(w).a))
  }

  lemma SubRotIs(t: Tables, w: bv32)
    requires Correct(t)
    ensures ColOf(SubRot(t.sbox, w)) == SubCol(RotWord(ColOf(w)))
  {
    hide ColOf, SBox, InvSBox, Joined, ByteAt, At, Rotations, Correct;
    var c := ColOf(w);
    Looked(t, c.a);
    Looked(t, c.b);
    Looked(t, c.c);
    Looked(t, c.d);
    JoinedCol(SBox(c.b), SBox(c.c), SBox(c.d), SBox(c.a));
  }

  /** InvMixColumns of a word, by way of the S-box and the decryption tables. */
  function Unmixed(t: Tables, w: bv32): bv32
    requires |t.sbox| == 256 && Shaped(t.td)
  {
    Xor(Xor(Xor(At(t.td[0], ByteAt(t.sbox, ColOf(w).a)), At(t.td[1], ByteAt(t.sbox, ColOf(w).b))),
            At(t.td[2], ByteAt(t.sbox, ColOf(w).c))), At(t.td[3], ByteAt(t.sbox, ColOf(w).d)))
  }

  lemma UnmixedIs(t: Tables, w: bv32)
    requires Correct(t)
    ensures ColOf(Unmixed(t, w)) == InvMixCol(ColOf(w))
  {
    hide ColOf, SBox, InvSBox, ByteAt, At, Correct, TdCol, TeCol, Turn, AddCol, InvMixCol, InvSubCol, Xor, Word;
    var c := ColOf(w);
    var d := SubCol(c);
    Looked(t, c.a);
    Looked(t, c.b);
    Looked(t, c.c);
    Looked(t, c.d);
    Looked(t, d.a);
    Looked(t, d.b);
    Looked(t, d.c);
    Looked(t, d.d);
    TdColumns(d);
    SubColInverse(c);
    FourXor(TdCol(d.a), Turn(TdCol(d.b)), Turn(Turn(TdCol(d.c))), Turn(Turn(Turn(TdCol(d.d)))));
  }

  const RCON: seq<bv32> := [0x01000000, 0x02000000, 0x04000000, 0x08000000, 0x10000000,
                            0x20000000, 0x40000000, 0x80000000, 0x1b000000, 0x36000000]

  lemma RconIs(i: nat)
    requires i < 10
    ensures ColOf(RCON[i]) == Col(RconByte(i + 1), 0, 0, 0)
  {
    RconBytes();
    RconCols();
  }

  lemma RconBytes()
    ensures RconByte(1) == 0x01 && RconByte(2) == 0x02 && RconByte(3) == 0x04 && RconByte(4) == 0x08 && RconByte(5) == 0x10
    ensures RconByte(6) == 0x20 && RconByte(7) == 0x40 && RconByte(8) == 0x80 && RconByte(9) == 0x1b && RconByte(10) == 0x36
  {
    hide XTime;
    Powers();
    LastRcon();
    assert RconByte(5) == XTime(RconByte(4)) && RconByte(4) == XTime(RconByte(3)) && RconByte(3) == XTime(RconByte(2));
    assert RconByte(8) == XTime(RconByte(7)) && RconByte(7) == XTime(RconByte(6)) && RconByte(6) == XTime(RconByte(5));
  }

  lemma LastRcon()
    ensures XTime(0x1b) == 0x36
  {
  }

  lemma RconCols()
    ensures forall i :: 0 <= i < 10 ==> ColOf(RCON[i]).b == 0 && ColOf(RCON[i]).c == 0 && ColOf(RCON[i]).d == 0
    ensures ColOf(RCON[0]).a == 0x01 && ColOf(RCON[1]).a == 0x02 && ColOf(RCON[2]).a == 0x04 && ColOf(RCON[3]).a == 0x08
    ensures ColOf(RCON[4]).a == 0x10 && ColOf(RCON[5]).a == 0x20 && ColOf(RCON[6]).a == 0x40 && ColOf(RCON[7]).a == 0x80
    ensures ColOf(RCON[8]).a == 0x1b && ColOf(RCON[9]).a == 0x36
  {
  }
}
