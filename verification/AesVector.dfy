/** The known answer of FIPS 197, appendix C.1: this is AES-128 and no other invertible cipher. */
module AesVector {
  import opened GaloisField
  import opened AesTables
  import opened Aes
  import opened AesRounds
  import opened AesObject
  import opened AesSBox

  function KeyC1(): Key {
    [0x00, 0x01, 0x02, 0x03, 0x04, 0x05, 0x06, 0x07, 0x08, 0x09, 0x0a, 0x0b, 0x0c, 0x0d, 0x0e, 0x0f]
  }

  function PlainC1(): Block {
    [0x00, 0x11, 0x22, 0x33, 0x44, 0x55, 0x66, 0x77, 0x88, 0x99, 0xaa, 0xbb, 0xcc, 0xdd, 0xee, 0xff]
  }

  function CipherC1(): Block {
    [0x69, 0xc4, 0xe0, 0xd8, 0x6a, 0x7b, 0x04, 0x30, 0xd8, 0xcd, 0xb7, 0x80, 0x70, 0xb4, 0xc5, 0x5a]
  }

  // ------------------------------------------------------------------ the key schedule

  /** One round key from the one before; `s` is its last word, substituted and turned. */
  lemma NextKey(key: Key, r: nat, k: State, s: Col, rcon: bv8, next: State)
    requires RoundKey(key, r) == k && RconByte(r + 1) == rcon
    requires s == Col(SBox(k.z.b), SBox(k.z.c), SBox(k.z.d), SBox(k.z.a))
    requires next.w == AddCol(AddCol(k.w, s), Col(rcon, 0, 0, 0))
    requires next.x == AddCol(k.x, next.w) && next.y == AddCol(k.y, next.x) && next.z == AddCol(k.z, next.y)
    ensures RoundKey(key, r + 1) == next
  {
    hide SBox, AddCol, RconByte;
    Quarter(r + 1);
  }

  lemma Quarter(r: nat)
    ensures 4 * r % 4 == 0 && 4 * r / 4 == r && (4 * r + 1) % 4 == 1 && (4 * r + 2) % 4 == 2 && (4 * r + 3) % 4 == 3
  {
  }

  lemma Rcons()
    ensures RconByte(1) == 0x01 && RconByte(2) == 0x02 && RconByte(3) == 0x04 && RconByte(4) == 0x08 && RconByte(5) == 0x10
    ensures RconByte(6) == 0x20 && RconByte(7) == 0x40 && RconByte(8) == 0x80 && RconByte(9) == 0x1b && RconByte(10) == 0x36
  {
    hide XTime;
    Powers();
    assert RconByte(1) == 0x01;
    assert RconByte(3) == 0x04;
    assert RconByte(5) == 0x10;
    assert RconByte(7) == 0x40;
    assert RconByte(9) == 0x1b;
    assert XTime(0x1b) == 0x36 by { Doubled(); }
  }

  lemma Doubled()
    ensures XTime(0x1b) == 0x36
  {
  }

  function K0(): State {
    State(Col(0x00, 0x01, 0x02, 0x03), Col(0x04, 0x05, 0x06, 0x07), Col(0x08, 0x09, 0x0a, 0x0b), Col(0x0c, 0x0d, 0x0e, 0x0f))
  }

  function K1(): State {
    State(Col(0xd6, 0xaa, 0x74, 0xfd), Col(0xd2, 0xaf, 0x72, 0xfa), Col(0xda, 0xa6, 0x78, 0xf1), Col(0xd6, 0xab, 0x76, 0xfe))
  }

  function K2(): State {
    State(Col(0xb6, 0x92, 0xcf, 0x0b), Col(0x64, 0x3d, 0xbd, 0xf1), Col(0xbe, 0x9b, 0xc5, 0x00), Col(0x68, 0x30, 0xb3, 0xfe))
  }

  function K3(): State {
    State(Col(0xb6, 0xff, 0x74, 0x4e), Col(0xd2, 0xc2, 0xc9, 0xbf), Col(0x6c, 0x59, 0x0c, 0xbf), Col(0x04, 0x69, 0xbf, 0x41))
  }

  function K4(): State {
    State(Col(0x47, 0xf7, 0xf7, 0xbc), Col(0x95, 0x35, 0x3e, 0x03), Col(0xf9, 0x6c, 0x32, 0xbc), Col(0xfd, 0x05, 0x8d, 0xfd))
  }

  function K5(): State {
    State(Col(0x3c, 0xaa, 0xa3, 0xe8), Col(0xa9, 0x9f, 0x9d, 0xeb), Col(0x50, 0xf3, 0xaf, 0x57), Col(0xad, 0xf6, 0x22, 0xaa))
  }

  function K6(): State {
    State(Col(0x5e, 0x39, 0x0f, 0x7d), Col(0xf7, 0xa6, 0x92, 0x96), Col(0xa7, 0x55, 0x3d, 0xc1), Col(0x0a, 0xa3, 0x1f, 0x6b))
  }

  function K7(): State {
    State(Col(0x14, 0xf9, 0x70, 0x1a), Col(0xe3, 0x5f, 0xe2, 0x8c), Col(0x44, 0x0a, 0xdf, 0x4d), Col(0x4e, 0xa9, 0xc0, 0x26))
  }

  function K8(): State {
    State(Col(0x47, 0x43, 0x87, 0x35), Col(0xa4, 0x1c, 0x65, 0xb9), Col(0xe0, 0x16, 0xba, 0xf4), Col(0xae, 0xbf, 0x7a, 0xd2))
  }

  function K9(): State {
    State(Col(0x54, 0x99, 0x32, 0xd1), Col(0xf0, 0x85, 0x57, 0x68), Col(0x10, 0x93, 0xed, 0x9c), Col(0xbe, 0x2c, 0x97, 0x4e))
  }

  function K10(): State {
    State(Col(0x13, 0x11, 0x1d, 0x7f), Col(0xe3, 0x94, 0x4a, 0x17), Col(0xf3, 0x07, 0xa7, 0x8b), Col(0x4d, 0x2b, 0x30, 0xc5))
  }

  lemma Key0()
    ensures RoundKey(KeyC1(), 0) == K0()
  {
  }

  lemma Key1()
    ensures RoundKey(KeyC1(), 1) == K1()
  {
    hide RoundKey, SBox, RconByte, KeyC1;
    Key0();
    Rcons();
    Row0();
    NextKey(KeyC1(), 0, K0(), Col(0xd7, 0xab, 0x76, 0xfe), 0x01, K1());
  }

  lemma Key2()
    ensures RoundKey(KeyC1(), 2) == K2()
  {
    hide RoundKey, SBox, RconByte, KeyC1;
    Key1();
    Rcons();
    Row7(); RowA(); RowD(); RowF();
    NextKey(KeyC1(), 1, K1(), Col(0x62, 0x38, 0xbb, 0xf6), 0x02, K2());
  }

  lemma Key3()
    ensures RoundKey(KeyC1(), 3) == K3()
  {
    hide RoundKey, SBox, RconByte, KeyC1;
    Key2();
    Rcons();
    Row3(); Row6(); RowB(); RowF();
    NextKey(KeyC1(), 2, K2(), Col(0x04, 0x6d, 0xbb, 0x45), 0x04, K3());
  }

  lemma Key4()
    ensures RoundKey(KeyC1(), 4) == K4()
  {
    hide RoundKey, SBox, RconByte, KeyC1;
    Key3();
    Rcons();
    Row0(); Row4(); Row6(); RowB();
    NextKey(KeyC1(), 3, K3(), Col(0xf9, 0x08, 0x83, 0xf2), 0x08, K4());
  }

  lemma Key5()
    ensures RoundKey(KeyC1(), 5) == K5()
  {
    hide RoundKey, SBox, RconByte, KeyC1;
    Key4();
    Rcons();
    Row0(); Row8(); RowF();
    NextKey(KeyC1(), 4, K4(), Col(0x6b, 0x5d, 0x54, 0x54), 0x10, K5());
  }

  lemma Key6()
    ensures RoundKey(KeyC1(), 6) == K6()
  {
    hide RoundKey, SBox, RconByte, KeyC1;
    Key5();
    Rcons();
    Row2(); RowA(); RowF();
    NextKey(KeyC1(), 5, K5(), Col(0x42, 0x93, 0xac, 0x95), 0x20, K6());
  }

  lemma Key7()
    ensures RoundKey(KeyC1(), 7) == K7()
  {
    hide RoundKey, SBox, RconByte, KeyC1;
    Key6();
    Rcons();
    Row0(); Row1(); Row6(); RowA();
    NextKey(KeyC1(), 6, K6(), Col(0x0a, 0xc0, 0x7f, 0x67), 0x40, K7());
  }

  lemma Key8()
    ensures RoundKey(KeyC1(), 8) == K8()
  {
    hide RoundKey, SBox, RconByte, KeyC1;
    Key7();
    Rcons();
    Row2(); Row4(); RowA(); RowC();
    NextKey(KeyC1(), 7, K7(), Col(0xd3, 0xba, 0xf7, 0x2f), 0x80, K8());
  }

  lemma Key9()
    ensures RoundKey(KeyC1(), 9) == K9()
  {
    hide RoundKey, SBox, RconByte, KeyC1;
    Key8();
    Rcons();
    Row7(); RowA(); RowB(); RowD();
    NextKey(KeyC1(), 8, K8(), Col(0x08, 0xda, 0xb5, 0xe4), 0x1b, K9());
  }

  lemma Key10()
    ensures RoundKey(KeyC1(), 10) == K10()
  {
    hide RoundKey, SBox, RconByte, KeyC1;
    Key9();
    Rcons();
    Row2(); Row4(); Row9(); RowB();
    NextKey(KeyC1(), 9, K9(), Col(0x71, 0x88, 0x2f, 0xae), 0x36, K10());
  }

  // ------------------------------------------------------------------ the rounds

  /** MixColumns by shifts and sums alone. */
  function Mixed(c: Col): Col {
    Col(Sum(XTime(c.a), Triple(c.b), c.c, c.d), Sum(XTime(c.b), Triple(c.c), c.d, c.a),
        Sum(XTime(c.c), Triple(c.d), c.a, c.b), Sum(XTime(c.d), Triple(c.a), c.b, c.c))
  }

  lemma MixedIs(c: Col)
    ensures MixCol(c) == Mixed(c)
  {
    hide Mul, XTime, Add, Sum;
    SmallFactors(c.a);
    SmallFactors(c.b);
    SmallFactors(c.c);
    SmallFactors(c.d);
  }

  /** One column of a round: the bytes of the diagonal substituted to `s`, mixed, and the key added. */
  predicate Column(s: Col, k: Col, out: Col) {
    AddCol(Mixed(s), k) == out
  }

  lemma RoundIs(s: State, k: State, t: State, out: State)
    requires t.w == Col(SBox(s.w.a), SBox(s.x.b), SBox(s.y.c), SBox(s.z.d))
    requires t.x == Col(SBox(s.x.a), SBox(s.y.b), SBox(s.z.c), SBox(s.w.d))
    requires t.y == Col(SBox(s.y.a), SBox(s.z.b), SBox(s.w.c), SBox(s.x.d))
    requires t.z == Col(SBox(s.z.a), SBox(s.w.b), SBox(s.x.c), SBox(s.y.d))
    requires Column(t.w, k.w, out.w) && Column(t.x, k.x, out.x) && Column(t.y, k.y, out.y) && Column(t.z, k.z, out.z)
    ensures AddKey(MixColumns(Substituted(s)), k) == out
  {
    hide SBox, MixCol, Mixed, AddCol;
    MixedIs(t.w);
    MixedIs(t.x);
    MixedIs(t.y);
    MixedIs(t.z);
  }

  function S0(): State {
    State(Col(0x00, 0x10, 0x20, 0x30), Col(0x40, 0x50, 0x60, 0x70), Col(0x80, 0x90, 0xa0, 0xb0), Col(0xc0, 0xd0, 0xe0, 0xf0))
  }

  function S1(): State {
    State(Col(0x89, 0xd8, 0x10, 0xe8), Col(0x85, 0x5a, 0xce, 0x68), Col(0x2d, 0x18, 0x43, 0xd8), Col(0xcb, 0x12, 0x8f, 0xe4))
  }

  function S2(): State {
    State(Col(0x49, 0x15, 0x59, 0x8f), Col(0x55, 0xe5, 0xd7, 0xa0), Col(0xda, 0xca, 0x94, 0xfa), Col(0x1f, 0x0a, 0x63, 0xf7))
  }

  function S3(): State {
    State(Col(0xfa, 0x63, 0x6a, 0x28), Col(0x25, 0xb3, 0x39, 0xc9), Col(0x40, 0x66, 0x8a, 0x31), Col(0x57, 0x24, 0x4d, 0x17))
  }

  function S4(): State {
    State(Col(0x24, 0x72, 0x40, 0x23), Col(0x69, 0x66, 0xb3, 0xfa), Col(0x6e, 0xd2, 0x75, 0x32), Col(0x88, 0x42, 0x5b, 0x6c))
  }

  function S5(): State {
    State(Col(0xc8, 0x16, 0x77, 0xbc), Col(0x9b, 0x7a, 0xc9, 0x3b), Col(0x25, 0x02, 0x79, 0x92), Col(0xb0, 0x26, 0x19, 0x96))
  }

  function S6(): State {
    State(Col(0xc6, 0x2f, 0xe1, 0x09), Col(0xf7, 0x5e, 0xed, 0xc3), Col(0xcc, 0x79, 0x39, 0x5d), Col(0x84, 0xf9, 0xcf, 0x5d))
  }

  function S7(): State {
    State(Col(0xd1, 0x87, 0x6c, 0x0f), Col(0x79, 0xc4, 0x30, 0x0a), Col(0xb4, 0x55, 0x94, 0xad), Col(0xd6, 0x6f, 0xf4, 0x1f))
  }

  function S8(): State {
    State(Col(0xfd, 0xe3, 0xba, 0xd2), Col(0x05, 0xe5, 0xd0, 0xd7), Col(0x35, 0x47, 0x96, 0x4e), Col(0xf1, 0xfe, 0x37, 0xf1))
  }

  function S9(): State {
    State(Col(0xbd, 0x6e, 0x7c, 0x3d), Col(0xf2, 0xb5, 0x77, 0x9e), Col(0x0b, 0x61, 0x21, 0x6e), Col(0x8b, 0x10, 0xb6, 0x89))
  }

  lemma Round1()
    ensures AddKey(MixColumns(Substituted(S0())), K1()) == S1()
  {
    hide SBox, AddKey, MixColumns, Substituted;
    Row0(); Row1(); Row2(); Row3(); Row4(); Row5(); Row6(); Row7(); Row8(); Row9(); RowA(); RowB(); RowC(); RowD(); RowE(); RowF();
    RoundIs(S0(), K1(), State(Col(0x63, 0x53, 0xe0, 0x8c), Col(0x09, 0x60, 0xe1, 0x04), Col(0xcd, 0x70, 0xb7, 0x51), Col(0xba, 0xca, 0xd0, 0xe7)), S1());
  }

  lemma Round2()
    ensures AddKey(MixColumns(Substituted(S1())), K2()) == S2()
  {
    hide SBox, AddKey, MixColumns, Substituted;
    Row1(); Row2(); Row4(); Row5(); Row6(); Row8(); RowC(); RowD(); RowE();
    RoundIs(S1(), K2(), State(Col(0xa7, 0xbe, 0x1a, 0x69), Col(0x97, 0xad, 0x73, 0x9b), Col(0xd8, 0xc9, 0xca, 0x45), Col(0x1f, 0x61, 0x8b, 0x61)), S2());
  }

  lemma Round3()
    ensures AddKey(MixColumns(Substituted(S2())), K3()) == S3()
  {
    hide SBox, AddKey, MixColumns, Substituted;
    Row0(); Row1(); Row4(); Row5(); Row6(); Row8(); Row9(); RowA(); RowC(); RowD(); RowE(); RowF();
    RoundIs(S2(), K3(), State(Col(0x3b, 0xd9, 0x22, 0x68), Col(0xfc, 0x74, 0xfb, 0x73), Col(0x57, 0x67, 0xcb, 0xe0), Col(0xc0, 0x59, 0x0e, 0x2d)), S3());
  }

  lemma Round4()
    ensures AddKey(MixColumns(Substituted(S3())), K4()) == S4()
  {
    hide SBox, AddKey, MixColumns, Substituted;
    Row1(); Row2(); Row3(); Row4(); Row5(); Row6(); Row8(); RowB(); RowC(); RowF();
    RoundIs(S3(), K4(), State(Col(0x2d, 0x6d, 0x7e, 0xf0), Col(0x3f, 0x33, 0xe3, 0x34), Col(0x09, 0x36, 0x02, 0xdd), Col(0x5b, 0xfb, 0x12, 0xc7)), S4());
  }

  lemma Round5()
    ensures AddKey(MixColumns(Substituted(S4())), K5()) == S5()
  {
    hide SBox, AddKey, MixColumns, Substituted;
    Row2(); Row3(); Row4(); Row5(); Row6(); Row7(); Row8(); RowB(); RowD(); RowF();
    RoundIs(S4(), K5(), State(Col(0x36, 0x33, 0x9d, 0x50), Col(0xf9, 0xb5, 0x39, 0x26), Col(0x9f, 0x2c, 0x09, 0x2d), Col(0xc4, 0x40, 0x6d, 0x23)), S5());
  }

  lemma Round6()
    ensures AddKey(MixColumns(Substituted(S5())), K6()) == S6()
  {
    hide SBox, AddKey, MixColumns, Substituted;
    Row0(); Row1(); Row2(); Row3(); Row7(); Row9(); RowB(); RowC();
    RoundIs(S5(), K6(), State(Col(0xe8, 0xda, 0xb6, 0x90), Col(0x14, 0x77, 0xd4, 0x65), Col(0x3f, 0xf7, 0xf5, 0xe2), Col(0xe7, 0x47, 0xdd, 0x4f)), S6());
  }

  lemma Round7()
    ensures AddKey(MixColumns(Substituted(S6())), K7()) == S7()
  {
    hide SBox, AddKey, MixColumns, Substituted;
    Row0(); Row2(); Row3(); Row5(); Row7(); Row8(); RowC(); RowE(); RowF();
    RoundIs(S6(), K7(), State(Col(0xb4, 0x58, 0x12, 0x4c), Col(0x68, 0xb6, 0x8a, 0x01), Col(0x4b, 0x99, 0xf8, 0x2e), Col(0x5f, 0x15, 0x55, 0x4c)), S7());
  }

  lemma Round8()
    ensures AddKey(MixColumns(Substituted(S7())), K8()) == S8()
  {
    hide SBox, AddKey, MixColumns, Substituted;
    Row0(); Row1(); Row3(); Row5(); Row6(); Row7(); Row8(); Row9(); RowA(); RowB(); RowC(); RowD(); RowF();
    RoundIs(S7(), K8(), State(Col(0x3e, 0x1c, 0x22, 0xc0), Col(0xb6, 0xfc, 0xbf, 0x76), Col(0x8d, 0xa8, 0x50, 0x67), Col(0xf6, 0x17, 0x04, 0x95)), S8());
  }

  lemma Round9()
    ensures AddKey(MixColumns(Substituted(S8())), K9()) == S9()
  {
    hide SBox, AddKey, MixColumns, Substituted;
    Row0(); Row3(); Row4(); Row9(); RowB(); RowD(); RowE(); RowF();
    RoundIs(S8(), K9(), State(Col(0x54, 0xd9, 0x90, 0xa1), Col(0x6b, 0xa0, 0x9a, 0xb5), Col(0x96, 0xbb, 0xf4, 0x0e), Col(0xa1, 0x11, 0x70, 0x2f)), S9());
  }

  lemma LastRound()
    ensures AddKey(Substituted(S9()), K10()) == StateOfBlock(CipherC1())
  {
    hide SBox;
    Row0(); Row1(); Row2(); Row3(); Row6(); Row7(); Row8(); Row9(); RowB(); RowF();
  }

  lemma FirstRound()
    ensures AddKey(StateOfBlock(PlainC1()), K0()) == S0()
  {
  }

  lemma AllKeys()
    ensures var ks := RoundKeys(KeyC1());
            && ks[0] == K0() && ks[1] == K1() && ks[2] == K2() && ks[3] == K3() && ks[4] == K4() && ks[5] == K5()
            && ks[6] == K6() && ks[7] == K7() && ks[8] == K8() && ks[9] == K9() && ks[10] == K10()
  {
    hide RoundKey, K0, K1, K2, K3, K4, K5, K6, K7, K8, K9, K10;
    Key0();
    Key1();
    Key2();
    Key3();
    Key4();
    Key5();
    Key6();
    Key7();
    Key8();
    Key9();
    Key10();
  }

  /** The state after nine rounds. */
  lemma NineRounds(ks: Keys, s: State)
    requires ks == RoundKeys(KeyC1()) && s == StateOfBlock(PlainC1())
    ensures Round(ks, s, 9) == S9()
  {
    hide RoundKeys, StateOfBlock, AddKey, MixColumns, Substituted;
    hide K0, K1, K2, K3, K4, K5, K6, K7, K8, K9, K10, S0, S1, S2, S3, S4, S5, S6, S7, S8, S9;
    AllKeys();
    FirstRound();
    assert Round(ks, s, 0) == S0();
    Round1();
    assert Round(ks, s, 1) == S1();
    Round2();
    assert Round(ks, s, 2) == S2();
    Round3();
    assert Round(ks, s, 3) == S3();
    Round4();
    assert Round(ks, s, 4) == S4();
    Round5();
    assert Round(ks, s, 5) == S5();
    Round6();
    assert Round(ks, s, 6) == S6();
    Round7();
    assert Round(ks, s, 7) == S7();
    Round8();
    assert Round(ks, s, 8) == S8();
    Round9();
  }

  /** The appendix C.1 vector, in both directions. */
  lemma KnownAnswer()
    ensures Encrypt(KeyC1(), PlainC1()) == CipherC1()
    ensures Decrypt(KeyC1(), CipherC1()) == PlainC1()
  {
    hide RoundKeys, Round, AddKey, Substituted, StateOfBlock, Decrypt, BlockOf, K10, S9;
    var ks, s := RoundKeys(KeyC1()), StateOfBlock(PlainC1());
    NineRounds(ks, s);
    AllKeys();
    LastRound();
    assert Aes.Cipher(ks, s) == StateOfBlock(CipherC1());
    SameBlock(BlockOf(StateOfBlock(CipherC1())), CipherC1());
    BlocksInvert(KeyC1(), PlainC1());
  }
}
