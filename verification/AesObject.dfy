/** Table-driven AES-128: key schedules in word arrays and blocks overwritten in place. */
module AesObject {
  import opened AesTables
  import opened AesRounds
  import Aes
  import AesGen

  // ------------------------------------------------------------------ blocks

  type Block = b: seq<bv8> | |b| == 16 witness seq(16, _ => 0)

  function StateOfBlock(b: Block): Aes.State {
    Aes.State(Col(b[0], b[1], b[2], b[3]), Col(b[4], b[5], b[6], b[7]),
              Col(b[8], b[9], b[10], b[11]), Col(b[12], b[13], b[14], b[15]))
  }

  function BlockOf(s: Aes.State): (b: Block)
    ensures StateOfBlock(b) == s
  {
    [s.w.a, s.w.b, s.w.c, s.w.d, s.x.a, s.x.b, s.x.c, s.x.d, s.y.a, s.y.b, s.y.c, s.y.d, s.z.a, s.z.b, s.z.c, s.z.d]
  }

  /** AES-128 encryption and decryption of one block, as FIPS 197 defines them. */
  ghost function Encrypt(key: Key, b: Block): (r: Block)
    ensures |r| == 16
  {
    BlockOf(Aes.Cipher(RoundKeys(key), StateOfBlock(b)))
  }

  ghost function Decrypt(key: Key, b: Block): (r: Block)
    ensures |r| == 16
  {
    BlockOf(Aes.InvCipher(RoundKeys(key), StateOfBlock(b)))
  }

  /** For every key and every block, decryption and encryption undo each other. */
  lemma BlocksInvert(key: Key, b: Block)
    ensures Decrypt(key, Encrypt(key, b)) == b
    ensures Encrypt(key, Decrypt(key, b)) == b
  {
    hide Aes.Cipher, Aes.InvCipher, RoundKeys, BlockOf;
    Aes.CipherInverts(RoundKeys(key), StateOfBlock(b));
    SameBlock(BlockOf(StateOfBlock(b)), b);
  }

  lemma SameBlock(a: Block, b: Block)
    requires StateOfBlock(a) == StateOfBlock(b)
    ensures a == b
  {
    assert a == [a[0], a[1], a[2], a[3], a[4], a[5], a[6], a[7], a[8], a[9], a[10], a[11], a[12], a[13], a[14], a[15]];
    assert b == [b[0], b[1], b[2], b[3], b[4], b[5], b[6], b[7], b[8], b[9], b[10], b[11], b[12], b[13], b[14], b[15]];
  }

  // ------------------------------------------------------------------ bytes and words in buffers

  method GetWord(b: array<bv8>, i: nat) returns (w: bv32)
    requires i + 4 <= b.Length
    ensures ColOf(w) == Col(b[i], b[i + 1], b[i + 2], b[i + 3])
  {
    hide ColOf, Word;
    w := Word(Col(b[i], b[i + 1], b[i + 2], b[i + 3]));
    WordCol(Col(b[i], b[i + 1], b[i + 2], b[i + 3]));
  }

  method PutWord(b: array<bv8>, i: nat, w: bv32)
    requires i + 4 <= b.Length
    modifies b
    ensures Col(b[i], b[i + 1], b[i + 2], b[i + 3]) == ColOf(w)
    ensures forall j :: 0 <= j < b.Length && !(i <= j < i + 4) ==> b[j] == old(b[j])
  {
    hide ColOf;
    var c := ColOf(w);
    b[i], b[i + 1], b[i + 2], b[i + 3] := c.a, c.b, c.c, c.d;
  }

  // ------------------------------------------------------------------ key schedules

  ghost predicate IsSchedule(ek: seq<bv32>, key: Key, n: nat) {
    n <= |ek| && forall j :: 0 <= j < n ==> ColOf(ek[j]) == KeyWord(key, j)
  }

  /** One turn of the expansion loop writes the next four words. */
  lemma NextWords(t: Tables, key: Key, ek: seq<bv32>, i: nat, a: bv32, b: bv32, c: bv32, d: bv32)
    requires Correct(t) && i < 10 && IsSchedule(ek, key, 4 * i + 4)
    requires a == Xor(Xor(ek[4 * i], SubRot(t.sbox, ek[4 * i + 3])), RCON[i])
    requires b == Xor(ek[4 * i + 1], a) && c == Xor(ek[4 * i + 2], b) && d == Xor(ek[4 * i + 3], c)
    ensures ColOf(a) == KeyWord(key, 4 * i + 4) && ColOf(b) == KeyWord(key, 4 * i + 5)
    ensures ColOf(c) == KeyWord(key, 4 * i + 6) && ColOf(d) == KeyWord(key, 4 * i + 7)
  {
    hide ColOf, AddCol, Xor, SubRot, Aes.SubCol, Correct, RCON, RconByte;
    BoxSize(t);
    var sub := SubRot(t.sbox, ek[4 * i + 3]);
    SubRotIs(t, ek[4 * i + 3]);
    RconIs(i);
    ColOfXor(ek[4 * i], sub);
    ColOfXor(Xor(ek[4 * i], sub), RCON[i]);
    ColOfXor(ek[4 * i + 1], a);
    ColOfXor(ek[4 * i + 2], b);
    ColOfXor(ek[4 * i + 3], c);
    FirstOfRound(key, i);
    RestOfRound(key, 4 * i + 5);
    RestOfRound(key, 4 * i + 6);
    RestOfRound(key, 4 * i + 7);
    AddColComm(KeyWord(key, 4 * i + 1), KeyWord(key, 4 * i + 4));
  }

  lemma FirstOfRound(key: Key, i: nat)
    ensures KeyWord(key, 4 * i + 4) ==
              AddCol(AddCol(KeyWord(key, 4 * i), Aes.SubCol(RotWord(KeyWord(key, 4 * i + 3)))), Col(RconByte(i + 1), 0, 0, 0))
  {
    hide AddCol, Aes.SubCol, RconByte;
    assert (4 * i + 4) % 4 == 0 && (4 * i + 4) / 4 == i + 1;
  }

  lemma RestOfRound(key: Key, j: nat)
    requires j >= 4 && j % 4 != 0
    ensures KeyWord(key, j) == AddCol(KeyWord(key, j - 4), KeyWord(key, j - 1))
  {
    hide AddCol, Aes.SubCol, RconByte;
  }

  lemma AddColComm(x: Col, y: Col)
    ensures AddCol(x, y) == AddCol(y, x)
  {
  }

  method LoadKey(key: array<bv8>, ek: array<bv32>)
    requires key.Length == 16 && ek.Length == 44
    modifies ek
    ensures IsSchedule(ek[..], key[..], 4)
  {
    hide ColOf, KeyWord;
    for i := 0 to 4
      invariant IsSchedule(ek[..], key[..], i)
    {
      var w := GetWord(key, i * 4);
      ek[i] := w;
      FirstWords(key[..], i);
    }
  }

  method ExpandRound(t: Tables, ghost key: Key, ek: array<bv32>, i: nat)
    requires Correct(t) && ek.Length == 44 && i < 10 && IsSchedule(ek[..], key, 4 * i + 4)
    modifies ek
    ensures IsSchedule(ek[..], key, 4 * i + 8)
  {
    hide ColOf, Correct, KeyWord, Xor, SubRot, RCON;
    BoxSize(t);
    var sub := SubRot(t.sbox, ek[4 * i + 3]);
    ghost var was := ek[..];
    ek[4 * i + 4] := Xor(Xor(ek[4 * i], sub), RCON[i]);
    ek[4 * i + 5] := Xor(ek[4 * i + 1], ek[4 * i + 4]);
    ek[4 * i + 6] := Xor(ek[4 * i + 2], ek[4 * i + 5]);
    ek[4 * i + 7] := Xor(ek[4 * i + 3], ek[4 * i + 6]);
    NextWords(t, key, was, i, ek[4 * i + 4], ek[4 * i + 5], ek[4 * i + 6], ek[4 * i + 7]);
  }

  method ExpandKey(t: Tables, key: array<bv8>) returns (ek: array<bv32>)
    requires Correct(t) && key.Length == 16
    ensures fresh(ek) && ek.Length == 44 && IsSchedule(ek[..], key[..], 44)
  {
    hide Correct, IsSchedule;
    ek := new bv32[44](_ => 0);
    LoadKey(key, ek);
    for i := 0 to 10
      invariant IsSchedule(ek[..], key[..], 4 * i + 4)
    {
      ExpandRound(t, key[..], ek, i);
    }
  }

  lemma FirstWords(key: Key, i: nat)
    requires i < 4
    ensures KeyWord(key, i) == Col(key[4 * i], key[4 * i + 1], key[4 * i + 2], key[4 * i + 3])
  {
  }

  lemma BoxSize(t: Tables)
    requires Correct(t)
    ensures |t.sbox| == |t.invSbox| == 256 && Shaped(t.te) && Shaped(t.td) && |RCON| == 10
  {
  }

  /** Where word `j` of the decryption schedule comes from. */
  function Mirror(j: nat): (r: nat)
    requires j < 44
    ensures r < 44
  {
    4 * (10 - j / 4) + j % 4
  }

  lemma MirrorIs(i: nat)
    requires i < 11
    ensures Mirror(4 * i) == 4 * (10 - i) && Mirror(4 * i + 1) == 4 * (10 - i) + 1
    ensures Mirror(4 * i + 2) == 4 * (10 - i) + 2 && Mirror(4 * i + 3) == 4 * (10 - i) + 3
  {
  }

  ghost predicate IsInverse(dk: seq<bv32>, ek: seq<bv32>, from: nat, upto: nat) {
    && |dk| == |ek| == 44
    && (forall j :: 0 <= j < 44 ==>
          ColOf(dk[j]) == if from <= j < upto then Aes.InvMixCol(ColOf(ek[Mirror(j)])) else ColOf(ek[Mirror(j)]))
  }

  method InvertKey(t: Tables, ek: array<bv32>) returns (dk: array<bv32>)
    requires Correct(t) && ek.Length == 44
    ensures fresh(dk) && dk.Length == 44 && IsInverse(dk[..], ek[..], 4, 40)
  {
    hide ColOf, Correct, Unmixed, Aes.InvMixCol, Mirror;
    dk := new bv32[44](_ => 0);
    for i := 0 to 11
      invariant forall j :: 0 <= j < 4 * i ==> dk[j] == ek[Mirror(j)]
    {
      MirrorIs(i);
      dk[4 * i], dk[4 * i + 1] := ek[4 * (10 - i)], ek[4 * (10 - i) + 1];
      dk[4 * i + 2], dk[4 * i + 3] := ek[4 * (10 - i) + 2], ek[4 * (10 - i) + 3];
    }
    for j := 4 to 40
      invariant IsInverse(dk[..], ek[..], 4, j)
    {
      BoxSize(t);
      ghost var was := dk[j];
      dk[j] := Unmixed(t, dk[j]);
      UnmixedIs(t, was);
    }
  }

  /** The arrays hold the round keys of the two ciphers. */
  lemma ScheduleKeys(ek: seq<bv32>, dk: seq<bv32>, key: Key, r: nat)
    requires IsSchedule(ek, key, 44) && IsInverse(dk, ek, 4, 40) && r < 11
    ensures StateOf(ek[4 * r], ek[4 * r + 1], ek[4 * r + 2], ek[4 * r + 3]) == RoundKeys(key)[r]
    ensures StateOf(dk[4 * r], dk[4 * r + 1], dk[4 * r + 2], dk[4 * r + 3]) == Aes.InvKeys(RoundKeys(key))[r]
  {
    hide ColOf, KeyWord, Aes.InvMixCol, Mirror;
    MirrorIs(r);
  }

  // ------------------------------------------------------------------ the object

  class AesTable {
    const t: Tables
    const ek: array<bv32>
    const dk: array<bv32>
    ghost const key: Key

    ghost predicate Valid()
      reads ek, dk
    {
      && Correct(t) && ek.Length == 44 && dk.Length == 44
      && IsSchedule(ek[..], key, 44) && IsInverse(dk[..], ek[..], 4, 40)
    }

    constructor (key: array<bv8>)
      requires key.Length == 16
      ensures Valid() && this.key == key[..] && fresh(ek) && fresh(dk)
    {
      var t := AesGen.GenTables();
      var ek := ExpandKey(t, key);
      var dk := InvertKey(t, ek);
      this.t, this.ek, this.dk, this.key := t, ek, dk, key[..];
    }

    method EncryptRound(n: nat, s0: bv32, s1: bv32, s2: bv32, s3: bv32) returns (t0: bv32, t1: bv32, t2: bv32, t3: bv32)
      requires Valid() && n < 11
      ensures StateOf(t0, t1, t2, t3) == Aes.AddKey(Aes.MixColumns(Aes.Substituted(StateOf(s0, s1, s2, s3))), RoundKeys(key)[n])
    {
      hide StateOf, Correct, IsSchedule, IsInverse, RoundKeys, Aes.InvKeys, Mixed;
      hide Aes.AddKey, Aes.MixColumns, Aes.Substituted, Aes.InvMixColumns, Aes.InvSubstituted;
      BoxSize(t);
      var k := 4 * n;
      ScheduleKeys(ek[..], dk[..], key, n);
      TableRound(t, s0, s1, s2, s3, RoundKeys(key)[n], ek[k], ek[k + 1], ek[k + 2], ek[k + 3]);
      t0 := Mixed(t.te, s0, s1, s2, s3, ek[k]);
      t1 := Mixed(t.te, s1, s2, s3, s0, ek[k + 1]);
      t2 := Mixed(t.te, s2, s3, s0, s1, ek[k + 2]);
      t3 := Mixed(t.te, s3, s0, s1, s2, ek[k + 3]);
    }

    /** The first key addition and the nine table rounds of encryption. */
    method EncryptRounds(p: bv32, q: bv32, r: bv32, s: bv32) returns (s0: bv32, s1: bv32, s2: bv32, s3: bv32)
      requires Valid()
      ensures StateOf(s0, s1, s2, s3) == Aes.Round(RoundKeys(key), StateOf(p, q, r, s), 9)
    {
      hide StateOf, Correct, IsSchedule, IsInverse, RoundKeys, Aes.InvKeys, Mixed, Xor, Shaped;
      hide Aes.AddKey, Aes.MixColumns, Aes.Substituted;
      ghost var ks, start := RoundKeys(key), StateOf(p, q, r, s);
      BoxSize(t);
      ScheduleKeys(ek[..], dk[..], key, 0);
      FirstKey(p, q, r, s, ks[0], ek[0], ek[1], ek[2], ek[3]);
      s0, s1, s2, s3 := Xor(p, ek[0]), Xor(q, ek[1]), Xor(r, ek[2]), Xor(s, ek[3]);
      for n := 1 to 10
        invariant StateOf(s0, s1, s2, s3) == Aes.Round(ks, start, n - 1)
      {
        s0, s1, s2, s3 := EncryptRound(n, s0, s1, s2, s3);
      }
    }

    method EncryptBlock(block: array<bv8>)
      requires Valid() && block.Length == 16
      modifies block
      ensures block[..] == Encrypt(key, old(block[..]))
    {
      hide StateOf, Correct, IsSchedule, IsInverse, RoundKeys, Aes.InvKeys, Last, BlockOf, StateOfBlock;
      hide Aes.AddKey, Aes.Substituted, Aes.Round;
      BoxSize(t);
      var s0, s1, s2, s3 := Words(block);
      s0, s1, s2, s3 := EncryptRounds(s0, s1, s2, s3);
      ScheduleKeys(ek[..], dk[..], key, 10);
      LastRound(t, s0, s1, s2, s3, RoundKeys(key)[10], ek[40], ek[41], ek[42], ek[43]);
      var o0 := Last(t.sbox, s0, s1, s2, s3, ek[40]);
      var o1 := Last(t.sbox, s1, s2, s3, s0, ek[41]);
      var o2 := Last(t.sbox, s2, s3, s0, s1, ek[42]);
      var o3 := Last(t.sbox, s3, s0, s1, s2, ek[43]);
      Store(block, o0, o1, o2, o3);
    }

    method DecryptRound(n: nat, s0: bv32, s1: bv32, s2: bv32, s3: bv32) returns (t0: bv32, t1: bv32, t2: bv32, t3: bv32)
      requires Valid() && n < 11
      ensures StateOf(t0, t1, t2, t3) == Aes.AddKey(Aes.InvMixColumns(Aes.InvSubstituted(StateOf(s0, s1, s2, s3))), Aes.InvKeys(RoundKeys(key))[n])
    {
      hide StateOf, Correct, IsSchedule, IsInverse, RoundKeys, Aes.InvKeys, Mixed;
      hide Aes.AddKey, Aes.MixColumns, Aes.Substituted, Aes.InvMixColumns, Aes.InvSubstituted;
      BoxSize(t);
      var k := 4 * n;
      ScheduleKeys(ek[..], dk[..], key, n);
      TableRound(t, s0, s1, s2, s3, Aes.InvKeys(RoundKeys(key))[n], dk[k], dk[k + 1], dk[k + 2], dk[k + 3]);
      t0 := Mixed(t.td, s0, s3, s2, s1, dk[k]);
      t1 := Mixed(t.td, s1, s0, s3, s2, dk[k + 1]);
      t2 := Mixed(t.td, s2, s1, s0, s3, dk[k + 2]);
      t3 := Mixed(t.td, s3, s2, s1, s0, dk[k + 3]);
    }

    /** The same for decryption, in the form of the equivalent inverse cipher. */
    method DecryptRounds(p: bv32, q: bv32, r: bv32, s: bv32) returns (s0: bv32, s1: bv32, s2: bv32, s3: bv32)
      requires Valid()
      ensures StateOf(s0, s1, s2, s3) == Aes.EqInvRound(Aes.InvKeys(RoundKeys(key)), StateOf(p, q, r, s), 9)
    {
      hide StateOf, Correct, IsSchedule, IsInverse, RoundKeys, Aes.InvKeys, Mixed, Xor, Shaped;
      hide Aes.AddKey, Aes.InvMixColumns, Aes.InvSubstituted;
      ghost var ks, start := Aes.InvKeys(RoundKeys(key)), StateOf(p, q, r, s);
      BoxSize(t);
      ScheduleKeys(ek[..], dk[..], key, 0);
      FirstKey(p, q, r, s, ks[0], dk[0], dk[1], dk[2], dk[3]);
      s0, s1, s2, s3 := Xor(p, dk[0]), Xor(q, dk[1]), Xor(r, dk[2]), Xor(s, dk[3]);
      for n := 1 to 10
        invariant StateOf(s0, s1, s2, s3) == Aes.EqInvRound(ks, start, n - 1)
      {
        s0, s1, s2, s3 := DecryptRound(n, s0, s1, s2, s3);
      }
    }

    method DecryptBlock(block: array<bv8>)
      requires Valid() && block.Length == 16
      modifies block
      ensures block[..] == Decrypt(key, old(block[..]))
    {
      hide StateOf, Correct, IsSchedule, IsInverse, RoundKeys, Aes.InvKeys, Last, BlockOf, StateOfBlock;
      hide Aes.AddKey, Aes.InvSubstituted, Aes.EqInvRound, Aes.InvCipher;
      ghost var ks := Aes.InvKeys(RoundKeys(key));
      BoxSize(t);
      Aes.EquivalentInverseCipher(RoundKeys(key), StateOfBlock(block[..]));
      var s0, s1, s2, s3 := Words(block);
      s0, s1, s2, s3 := DecryptRounds(s0, s1, s2, s3);
      ScheduleKeys(ek[..], dk[..], key, 10);
      LastRound(t, s0, s1, s2, s3, ks[10], dk[40], dk[41], dk[42], dk[43]);
      var o0 := Last(t.invSbox, s0, s3, s2, s1, dk[40]);
      var o1 := Last(t.invSbox, s1, s0, s3, s2, dk[41]);
      var o2 := Last(t.invSbox, s2, s1, s0, s3, dk[42]);
      var o3 := Last(t.invSbox, s3, s2, s1, s0, dk[43]);
      Store(block, o0, o1, o2, o3);
    }
  }

  method Words(block: array<bv8>) returns (s0: bv32, s1: bv32, s2: bv32, s3: bv32)
    requires block.Length == 16
    ensures StateOf(s0, s1, s2, s3) == StateOfBlock(block[..])
  {
    hide ColOf;
    s0 := GetWord(block, 0);
    s1 := GetWord(block, 4);
    s2 := GetWord(block, 8);
    s3 := GetWord(block, 12);
  }

  method Store(block: array<bv8>, o0: bv32, o1: bv32, o2: bv32, o3: bv32)
    requires block.Length == 16
    modifies block
    ensures block[..] == BlockOf(StateOf(o0, o1, o2, o3))
  {
    hide ColOf, BlockOf;
    PutWord(block, 0, o0);
    PutWord(block, 4, o1);
    PutWord(block, 8, o2);
    PutWord(block, 12, o3);
    SameBlock(block[..], BlockOf(StateOf(o0, o1, o2, o3)));
  }
}
