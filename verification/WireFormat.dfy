/** What is on the wire, byte by byte, as another implementation would have to read it. */
module WireFormat {
  import opened Machine
  import opened BlockModes
  import opened PacketCrypto
  import opened Gro
  import opened Safer
  import A = AesObject
  import R = AesRounds
  import GF = GaloisField

  // ------------------------------------------------------------------ safer packets

  /** Four bytes, most significant first. */
  function Big4(b: Bytes, i: nat): nat
    requires i + 4 <= |b|
  {
    ValueOf(b[i]) * 0x100_0000 + ValueOf(b[i + 1]) * 0x1_0000 + ValueOf(b[i + 2]) * 0x100 + ValueOf(b[i + 3])
  }

  lemma ReadFour(b: Bytes, i: nat)
    requires i + 4 <= |b|
    ensures ReadBe(b[i..i + 4]) == Big4(b, i)
  {
    hide ValueOf;
    var s: Bytes := b[i..i + 4];
    assert s[..3][..2] == s[..2] && s[..2][..1] == s[..1] && s[..1][..0] == [];
    assert ReadBe(s[..1]) == ValueOf(s[0]);
    assert ReadBe(s[..2]) == ReadBe(s[..1]) * 256 + ValueOf(s[1]);
    assert ReadBe(s[..3]) == ReadBe(s[..2]) * 256 + ValueOf(s[2]);
  }

  lemma ReadEight(b: Bytes, i: nat)
    requires i + 8 <= |b|
    ensures ReadBe(b[i..i + 8]) == Big4(b, i) * 0x1_0000_0000 + Big4(b, i + 4)
  {
    hide ReadBe, ValueOf, Big4;
    ReadFour(b, i);
    ReadFour(b, i + 4);
    assert b[i..i + 8] == b[i..i + 4] + b[i + 4..i + 8];
    ReadConcat(b[i..i + 4], b[i + 4..i + 8]);
    assert Pow256(4) == 0x1_0000_0000 by { Widths(); }
  }

  lemma {:induction false} ReadConcat(a: Bytes, b: Bytes)
    ensures ReadBe(a + b) == ReadBe(a) * Pow256(|b|) + ReadBe(b)
  {
    hide ValueOf;
    if b == [] {
      assert a + b == a;
    } else {
      var n := |b| - 1;
      assert (a + b)[..|a| + n] == a + b[..n] && (a + b)[|a| + n] == b[n];
      ReadConcat(a, b[..n]);
      Shifted256(ReadBe(a), Pow256(n), ReadBe(b[..n]), ValueOf(b[n]));
    }
  }

  lemma Shifted256(a: nat, p: nat, b: nat, v: nat)
    ensures (a * p + b) * 256 + v == a * (256 * p) + (b * 256 + v)
  {
  }

  /** Sender's id, receiver's id and number, most significant byte first, then type, roller and payload. */
  lemma SaferLayout(h: Header, payload: Bytes)
    ensures var b := Build(h, payload);
            && Big4(b, 0) == h.my && Big4(b, 4) == h.opp
            && Big4(b, 8) * 0x1_0000_0000 + Big4(b, 12) == h.sequence
            && b[16] == h.ptype && b[17] == h.roller && b[18..] == payload
  {
    hide Build, ReadBe, Big4;
    var b: Bytes := Build(h, payload);
    HeaderReads(h, payload);
    assert b[..4] == b[0..4];
    ReadFour(b, 0);
    ReadFour(b, 4);
    ReadEight(b, 8);
    TailLayout(h, payload);
  }

  lemma TailLayout(h: Header, payload: Bytes)
    ensures var b := Build(h, payload); b[16] == h.ptype && b[17] == h.roller && b[18..] == payload
  {
    hide WriteBe;
  }

  // ------------------------------------------------------------------ the length prefix

  /** The length in two bytes, most significant first, then the packet: as it is without a cipher, with the
      first block encrypted on its own under AES, and otherwise with the two bytes masked. */
  ghost predicate Wrapped(c: Crypto, packet: Bytes, w: Bytes)
    requires |packet| < 65536
  {
    hide A.Encrypt;
    var hi, lo := ByteOf(|packet| / 256), ByteOf(|packet| % 256);
    && |w| == |packet| + 2
    && (c.cipher.NoCipher? || ((c.cipher.Cbc? || c.cipher.Cfb?) && |packet| < 14) ==> w == [hi, lo] + packet)
    && ((c.cipher.Cbc? || c.cipher.Cfb?) && |packet| >= 14 ==>
          w[..16] == A.Encrypt(c.keys.cipherEncrypt[..16], [hi, lo] + packet[..14]) && w[16..] == packet[14..])
    && (c.cipher.Xor? || c.cipher.Aead? ==>
          w == [GF.Add(hi, c.keys.groXor[0]), GF.Add(lo, c.keys.groXor[1])] + packet)
  }

  lemma WrapLayout(c: Crypto, packet: Bytes)
    requires |packet| < 65536
    ensures Wrapped(c, packet, Wrap(c, packet))
  {
    hide A.Encrypt, ValueOf, ByteOf, GF.Add;
    var b: Bytes := WriteU16(|packet|) + packet;
    assert |packet| / 256 % 256 == |packet| / 256;
    if IsAes(c) && |packet| >= 14 {
      assert b[..16] == [ByteOf(|packet| / 256), ByteOf(|packet| % 256)] + packet[..14] && b[16..] == packet[14..];
    } else if c.cipher.Xor? || c.cipher.Aead? {
      assert b[2..] == packet;
    }
  }

  // ------------------------------------------------------------------ what a packet is made of

  /** With an AEAD the nonce goes first. With HMAC the tag of the ciphertext goes last; with any other tag the
      tag of the plaintext is encrypted with it. */
  lemma PacketLayout(p: Prims, c: Crypto, nonce: Bytes, data: Bytes)
    requires |data| <= 1800
    ensures var w := EncryptVec(p, c, nonce, data);
            && (c.cipher.Aead? && w.Some? ==> p.seal(c.keys.cipherEncrypt[..32], nonce, data).Some?
                                              && w.value == nonce + p.seal(c.keys.cipherEncrypt[..32], nonce, data).value)
            && (!c.cipher.Aead? ==>
                  match c.requestedAuth
                  case HmacSha1 => w.Some? ==> CipherEncrypt(c, data).Some?
                                               && w.value == CipherEncrypt(c, data).value
                                                             + p.hmac(c.keys.hmacEncrypt[..20], CipherEncrypt(c, data).value)
                  case Md5 => w == CipherEncrypt(c, data + p.md5(data))
                  case Crc32 => w == CipherEncrypt(c, data + p.crc32(data))
                  case Simple => w == CipherEncrypt(c, data + p.simple(data))
                  case NoAuth => w == CipherEncrypt(c, data))
  {
    hide CipherEncrypt;
    assert data + [] == data;
  }

  /** The keys of the two directions, by the labels they are derived under. */
  lemma KeyLabels(kdf: Kdf, password: string)
    ensures var c, s, prk := Derive(kdf, password, true), Derive(kdf, password, false), kdf.prk(password);
            && c.normal == s.normal == kdf.normal(password) && c.groXor == s.groXor == kdf.expandGro(prk)
            && c.cipherEncrypt == s.cipherDecrypt == kdf.expand(prk, "cipher_key " + "client-->server")
            && c.cipherDecrypt == s.cipherEncrypt == kdf.expand(prk, "cipher_key " + "server-->client")
            && c.hmacEncrypt == s.hmacDecrypt == kdf.expand(prk, "hmac_key " + "client-->server")
            && c.hmacDecrypt == s.hmacEncrypt == kdf.expand(prk, "hmac_key " + "server-->client")
  {
  }

  /** The key of a direction encrypts under HMAC; without it both directions share the one derived key. */
  lemma CipherKey(c: Crypto)
    ensures c.TxKey() == if !c.cipher.Aead? && c.requestedAuth.HmacSha1? then c.keys.cipherEncrypt[..16] else c.keys.normal
    ensures c.RxKey() == if !c.cipher.Aead? && c.requestedAuth.HmacSha1? then c.keys.cipherDecrypt[..16] else c.keys.normal
  {
  }

  /** Padding fills the last block, or adds one: zeros, and last the number of bytes added. */
  lemma PadLayout(buf: Bytes)
    ensures var r := Pad16(buf);
            && |r| % 16 == 0 && 1 <= |r| - |buf| <= 16 && r[..|buf|] == buf
            && (forall i :: |buf| <= i < |r| - 1 ==> r[i] == 0)
            && ValueOf(r[|r| - 1]) == |r| - |buf|
  {
    var r: Bytes := Pad16(buf);
    assert r[|r| - 1] == (|r| - |buf|) as bv8;
    assert (|r| - |buf|) % 256 == |r| - |buf|;
  }

  /** Padding comes off exactly when the last byte names a number of bytes that are there, sixteen at most. */
  lemma UnpadExact(buf: Bytes)
    ensures Unpad16(buf).Some? <==> buf != [] && ValueOf(buf[|buf| - 1]) <= 16 && ValueOf(buf[|buf| - 1]) <= |buf|
    ensures Unpad16(buf).Some? ==> Unpad16(buf).value == buf[..|buf| - ValueOf(buf[|buf| - 1])]
  {
  }

  /** A packet has ids from 16 bytes on, and a body from 18 bytes on if it is a heartbeat or DATA. */
  lemma ParseExact(plain: Bytes)
    ensures ParseIds(plain).Some? <==> |plain| >= 16
    ensures ParseIds(plain).Some? ==>
              ParseIds(plain).value == (Big4(plain, 0), Big4(plain, 4), Big4(plain, 8) * 0x1_0000_0000 + Big4(plain, 12))
    ensures ParseBody(plain).Some? <==> |plain| >= 18 && (plain[16] == 0x68 || plain[16] == 0x64)
    ensures ParseBody(plain).Some? ==> ParseBody(plain).value == (plain[16], plain[17], plain[18..])
  {
    hide ReadBe, Big4;
    if |plain| >= 16 {
      assert plain[..4] == plain[0..4];
      ReadFour(plain, 0);
      ReadFour(plain, 4);
      ReadEight(plain, 8);
    }
  }

  lemma XorZeros(b: A.Block)
    ensures XorBytes(b, Zeros(16)) == b
  {
    forall i | 0 <= i < 16 ensures XorBytes(b, Zeros(16))[i] == b[i] { GF.AddZero(b[i]); }
  }

  /** Block `j` of a CBC ciphertext. */
  ghost function BlockAt(b: Bytes, j: nat): A.Block
    requires 16 * j + 16 <= |b|
  {
    b[16 * j..16 * j + 16]
  }

  lemma {:induction false} CbcChain(key: R.Key, data: Bytes, prev: A.Block, j: nat)
    requires |data| % 16 == 0 && 16 * j + 16 <= |data|
    ensures |CbcEncrypt(key, data, prev)| == |data|
    ensures var e := CbcEncrypt(key, data, prev);
            BlockAt(e, j) == CbcBlock(key, BlockAt(data, j), if j == 0 then prev else BlockAt(e, j - 1))
    decreases |data|
  {
    hide CbcBlock;
    CbcLength(key, data, prev);
    var c: Bytes := CbcBlock(key, data[..16], prev);
    var rest: Bytes := CbcEncrypt(key, data[16..], c);
    var e: Bytes := CbcEncrypt(key, data, prev);
    assert e == c + rest;
    if j == 0 {
      assert BlockAt(e, 0) == c && BlockAt(data, 0) == data[..16];
    } else {
      CbcChain(key, data[16..], c, j - 1);
      assert BlockAt(e, j) == BlockAt(rest, j - 1) && BlockAt(data, j) == BlockAt(data[16..], j - 1);
      if j == 1 { assert BlockAt(e, 0) == c; } else { assert BlockAt(e, j - 1) == BlockAt(rest, j - 2); }
    }
  }

  /** A CBC packet starts with the plain encryption of its first padded block, every further block is chained
      to the ciphertext before it: a zero initialisation vector and nothing else. */
  lemma CbcPacket(c: Crypto, buf: Bytes, j: nat)
    requires c.cipher.Cbc? && 16 * j + 16 <= |Pad16(buf)|
    ensures CipherEncrypt(c, buf).Some? && |CipherEncrypt(c, buf).value| == |Pad16(buf)|
    ensures var w, b := CipherEncrypt(c, buf).value, BlockAt(Pad16(buf), j);
            BlockAt(w, j) == A.Encrypt(c.TxKey(), if j == 0 then b else XorBytes(b, BlockAt(w, j - 1)))
  {
    hide CbcEncrypt, Pad16, A.Encrypt, XorBytes, BlockAt;
    CbcChain(c.TxKey(), Pad16(buf), Zeros(16), j);
    XorZeros(BlockAt(Pad16(buf), j));
  }

  /** A CFB packet starts with its first block (encrypted on its own first, unless in the legacy mode) added to
      the encryption of sixteen zero bytes. */
  ghost predicate CfbStarts(c: Crypto, buf: Bytes, w: Bytes)
    requires |buf| >= 16
  {
    hide A.Encrypt, XorBytes;
    var first := if c.cfbLegacy then buf[..16] else A.Encrypt(c.keys.cipherEncrypt[..16], buf[..16]);
    |w| == |buf| && w[..16] == XorBytes(first, A.Encrypt(c.TxKey(), Zeros(16)))
  }

  lemma CfbPacket(c: Crypto, buf: Bytes)
    requires c.cipher.Cfb? && |buf| >= 16
    ensures CipherEncrypt(c, buf).Some? && CfbStarts(c, buf, CipherEncrypt(c, buf).value)
  {
    hide CfbEncrypt, A.Encrypt, XorBytes;
    var x := if c.cfbLegacy then buf else EcbFirst(c.keys.cipherEncrypt[..16], buf);
    CfbIsBlocks(c.TxKey(), x, Zeros(16));
    assert x[..16] == if c.cfbLegacy then buf[..16] else A.Encrypt(c.keys.cipherEncrypt[..16], buf[..16]);
  }

  /** The repeating xor uses byte `i mod 16` of the key. */
  lemma XorPacket(c: Crypto, buf: Bytes, i: nat)
    requires c.cipher.Xor? && i < |buf|
    ensures CipherEncrypt(c, buf).Some? && |CipherEncrypt(c, buf).value| == |buf|
    ensures CipherEncrypt(c, buf).value[i] == GF.Add(buf[i], c.TxKey()[i % 16])
  {
  }
}
