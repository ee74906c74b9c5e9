/** Zero-IV CBC and CFB-128 over AES-128, the repeating xor, and the padding of CBC. */
module BlockModes {
  import opened Machine
  import opened GaloisField
  import A = AesObject
  import R = AesRounds
  import T = AesTables

  type Bytes = seq<bv8>

  function Zeros(n: nat): (r: Bytes)
    ensures |r| == n
  {
    seq(n, _ => 0)
  }

  /** Two strings of one length, added byte by byte. */
  function XorBytes(a: Bytes, b: Bytes): (r: Bytes)
    requires |a| <= |b|
    ensures |r| == |a| && forall i :: 0 <= i < |a| ==> r[i] == Add(a[i], b[i])
  {
    seq(|a|, i requires 0 <= i < |a| => Add(a[i], b[i]))
  }

  lemma XorTwice(x: bv8, k: bv8)
    ensures Add(Add(x, k), k) == x
  {
  }

  lemma XorBytesTwice(a: Bytes, k: Bytes)
    requires |a| <= |k|
    ensures XorBytes(XorBytes(a, k), k) == a
  {
    forall i | 0 <= i < |a| ensures XorBytes(XorBytes(a, k), k)[i] == a[i] {
      XorTwice(a[i], k[i]);
    }
  }

  // ------------------------------------------------------------------ CBC

  ghost function CbcEncrypt(key: R.Key, data: Bytes, prev: A.Block): Bytes
    decreases |data|
  {
    if |data| < 16 then []
    else
      var c := CbcBlock(key, data[..16], prev);
      c + CbcEncrypt(key, data[16..], c)
  }

  ghost function CbcBlock(key: R.Key, b: A.Block, prev: A.Block): (r: A.Block)
    ensures |r| == 16
  {
    A.Encrypt(key, XorBytes(b, prev))
  }

  ghost function CbcDecrypt(key: R.Key, data: Bytes, prev: A.Block): Bytes
    decreases |data|
  {
    if |data| < 16 then []
    else CbcUnblock(key, data[..16], prev) + CbcDecrypt(key, data[16..], data[..16])
  }

  ghost function CbcUnblock(key: R.Key, b: A.Block, prev: A.Block): (r: A.Block)
    ensures |r| == 16
  {
    XorBytes(A.Decrypt(key, b), prev)
  }

  lemma CbcBlockInverts(key: R.Key, b: A.Block, prev: A.Block)
    ensures CbcUnblock(key, CbcBlock(key, b, prev), prev) == b
  {
    hide A.Encrypt, A.Decrypt, Add;
    A.BlocksInvert(key, XorBytes(b, prev));
    XorBytesTwice(b, prev);
  }

  lemma {:induction false} CbcLength(key: R.Key, data: Bytes, prev: A.Block)
    requires |data| % 16 == 0
    ensures |CbcEncrypt(key, data, prev)| == |data|
    decreases |data|
  {
    hide CbcBlock;
    if |data| >= 16 { CbcLength(key, data[16..], CbcBlock(key, data[..16], prev)); }
  }

  lemma {:induction false} CbcInverts(key: R.Key, data: Bytes, prev: A.Block)
    requires |data| % 16 == 0
    ensures CbcDecrypt(key, CbcEncrypt(key, data, prev), prev) == data
    decreases |data|
  {
    hide CbcBlock, CbcUnblock;
    if |data| >= 16 {
      var c: Bytes := CbcBlock(key, data[..16], prev);
      var rest: Bytes := CbcEncrypt(key, data[16..], c);
      assert (c + rest)[..16] == c && (c + rest)[16..] == rest;
      CbcBlockInverts(key, data[..16], prev);
      CbcInverts(key, data[16..], c);
      assert data == data[..16] + data[16..];
    }
  }

  // ------------------------------------------------------------------ CFB, byte by byte

  /** The feedback register and the position in it. */
  datatype Feedback = Feedback(iv: A.Block, off: nat)

  /** The register a byte is combined with: at position 0 it is encrypted first. */
  ghost function Register(key: R.Key, f: Feedback): (r: A.Block)
    ensures |r| == 16
  {
    hide A.Encrypt;
    if f.off == 0 then A.Encrypt(key, f.iv) else f.iv
  }

  ghost function Shifted(key: R.Key, f: Feedback, c: bv8): (r: Feedback)
    requires f.off < 16
    ensures r.off < 16
  {
    Feedback(Register(key, f)[f.off := c], (f.off + 1) % 16)
  }

  ghost function CfbEncrypt(key: R.Key, data: Bytes, f: Feedback): (r: Bytes)
    requires f.off < 16
    ensures |r| == |data|
  {
    if data == [] then []
    else
      var c := Add(data[0], Register(key, f)[f.off]);
      [c] + CfbEncrypt(key, data[1..], Shifted(key, f, c))
  }

  ghost function CfbDecrypt(key: R.Key, data: Bytes, f: Feedback): (r: Bytes)
    requires f.off < 16
    ensures |r| == |data|
  {
    if data == [] then []
    else [Add(data[0], Register(key, f)[f.off])] + CfbDecrypt(key, data[1..], Shifted(key, f, data[0]))
  }

  lemma {:induction false} CfbInverts(key: R.Key, data: Bytes, f: Feedback)
    requires f.off < 16
    ensures CfbDecrypt(key, CfbEncrypt(key, data, f), f) == data
    decreases |data|
  {
    hide Register, Add;
    if data != [] {
      var k := Register(key, f)[f.off];
      var c := Add(data[0], k);
      var rest := CfbEncrypt(key, data[1..], Shifted(key, f, c));
      assert ([c] + rest)[0] == c && ([c] + rest)[1..] == rest;
      XorTwice(data[0], k);
      CfbInverts(key, data[1..], Shifted(key, f, c));
    }
  }

  /** A zero initialisation vector. */
  function Start(): Feedback {
    Feedback(Zeros(16), 0)
  }

  // ------------------------------------------------------------------ CFB-128 by blocks

  /** CFB-128 of section 6.3 of NIST SP 800-38A: each block is added to the encryption of the ciphertext
      block before it; the last block may be short. */
  ghost function CfbBlocks(key: R.Key, data: Bytes, prev: A.Block): (r: Bytes)
    ensures |r| == |data|
    decreases |data|
  {
    hide A.Encrypt;
    if |data| < 16 then XorBytes(data, A.Encrypt(key, prev))
    else
      var c := XorBytes(data[..16], A.Encrypt(key, prev));
      c + CfbBlocks(key, data[16..], c)
  }

  /** Inside a block: the first `off` bytes of the register are ciphertext, the rest is key stream for the
      data up to the end of the block. */
  ghost function RestOfBlock(key: R.Key, data: Bytes, f: Feedback): Bytes
    requires 0 < f.off < 16
  {
    var n, k := 16 - f.off, f.iv[f.off..];
    if |data| < n then XorBytes(data, k)
    else XorBytes(data[..n], k) + CfbEncrypt(key, data[n..], Feedback(f.iv[..f.off] + XorBytes(data[..n], k), 0))
  }

  lemma {:induction false} CfbWithin(key: R.Key, data: Bytes, f: Feedback)
    requires 0 < f.off < 16
    ensures CfbEncrypt(key, data, f) == RestOfBlock(key, data, f)
    decreases 16 - f.off
  {
    hide Add, RestOfBlock, CfbEncrypt;
    if data == [] {
      RestOfNothing(key, f);
    } else {
      var c := Add(data[0], f.iv[f.off]);
      var g := Feedback(f.iv[f.off := c], if f.off == 15 then 0 else f.off + 1);
      StepInBlock(key, data, f, c, g);
      if f.off == 15 {
        LastInBlock(key, data, f, c);
      } else {
        CfbWithin(key, data[1..], g);
        WithinStep(key, data, f, c, g);
      }
    }
  }

  lemma StepInBlock(key: R.Key, data: Bytes, f: Feedback, c: bv8, g: Feedback)
    requires data != [] && 0 < f.off < 16 && c == Add(data[0], f.iv[f.off])
    requires g == Feedback(f.iv[f.off := c], if f.off == 15 then 0 else f.off + 1)
    ensures CfbEncrypt(key, data, f) == [c] + CfbEncrypt(key, data[1..], g)
  {
    hide Add, A.Encrypt;
    assert Shifted(key, f, c) == g;
  }

  lemma RestOfNothing(key: R.Key, f: Feedback)
    requires 0 < f.off < 16
    ensures RestOfBlock(key, [], f) == [] && CfbEncrypt(key, [], f) == []
  {
  }

  lemma LastInBlock(key: R.Key, data: Bytes, f: Feedback, c: bv8)
    requires data != [] && f.off == 15 && c == Add(data[0], f.iv[15])
    ensures RestOfBlock(key, data, f) == [c] + CfbEncrypt(key, data[1..], Feedback(f.iv[15 := c], 0))
  {
    hide Add, CfbEncrypt;
    assert data[..1] == [data[0]] && f.iv[15..] == [f.iv[15]];
    assert XorBytes(data[..1], f.iv[15..]) == [c];
    assert f.iv[..15] + [c] == f.iv[15 := c];
  }

  lemma EmptyXor(k: Bytes)
    ensures XorBytes([], k) == []
  {
  }

  lemma XorCons(a: Bytes, k: Bytes)
    requires a != [] && |a| <= |k|
    ensures XorBytes(a, k) == [Add(a[0], k[0])] + XorBytes(a[1..], k[1..])
  {
    hide Add;
  }

  lemma WithinStep(key: R.Key, data: Bytes, f: Feedback, c: bv8, g: Feedback)
    requires data != [] && 0 < f.off < 15 && c == Add(data[0], f.iv[f.off]) && g == Feedback(f.iv[f.off := c], f.off + 1)
    ensures RestOfBlock(key, data, f) == [c] + RestOfBlock(key, data[1..], g)
  {
    hide Add, XorBytes, CfbEncrypt;
    var n := 16 - f.off;
    var k: Bytes := f.iv[f.off..];
    assert k[1..] == g.iv[g.off..] && k[0] == f.iv[f.off];
    if |data| < n {
      XorCons(data, k);
    } else {
      assert data[..n][1..] == data[1..][..n - 1] && data[1..][n - 1..] == data[n..];
      XorCons(data[..n], k);
      NextRegister(f, c, g, XorBytes(data[1..][..n - 1], k[1..]));
      Associate(c, XorBytes(data[1..][..n - 1], k[1..]), CfbEncrypt(key, data[n..], Feedback(f.iv[..f.off] + XorBytes(data[..n], k), 0)));
    }
  }

  lemma Associate(c: bv8, x: Bytes, y: Bytes)
    ensures ([c] + x) + y == [c] + (x + y)
  {
  }

  lemma NextRegister(f: Feedback, c: bv8, g: Feedback, x: Bytes)
    requires f.off < 15 && g == Feedback(f.iv[f.off := c], f.off + 1)
    ensures g.iv[..g.off] + x == f.iv[..f.off] + ([c] + x)
  {
    var front: Bytes := f.iv[..f.off];
    assert g.iv[..g.off] == front + [c];
  }

  lemma FirstOfNothing(key: R.Key, prev: A.Block)
    ensures CfbEncrypt(key, [], Feedback(prev, 0)) == []
  {
  }

  lemma FirstInBlock(key: R.Key, data: Bytes, f: Feedback, c: bv8)
    requires data != [] && f.off < 16 && c == Add(data[0], Register(key, f)[f.off])
    ensures CfbEncrypt(key, data, f) == [c] + CfbEncrypt(key, data[1..], Shifted(key, f, c))
  {
  }

  lemma FirstUndone(key: R.Key, data: Bytes, f: Feedback, x: bv8)
    requires data != [] && f.off < 16 && x == Add(data[0], Register(key, f)[f.off])
    ensures CfbDecrypt(key, data, f) == [x] + CfbDecrypt(key, data[1..], Shifted(key, f, data[0]))
  {
  }

  /** The byte loop computes CFB-128. */
  lemma {:induction false} CfbIsBlocks(key: R.Key, data: Bytes, prev: A.Block)
    ensures CfbEncrypt(key, data, Feedback(prev, 0)) == CfbBlocks(key, data, prev)
    decreases |data|
  {
    hide A.Encrypt, Add, CfbEncrypt;
    if data == [] {
      EmptyXor(A.Encrypt(key, prev));
      FirstOfNothing(key, prev);
    } else {
      var e := A.Encrypt(key, prev);
      var c := Add(data[0], e[0]);
      assert CfbEncrypt(key, data, Feedback(prev, 0)) == [c] + CfbEncrypt(key, data[1..], Feedback(e[0 := c], 1)) by {
        FirstInBlock(key, data, Feedback(prev, 0), c);
      }
      CfbWithin(key, data[1..], Feedback(e[0 := c], 1));
      assert e[0 := c][1..] == e[1..];
      if |data| < 16 {
        XorCons(data, e);
      } else {
        assert data[..16][1..] == data[1..][..15] && data[1..][15..] == data[16..];
        XorCons(data[..16], e);
        assert e[0 := c][..1] == [c];
        CfbIsBlocks(key, data[16..], XorBytes(data[..16], e));
      }
    }
  }

  // ------------------------------------------------------------------ xor and padding

  function XorKey(data: Bytes, key: R.Key): (r: Bytes)
    ensures |r| == |data|
  {
    seq(|data|, i requires 0 <= i < |data| => Add(data[i], key[i % 16]))
  }

  lemma XorKeyTwice(data: Bytes, key: R.Key)
    ensures XorKey(XorKey(data, key), key) == data
  {
    forall i | 0 <= i < |data| ensures XorKey(XorKey(data, key), key)[i] == data[i] {
      XorTwice(data[i], key[i % 16]);
    }
  }

  function PaddedLength(n: nat): (r: nat)
    ensures r % 16 == 0 && n < r <= n + 16
  {
    if (n + 1) % 16 == 0 then n + 1 else (n + 1) / 16 * 16 + 16
  }

  function Pad16(buf: Bytes): (r: Bytes)
    ensures |r| == PaddedLength(|buf|)
  {
    var n := PaddedLength(|buf|);
    buf + Zeros(n - 1 - |buf|) + [(n - |buf|) as bv8]
  }

  function Unpad16(buf: Bytes): Option<Bytes> {
    if buf == [] then None
    else
      var p := buf[|buf| - 1] as int;
      if p > 16 || p > |buf| then None else Some(buf[..|buf| - p])
  }

  lemma UnpadPad(buf: Bytes)
    ensures Unpad16(Pad16(buf)) == Some(buf)
  {
    var n := PaddedLength(|buf|);
    var p := Pad16(buf);
    T.Bytes(n - |buf|);
    assert p[|p| - 1] == (n - |buf|) as bv8;
    assert p[..|buf|] == buf;
  }
}
