/** The cipher loops over byte buffers, in place. */
module CryptoObject {
  import opened Machine
  import opened GaloisField
  import opened BlockModes
  import PC = PacketCrypto
  import G = Gro
  import F = Safer
  import A = AesObject
  import R = AesRounds

  // ------------------------------------------------------------------ blocks of a buffer

  method TakeBlock(data: array<bv8>, i: nat) returns (b: array<bv8>)
    requires i + 16 <= data.Length
    ensures fresh(b) && b.Length == 16 && b[..] == data[i..i + 16]
  {
    b := new bv8[16](_ => 0);
    for j := 0 to 16
      invariant b[..j] == data[i..i + j]
    {
      b[j] := data[i + j];
    }
  }

  method PutBlock(data: array<bv8>, i: nat, b: array<bv8>)
    requires i + 16 <= data.Length && b.Length == 16 && b != data
    modifies data
    ensures data[..] == old(data[..i]) + b[..] + old(data[i + 16..])
  {
    for j := 0 to 16
      invariant data[..i] == old(data[..i]) && data[i + 16..] == old(data[i + 16..])
      invariant data[i..i + j] == b[..j]
    {
      data[i + j] := b[j];
    }
    assert data[..] == data[..i] + data[i..i + 16] + data[i + 16..];
  }

  /** `b` becomes the sum of `b` and `k`. */
  method XorBlock(b: array<bv8>, k: array<bv8>)
    requires b.Length == 16 && k.Length == 16 && b != k
    modifies b
    ensures b[..] == XorBytes(old(b[..]), k[..])
  {
    hide Add;
    for j := 0 to 16
      invariant forall l :: 0 <= l < j ==> b[l] == Add(old(b[l]), k[l])
      invariant forall l :: j <= l < 16 ==> b[l] == old(b[l])
    {
      b[j] := Add(b[j], k[j]);
    }
  }

  method ZeroBlock() returns (b: array<bv8>)
    ensures fresh(b) && b.Length == 16 && b[..] == Zeros(16)
  {
    b := new bv8[16](_ => 0);
  }

  // ------------------------------------------------------------------ one step of each loop on values

  lemma CbcStep(key: R.Key, done: Bytes, b: Bytes, rest: Bytes, prev: Bytes, whole: Bytes)
    requires |b| == 16 && |prev| == 16 && whole == done + CbcEncrypt(key, b + rest, prev)
    ensures var c := CbcBlock(key, b, prev); whole == (done + c) + CbcEncrypt(key, rest, c)
  {
    hide CbcBlock;
    assert (b + rest)[..16] == b && (b + rest)[16..] == rest;
    var c: Bytes := CbcBlock(key, b, prev);
    assert done + (c + CbcEncrypt(key, rest, c)) == (done + c) + CbcEncrypt(key, rest, c);
  }

  lemma CbcUnstep(key: R.Key, done: Bytes, b: Bytes, rest: Bytes, prev: Bytes, whole: Bytes)
    requires |b| == 16 && |prev| == 16 && whole == done + CbcDecrypt(key, b + rest, prev)
    ensures whole == (done + CbcUnblock(key, b, prev)) + CbcDecrypt(key, rest, b)
  {
    hide CbcUnblock;
    assert (b + rest)[..16] == b && (b + rest)[16..] == rest;
    var p: Bytes := CbcUnblock(key, b, prev);
    assert done + (p + CbcDecrypt(key, rest, b)) == (done + p) + CbcDecrypt(key, rest, b);
  }

  // ------------------------------------------------------------------ one AES key

  class AesKey {
    const table: A.AesTable

    ghost predicate Valid()
      reads table.ek, table.dk
    {
      table.Valid()
    }

    constructor (key: array<bv8>)
      requires key.Length == 16
      ensures Valid() && table.key == key[..] && fresh(table) && fresh(table.ek) && fresh(table.dk)
    {
      table := new A.AesTable(key);
    }

    /** One chunk of the encryption loop; the ciphertext block is returned as the next `prev`. */
    method EncryptChunk(data: array<bv8>, i: nat, prev: array<bv8>) returns (b: array<bv8>)
      requires Valid() && i + 16 <= data.Length && prev.Length == 16
      modifies data
      ensures fresh(b) && b.Length == 16 && b[..] == CbcBlock(table.key, old(data[i..i + 16]), old(prev[..]))
      ensures data[..] == old(data[..i]) + b[..] + old(data[i + 16..])
    {
      hide A.Encrypt, Add, XorBytes;
      b := TakeBlock(data, i);
      XorBlock(b, prev);
      table.EncryptBlock(b);
      PutBlock(data, i, b);
    }

    method DecryptChunk(data: array<bv8>, i: nat, prev: array<bv8>) returns (ct: array<bv8>)
      requires Valid() && i + 16 <= data.Length && prev.Length == 16
      modifies data
      ensures fresh(ct) && ct.Length == 16 && ct[..] == old(data[i..i + 16])
      ensures data[..] == old(data[..i]) + CbcUnblock(table.key, ct[..], old(prev[..])) + old(data[i + 16..])
    {
      hide A.Decrypt, Add, XorBytes;
      ct := TakeBlock(data, i);
      var b := TakeBlock(data, i);
      table.DecryptBlock(b);
      XorBlock(b, prev);
      PutBlock(data, i, b);
    }

    method CbcEncryptZeroIv(data: array<bv8>)
      requires Valid() && data.Length % 16 == 0
      modifies data
      ensures data[..] == CbcEncrypt(table.key, old(data[..]), Zeros(16))
    {
      hide CbcBlock, CbcEncrypt, A.AesTable.Valid;
      ghost var whole := CbcEncrypt(table.key, data[..], Zeros(16));
      var prev := ZeroBlock();
      var i := 0;
      assert data[0..] == data[..];
      assert [] + whole == whole;
      while i < data.Length
        invariant 0 <= i <= data.Length && i % 16 == 0
        invariant fresh(prev) && prev.Length == 16
        invariant table.Valid()
        invariant whole == data[..i] + CbcEncrypt(table.key, data[i..], prev[..])
      {
        ghost var done, blk, rest := data[..i], data[i..i + 16], data[i + 16..];
        assert data[i..] == blk + rest;
        CbcStep(table.key, done, blk, rest, prev[..], whole);
        prev := EncryptChunk(data, i, prev);
        i := i + 16;
        assert data[..i] == done + prev[..] && data[i..] == rest;
      }
      Nothing(table.key, data[i..], prev[..]);
      assert data[..i] == data[..];
    }

    method CbcDecryptZeroIv(data: array<bv8>)
      requires Valid() && data.Length % 16 == 0
      modifies data
      ensures data[..] == CbcDecrypt(table.key, old(data[..]), Zeros(16))
    {
      hide CbcUnblock, CbcDecrypt, A.AesTable.Valid;
      ghost var whole := CbcDecrypt(table.key, data[..], Zeros(16));
      var prev := ZeroBlock();
      var i := 0;
      assert data[0..] == data[..];
      assert [] + whole == whole;
      while i < data.Length
        invariant 0 <= i <= data.Length && i % 16 == 0
        invariant fresh(prev) && prev.Length == 16
        invariant table.Valid()
        invariant whole == data[..i] + CbcDecrypt(table.key, data[i..], prev[..])
      {
        ghost var done, blk, rest := data[..i], data[i..i + 16], data[i + 16..];
        assert data[i..] == blk + rest;
        CbcUnstep(table.key, done, blk, rest, prev[..], whole);
        ghost var plain := CbcUnblock(table.key, blk, prev[..]);
        prev := DecryptChunk(data, i, prev);
        i := i + 16;
        assert data[..i] == done + plain && data[i..] == rest;
      }
      Nothing(table.key, data[i..], prev[..]);
      assert data[..i] == data[..];
    }

    /** One byte of a CFB loop: what goes out is `data[i]` plus the register, what stays in the register is
        the ciphertext byte. */
    method FeedbackByte(data: array<bv8>, i: nat, iv: array<bv8>, off: nat, encrypting: bool)
      requires Valid() && i < data.Length && iv.Length == 16 && iv != data && off < 16
      modifies data, iv
      ensures var f := Feedback(old(iv[..]), off);
              var x := Add(old(data[i]), Register(table.key, f)[off]);
              && data[..] == old(data[..i]) + [x] + old(data[i + 1..])
              && iv[..] == Shifted(table.key, f, if encrypting then x else old(data[i])).iv
    {
      hide A.Encrypt, Add, A.AesTable.Valid;
      if off == 0 { table.EncryptBlock(iv); }
      var c := data[i];
      data[i] := Add(c, iv[off]);
      iv[off] := if encrypting then data[i] else c;
    }

    method CfbEncryptZeroIv(data: array<bv8>)
      requires Valid()
      modifies data
      ensures data[..] == CfbEncrypt(table.key, old(data[..]), Start())
    {
      hide CfbEncrypt, Add, Register, A.AesTable.Valid;
      ghost var whole := CfbEncrypt(table.key, data[..], Start());
      var iv := ZeroBlock();
      var off: nat, i := 0, 0;
      assert data[0..] == data[..];
      assert [] + whole == whole;
      while i < data.Length
        invariant 0 <= i <= data.Length && off < 16
        invariant table.Valid()
        invariant whole == data[..i] + CfbEncrypt(table.key, data[i..], Feedback(iv[..], off))
      {
        ghost var done, x, rest := data[..i], data[i], data[i + 1..];
        assert data[i..] == [x] + rest;
        CfbStep(table.key, done, x, rest, Feedback(iv[..], off), whole);
        FeedbackByte(data, i, iv, off, true);
        off := (off + 1) % 16;
        i := i + 1;
        assert data[..i] == done + [data[i - 1]] && data[i..] == rest;
      }
      CfbNothing(table.key, data[i..], Feedback(iv[..], off));
      assert data[..i] == data[..];
    }

    method CfbDecryptZeroIv(data: array<bv8>)
      requires Valid()
      modifies data
      ensures data[..] == CfbDecrypt(table.key, old(data[..]), Start())
    {
      hide CfbDecrypt, Add, Register, A.AesTable.Valid;
      ghost var whole := CfbDecrypt(table.key, data[..], Start());
      var iv := ZeroBlock();
      var off: nat, i := 0, 0;
      assert data[0..] == data[..];
      assert [] + whole == whole;
      while i < data.Length
        invariant 0 <= i <= data.Length && off < 16
        invariant table.Valid()
        invariant whole == data[..i] + CfbDecrypt(table.key, data[i..], Feedback(iv[..], off))
      {
        ghost var done, x, rest := data[..i], data[i], data[i + 1..];
        assert data[i..] == [x] + rest;
        CfbUnstep(table.key, done, x, rest, Feedback(iv[..], off), whole);
        FeedbackByte(data, i, iv, off, false);
        off := (off + 1) % 16;
        i := i + 1;
        assert data[..i] == done + [data[i - 1]] && data[i..] == rest;
      }
      CfbNothing(table.key, data[i..], Feedback(iv[..], off));
      assert data[..i] == data[..];
    }
  }

  lemma Nothing(key: R.Key, rest: Bytes, prev: A.Block)
    requires rest == []
    ensures CbcEncrypt(key, rest, prev) == [] && CbcDecrypt(key, rest, prev) == []
  {
  }

  lemma CfbNothing(key: R.Key, rest: Bytes, f: Feedback)
    requires rest == [] && f.off < 16
    ensures CfbEncrypt(key, rest, f) == [] && CfbDecrypt(key, rest, f) == []
  {
  }

  lemma CfbStep(key: R.Key, done: Bytes, x: bv8, rest: Bytes, f: Feedback, whole: Bytes)
    requires f.off < 16 && whole == done + CfbEncrypt(key, [x] + rest, f)
    ensures var c := Add(x, Register(key, f)[f.off]); whole == (done + [c]) + CfbEncrypt(key, rest, Shifted(key, f, c))
  {
    hide Register, Shifted, Add, CfbEncrypt;
    var c := Add(x, Register(key, f)[f.off]);
    FirstInBlock(key, [x] + rest, f, c);
    assert ([x] + rest)[1..] == rest;
    assert done + ([c] + CfbEncrypt(key, rest, Shifted(key, f, c))) == (done + [c]) + CfbEncrypt(key, rest, Shifted(key, f, c));
  }

  lemma CfbUnstep(key: R.Key, done: Bytes, x: bv8, rest: Bytes, f: Feedback, whole: Bytes)
    requires f.off < 16 && whole == done + CfbDecrypt(key, [x] + rest, f)
    ensures whole == (done + [Add(x, Register(key, f)[f.off])]) + CfbDecrypt(key, rest, Shifted(key, f, x))
  {
    hide Register, Shifted, Add, CfbDecrypt;
    var p := Add(x, Register(key, f)[f.off]);
    FirstUndone(key, [x] + rest, f, p);
    assert ([x] + rest)[1..] == rest;
    assert done + ([p] + CfbDecrypt(key, rest, Shifted(key, f, x))) == (done + [p]) + CfbDecrypt(key, rest, Shifted(key, f, x));
  }

  method XorInPlace(data: array<bv8>, key: R.Key)
    modifies data
    ensures data[..] == XorKey(old(data[..]), key)
  {
    hide Add;
    for i := 0 to data.Length
      invariant forall j :: 0 <= j < i ==> data[j] == Add(old(data[j]), key[j % 16])
      invariant forall j :: i <= j < data.Length ==> data[j] == old(data[j])
    {
      data[i] := Add(data[i], key[i % 16]);
    }
  }

  method ToArray(s: Bytes) returns (a: array<bv8>)
    ensures fresh(a) && a[..] == s
  {
    a := new bv8[|s|](i requires 0 <= i < |s| => s[i]);
  }

  // ------------------------------------------------------------------ one role

  ghost predicate Ready(k: AesKey, key: R.Key)
    reads k.table.ek, k.table.dk
  {
    k.Valid() && k.table.key == key
  }

  /** The engine of one role: its settings, the schedules of its AES keys, and the foreign primitives. */
  class Crypto {
    const prims: PC.Prims
    const c: PC.Crypto
    const txAes: AesKey
    const rxAes: AesKey
    const ecbEnc: AesKey
    const ecbDec: AesKey

    ghost predicate DataKeys()
      reads txAes.table.ek, txAes.table.dk, rxAes.table.ek, rxAes.table.dk
    {
      Ready(txAes, c.TxKey()) && Ready(rxAes, c.RxKey())
    }

    ghost predicate HeadKeys()
      reads ecbEnc.table.ek, ecbEnc.table.dk, ecbDec.table.ek, ecbDec.table.dk
    {
      Ready(ecbEnc, c.keys.cipherEncrypt[..16]) && Ready(ecbDec, c.keys.cipherDecrypt[..16])
    }

    ghost predicate Valid()
      reads txAes.table.ek, txAes.table.dk, rxAes.table.ek, rxAes.table.dk
      reads ecbEnc.table.ek, ecbEnc.table.dk, ecbDec.table.ek, ecbDec.table.dk
    {
      hide *;
      DataKeys() && HeadKeys()
    }

    constructor (prims: PC.Prims, c: PC.Crypto)
      ensures Valid() && this.prims == prims && this.c == c
    {
      var tx := ToArray(c.TxKey());
      var rx := ToArray(c.RxKey());
      var enc := ToArray(c.keys.cipherEncrypt[..16]);
      var dec := ToArray(c.keys.cipherDecrypt[..16]);
      this.prims, this.c := prims, c;
      txAes := new AesKey(tx);
      rxAes := new AesKey(rx);
      ecbEnc := new AesKey(enc);
      ecbDec := new AesKey(dec);
    }

    method EcbEncrypt1(data: array<bv8>, i: nat)
      requires HeadKeys() && i + 16 <= data.Length
      modifies data
      ensures data[..] == old(data[..i]) + PC.EcbFirst(c.keys.cipherEncrypt[..16], old(data[i..]))
    {
      hide A.Encrypt, A.AesTable.Valid;
      var b := TakeBlock(data, i);
      ecbEnc.table.EncryptBlock(b);
      PutBlock(data, i, b);
      assert old(data[i..])[..16] == old(data[i..i + 16]) && old(data[i..])[16..] == old(data[i + 16..]);
      assert old(data[..i]) + (b[..] + old(data[i + 16..])) == old(data[..i]) + b[..] + old(data[i + 16..]);
    }

    method EcbDecrypt1(data: array<bv8>, i: nat)
      requires HeadKeys() && i + 16 <= data.Length
      modifies data
      ensures data[..] == old(data[..i]) + PC.EcbUnfirst(c.keys.cipherDecrypt[..16], old(data[i..]))
    {
      hide A.Decrypt, A.AesTable.Valid;
      var b := TakeBlock(data, i);
      ecbDec.table.DecryptBlock(b);
      PutBlock(data, i, b);
      assert old(data[i..])[..16] == old(data[i..i + 16]) && old(data[i..])[16..] == old(data[i + 16..]);
      assert old(data[..i]) + (b[..] + old(data[i + 16..])) == old(data[..i]) + b[..] + old(data[i + 16..]);
    }

    method CipherEncrypt(buf: Bytes) returns (r: Option<Bytes>)
      requires Valid()
      ensures r == PC.CipherEncrypt(c, buf)
    {
      hide CbcEncrypt, CfbEncrypt, XorKey, A.Encrypt, A.AesTable.Valid, Pad16;
      match c.cipher
      case NoCipher => r := Some(buf);
      case Aead => r := Some(buf);
      case Xor =>
        var data := ToArray(buf);
        XorInPlace(data, c.TxKey());
        r := Some(data[..]);
      case Cbc =>
        var data := ToArray(Pad16(buf));
        txAes.CbcEncryptZeroIv(data);
        r := Some(data[..]);
      case Cfb =>
        if |buf| < 16 { return None; }
        var data := ToArray(buf);
        if !c.cfbLegacy {
          EcbEncrypt1(data, 0);
          assert data[..] == PC.EcbFirst(c.keys.cipherEncrypt[..16], buf);
        }
        txAes.CfbEncryptZeroIv(data);
        r := Some(data[..]);
    }

    method CipherDecrypt(buf: Bytes) returns (r: Option<Bytes>)
      requires Valid()
      ensures r == PC.CipherDecrypt(c, buf)
    {
      hide CbcDecrypt, CfbDecrypt, XorKey, A.Decrypt, A.AesTable.Valid, Unpad16;
      match c.cipher
      case NoCipher => r := Some(buf);
      case Aead => r := Some(buf);
      case Xor =>
        var data := ToArray(buf);
        XorInPlace(data, c.RxKey());
        r := Some(data[..]);
      case Cbc =>
        if |buf| % 16 != 0 { return None; }
        var data := ToArray(buf);
        rxAes.CbcDecryptZeroIv(data);
        r := Unpad16(data[..]);
      case Cfb =>
        if |buf| < 16 { return None; }
        var data := ToArray(buf);
        rxAes.CfbDecryptZeroIv(data);
        if !c.cfbLegacy {
          ghost var plain := data[..];
          EcbDecrypt1(data, 0);
          assert data[..] == PC.EcbUnfirst(c.keys.cipherDecrypt[..16], plain);
        }
        r := Some(data[..]);
    }

    method EncryptVec(buf: Bytes, nonce: Bytes) returns (r: Option<Bytes>)
      requires Valid()
      ensures r == PC.EncryptVec(prims, c, nonce, buf)
    {
      hide PC.CipherEncrypt, A.AesTable.Valid;
      if |buf| > PC.MAX_DATA_LEN { return None; }
      if c.cipher.Aead? {
        var sealed := prims.seal(c.keys.cipherEncrypt[..32], nonce, buf);
        return if sealed.Some? then Some(nonce + sealed.value) else None;
      }
      if c.Auth().HmacSha1? {
        r := CipherEncrypt(buf);
        if r.Some? { r := Some(PC.AppendTag(prims, PC.HmacSha1, c.keys.hmacEncrypt, r.value)); }
      } else {
        r := CipherEncrypt(PC.AppendTag(prims, c.Auth(), c.keys.hmacEncrypt, buf));
      }
    }

    method DecryptVec(buf: Bytes) returns (r: Option<Bytes>)
      requires Valid()
      ensures r == PC.DecryptVec(prims, c, buf)
    {
      hide PC.CipherDecrypt, A.AesTable.Valid;
      if |buf| > PC.MAX_DATA_LEN { return None; }
      if c.cipher.Aead? {
        if |buf| < PC.NONCE_LEN + PC.AEAD_TAG_LEN { return None; }
        return prims.open(c.keys.cipherDecrypt[..32], buf[..PC.NONCE_LEN], buf[PC.NONCE_LEN..]);
      }
      if c.Auth().HmacSha1? {
        var n := PC.Verify(prims, PC.HmacSha1, c.keys.hmacDecrypt, buf);
        if n.None? { return None; }
        r := CipherDecrypt(buf[..n.value]);
      } else {
        r := CipherDecrypt(buf);
        if r.Some? {
          var n := PC.Verify(prims, c.Auth(), c.keys.hmacDecrypt, r.value);
          r := if n.Some? then Some(r.value[..n.value]) else None;
        }
      }
    }

    method DeobfuscateHead(buf: array<bv8>, pos: nat)
      requires HeadKeys() && pos + 16 <= buf.Length
      modifies buf
      ensures buf[..] == old(buf[..pos]) + G.Deobfuscate(c, old(buf[pos..pos + 16])) + old(buf[pos + 16..])
    {
      hide A.Decrypt, Add, HeadKeys, PC.EcbUnfirst;
      ghost var tail := buf[pos..];
      assert tail[..16] == buf[pos..pos + 16] && tail[16..] == buf[pos + 16..];
      G.EcbLocal(c.keys.cipherDecrypt[..16], tail);
      match c.cipher
      case NoCipher =>
      case Cbc => EcbDecrypt1(buf, pos);
      case Cfb => EcbDecrypt1(buf, pos);
      case _ =>
        buf[pos] := Add(buf[pos], c.keys.groXor[0]);
        buf[pos + 1] := Add(buf[pos + 1], c.keys.groXor[1]);
    }

    method GroUnwrap(buf: array<bv8>) returns (out: seq<(nat, nat)>)
      requires HeadKeys()
      modifies buf
      ensures (buf[..], out) == G.Unwrap(c, old(buf[..]), 0)
    {
      hide G.Deobfuscate, HeadKeys, G.ReadU16, G.Unwrap;
      out := [];
      ghost var whole := G.Unwrap(c, buf[..], 0);
      var pos := 0;
      while buf.Length - pos >= 16
        invariant pos <= buf.Length && HeadKeys()
        invariant whole.0 == G.Unwrap(c, buf[..], pos).0
        invariant whole.1 == out + G.Unwrap(c, buf[..], pos).1
        decreases buf.Length - pos
      {
        ghost var was := buf[..];
        DeobfuscateHead(buf, pos);
        G.UnwrapTurn(c, was, pos, buf[..], out);
        var n := G.ReadU16(buf[..][pos..]);
        if n > buf.Length - pos - 2 || n > PC.MAX_DATA_LEN { return; }
        out := out + [(pos + 2, n)];
        pos := pos + 2 + n;
      }
      G.UnwrapEnd(c, buf[..], pos, out);
    }

    method GroWrap(packet: Bytes) returns (r: Bytes)
      requires HeadKeys()
      ensures r == G.Wrap(c, packet)
    {
      hide A.Encrypt, Add, HeadKeys, PC.EcbFirst;
      r := G.WriteU16(|packet|) + packet;
      if |r| >= 16 || !G.IsAes(c) {
        match c.cipher
        case NoCipher =>
        case Cbc => r := EcbHead(r);
        case Cfb => r := EcbHead(r);
        case _ => r := G.MaskTwo(c, r);
      }
    }

    method EcbHead(b: Bytes) returns (r: Bytes)
      requires HeadKeys() && |b| >= 16
      ensures r == PC.EcbFirst(c.keys.cipherEncrypt[..16], b)
    {
      hide PC.EcbFirst, HeadKeys;
      var data := ToArray(b);
      EcbEncrypt1(data, 0);
      assert b[0..] == b;
      r := data[..];
    }

    /** Split a received burst and decrypt its packets; what does not decrypt is skipped. */
    method DecryptSaferGro(data: array<bv8>) returns (out: seq<Bytes>)
      requires Valid()
      modifies data
      ensures out == F.DecryptSafer(prims, c, old(data[..]), true)
    {
      hide PC.DecryptVec, G.Unwrap, DataKeys, HeadKeys, F.DecryptParts;
      G.SpansInBounds(c, data[..], 0);
      var parts := GroUnwrap(data);
      out := DecryptSpans(data[..], parts);
    }

    method DecryptSpans(data: Bytes, parts: seq<(nat, nat)>) returns (out: seq<Bytes>)
      requires Valid() && F.Inside(parts, |data|)
      ensures out == F.DecryptParts(prims, c, data, parts)
    {
      hide PC.DecryptVec, Valid, F.DecryptParts;
      out := [];
      ghost var whole := F.DecryptParts(prims, c, data, parts);
      assert parts[0..] == parts;
      assert [] + whole == whole;
      for i := 0 to |parts|
        invariant F.Inside(parts[i..], |data|)
        invariant whole == out + F.DecryptParts(prims, c, data, parts[i..])
      {
        F.PartsTurn(prims, c, data, parts, i, out);
        var d := DecryptVec(data[parts[i].0..parts[i].0 + parts[i].1]);
        if d.Some? { out := out + [d.value]; }
      }
      NoParts(data, parts[|parts|..]);
      assert out + [] == out;
    }

    lemma NoParts(data: Bytes, parts: seq<(nat, nat)>)
      requires parts == []
      ensures F.DecryptParts(prims, c, data, parts) == []
    {
    }
  }
}
