/** Packet encryption as both roles compose it: cipher, tag, padding, direction-swapped keys. */
module PacketCrypto {
  import opened Machine
  import opened BlockModes
  import A = AesObject
  import R = AesRounds

  const MAX_DATA_LEN: nat := 1800
  const NONCE_LEN: nat := 24
  const AEAD_TAG_LEN: nat := 16

  datatype CipherMode = NoCipher | Xor | Cbc | Cfb | Aead

  datatype AuthMode = NoAuth | Md5 | Crc32 | Simple | HmacSha1

  function TagLen(mode: AuthMode): nat {
    match mode
    case NoAuth => 0
    case Md5 => 16
    case Crc32 => 4
    case Simple => 8
    case HmacSha1 => 20
  }

  // ------------------------------------------------------------------ primitives

  /** The hashes, the HMAC and the AEAD: functions this model does not look into. */
  datatype Prims = Prims(md5: Bytes -> Bytes, crc32: Bytes -> Bytes, simple: Bytes -> Bytes, hmac: (Bytes, Bytes) -> Bytes,
                         seal: (Bytes, Bytes, Bytes) -> Option<Bytes>, open: (Bytes, Bytes, Bytes) -> Option<Bytes>)

  /** Tags have their lengths, and the AEAD opens what it sealed under one key and nonce. */
  ghost predicate Lawful(p: Prims) {
    && (forall d :: |p.md5(d)| == 16)
    && (forall d :: |p.crc32(d)| == 4)
    && (forall d :: |p.simple(d)| == 8)
    && (forall k, d :: |p.hmac(k, d)| == 20)
    && (forall k, n, d :: p.seal(k, n, d).Some? ==>
          |p.seal(k, n, d).value| == |d| + AEAD_TAG_LEN && p.open(k, n, p.seal(k, n, d).value) == Some(d))
  }

  // ------------------------------------------------------------------ keys

  type Key64 = k: Bytes | |k| == 64 witness seq(64, _ => 0)

  type Mask = k: Bytes | |k| == 256 witness seq(256, _ => 0)

  datatype Keys = Keys(normal: R.Key, cipherEncrypt: Key64, cipherDecrypt: Key64, hmacEncrypt: Key64, hmacDecrypt: Key64, groXor: Mask)

  /** The key derivation functions, as far as the layout of the keys goes. */
  datatype Kdf = Kdf(normal: string -> R.Key, prk: string -> Bytes, expand: (Bytes, string) -> Key64, expandGro: Bytes -> Mask)

  function Derive(kdf: Kdf, password: string, isClient: bool): Keys {
    var prk := kdf.prk(password);
    var (there, back) := if isClient then ("client-->server", "server-->client") else ("server-->client", "client-->server");
    Keys(kdf.normal(password), kdf.expand(prk, "cipher_key " + there), kdf.expand(prk, "cipher_key " + back),
         kdf.expand(prk, "hmac_key " + there), kdf.expand(prk, "hmac_key " + back), kdf.expandGro(prk))
  }

  /** Each role sends under the keys the other receives under. */
  predicate Opposite(a: Keys, b: Keys) {
    && a.normal == b.normal && a.groXor == b.groXor
    && a.cipherEncrypt == b.cipherDecrypt && a.cipherDecrypt == b.cipherEncrypt
    && a.hmacEncrypt == b.hmacDecrypt && a.hmacDecrypt == b.hmacEncrypt
  }

  lemma RolesAreOpposite(kdf: Kdf, password: string)
    ensures Opposite(Derive(kdf, password, true), Derive(kdf, password, false))
    ensures Opposite(Derive(kdf, password, false), Derive(kdf, password, true))
  {
  }

  // ------------------------------------------------------------------ the engine of one role

  datatype Crypto = Crypto(cipher: CipherMode, requestedAuth: AuthMode, cfbLegacy: bool, keys: Keys) {
    /** An AEAD carries its own tag. */
    function Auth(): AuthMode {
      if cipher.Aead? then NoAuth else requestedAuth
    }

    function TxKey(): R.Key {
      if Auth().HmacSha1? then keys.cipherEncrypt[..16] else keys.normal
    }

    function RxKey(): R.Key {
      if Auth().HmacSha1? then keys.cipherDecrypt[..16] else keys.normal
    }
  }

  predicate Peers(c: Crypto, s: Crypto) {
    c.cipher == s.cipher && c.requestedAuth == s.requestedAuth && c.cfbLegacy == s.cfbLegacy && Opposite(c.keys, s.keys)
  }

  // ------------------------------------------------------------------ tags

  function TagOf(p: Prims, mode: AuthMode, hmacKey: Key64, data: Bytes): Bytes {
    match mode
    case NoAuth => []
    case Md5 => p.md5(data)
    case Crc32 => p.crc32(data)
    case Simple => p.simple(data)
    case HmacSha1 => p.hmac(hmacKey[..20], data)
  }

  function AppendTag(p: Prims, mode: AuthMode, hmacKey: Key64, buf: Bytes): Bytes {
    buf + TagOf(p, mode, hmacKey, buf)
  }

  /** The length of the body whose tag ends `data`. */
  function Verify(p: Prims, mode: AuthMode, hmacKey: Key64, data: Bytes): (r: Option<nat>)
    ensures r.Some? ==> r.value <= |data|
  {
    if |data| < TagLen(mode) then None
    else
      var n := |data| - TagLen(mode);
      if mode.NoAuth? || TagOf(p, mode, hmacKey, data[..n]) == data[n..] then Some(n) else None
  }

  lemma TagVerifies(p: Prims, mode: AuthMode, hmacKey: Key64, buf: Bytes)
    requires Lawful(p)
    ensures |AppendTag(p, mode, hmacKey, buf)| == |buf| + TagLen(mode)
    ensures Verify(p, mode, hmacKey, AppendTag(p, mode, hmacKey, buf)) == Some(|buf|)
    ensures AppendTag(p, mode, hmacKey, buf)[..|buf|] == buf
  {
    var t := TagOf(p, mode, hmacKey, buf);
    assert |t| == TagLen(mode);
    assert (buf + t)[..|buf|] == buf && (buf + t)[|buf|..] == t;
  }

  // ------------------------------------------------------------------ ciphers

  ghost function CipherEncrypt(c: Crypto, buf: Bytes): Option<Bytes> {
    hide CbcEncrypt, CfbEncrypt, Pad16;
    match c.cipher
    case NoCipher => Some(buf)
    case Aead => Some(buf)
    case Xor => Some(XorKey(buf, c.TxKey()))
    case Cbc => Some(CbcEncrypt(c.TxKey(), Pad16(buf), Zeros(16)))
    case Cfb =>
      if |buf| < 16 then None
      else Some(CfbEncrypt(c.TxKey(), if c.cfbLegacy then buf else EcbFirst(c.keys.cipherEncrypt[..16], buf), Start()))
  }

  ghost function CipherDecrypt(c: Crypto, buf: Bytes): Option<Bytes> {
    hide CbcDecrypt, CfbDecrypt, Unpad16;
    match c.cipher
    case NoCipher => Some(buf)
    case Aead => Some(buf)
    case Xor => Some(XorKey(buf, c.RxKey()))
    case Cbc => if |buf| % 16 != 0 then None else Unpad16(CbcDecrypt(c.RxKey(), buf, Zeros(16)))
    case Cfb =>
      if |buf| < 16 then None
      else
        var plain := CfbDecrypt(c.RxKey(), buf, Start());
        Some(if c.cfbLegacy then plain else EcbUnfirst(c.keys.cipherDecrypt[..16], plain))
  }

  /** The first block encrypted on its own. */
  ghost function EcbFirst(key: R.Key, buf: Bytes): (r: Bytes)
    requires |buf| >= 16
    ensures |r| == |buf|
  {
    hide A.Encrypt;
    A.Encrypt(key, buf[..16]) + buf[16..]
  }

  ghost function EcbUnfirst(key: R.Key, buf: Bytes): (r: Bytes)
    requires |buf| >= 16
    ensures |r| == |buf|
  {
    hide A.Decrypt;
    A.Decrypt(key, buf[..16]) + buf[16..]
  }

  lemma EcbInverts(key: R.Key, buf: Bytes)
    requires |buf| >= 16
    ensures EcbUnfirst(key, EcbFirst(key, buf)) == buf
  {
    hide A.Encrypt, A.Decrypt;
    var e: Bytes := A.Encrypt(key, buf[..16]);
    assert (e + buf[16..])[..16] == e && (e + buf[16..])[16..] == buf[16..];
    A.BlocksInvert(key, buf[..16]);
    assert buf[..16] + buf[16..] == buf;
  }

  lemma CipherInverts(c: Crypto, s: Crypto, buf: Bytes)
    requires Peers(c, s)
    ensures CipherEncrypt(c, buf).Some? <==> c.cipher != Cfb || |buf| >= 16
    ensures CipherEncrypt(c, buf).Some? ==> CipherDecrypt(s, CipherEncrypt(c, buf).value) == Some(buf)
  {
    hide CbcEncrypt, CbcDecrypt, CfbEncrypt, CfbDecrypt, EcbFirst, EcbUnfirst, Pad16, Unpad16, XorKey;
    assert c.TxKey() == s.RxKey();
    match c.cipher
    case NoCipher =>
    case Aead =>
    case Xor => XorKeyTwice(buf, c.TxKey());
    case Cbc =>
      var padded := Pad16(buf);
      CbcLength(c.TxKey(), padded, Zeros(16));
      CbcInverts(c.TxKey(), padded, Zeros(16));
      UnpadPad(buf);
    case Cfb =>
      if |buf| >= 16 {
        var x := if c.cfbLegacy then buf else EcbFirst(c.keys.cipherEncrypt[..16], buf);
        CfbInverts(c.TxKey(), x, Start());
        EcbInverts(c.keys.cipherEncrypt[..16], buf);
      }
  }

  // ------------------------------------------------------------------ packets

  ghost function EncryptVec(p: Prims, c: Crypto, nonce: Bytes, buf: Bytes): Option<Bytes> {
    if |buf| > MAX_DATA_LEN then None
    else if c.cipher.Aead? then
      var sealed := p.seal(c.keys.cipherEncrypt[..32], nonce, buf);
      if sealed.Some? then Some(nonce + sealed.value) else None
    else if c.Auth().HmacSha1? then
      var ct := CipherEncrypt(c, buf);
      if ct.Some? then Some(AppendTag(p, HmacSha1, c.keys.hmacEncrypt, ct.value)) else None
    else CipherEncrypt(c, AppendTag(p, c.Auth(), c.keys.hmacEncrypt, buf))
  }

  ghost function DecryptVec(p: Prims, c: Crypto, buf: Bytes): Option<Bytes> {
    if |buf| > MAX_DATA_LEN then None
    else if c.cipher.Aead? then
      if |buf| < NONCE_LEN + AEAD_TAG_LEN then None
      else p.open(c.keys.cipherDecrypt[..32], buf[..NONCE_LEN], buf[NONCE_LEN..])
    else if c.Auth().HmacSha1? then
      var n := Verify(p, HmacSha1, c.keys.hmacDecrypt, buf);
      if n.Some? then CipherDecrypt(c, buf[..n.value]) else None
    else
      var plain := CipherDecrypt(c, buf);
      if plain.None? then None
      else
        var n := Verify(p, c.Auth(), c.keys.hmacDecrypt, plain.value);
        if n.Some? then Some(plain.value[..n.value]) else None
  }

  /** What one role encrypts the other decrypts to the same bytes, for every cipher and tag, exactly when the
      packet fits in the 1800 bytes a receiver looks at. */
  lemma CrossRole(p: Prims, c: Crypto, s: Crypto, nonce: Bytes, data: Bytes)
    requires Lawful(p) && Peers(c, s) && |nonce| == NONCE_LEN && EncryptVec(p, c, nonce, data).Some?
    ensures var w := EncryptVec(p, c, nonce, data).value;
            DecryptVec(p, s, w) == if |w| <= MAX_DATA_LEN then Some(data) else None
  {
    hide CipherEncrypt, CipherDecrypt, AppendTag, Verify, Lawful;
    var w := EncryptVec(p, c, nonce, data).value;
    if c.cipher.Aead? {
      SealedOpens(p, c.keys.cipherEncrypt[..32], nonce, data);
    } else if c.Auth().HmacSha1? {
      CipherInverts(c, s, data);
      TagVerifies(p, HmacSha1, c.keys.hmacEncrypt, CipherEncrypt(c, data).value);
    } else {
      var tagged := AppendTag(p, c.Auth(), c.keys.hmacEncrypt, data);
      CipherInverts(c, s, tagged);
      TagVerifies(p, c.Auth(), s.keys.hmacDecrypt, data);
    }
  }

  lemma SealedOpens(p: Prims, key: Bytes, nonce: Bytes, data: Bytes)
    requires Lawful(p) && |nonce| == NONCE_LEN && p.seal(key, nonce, data).Some?
    ensures var w := nonce + p.seal(key, nonce, data).value;
            && |w| == NONCE_LEN + |data| + AEAD_TAG_LEN
            && p.open(key, w[..NONCE_LEN], w[NONCE_LEN..]) == Some(data)
  {
    var sealed: Bytes := p.seal(key, nonce, data).value;
    assert (nonce + sealed)[..NONCE_LEN] == nonce && (nonce + sealed)[NONCE_LEN..] == sealed;
  }

  /** When encryption succeeds: the data fits, CFB has a whole block, and the AEAD does not refuse. */
  lemma EncryptSucceeds(p: Prims, c: Crypto, nonce: Bytes, data: Bytes)
    requires Lawful(p)
    ensures EncryptVec(p, c, nonce, data).Some? <==>
              && |data| <= MAX_DATA_LEN
              && (c.cipher.Cfb? ==> |data| + (if c.Auth().HmacSha1? then 0 else TagLen(c.Auth())) >= 16)
              && (c.cipher.Aead? ==> p.seal(c.keys.cipherEncrypt[..32], nonce, data).Some?)
  {
    hide CbcEncrypt, CfbEncrypt, EcbFirst, Pad16, XorKey;
    if |data| <= MAX_DATA_LEN { TagVerifies(p, c.Auth(), c.keys.hmacEncrypt, data); }
  }

  /** With a tag under the cipher nothing decrypts unless the plaintext ends with the tag of the rest, which is
      then what comes out; an AEAD packet must open under its first 24 bytes; and nothing over 1800 bytes
      decrypts at all. */
  lemma TagGuards(p: Prims, s: Crypto, w: Bytes)
    requires DecryptVec(p, s, w).Some?
    ensures |w| <= 1800
    ensures s.cipher.Aead? ==> |w| >= 40 && p.open(s.keys.cipherDecrypt[..32], w[..24], w[24..]) == DecryptVec(p, s, w)
    ensures var d := DecryptVec(p, s, w).value;
            !s.cipher.Aead? ==>
              && (s.requestedAuth.Md5? && (forall x :: |p.md5(x)| == 16) ==> CipherDecrypt(s, w) == Some(d + p.md5(d)))
              && (s.requestedAuth.Crc32? && (forall x :: |p.crc32(x)| == 4) ==> CipherDecrypt(s, w) == Some(d + p.crc32(d)))
              && (s.requestedAuth.Simple? && (forall x :: |p.simple(x)| == 8) ==> CipherDecrypt(s, w) == Some(d + p.simple(d)))
              && (s.requestedAuth.NoAuth? ==> CipherDecrypt(s, w) == Some(d))
  {
    hide CipherDecrypt;
    if !s.cipher.Aead? && !s.requestedAuth.HmacSha1? {
      var plain: Bytes := CipherDecrypt(s, w).value;
      var n := |plain| - TagLen(s.requestedAuth);
      assert plain == plain[..n] + plain[n..];
      assert plain[..|plain|] == plain;
    }
  }

  /** In the encrypt-then-MAC mode nothing decrypts unless its last 20 bytes are the HMAC of the rest. */
  lemma HmacGuards(p: Prims, s: Crypto, w: Bytes)
    requires Lawful(p) && s.cipher != Aead && s.requestedAuth.HmacSha1? && DecryptVec(p, s, w).Some?
    ensures exists body: Bytes :: w == body + p.hmac(s.keys.hmacDecrypt[..20], body) && CipherDecrypt(s, body) == DecryptVec(p, s, w)
  {
    hide CipherDecrypt, Lawful;
    var body: Bytes := w[..|w| - 20];
    assert w == body + w[|w| - 20..];
  }
}
