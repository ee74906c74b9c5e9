/** Safer packets end to end: header, encryption, masking, merging on the way, and all of it back. */
module Safer {
  import opened Machine
  import Arith
  import opened BlockModes
  import opened PacketCrypto
  import opened Gro

  const TYPE_HEARTBEAT: bv8 := 0x68
  const TYPE_DATA: bv8 := 0x64
  const SAFER_HEADER_LEN: nat := 18

  datatype Header = Header(my: U32, opp: U32, sequence: U64, ptype: bv8, roller: bv8)

  // ------------------------------------------------------------------ big-endian numbers

  function Pow256(k: nat): nat {
    if k == 0 then 1 else 256 * Pow256(k - 1)
  }

  function WriteBe(n: nat, k: nat): (r: Bytes)
    ensures |r| == k
  {
    if k == 0 then [] else WriteBe(n / 256, k - 1) + [ByteOf(n % 256)]
  }

  function ReadBe(b: Bytes): (n: nat)
    ensures n < Pow256(|b|)
  {
    if b == [] then 0 else ReadBe(b[..|b| - 1]) * 256 + ValueOf(b[|b| - 1])
  }

  lemma {:induction false} ReadWritten(n: nat, k: nat)
    requires n < Pow256(k)
    ensures ReadBe(WriteBe(n, k)) == n
  {
    hide ValueOf, ByteOf;
    if k > 0 {
      Arith.QuotientBelow(n, 256, Pow256(k - 1));
      ReadWritten(n / 256, k - 1);
      ReadLast(WriteBe(n / 256, k - 1), n % 256);
    }
  }

  lemma ReadLast(front: Bytes, b: nat)
    requires b < 256
    ensures ReadBe(front + [ByteOf(b)]) == ReadBe(front) * 256 + b
  {
    hide ValueOf, ByteOf;
    assert (front + [ByteOf(b)])[..|front|] == front;
  }

  lemma Widths()
    ensures Pow256(4) == U32_MAX + 1 && Pow256(8) == U64_MAX + 1
  {
    assert Pow256(2) == 0x10000 && Pow256(4) == 256 * 256 * Pow256(2);
    assert Pow256(6) == 256 * 256 * Pow256(4);
  }

  // ------------------------------------------------------------------ the header

  function Build(h: Header, payload: Bytes): (r: Bytes)
    ensures |r| == SAFER_HEADER_LEN + |payload|
  {
    WriteBe(h.my, 4) + WriteBe(h.opp, 4) + WriteBe(h.sequence, 8) + [h.ptype, h.roller] + payload
  }

  function ParseIds(plain: Bytes): Option<(nat, nat, nat)> {
    if |plain| < 16 then None else Some((ReadBe(plain[..4]), ReadBe(plain[4..8]), ReadBe(plain[8..16])))
  }

  function ParseBody(plain: Bytes): Option<(bv8, bv8, Bytes)> {
    if |plain| < SAFER_HEADER_LEN || (plain[16] != TYPE_HEARTBEAT && plain[16] != TYPE_DATA) then None
    else Some((plain[16], plain[17], plain[SAFER_HEADER_LEN..]))
  }

  /** The receiver reads the sender's id first, its own second, then number, type, roller and payload; a
      packet of another type has ids but no body. */
  lemma HeaderReads(h: Header, payload: Bytes)
    ensures ParseIds(Build(h, payload)) == Some((h.my, h.opp, h.sequence))
    ensures ParseBody(Build(h, payload)) ==
              if h.ptype == TYPE_HEARTBEAT || h.ptype == TYPE_DATA then Some((h.ptype, h.roller, payload)) else None
  {
    hide WriteBe, ReadBe, Pow256;
    var p: Bytes := Build(h, payload);
    Widths();
    ReadWritten(h.my, 4);
    ReadWritten(h.opp, 4);
    ReadWritten(h.sequence, 8);
    assert p[..4] == WriteBe(h.my, 4) && p[4..8] == WriteBe(h.opp, 4) && p[8..16] == WriteBe(h.sequence, 8);
    assert p[SAFER_HEADER_LEN..] == payload;
  }

  // ------------------------------------------------------------------ sending and receiving

  ghost function EncryptSafer(p: Prims, c: Crypto, nonce: Bytes, plain: Bytes, fixGro: bool): Option<Bytes> {
    hide EncryptVec, Wrap;
    var w := EncryptVec(p, c, nonce, plain);
    if w.None? then None else Some(if fixGro then Wrap(c, w.value) else w.value)
  }

  predicate Inside(spans: seq<(nat, nat)>, n: nat) {
    forall k :: 0 <= k < |spans| ==> spans[k].0 + spans[k].1 <= n
  }

  /** The plaintexts of the spans that decrypt, in order. */
  ghost function DecryptParts(p: Prims, s: Crypto, data: Bytes, spans: seq<(nat, nat)>): seq<Bytes>
    requires Inside(spans, |data|)
  {
    hide DecryptVec;
    if spans == [] then []
    else
      var d := DecryptVec(p, s, data[spans[0].0..spans[0].0 + spans[0].1]);
      (if d.Some? then [d.value] else []) + DecryptParts(p, s, data, spans[1..])
  }

  ghost function DecryptSafer(p: Prims, s: Crypto, wire: Bytes, fixGro: bool): seq<Bytes> {
    hide DecryptVec, Unwrap;
    if !fixGro then
      var d := DecryptVec(p, s, wire);
      if d.Some? then [d.value] else []
    else
      SpansInBounds(s, wire, 0);
      var (data, spans) := Unwrap(s, wire, 0);
      DecryptParts(p, s, data, spans)
  }

  lemma {:induction false} CbcGrows(c: Crypto, buf: Bytes)
    requires c.cipher.Cbc?
    ensures |CipherEncrypt(c, buf).value| == PaddedLength(|buf|)
  {
    hide CbcEncrypt, Pad16;
    CbcLength(c.TxKey(), Pad16(buf), Zeros(16));
  }

  /** Encryption never shortens a packet. */
  lemma EncryptGrows(p: Prims, c: Crypto, nonce: Bytes, data: Bytes)
    requires Lawful(p) && EncryptVec(p, c, nonce, data).Some?
    ensures |EncryptVec(p, c, nonce, data).value| >= |data|
  {
    hide CbcEncrypt, CfbEncrypt, EcbFirst, XorKey, Pad16;
    if c.cipher.Cbc? {
      CbcGrows(c, data);
      CbcGrows(c, AppendTag(p, c.Auth(), c.keys.hmacEncrypt, data));
    }
  }

  /** A packet that travels alone arrives as it was sent. */
  lemma PacketDelivers(p: Prims, c: Crypto, s: Crypto, nonce: Bytes, h: Header, payload: Bytes)
    requires Lawful(p) && Peers(c, s) && |nonce| == NONCE_LEN
    ensures var w := EncryptSafer(p, c, nonce, Build(h, payload), false);
            w.Some? && |w.value| <= MAX_DATA_LEN ==> DecryptSafer(p, s, w.value, false) == [Build(h, payload)]
  {
    hide EncryptVec, DecryptVec, Build, Lawful;
    if EncryptVec(p, c, nonce, Build(h, payload)).Some? { CrossRole(p, c, s, nonce, Build(h, payload)); }
  }

  /** `ws` are the encryptions of `plains`, none longer than a receiver looks at. */
  ghost predicate Encrypts(p: Prims, c: Crypto, nonces: seq<Bytes>, plains: seq<Bytes>, ws: seq<Bytes>) {
    && |nonces| == |plains| == |ws|
    && (forall i :: 0 <= i < |ws| ==>
          |nonces[i]| == NONCE_LEN && EncryptVec(p, c, nonces[i], plains[i]) == Some(ws[i]) && |ws[i]| <= MAX_DATA_LEN)
  }

  lemma {:induction false} SpansInside(ws: seq<Bytes>, pos: nat)
    ensures Inside(SpansOf(ws, pos), pos + |Clear(ws)|)
  {
    hide WriteU16;
    if ws != [] { SpansInside(ws[1..], pos + 2 + |ws[0]|); }
  }

  lemma {:induction false} PartsDecrypt(p: Prims, c: Crypto, s: Crypto, nonces: seq<Bytes>, plains: seq<Bytes>, ws: seq<Bytes>, front: Bytes)
    requires Lawful(p) && Peers(c, s) && Encrypts(p, c, nonces, plains, ws)
    ensures Inside(SpansOf(ws, |front|), |front + Clear(ws)|)
    ensures DecryptParts(p, s, front + Clear(ws), SpansOf(ws, |front|)) == plains
    decreases |ws|
  {
    hide EncryptVec, DecryptVec, WriteU16, Lawful, Inside, Peers;
    SpansInside(ws, |front|);
    if ws != [] {
      CrossRole(p, c, s, nonces[0], plains[0]);
      SpanHolds(ws, front, 0);
      var front': Bytes := front + (WriteU16(|ws[0]|) + ws[0]);
      assert front' + Clear(ws[1..]) == front + Clear(ws);
      assert SpansOf(ws, |front|)[1..] == SpansOf(ws[1..], |front'|);
      PartsDecrypt(p, c, s, nonces[1..], plains[1..], ws[1..], front');
    }
  }

  /** One turn of the loop over the spans. */
  lemma PartsTurn(p: Prims, s: Crypto, data: Bytes, spans: seq<(nat, nat)>, i: nat, out: seq<Bytes>)
    requires Inside(spans, |data|) && i < |spans|
    ensures Inside(spans[i..], |data|) && Inside(spans[i + 1..], |data|)
    ensures var d := DecryptVec(p, s, data[spans[i].0..spans[i].0 + spans[i].1]);
            out + DecryptParts(p, s, data, spans[i..]) ==
              (if d.Some? then out + [d.value] else out) + DecryptParts(p, s, data, spans[i + 1..])
  {
    hide DecryptVec;
    assert spans[i..][1..] == spans[i + 1..];
  }

  /** A burst of safer packets, encrypted and wrapped by one role and merged on the way, is split and decrypted
      by the other role into exactly those packets, in order: nothing lost, nothing added. */
  lemma BurstDelivers(p: Prims, c: Crypto, s: Crypto, nonces: seq<Bytes>, hs: seq<Header>, payloads: seq<Bytes>, ws: seq<Bytes>)
    requires Lawful(p) && Peers(c, s) && |hs| == |payloads|
    requires Encrypts(p, c, nonces, seq(|hs|, i requires 0 <= i < |hs| => Build(hs[i], payloads[i])), ws)
    ensures DecryptSafer(p, s, Burst(c, ws), true) == seq(|hs|, i requires 0 <= i < |hs| => Build(hs[i], payloads[i]))
  {
    hide EncryptVec, DecryptVec, Build, Lawful, Unwrap, Burst;
    var plains := seq(|hs|, i requires 0 <= i < |hs| => Build(hs[i], payloads[i]));
    forall i | 0 <= i < |ws| ensures 14 <= |ws[i]| <= MAX_DATA_LEN {
      EncryptGrows(p, c, nonces[i], plains[i]);
      assert plains[i] == Build(hs[i], payloads[i]);
    }
    BurstUnwraps(c, s, [], ws);
    assert [] + Burst(c, ws) == Burst(c, ws);
    SpansInBounds(s, Burst(c, ws), 0);
    PartsDecrypt(p, c, s, nonces, plains, ws, []);
  }
}
