/** Length-prefixed packets whose heads are masked, so that a merged burst can be split again. */
module Gro {
  import opened Machine
  import opened BlockModes
  import opened PacketCrypto
  import GF = GaloisField
  import A = AesObject
  import T = AesTables

  predicate IsAes(c: Crypto) {
    c.cipher.Cbc? || c.cipher.Cfb?
  }

  // ------------------------------------------------------------------ lengths

  function ValueOf(b: bv8): (n: nat)
    ensures n < 256
  {
    b as int
  }

  function ByteOf(n: nat): (b: bv8)
    requires n < 256
    ensures ValueOf(b) == n
  {
    T.Bytes(n);
    n as bv8
  }

  function WriteU16(n: nat): (r: Bytes)
    ensures |r| == 2
  {
    [ByteOf(n / 256 % 256), ByteOf(n % 256)]
  }

  function ReadU16(b: Bytes): (r: nat)
    requires |b| >= 2
  {
    ValueOf(b[0]) * 256 + ValueOf(b[1])
  }

  lemma LengthReads(n: nat, rest: Bytes)
    requires n < 65536
    ensures ReadU16(WriteU16(n) + rest) == n
  {
    hide ValueOf, ByteOf;
    var b := WriteU16(n) + rest;
    assert b[0] == ByteOf(n / 256 % 256) && b[1] == ByteOf(n % 256);
  }

  // ------------------------------------------------------------------ masking the head

  function MaskTwo(c: Crypto, b: Bytes): (r: Bytes)
    requires |b| >= 2
    ensures |r| == |b|
  {
    [GF.Add(b[0], c.keys.groXor[0]), GF.Add(b[1], c.keys.groXor[1])] + b[2..]
  }

  ghost function Obfuscate(c: Crypto, b: Bytes): (r: Bytes)
    requires |b| >= 2 && (IsAes(c) ==> |b| >= 16)
    ensures |r| == |b|
  {
    hide EcbFirst;
    if c.cipher.NoCipher? then b
    else if IsAes(c) then EcbFirst(c.keys.cipherEncrypt[..16], b)
    else MaskTwo(c, b)
  }

  ghost function Deobfuscate(c: Crypto, b: Bytes): (r: Bytes)
    requires |b| >= 16
    ensures |r| == |b|
  {
    hide EcbUnfirst;
    if c.cipher.NoCipher? then b
    else if IsAes(c) then EcbUnfirst(c.keys.cipherDecrypt[..16], b)
    else MaskTwo(c, b)
  }

  lemma MaskTwice(c: Crypto, s: Crypto, b: Bytes)
    requires |b| >= 2 && c.keys.groXor == s.keys.groXor
    ensures MaskTwo(s, MaskTwo(c, b)) == b
  {
    hide GF.Add;
    XorTwice(b[0], c.keys.groXor[0]);
    XorTwice(b[1], c.keys.groXor[1]);
    assert MaskTwo(c, b)[2..] == b[2..];
    assert b == [b[0], b[1]] + b[2..];
  }

  /** Unmasking looks at the first sixteen bytes only. */
  lemma HeadUnmasks(c: Crypto, s: Crypto, b: Bytes)
    requires Peers(c, s) && |b| >= 16
    ensures Deobfuscate(s, Obfuscate(c, b)[..16]) + Obfuscate(c, b)[16..] == b
  {
    hide EcbFirst, EcbUnfirst, MaskTwo;
    var o: Bytes := Obfuscate(c, b);
    if c.cipher.NoCipher? {
      assert b[..16] + b[16..] == b;
    } else if IsAes(c) {
      EcbInverts(c.keys.cipherEncrypt[..16], b);
      EcbLocal(s.keys.cipherDecrypt[..16], o);
    } else {
      MaskTwice(c, s, b);
      MaskLocal(s, o);
    }
  }

  lemma EcbLocal(key: A.Block, o: Bytes)
    requires |o| >= 16
    ensures EcbUnfirst(key, o[..16]) + o[16..] == EcbUnfirst(key, o)
  {
    hide A.Decrypt;
    assert o[..16][..16] == o[..16] && o[..16][16..] == [];
  }

  lemma MaskLocal(s: Crypto, o: Bytes)
    requires |o| >= 16
    ensures MaskTwo(s, o[..16]) + o[16..] == MaskTwo(s, o)
  {
    hide GF.Add;
    assert o[..16][2..] + o[16..] == o[2..];
  }

  // ------------------------------------------------------------------ wrapping and unwrapping

  ghost function Wrap(c: Crypto, packet: Bytes): Bytes {
    var b := WriteU16(|packet|) + packet;
    if |b| >= 16 || !IsAes(c) then Obfuscate(c, b) else b
  }

  /** The bytes and the spans when splitting has reached position `pos`. */
  ghost function Unwrap(s: Crypto, buf: Bytes, pos: nat): (Bytes, seq<(nat, nat)>)
    requires pos <= |buf|
    decreases |buf| - pos
  {
    hide Deobfuscate;
    if |buf| - pos < 16 then (buf, [])
    else
      var b := buf[..pos] + Deobfuscate(s, buf[pos..pos + 16]) + buf[pos + 16..];
      var n := ReadU16(b[pos..]);
      if n > |buf| - pos - 2 || n > MAX_DATA_LEN then (b, [])
      else
        var (r, spans) := Unwrap(s, b, pos + 2 + n);
        (r, [(pos + 2, n)] + spans)
  }

  /** One turn of the splitting loop. */
  lemma UnwrapTurn(s: Crypto, buf: Bytes, pos: nat, b: Bytes, out: seq<(nat, nat)>)
    requires pos + 16 <= |buf| && b == buf[..pos] + Deobfuscate(s, buf[pos..pos + 16]) + buf[pos + 16..]
    ensures var n := ReadU16(b[pos..]);
            if n > |buf| - pos - 2 || n > MAX_DATA_LEN then Unwrap(s, buf, pos) == (b, []) && out + [] == out
            else
              var (r, spans) := Unwrap(s, b, pos + 2 + n);
              Unwrap(s, buf, pos).0 == r && out + Unwrap(s, buf, pos).1 == (out + [(pos + 2, n)]) + spans
  {
    hide Deobfuscate, ReadU16;
  }

  lemma UnwrapEnd(s: Crypto, buf: Bytes, pos: nat, out: seq<(nat, nat)>)
    requires pos <= |buf| < pos + 16
    ensures Unwrap(s, buf, pos) == (buf, []) && out + [] == out
  {
  }

  ghost predicate InOrder(spans: seq<(nat, nat)>, pos: nat, end: nat) {
    && (forall k :: 0 <= k < |spans| ==> pos + 2 <= spans[k].0 && spans[k].0 + spans[k].1 <= end && spans[k].1 <= MAX_DATA_LEN)
    && (forall j, k :: 0 <= j < k < |spans| ==> spans[j].0 + spans[j].1 + 2 <= spans[k].0)
  }

  /** On any bytes at all the spans are in bounds, in order and disjoint, and what lies before is untouched. */
  lemma {:induction false} SpansInBounds(s: Crypto, buf: Bytes, pos: nat)
    requires pos <= |buf|
    ensures var (r, spans) := Unwrap(s, buf, pos);
            |r| == |buf| && r[..pos] == buf[..pos] && InOrder(spans, pos, |buf|)
    decreases |buf| - pos
  {
    hide Deobfuscate, ReadU16;
    if |buf| - pos >= 16 {
      var b: Bytes := buf[..pos] + Deobfuscate(s, buf[pos..pos + 16]) + buf[pos + 16..];
      var n := ReadU16(b[pos..]);
      assert b[..pos] == buf[..pos];
      if n <= |buf| - pos - 2 && n <= MAX_DATA_LEN {
        SpansInBounds(s, b, pos + 2 + n);
        var (r, spans) := Unwrap(s, b, pos + 2 + n);
        assert r[..pos] == r[..pos + 2 + n][..pos];
        assert b[..pos] == b[..pos + 2 + n][..pos];
        Consed(spans, pos, n, |buf|);
      }
    }
  }

  lemma Consed(spans: seq<(nat, nat)>, pos: nat, n: nat, end: nat)
    requires InOrder(spans, pos + 2 + n, end) && pos + 2 + n <= end && n <= MAX_DATA_LEN
    ensures InOrder([(pos + 2, n)] + spans, pos, end)
  {
  }

  // ------------------------------------------------------------------ bursts

  ghost function Burst(c: Crypto, packets: seq<Bytes>): Bytes {
    if packets == [] then [] else Wrap(c, packets[0]) + Burst(c, packets[1..])
  }

  /** The packets with their lengths in the clear. */
  function Clear(packets: seq<Bytes>): Bytes {
    if packets == [] then [] else WriteU16(|packets[0]|) + packets[0] + Clear(packets[1..])
  }

  function SpansOf(packets: seq<Bytes>, pos: nat): seq<(nat, nat)> {
    if packets == [] then [] else [(pos + 2, |packets[0]|)] + SpansOf(packets[1..], pos + 2 + |packets[0]|)
  }

  predicate Splittable(packets: seq<Bytes>) {
    forall i :: 0 <= i < |packets| ==> 14 <= |packets[i]| <= MAX_DATA_LEN
  }

  lemma HeadOfBurst(c: Crypto, s: Crypto, front: Bytes, e: Bytes, rest: Bytes)
    requires Peers(c, s) && 14 <= |e| <= MAX_DATA_LEN
    ensures var buf, pos := front + (Wrap(c, e) + rest), |front|;
            && |buf| - pos >= 16
            && buf[..pos] + Deobfuscate(s, buf[pos..pos + 16]) + buf[pos + 16..] == front + (WriteU16(|e|) + e) + rest
  {
    hide Obfuscate, Deobfuscate, WriteU16;
    var b: Bytes := WriteU16(|e|) + e;
    var o: Bytes := Obfuscate(c, b);
    HeadUnmasks(c, s, b);
    var buf: Bytes := front + (o + rest);
    Slices(front, o, rest);
    assert Deobfuscate(s, o[..16]) + (o[16..] + rest) == b + rest;
    assert front + (b + rest) == front + b + rest;
    assert front + Deobfuscate(s, o[..16]) + (o[16..] + rest) == front + (b + rest);
  }

  lemma Slices(front: Bytes, o: Bytes, rest: Bytes)
    requires |o| >= 16
    ensures var buf, pos := front + (o + rest), |front|;
            buf[..pos] == front && buf[pos..pos + 16] == o[..16] && buf[pos + 16..] == o[16..] + rest
  {
  }

  /** A merged burst comes apart into exactly the packets that went in, each where its span says. */
  lemma {:induction false} BurstUnwraps(c: Crypto, s: Crypto, front: Bytes, packets: seq<Bytes>)
    requires Peers(c, s) && Splittable(packets)
    ensures Unwrap(s, front + Burst(c, packets), |front|) == (front + Clear(packets), SpansOf(packets, |front|))
    decreases |packets|
  {
    hide Deobfuscate, Wrap, ReadU16, WriteU16;
    if packets == [] {
      assert front + Burst(c, packets) == front;
    } else {
      var e, rest := packets[0], packets[1..];
      var buf: Bytes := front + Burst(c, packets);
      var pos := |front|;
      HeadOfBurst(c, s, front, e, Burst(c, rest));
      var front': Bytes := front + (WriteU16(|e|) + e);
      var b: Bytes := front' + Burst(c, rest);
      assert b[pos..] == WriteU16(|e|) + (e + Burst(c, rest));
      LengthReads(|e|, e + Burst(c, rest));
      BurstUnwraps(c, s, front', rest);
      assert front' + Clear(rest) == front + Clear(packets);
    }
  }

  /** Each span of an unwrapped burst holds its packet. */
  lemma {:induction false} SpanHolds(packets: seq<Bytes>, front: Bytes, k: nat)
    requires k < |packets|
    ensures |SpansOf(packets, |front|)| == |packets|
    ensures var (off, n) := SpansOf(packets, |front|)[k];
            off + n <= |front + Clear(packets)| && (front + Clear(packets))[off..off + n] == packets[k]
    decreases |packets|
  {
    hide WriteU16;
    var e, rest := packets[0], packets[1..];
    var front': Bytes := front + (WriteU16(|e|) + e);
    assert front' + Clear(rest) == front + Clear(packets);
    if k == 0 {
      assert front'[|front| + 2..] == e;
      assert (front' + Clear(rest))[|front| + 2..|front| + 2 + |e|] == e;
      SpanCount(rest, |front'|);
    } else {
      SpanHolds(rest, front', k - 1);
    }
  }

  lemma {:induction false} SpanCount(packets: seq<Bytes>, pos: nat)
    ensures |SpansOf(packets, pos)| == |packets|
  {
    if packets != [] { SpanCount(packets[1..], pos + 2 + |packets[0]|); }
  }

  /** The receiver recovers the packets of a merged burst, in order and complete. */
  lemma BurstSplits(c: Crypto, s: Crypto, packets: seq<Bytes>)
    requires Peers(c, s) && Splittable(packets)
    ensures var (r, spans) := Unwrap(s, Burst(c, packets), 0);
            && |spans| == |packets|
            && (forall k :: 0 <= k < |packets| ==>
                  spans[k].0 + spans[k].1 <= |r| && r[spans[k].0..spans[k].0 + spans[k].1] == packets[k])
  {
    hide Unwrap, Burst, Clear, SpansOf;
    BurstUnwraps(c, s, [], packets);
    assert [] + Burst(c, packets) == Burst(c, packets);
    SpanCount(packets, 0);
    forall k | 0 <= k < |packets|
      ensures var (off, n) := SpansOf(packets, 0)[k];
              off + n <= |[] + Clear(packets)| && ([] + Clear(packets))[off..off + n] == packets[k]
    {
      SpanHolds(packets, [], k);
    }
  }

  /** Whatever follows a burst, a later packet cut short or garbage, the packets of the burst are recovered. */
  lemma {:induction false} BurstSurvives(c: Crypto, s: Crypto, front: Bytes, packets: seq<Bytes>, tail: Bytes)
    requires Peers(c, s) && Splittable(packets)
    ensures var (r, spans) := Unwrap(s, front + (Burst(c, packets) + tail), |front|);
            front + Clear(packets) <= r && SpansOf(packets, |front|) <= spans
    decreases |packets|
  {
    hide Deobfuscate, Wrap, ReadU16, WriteU16;
    if packets == [] {
      assert front + ([] + tail) == front + tail;
      SpansInBounds(s, front + tail, |front|);
      var r: Bytes := Unwrap(s, front + tail, |front|).0;
      assert r == r[..|front|] + r[|front|..] && (front + tail)[..|front|] == front;
    } else {
      var e, rest := packets[0], packets[1..];
      var after: Bytes := Burst(c, rest) + tail;
      assert Burst(c, packets) + tail == Wrap(c, e) + after;
      var buf: Bytes := front + (Wrap(c, e) + after);
      var pos := |front|;
      HeadOfBurst(c, s, front, e, after);
      var front': Bytes := front + (WriteU16(|e|) + e);
      var b: Bytes := front' + after;
      assert b[pos..] == WriteU16(|e|) + (e + after);
      LengthReads(|e|, e + after);
      BurstSurvives(c, s, front', rest, tail);
      assert front' + Clear(rest) == front + Clear(packets);
    }
  }

  /** A packet shorter than 14 bytes is lost on its own, whatever the cipher. */
  lemma ShortPacketLost(c: Crypto, s: Crypto, packet: Bytes)
    requires |packet| < 14
    ensures Unwrap(s, Wrap(c, packet), 0) == (Wrap(c, packet), [])
  {
    hide Obfuscate, Deobfuscate;
    assert |Wrap(c, packet)| < 16;
  }
}
