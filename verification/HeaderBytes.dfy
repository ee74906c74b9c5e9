/** The headers byte by byte, as the RFCs draw them. */
module HeaderBytes {
  import opened Machine
  import opened Checksum
  import opened Headers
  import opened Tcp

  /** Two bytes at `i`, most significant first. */
  function Word(b: Bytes, i: nat): nat
    requires i + 2 <= |b|
  {
    var h: int := b[i];
    h * 256 + b[i + 1]
  }

  lemma WordIs(b: Bytes, i: nat, x: U16)
    requires i + 2 <= |b| && b[i] == x / 256 && b[i + 1] == x % 256
    ensures Word(b, i) == x
  {
  }

  /** IPv4 (section 3.1 of RFC 791): version 4 and five words, total length, identification, don't-fragment
      and no offset, time to live, protocol, a checksum that verifies, source and destination. */
  lemma Ip4Layout(src: Octets4, dst: Octets4, protocol: U8, ttl: U8, id: U16, len: nat)
    ensures var h := IpHeader(V4(src), V4(dst), protocol, ttl, id, len);
            && |h| == 20 && h[0] == 0x45 && h[1] == 0 && Word(h, 2) == (20 + len) % 65536 && Word(h, 4) == id
            && h[6] == 0x40 && h[7] == 0 && h[8] == ttl && h[9] == protocol && Csum([], h) == 0
            && h[12..16] == src && h[16..20] == dst
  {
    hide Csum, Word, Sealed;
    var plain := Ip4Plain(src, dst, protocol, ttl, id, len);
    var h := Sealed([], plain, 10);
    assert plain[10] == 0 && plain[11] == 0;
    SealedVerifies([], plain, 10);
    assert h[..10] == plain[..10] && h[12..16] == plain[12..16] && h[16..20] == plain[16..20];
    assert plain[12..16] == src && plain[16..20] == dst;
    WordIs(h, 2, (20 + len) % 65536);
    WordIs(h, 4, id);
  }

  /** IPv6 (section 3 of RFC 8200). */
  lemma Ip6Layout(src: Octets16, dst: Octets16, protocol: U8, ttl: U8, id: U16, len: nat)
    ensures var h := IpHeader(V6(src), V6(dst), protocol, ttl, id, len);
            && |h| == 40 && h[0] == 0x60 && h[1] == 0 && h[2] == 0 && h[3] == 0 && Word(h, 4) == len % 65536
            && h[6] == protocol && h[7] == ttl && h[8..24] == src && h[24..40] == dst
  {
    hide Word;
    var h := IpHeader(V6(src), V6(dst), protocol, ttl, id, len);
    WordIs(h, 4, len % 65536);
  }

  /** The pseudo headers that TCP, UDP and ICMPv6 checksums cover; over IPv6 the length stands in the first two
      of the four bytes meant for it. */
  lemma PseudoLayout(src: IpAddr, dst: IpAddr, protocol: U8, len: nat)
    requires SameFamily(src, dst)
    ensures var b := Pseudo(src, dst, protocol, len);
            && (src.V4? ==> |b| == 12 && b[0..4] == src.octets4 && b[4..8] == dst.octets4 && b[8] == 0 && b[9] == protocol
                            && Word(b, 10) == len % 65536)
            && (src.V6? ==> |b| == 40 && b[0..16] == src.octets6 && b[16..32] == dst.octets6 && Word(b, 32) == len % 65536
                            && b[34] == 0 && b[35] == 0 && b[36] == 0 && b[37] == 0 && b[38] == 0 && b[39] == protocol)
  {
    hide Word;
    var b := Pseudo(src, dst, protocol, len);
    if src.V4? { WordIs(b, 10, len % 65536); } else { WordIs(b, 32, len % 65536); }
  }

  /** TCP (section 3.1 of RFC 9293): ports, numbers, data offset, flags, window, a checksum that verifies, no
      urgent pointer; a SYN offers an MSS of 1460, SACK, timestamps and a window scale of 5, and any other
      segment carries timestamps behind two NOPs. */
  lemma TcpLayout(src: IpAddr, dst: IpAddr, p: Params, payload: Bytes)
    requires SameFamily(src, dst)
    ensures var b, n := Segment(src, dst, p, payload), (if p.syn then 40 else 32);
            && |b| == n + |payload| && Word(b, 0) == p.srcPort && Word(b, 2) == p.dstPort
            && b[4..8] == Be32(p.sequence) && b[8..12] == Be32(p.ackSequence)
            && b[12] == n * 4 && b[13] == (if p.syn then 2 else 0) + (if p.psh then 8 else 0) + (if p.ack then 16 else 0)
            && Word(b, 14) == p.window && b[18] == 0 && b[19] == 0
            && Csum(Pseudo(src, dst, 6, |b|), b) == 0
            && b[20..n] == (if p.syn then [2, 4, 5, 180, 4, 2, 8, 10] + Be32(p.ts) + Be32(p.tsAck) + [1, 3, 3, 5]
                            else [1, 1, 8, 10] + Be32(p.ts) + Be32(p.tsAck))
            && b[n..] == payload
  {
    hide Csum, Pseudo, Word, Sealed, Be32, Fixed, Options;
    var n := if p.syn then 40 else 32;
    var plain := Plain(p, payload);
    var pseudo := Pseudo(src, dst, 6, |plain|);
    var b := Sealed(pseudo, plain, 16);
    assert plain[..20] == Fixed(p) && plain[20..n] == Options(p) && plain[n..] == payload;
    FixedLayout(p);
    OptionsLayout(p);
    assert forall j :: 0 <= j < 20 ==> plain[j] == Fixed(p)[j];
    SealedVerifies(pseudo, plain, 16);
    assert b[..16] == plain[..16] && b[18] == plain[18] && b[19] == plain[19];
    assert b[20..n] == plain[20..n] && b[n..] == plain[n..];
    assert plain[..16] == Fixed(p)[..16];
    assert b[4..8] == plain[..16][4..8] && b[8..12] == plain[..16][8..12];
    WordIs(b, 0, p.srcPort);
    WordIs(b, 2, p.dstPort);
    WordIs(b, 14, p.window);
  }

  lemma OptionsLayout(p: Params)
    ensures Options(p) == (if p.syn then [2, 4, 5, 180, 4, 2, 8, 10] + Be32(p.ts) + Be32(p.tsAck) + [1, 3, 3, 5]
                           else [1, 1, 8, 10] + Be32(p.ts) + Be32(p.tsAck))
  {
    hide Be32;
  }

  lemma FixedLayout(p: Params)
    ensures var f := Fixed(p);
            && f[0] == p.srcPort / 256 && f[1] == p.srcPort % 256 && f[2] == p.dstPort / 256 && f[3] == p.dstPort % 256
            && f[..16][4..8] == Be32(p.sequence) && f[..16][8..12] == Be32(p.ackSequence)
            && f[12] == (if p.syn then 160 else 128) && f[13] == Flags(p) && f[14] == p.window / 256 && f[15] == p.window % 256
            && f[16] == 0 && f[17] == 0 && f[18] == 0 && f[19] == 0
  {
    hide Be32;
    var f := Fixed(p);
    assert f == Be16(p.srcPort) + Be16(p.dstPort) + (Be32(p.sequence) + Be32(p.ackSequence)
                + [HeaderLen(p) / 4 * 16, Flags(p)] + Be16(p.window) + [0, 0, 0, 0]);
    assert f[4..8] == Be32(p.sequence) && f[8..12] == Be32(p.ackSequence);
    assert f[..16][4..8] == f[4..8] && f[..16][8..12] == f[8..12];
  }

  // ------------------------------------------------------------------ what the parsers accept

  /** A UDP segment is accepted exactly when it has a header, its length field is its length, and its checksum
      verifies. */
  lemma UdpAccepted(seg: Bytes, src: IpAddr, dst: IpAddr)
    requires SameFamily(src, dst)
    ensures ParseUdp(seg, src, dst).Some? <==>
              |seg| >= 8 && Word(seg, 4) == |seg| && Csum(Pseudo(src, dst, 17, |seg|), seg) == 0
    ensures ParseUdp(seg, src, dst).Some? ==>
              ParseUdp(seg, src, dst).value.0 == Word(seg, 0) && ParseUdp(seg, src, dst).value.1 == Word(seg, 2)
              && ParseUdp(seg, src, dst).value.2 == seg[8..]
  {
    hide Csum, Pseudo;
  }

  /** An ICMP message is accepted exactly when it is an echo of the other role with code 0 and its checksum
      verifies, over IPv4 without a pseudo header. */
  lemma IcmpAccepted(seg: Bytes, src: IpAddr, dst: IpAddr, isClient: bool)
    requires SameFamily(src, dst)
    ensures var t := if src.V6? then (if isClient then 129 else 128) else (if isClient then 0 else 8);
            ParseIcmp(seg, src, dst, isClient).Some? <==>
              && |seg| >= 8 && seg[0] == t && seg[1] == 0
              && Csum(if src.V6? then Pseudo(src, dst, 58, |seg|) else [], seg) == 0
    ensures ParseIcmp(seg, src, dst, isClient).Some? ==>
              ParseIcmp(seg, src, dst, isClient).value.0 == ParsedIcmp(seg[0], Word(seg, 4), Word(seg, 6))
              && ParseIcmp(seg, src, dst, isClient).value.1 == seg[8..]
  {
    hide Csum, Pseudo;
  }

  /** An IPv4 packet is accepted exactly when version, header length and total length make sense and, if asked,
      its header checksum verifies. */
  lemma Ip4Accepted(buf: Bytes, verifyCsum: bool)
    ensures var r := ParseIp(buf, false, verifyCsum);
            && (r.Some? <==>
                  && |buf| >= 20 && buf[0] / 16 == 4 && 20 <= buf[0] % 16 * 4 <= |buf|
                  && buf[0] % 16 * 4 <= Word(buf, 2) <= |buf|
                  && (verifyCsum ==> Csum([], buf[..buf[0] % 16 * 4]) == 0))
            && (r.Some? ==> r.value == ParsedIp(V4(buf[12..16]), V4(buf[16..20]), buf[9], buf[0] % 16 * 4, Word(buf, 2)))
  {
    hide Csum;
  }

  lemma Ip6Accepted(buf: Bytes, verifyCsum: bool)
    ensures var r := ParseIp(buf, true, verifyCsum);
            && (r.Some? <==> |buf| >= 40 && buf[0] / 16 == 6 && 40 + Word(buf, 4) <= |buf|)
            && (r.Some? ==> r.value == ParsedIp(V6(buf[8..24]), V6(buf[24..40]), buf[6], 40, 40 + Word(buf, 4)))
  {
    hide Csum;
  }

  /** A TCP segment is accepted exactly when it has a header and its data offset is five to fifteen words within
      the segment; the flags, the checksum and the payload are reported as they are. */
  lemma TcpAccepted(seg: Bytes, src: IpAddr, dst: IpAddr)
    requires SameFamily(src, dst)
    ensures var r := Parse(seg, src, dst);
            && (r.Accepted? <==> |seg| >= 20 && 20 <= seg[12] / 16 * 4 <= |seg|)
            && (r.Accepted? ==>
                  var (h, payload) := r.value;
                  && h.srcPort == Word(seg, 0) && h.dstPort == Word(seg, 2) && h.headerLen == seg[12] / 16 * 4
                  && (h.syn <==> seg[13] / 2 % 2 == 1) && (h.rst <==> seg[13] / 4 % 2 == 1)
                  && (h.psh <==> seg[13] / 8 % 2 == 1) && (h.ack <==> seg[13] / 16 % 2 == 1)
                  && (h.csumOk <==> Csum(Pseudo(src, dst, 6, |seg|), seg) == 0) && payload == seg[seg[12] / 16 * 4..])
  {
    hide Csum, Pseudo, Walk;
  }

  /** A foreign option of length two or more, or a NOP, in front of anything is skipped. */
  lemma ForeignSkipped(front: Bytes, kind: U8, body: Bytes, rest: Bytes, t: Stamps)
    requires kind > 1 && kind != 8 && |body| <= 253
    ensures Walk(front + [1] + rest, |front|, t) == Walk(front + [1] + rest, |front| + 1, t)
    ensures var opt := front + ([kind, 2 + |body|] + body) + rest;
            Walk(opt, |front|, t) == Walk(opt, |front| + 2 + |body|, t)
  {
    hide Walk;
    var opt: Bytes := front + ([kind, 2 + |body|] + body) + rest;
    assert opt[|front|] == kind && opt[|front| + 1] == 2 + |body|;
    WalkSkips(opt, |front|, t);
    var nop: Bytes := front + [1] + rest;
    assert nop[|front|] == 1;
    WalkSkips(nop, |front|, t);
  }

  lemma WalkSkips(opt: Bytes, i: nat, t: Stamps)
    requires i < |opt|
    ensures opt[i] == 1 ==> Walk(opt, i, t) == Walk(opt, i + 1, t)
    ensures opt[i] > 1 && opt[i] != 8 && i + 1 < |opt| && opt[i + 1] >= 2 ==> Walk(opt, i, t) == Walk(opt, i + opt[i + 1], t)
  {
    hide StampsAt;
  }

  /** Timestamps are taken; the end, a length below two, or timestamps cut short end the walk. */
  lemma WalkStops(opt: Bytes, i: nat, t: Stamps)
    requires i < |opt|
    ensures opt[i] == 0 ==> Walk(opt, i, t) == t
    ensures opt[i] > 1 && opt[i] != 8 && (i + 1 == |opt| || opt[i + 1] < 2) ==> Walk(opt, i, t) == t
    ensures opt[i] == 8 && (i + 10 > |opt| || opt[i + 1] != 10) ==> Walk(opt, i, t) == t
    ensures opt[i] == 8 && i + 10 <= |opt| && opt[i + 1] == 10 ==> Walk(opt, i, t) == Walk(opt, i + 10, StampsAt(opt, i))
  {
    hide StampsAt;
  }

  lemma StampsRead(opt: Bytes, i: nat)
    requires i + 10 <= |opt|
    ensures var t := StampsAt(opt, i);
            && t.hasTs && t.ts == Word(opt, i + 2) * 65536 + Word(opt, i + 4)
            && t.tsAck == Word(opt, i + 6) * 65536 + Word(opt, i + 8)
  {
  }

  /** Four bytes, most significant first. */
  lemma Be32Layout(x: U32)
    ensures var b := Be32(x); Word(b, 0) * 65536 + Word(b, 2) == x
  {
    hide Word;
    var b := Be32(x);
    WordIs(b, 0, x / 65536);
    WordIs(b, 2, x % 65536);
  }

  /** An IPv4 header without its checksum, from RFC 1071 by way of a common textbook example. */
  function SampleHeader(): Bytes {
    [0x45, 0x00, 0x00, 0x73, 0x00, 0x00, 0x40, 0x00, 0x40, 0x11, 0x00, 0x00, 0xc0, 0xa8, 0x00, 0x01, 0xc0, 0xa8, 0x00, 0xc7]
  }

  /** Two known answers of the Internet checksum, one of an odd length. */
  lemma KnownChecksums()
    ensures Csum([], SampleHeader()) == 0xb861
    ensures Csum([], [1, 2, 3, 4, 5]) == 0xf6f9
  {
    hide Folded, Sum, SampleHeader;
    SampleSum();
    OddSum();
    FoldedLiterals();
  }

  lemma SampleSum()
    ensures Sum(SampleHeader()) == 0x2479c && Sum([]) == 0
  {
    hide Sum, Word;
    var a: Bytes := SampleHeader();
    SampleWords();
    assert a[0..] == a && a[20..] == [];
    SumAt(a, 0);
    SumAt(a, 2);
    SumAt(a, 4);
    SumAt(a, 6);
    SumAt(a, 8);
    SumAt(a, 10);
    SumAt(a, 12);
    SumAt(a, 14);
    SumAt(a, 16);
    SumAt(a, 18);
    SumNone();
  }

  lemma SumNone()
    ensures Sum([]) == 0
  {
  }

  lemma SampleWords()
    ensures var a := SampleHeader();
            && Word(a, 0) == 0x4500 && Word(a, 2) == 0x73 && Word(a, 4) == 0 && Word(a, 6) == 0x4000 && Word(a, 8) == 0x4011
            && Word(a, 10) == 0 && Word(a, 12) == 0xc0a8 && Word(a, 14) == 1 && Word(a, 16) == 0xc0a8 && Word(a, 18) == 0xc7
  {
  }

  lemma OddSum()
    ensures Sum([1, 2, 3, 4, 5]) == 0x906
  {
    var b: Bytes := [1, 2, 3, 4, 5];
    assert b[2..] == [3, 4, 5] && [3, 4, 5][2..] == [5];
    assert Sum([5]) == 0x500;
    assert Sum([3, 4, 5]) == 0x804;
  }

  lemma FoldedLiterals()
    ensures Folded(0x2479c) == 0x479e && Folded(0x906) == 0x906
  {
  }

  lemma SumAt(b: Bytes, i: nat)
    requires i + 2 <= |b|
    ensures Sum(b[i..]) == Word(b, i) + Sum(b[i + 2..])
  {
    assert b[i..][2..] == b[i + 2..];
  }
}
