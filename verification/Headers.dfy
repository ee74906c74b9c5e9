/** IP, UDP, ICMP and TCP headers: what is built parses back. */
module Headers {
  import opened Machine
  import opened Checksum

  type Octets4 = o: Bytes | |o| == 4 witness [0, 0, 0, 0]
  type Octets16 = o: Bytes | |o| == 16 witness [0, 0, 0, 0, 0, 0, 0, 0, 0, 0, 0, 0, 0, 0, 0, 0]

  datatype IpAddr = V4(octets4: Octets4) | V6(octets6: Octets16)

  const IPPROTO_TCP: U8 := 6
  const IPPROTO_UDP: U8 := 17
  const IPPROTO_ICMPV6: U8 := 58

  function Be32(x: U32): (r: Bytes)
    ensures |r| == 4
  {
    Be16(x / 65536) + Be16(x % 65536)
  }

  function WordOf32(a: U8, b: U8, c: U8, d: U8): U32 {
    var h: int, l: int := WordOf(a, b), WordOf(c, d);
    h * 65536 + l
  }

  lemma Be16Reads(x: U16)
    ensures WordOf(Be16(x)[0], Be16(x)[1]) == x
  {
    WordParts(x);
  }

  lemma Be32Reads(x: U32)
    ensures var b := Be32(x); WordOf32(b[0], b[1], b[2], b[3]) == x
  {
    WordParts(x / 65536);
    WordParts(x % 65536);
  }

  predicate SameFamily(src: IpAddr, dst: IpAddr) {
    src.V4? == dst.V4?
  }

  /** The pseudo header; over IPv6 the length sits in the first two bytes of its four-byte field. */
  function Pseudo(src: IpAddr, dst: IpAddr, protocol: U8, len: nat): (r: Bytes)
    requires SameFamily(src, dst)
    ensures |r| == if src.V4? then 12 else 40
  {
    var n := len % 65536;
    if src.V4? then src.octets4 + dst.octets4 + [0, protocol, n / 256, n % 256]
    else src.octets6 + dst.octets6 + [n / 256, n % 256, 0, 0, 0, 0, 0, protocol]
  }

  /** A zero checksum field at `k` filled in. */
  function Sealed(pseudo: Bytes, plain: Bytes, k: nat): (r: Bytes)
    requires k + 2 <= |plain|
    ensures |r| == |plain|
  {
    Overwrite(plain, k, Be16(Csum(pseudo, plain)))
  }

  lemma SealedVerifies(pseudo: Bytes, plain: Bytes, k: nat)
    requires k % 2 == 0 && k + 2 <= |plain| && plain[k] == 0 && plain[k + 1] == 0
    ensures Csum(pseudo, Sealed(pseudo, plain, k)) == 0
    ensures forall j :: 0 <= j < |plain| && j != k && j != k + 1 ==> Sealed(pseudo, plain, k)[j] == plain[j]
  {
    WrittenVerifies(pseudo, plain, k);
  }

  // ------------------------------------------------------------------ UDP

  const UDP_HEADER_LEN: nat := 8

  function UdpPlain(srcPort: U16, dstPort: U16, payload: Bytes): (r: Bytes)
    requires UDP_HEADER_LEN + |payload| <= 65535
    ensures |r| == UDP_HEADER_LEN + |payload|
  {
    Be16(srcPort) + Be16(dstPort) + Be16(UDP_HEADER_LEN + |payload|) + [0, 0] + payload
  }

  function UdpSegment(src: IpAddr, dst: IpAddr, srcPort: U16, dstPort: U16, payload: Bytes): Option<Bytes>
    requires SameFamily(src, dst)
  {
    if UDP_HEADER_LEN + |payload| > 65535 then None
    else
      var plain := UdpPlain(srcPort, dstPort, payload);
      Some(Sealed(Pseudo(src, dst, IPPROTO_UDP, |plain|), plain, 6))
  }

  function ParseUdp(seg: Bytes, src: IpAddr, dst: IpAddr): Option<(U16, U16, Bytes)>
    requires SameFamily(src, dst)
  {
    if |seg| < UDP_HEADER_LEN then None
    else if WordOf(seg[4], seg[5]) != |seg| then None
    else if Csum(Pseudo(src, dst, IPPROTO_UDP, |seg|), seg) != 0 then None
    else Some((WordOf(seg[0], seg[1]), WordOf(seg[2], seg[3]), seg[UDP_HEADER_LEN..]))
  }

  lemma UdpRoundTrip(src: IpAddr, dst: IpAddr, srcPort: U16, dstPort: U16, payload: Bytes)
    requires SameFamily(src, dst)
    ensures UdpSegment(src, dst, srcPort, dstPort, payload).Some? <==> UDP_HEADER_LEN + |payload| <= 65535
    ensures UdpSegment(src, dst, srcPort, dstPort, payload).Some? ==>
              ParseUdp(UdpSegment(src, dst, srcPort, dstPort, payload).value, src, dst) == Some((srcPort, dstPort, payload))
  {
    hide Csum, Pseudo, WordOf, Sealed;
    if UDP_HEADER_LEN + |payload| <= 65535 {
      var plain := UdpPlain(srcPort, dstPort, payload);
      var pseudo := Pseudo(src, dst, IPPROTO_UDP, |plain|);
      var seg := Sealed(pseudo, plain, 6);
      assert plain[6] == 0 && plain[7] == 0;
      SealedVerifies(pseudo, plain, 6);
      Be16Reads(srcPort);
      Be16Reads(dstPort);
      Be16Reads(|plain|);
      assert seg[UDP_HEADER_LEN..] == payload;
    }
  }

  // ------------------------------------------------------------------ ICMP echo

  const ICMP_HEADER_LEN: nat := 8

  function EchoType(isV6: bool, isClient: bool): U8 {
    if isV6 then (if isClient then 128 else 129) else (if isClient then 8 else 0)
  }

  function IcmpPlain(isV6: bool, isClient: bool, id: U16, sequence: U16, payload: Bytes): (r: Bytes)
    ensures |r| == ICMP_HEADER_LEN + |payload|
  {
    [EchoType(isV6, isClient), 0, 0, 0] + Be16(id) + Be16(sequence) + payload
  }

  /** Over IPv4 the checksum covers the message alone. */
  function IcmpPseudo(src: IpAddr, dst: IpAddr, len: nat): (r: Bytes)
    requires SameFamily(src, dst)
    ensures |r| == if src.V6? then 40 else 0
  {
    if src.V6? then Pseudo(src, dst, IPPROTO_ICMPV6, len) else []
  }

  function IcmpMessage(src: IpAddr, dst: IpAddr, isClient: bool, id: U16, sequence: U16, payload: Bytes): Bytes
    requires SameFamily(src, dst)
  {
    var plain := IcmpPlain(src.V6?, isClient, id, sequence, payload);
    Sealed(IcmpPseudo(src, dst, |plain|), plain, 2)
  }

  datatype ParsedIcmp = ParsedIcmp(ptype: U8, id: U16, sequence: U16)

  function ParseIcmp(seg: Bytes, src: IpAddr, dst: IpAddr, isClient: bool): Option<(ParsedIcmp, Bytes)>
    requires SameFamily(src, dst)
  {
    if |seg| < ICMP_HEADER_LEN || seg[1] != 0 || seg[0] != EchoType(src.V6?, !isClient) then None
    else if Csum(IcmpPseudo(src, dst, |seg|), seg) != 0 then None
    else Some((ParsedIcmp(seg[0], WordOf(seg[4], seg[5]), WordOf(seg[6], seg[7])), seg[ICMP_HEADER_LEN..]))
  }

  /** The peer in the other role reads what was sent; a peer in the same role ignores it. */
  lemma IcmpRoundTrip(src: IpAddr, dst: IpAddr, isClient: bool, id: U16, sequence: U16, payload: Bytes)
    requires SameFamily(src, dst)
    ensures var seg := IcmpMessage(src, dst, isClient, id, sequence, payload);
            && ParseIcmp(seg, src, dst, !isClient) == Some((ParsedIcmp(EchoType(src.V6?, isClient), id, sequence), payload))
            && ParseIcmp(seg, src, dst, isClient) == None
  {
    hide Csum, IcmpPseudo, WordOf, Sealed;
    var plain := IcmpPlain(src.V6?, isClient, id, sequence, payload);
    var pseudo := IcmpPseudo(src, dst, |plain|);
    var seg := Sealed(pseudo, plain, 2);
    assert plain[2] == 0 && plain[3] == 0;
    SealedVerifies(pseudo, plain, 2);
    Be16Reads(id);
    Be16Reads(sequence);
    assert seg[0] == EchoType(src.V6?, isClient) && seg[1] == 0;
    assert seg[ICMP_HEADER_LEN..] == payload;
  }

  // ------------------------------------------------------------------ IP

  const IPV4_HEADER_LEN: nat := 20
  const IPV6_HEADER_LEN: nat := 40

  function Ip4Plain(src: Octets4, dst: Octets4, protocol: U8, ttl: U8, id: U16, payloadLen: nat): (r: Bytes)
    ensures |r| == IPV4_HEADER_LEN
  {
    [0x45, 0] + Be16((IPV4_HEADER_LEN + payloadLen) % 65536) + Be16(id) + [0x40, 0, ttl, protocol, 0, 0] + src + dst
  }

  function IpHeader(src: IpAddr, dst: IpAddr, protocol: U8, ttl: U8, id: U16, payloadLen: nat): Bytes
    requires SameFamily(src, dst)
  {
    if src.V4? then Sealed([], Ip4Plain(src.octets4, dst.octets4, protocol, ttl, id, payloadLen), 10)
    else [0x60, 0, 0, 0] + Be16(payloadLen % 65536) + [protocol, ttl] + src.octets6 + dst.octets6
  }

  datatype ParsedIp = ParsedIp(src: IpAddr, dst: IpAddr, protocol: U8, headerLen: nat, totalLen: nat)

  function ParseIp(buf: Bytes, wantV6: bool, verifyCsum: bool): (r: Option<ParsedIp>)
    ensures r.Some? ==> r.value.headerLen <= r.value.totalLen <= |buf|
  {
    if buf == [] then None
    else if !wantV6 then
      var ihl: nat := (buf[0] % 16) * 4;
      if buf[0] / 16 != 4 || |buf| < IPV4_HEADER_LEN || ihl < IPV4_HEADER_LEN || ihl > |buf| then None
      else if |buf| < WordOf(buf[2], buf[3]) || WordOf(buf[2], buf[3]) < ihl then None
      else if verifyCsum && Csum([], buf[..ihl]) != 0 then None
      else Some(ParsedIp(V4(buf[12..16]), V4(buf[16..20]), buf[9], ihl, WordOf(buf[2], buf[3])))
    else
      if buf[0] / 16 != 6 || |buf| < IPV6_HEADER_LEN then None
      else
        var total := IPV6_HEADER_LEN + WordOf(buf[4], buf[5]);
        if |buf| < total then None
        else Some(ParsedIp(V6(buf[8..24]), V6(buf[24..40]), buf[6], IPV6_HEADER_LEN, total))
  }

  lemma Ip4RoundTrip(src: Octets4, dst: Octets4, protocol: U8, ttl: U8, id: U16, payload: Bytes, verifyCsum: bool)
    requires IPV4_HEADER_LEN + |payload| <= 65535
    ensures ParseIp(IpHeader(V4(src), V4(dst), protocol, ttl, id, |payload|) + payload, false, verifyCsum) ==
              Some(ParsedIp(V4(src), V4(dst), protocol, IPV4_HEADER_LEN, IPV4_HEADER_LEN + |payload|))
  {
    hide Csum, WordOf, Sealed;
    var plain := Ip4Plain(src, dst, protocol, ttl, id, |payload|);
    var h := Sealed([], plain, 10);
    assert plain[10] == 0 && plain[11] == 0;
    SealedVerifies([], plain, 10);
    var buf: Bytes := h + payload;
    assert plain[0] == 0x45 && plain[9] == protocol;
    assert plain[2..4] == Be16(IPV4_HEADER_LEN + |payload|);
    Be16Reads(IPV4_HEADER_LEN + |payload|);
    assert buf[0] == 0x45 && buf[2] == plain[2] && buf[3] == plain[3] && buf[9] == protocol;
    assert plain[12..16] == src && plain[16..20] == dst;
    assert h[12..16] == plain[12..16] && h[16..20] == plain[16..20];
    assert buf[12..16] == h[12..16] && buf[16..20] == h[16..20] && buf[..20] == h;
  }

  lemma Ip6RoundTrip(src: Octets16, dst: Octets16, protocol: U8, ttl: U8, id: U16, payload: Bytes, verifyCsum: bool)
    requires |payload| <= 65535
    ensures ParseIp(IpHeader(V6(src), V6(dst), protocol, ttl, id, |payload|) + payload, true, verifyCsum) ==
              Some(ParsedIp(V6(src), V6(dst), protocol, IPV6_HEADER_LEN, IPV6_HEADER_LEN + |payload|))
  {
    hide WordOf;
    var h := IpHeader(V6(src), V6(dst), protocol, ttl, id, |payload|);
    var buf: Bytes := h + payload;
    Be16Reads(|payload|);
    assert buf[8..24] == src && buf[24..40] == dst;
  }
}
