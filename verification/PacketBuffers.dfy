/** The builders as they append to an output buffer, and the option walk as a loop. */
module PacketBuffers {
  import opened Machine
  import opened Checksum
  import opened Headers
  import T = Tcp

  function Zeros(n: nat): (r: Bytes)
    ensures |r| == n
  {
    seq(n, _ => 0)
  }

  /** Writing behind what a buffer already held. */
  lemma Behind(out: Bytes, h: Bytes, k: nat, b: Bytes)
    requires k + |b| <= |h|
    ensures Overwrite(out + h, |out| + k, b) == out + Overwrite(h, k, b)
  {
  }

  method BuildUdp(out: Bytes, src: IpAddr, dst: IpAddr, srcPort: U16, dstPort: U16, payload: Bytes) returns (r: Bytes, n: Option<nat>)
    requires SameFamily(src, dst)
    ensures var seg := UdpSegment(src, dst, srcPort, dstPort, payload);
            if seg.None? then r == out && n == None else r == out + seg.value && n == Some(|seg.value|)
  {
    hide Csum, Pseudo;
    var tot := UDP_HEADER_LEN + |payload|;
    if tot > 65535 { return out, None; }
    var start := |out|;
    r := out + Zeros(UDP_HEADER_LEN);
    r := Overwrite(r, start, Be16(srcPort));
    r := Overwrite(r, start + 2, Be16(dstPort));
    r := Overwrite(r, start + 4, Be16(tot));
    r := r + payload;
    assert r == out + UdpPlain(srcPort, dstPort, payload);
    var plain := r[start..];
    var c := CsumWithPseudo(Pseudo(src, dst, IPPROTO_UDP, tot), plain);
    r := Overwrite(r, start + 6, Be16(c));
    Behind(out, plain, 6, Be16(c));
    n := Some(tot);
  }

  method BuildIcmp(out: Bytes, src: IpAddr, dst: IpAddr, isClient: bool, id: U16, sequence: U16, payload: Bytes) returns (r: Bytes, n: nat)
    requires SameFamily(src, dst)
    ensures r == out + IcmpMessage(src, dst, isClient, id, sequence, payload) && n == ICMP_HEADER_LEN + |payload|
  {
    hide Csum, Pseudo;
    var start := |out|;
    r := out + Zeros(ICMP_HEADER_LEN);
    r := Overwrite(r, start, [EchoType(src.V6?, isClient), 0]);
    r := Overwrite(r, start + 4, Be16(id));
    r := Overwrite(r, start + 6, Be16(sequence));
    r := r + payload;
    assert r == out + IcmpPlain(src.V6?, isClient, id, sequence, payload);
    var plain := r[start..];
    n := ICMP_HEADER_LEN + |payload|;
    var c := CsumWithPseudo(if src.V6? then Pseudo(src, dst, IPPROTO_ICMPV6, n) else [], plain);
    r := Overwrite(r, start + 2, Be16(c));
    Behind(out, plain, 2, Be16(c));
  }

  method Ip4Part(src: Octets4, dst: Octets4, protocol: U8, ttl: U8, id: U16, payloadLen: nat) returns (h: Bytes)
    ensures h == Ip4Plain(src, dst, protocol, ttl, id, payloadLen)
  {
    h := Zeros(IPV4_HEADER_LEN);
    h := Overwrite(h, 0, [0x45, 0]);
    h := Overwrite(h, 2, Be16((IPV4_HEADER_LEN + payloadLen) % 65536));
    h := Overwrite(h, 4, Be16(id));
    h := Overwrite(h, 6, [0x40, 0, ttl, protocol]);
    h := Overwrite(h, 12, src);
    h := Overwrite(h, 16, dst);
  }

  method BuildIpHeader(out: Bytes, src: IpAddr, dst: IpAddr, protocol: U8, ttl: U8, id: U16, payloadLen: nat) returns (r: Bytes)
    requires SameFamily(src, dst)
    ensures r == out + IpHeader(src, dst, protocol, ttl, id, payloadLen)
  {
    hide Csum, Ip4Plain;
    var h: Bytes;
    if src.V4? {
      h := Ip4Part(src.octets4, dst.octets4, protocol, ttl, id, payloadLen);
      var c := CsumWithPseudo([], h);
      h := Overwrite(h, 10, Be16(c));
    } else {
      h := Zeros(IPV6_HEADER_LEN);
      h := Overwrite(h, 0, [0x60]);
      h := Overwrite(h, 4, Be16(payloadLen % 65536));
      h := Overwrite(h, 6, [protocol, ttl]);
      h := Overwrite(h, 8, src.octets6);
      h := Overwrite(h, 24, dst.octets6);
    }
    r := out + h;
  }

  method FixedPart(p: T.Params) returns (h: Bytes)
    ensures h == T.Fixed(p)
  {
    hide Be32, T.Flags;
    h := Zeros(T.TCP_MIN_HEADER);
    h := Overwrite(h, 0, Be16(p.srcPort));
    h := Overwrite(h, 2, Be16(p.dstPort));
    h := Overwrite(h, 4, Be32(p.sequence));
    h := Overwrite(h, 8, Be32(p.ackSequence));
    var flags: U8 := 0;
    if p.syn { flags := flags + 0x02; }
    if p.psh { flags := flags + 0x08; }
    if p.ack { flags := flags + 0x10; }
    FlagsAdded(p, flags);
    h := Overwrite(h, 12, [if p.syn then 160 else 128, flags]);
    h := Overwrite(h, 14, Be16(p.window));
  }

  lemma FlagsAdded(p: T.Params, flags: nat)
    requires flags == (if p.syn then 2 else 0) + (if p.psh then 8 else 0) + (if p.ack then 16 else 0)
    ensures flags == T.Flags(p)
  {
  }

  method OptionPart(p: T.Params) returns (h: Bytes)
    ensures h == T.Options(p)
  {
    hide Be32;
    h := Zeros(T.HeaderLen(p) - T.TCP_MIN_HEADER);
    if p.syn {
      h := Overwrite(h, 0, [2, 4]);
      h := Overwrite(h, 2, Be16(T.SYN_MSS));
      h := Overwrite(h, 4, [4, 2]);
      h := Overwrite(h, 6, [8, 10]);
      h := Overwrite(h, 8, Be32(p.ts));
      h := Overwrite(h, 12, Be32(p.tsAck));
      h := Overwrite(h, 16, [1, 3, 3, T.WSCALE]);
    } else {
      h := Overwrite(h, 0, [1, 1, 8, 10]);
      h := Overwrite(h, 4, Be32(p.ts));
      h := Overwrite(h, 8, Be32(p.tsAck));
    }
  }

  method BuildTcp(out: Bytes, src: IpAddr, dst: IpAddr, p: T.Params, payload: Bytes) returns (r: Bytes, n: nat)
    requires SameFamily(src, dst)
    ensures r == out + T.Segment(src, dst, p, payload) && n == T.HeaderLen(p) + |payload|
  {
    hide Csum, Pseudo, T.Fixed, T.Options;
    var fixed := FixedPart(p);
    var options := OptionPart(p);
    r := out + fixed + options + payload;
    assert r == out + T.Plain(p, payload);
    var plain := r[|out|..];
    n := T.HeaderLen(p) + |payload|;
    var c := CsumWithPseudo(Pseudo(src, dst, IPPROTO_TCP, n), plain);
    r := Overwrite(r, |out| + 16, Be16(c));
    Behind(out, plain, 16, Be16(c));
  }

  method ParseOptions(opt: Bytes) returns (t: T.Stamps)
    ensures t == T.Walk(opt, 0, T.Stamps(false, 0, 0))
  {
    t := T.Stamps(false, 0, 0);
    var i := 0;
    while i < |opt|
      invariant T.Walk(opt, i, t) == T.Walk(opt, 0, T.Stamps(false, 0, 0))
      decreases |opt| - i
    {
      if opt[i] == 0 {
        return;
      } else if opt[i] == 1 {
        i := i + 1;
      } else if opt[i] == 8 {
        if i + 1 >= |opt| || opt[i + 1] != 10 || i + 10 > |opt| { return; }
        t := T.StampsAt(opt, i);
        i := i + 10;
      } else {
        if i + 1 >= |opt| { return; }
        var len := opt[i + 1];
        if len <= 1 { return; }
        i := i + len;
      }
    }
  }
}
