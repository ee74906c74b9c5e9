/** FakeTCP segments: the header with its options, and the parser that walks them. */
module Tcp {
  import opened Machine
  import opened Checksum
  import opened Headers

  const TCP_MIN_HEADER: nat := 20
  const SYN_MSS: U16 := 1460
  const WSCALE: U8 := 5

  datatype Params = Params(srcPort: U16, dstPort: U16, sequence: U32, ackSequence: U32, syn: bool, ack: bool, psh: bool,
                           window: U16, ts: U32, tsAck: U32)

  // ------------------------------------------------------------------ building

  function HeaderLen(p: Params): nat {
    if p.syn then 40 else 32
  }

  function Flags(p: Params): U8 {
    (if p.syn then 0x02 else 0) + (if p.psh then 0x08 else 0) + (if p.ack then 0x10 else 0)
  }

  /** The fixed part, with a zero checksum. */
  function Fixed(p: Params): (r: Bytes)
    ensures |r| == TCP_MIN_HEADER
  {
    Be16(p.srcPort) + Be16(p.dstPort) + Be32(p.sequence) + Be32(p.ackSequence) + [HeaderLen(p) / 4 * 16, Flags(p)] + Be16(p.window) + [0, 0, 0, 0]
  }

  function Timestamps(p: Params): (r: Bytes)
    ensures |r| == 10
  {
    [8, 10] + Be32(p.ts) + Be32(p.tsAck)
  }

  /** A SYN carries MSS, SACK-permitted, timestamps and window scale; anything else two NOPs and timestamps. */
  function Options(p: Params): (r: Bytes)
    ensures |r| == HeaderLen(p) - TCP_MIN_HEADER
  {
    if p.syn then [2, 4] + Be16(SYN_MSS) + [4, 2] + Timestamps(p) + [1, 3, 3, WSCALE]
    else [1, 1] + Timestamps(p)
  }

  function Plain(p: Params, payload: Bytes): (r: Bytes)
    ensures |r| == HeaderLen(p) + |payload|
  {
    Fixed(p) + Options(p) + payload
  }

  function Segment(src: IpAddr, dst: IpAddr, p: Params, payload: Bytes): Bytes
    requires SameFamily(src, dst)
  {
    var plain := Plain(p, payload);
    Sealed(Pseudo(src, dst, IPPROTO_TCP, |plain|), plain, 16)
  }

  // ------------------------------------------------------------------ parsing

  datatype Stamps = Stamps(hasTs: bool, ts: U32, tsAck: U32)

  /** The walk over the options from position `i`. */
  function Walk(opt: Bytes, i: nat, t: Stamps): Stamps
    decreases |opt| - i
  {
    if i >= |opt| || opt[i] == 0 then t
    else if opt[i] == 1 then Walk(opt, i + 1, t)
    else if opt[i] == 8 then
      if i + 1 >= |opt| || opt[i + 1] != 10 || i + 10 > |opt| then t
      else Walk(opt, i + 10, StampsAt(opt, i))
    else if i + 1 >= |opt| || opt[i + 1] <= 1 then t
    else Walk(opt, i + opt[i + 1], t)
  }

  function StampsAt(opt: Bytes, i: nat): Stamps
    requires i + 10 <= |opt|
  {
    Stamps(true, WordOf32(opt[i + 2], opt[i + 3], opt[i + 4], opt[i + 5]), WordOf32(opt[i + 6], opt[i + 7], opt[i + 8], opt[i + 9]))
  }

  datatype Parsed = Parsed(srcPort: U16, dstPort: U16, sequence: U32, ackSequence: U32, syn: bool, ack: bool, psh: bool, rst: bool,
                           stamps: Stamps, headerLen: nat, csumOk: bool)

  predicate FlagSet(flags: U8, bit: nat)
    requires bit > 0
  {
    flags / bit % 2 == 1
  }

  /** A data offset of 1 to 4 words makes the slice of the options start behind its end, which faults. */
  datatype Outcome<+T> = Rejected | Faulted | Accepted(value: T)

  function Parse(seg: Bytes, src: IpAddr, dst: IpAddr): Outcome<(Parsed, Bytes)>
    requires SameFamily(src, dst)
  {
    if |seg| < TCP_MIN_HEADER then Rejected
    else
      var n: nat := (seg[12] / 16) * 4;
      if n == 0 || n > 60 || n > |seg| then Rejected
      else if n < TCP_MIN_HEADER then Faulted
      else
        Accepted((Parsed(WordOf(seg[0], seg[1]), WordOf(seg[2], seg[3]),
                         WordOf32(seg[4], seg[5], seg[6], seg[7]), WordOf32(seg[8], seg[9], seg[10], seg[11]),
                         FlagSet(seg[13], 2), FlagSet(seg[13], 16), FlagSet(seg[13], 8), FlagSet(seg[13], 4),
                         Walk(seg[TCP_MIN_HEADER..n], 0, Stamps(false, 0, 0)), n,
                         Csum(Pseudo(src, dst, IPPROTO_TCP, |seg|), seg) == 0), seg[n..]))
  }

  // ------------------------------------------------------------------ round trip

  lemma FixedFields(p: Params)
    ensures var f := Fixed(p);
            && WordOf(f[0], f[1]) == p.srcPort && WordOf(f[2], f[3]) == p.dstPort
            && WordOf32(f[4], f[5], f[6], f[7]) == p.sequence && WordOf32(f[8], f[9], f[10], f[11]) == p.ackSequence
            && f[12] == HeaderLen(p) / 4 * 16 && f[13] == Flags(p) && f[16] == 0 && f[17] == 0
  {
    hide WordOf, WordOf32, Be32;
    var f := Fixed(p);
    Be16Reads(p.srcPort);
    Be16Reads(p.dstPort);
    Be32Reads(p.sequence);
    Be32Reads(p.ackSequence);
    var a, b := Be32(p.sequence), Be32(p.ackSequence);
    assert f[4] == a[0] && f[5] == a[1] && f[6] == a[2] && f[7] == a[3];
    assert f[8] == b[0] && f[9] == b[1] && f[10] == b[2] && f[11] == b[3];
  }

  lemma FlagsRead(p: Params)
    ensures FlagSet(Flags(p), 2) == p.syn && FlagSet(Flags(p), 8) == p.psh && FlagSet(Flags(p), 16) == p.ack && !FlagSet(Flags(p), 4)
  {
  }

  lemma StampsRead(p: Params, opt: Bytes, i: nat)
    requires i + 10 <= |opt| && opt[i..i + 10] == Timestamps(p)
    ensures opt[i] == 8 && opt[i + 1] == 10 && StampsAt(opt, i) == Stamps(true, p.ts, p.tsAck)
  {
    hide WordOf32, Be32;
    var t, a, b := Timestamps(p), Be32(p.ts), Be32(p.tsAck);
    Be32Reads(p.ts);
    Be32Reads(p.tsAck);
    var s := opt[i..i + 10];
    assert s[0] == opt[i] && s[1] == opt[i + 1] && s[2] == opt[i + 2] && s[3] == opt[i + 3] && s[4] == opt[i + 4];
    assert s[5] == opt[i + 5] && s[6] == opt[i + 6] && s[7] == opt[i + 7] && s[8] == opt[i + 8] && s[9] == opt[i + 9];
    assert t[2] == a[0] && t[3] == a[1] && t[4] == a[2] && t[5] == a[3];
    assert t[6] == b[0] && t[7] == b[1] && t[8] == b[2] && t[9] == b[3];
  }

  lemma OptionsWalk(p: Params)
    ensures Walk(Options(p), 0, Stamps(false, 0, 0)) == Stamps(true, p.ts, p.tsAck)
  {
    hide StampsAt;
    var opt, none, all := Options(p), Stamps(false, 0, 0), Stamps(true, p.ts, p.tsAck);
    if p.syn {
      assert opt[6..16] == Timestamps(p);
      StampsRead(p, opt, 6);
      assert Walk(opt, 17, all) == Walk(opt, 20, all) == all;
      assert Walk(opt, 16, all) == all;
      assert Walk(opt, 6, none) == all;
      assert Walk(opt, 4, none) == all;
    } else {
      assert opt[2..12] == Timestamps(p);
      StampsRead(p, opt, 2);
      assert Walk(opt, 2, none) == Walk(opt, 12, all) == all;
      assert Walk(opt, 1, none) == all;
    }
  }

  /** A built segment parses to its own fields and payload, and its checksum verifies. */
  lemma TcpRoundTrip(src: IpAddr, dst: IpAddr, p: Params, payload: Bytes)
    requires SameFamily(src, dst)
    ensures Parse(Segment(src, dst, p, payload), src, dst) ==
              Accepted((Parsed(p.srcPort, p.dstPort, p.sequence, p.ackSequence, p.syn, p.ack, p.psh, false,
                               Stamps(true, p.ts, p.tsAck), HeaderLen(p), true), payload))
  {
    hide Csum, Pseudo, WordOf, WordOf32, Sealed, Fixed, Options, Walk, FlagSet, Flags;
    var n := HeaderLen(p);
    var plain := Plain(p, payload);
    var pseudo := Pseudo(src, dst, IPPROTO_TCP, |plain|);
    var seg := Sealed(pseudo, plain, 16);
    FixedFields(p);
    assert forall j :: 0 <= j < 20 ==> plain[j] == Fixed(p)[j];
    SealedVerifies(pseudo, plain, 16);
    FlagsRead(p);
    OptionsWalk(p);
    assert plain[20..n] == Options(p) && plain[n..] == payload;
    assert seg[20..n] == plain[20..n] && seg[n..] == plain[n..];
  }

  /** Parsing faults exactly on a data offset of one to four words. */
  lemma FaultsIff(seg: Bytes, src: IpAddr, dst: IpAddr)
    requires SameFamily(src, dst)
    ensures Parse(seg, src, dst).Faulted? <==> |seg| >= TCP_MIN_HEADER && 16 <= seg[12] < 80
  {
    hide Csum, Walk, Pseudo;
  }

  /** The smallest segment that faults: a bare header whose data offset is one word. */
  lemma FaultExample(src: IpAddr, dst: IpAddr)
    requires SameFamily(src, dst)
    ensures Parse(seq(20, i => if i == 12 then 0x10 else 0), src, dst).Faulted?
  {
    hide Parse;
    FaultsIff(seq(20, i => if i == 12 then 0x10 else 0), src, dst);
  }

  /** A whole packet: the IP layer hands the segment to the transport layer, which recovers everything. */
  lemma PacketRoundTrip(src: IpAddr, dst: IpAddr, ttl: U8, id: U16, p: Params, payload: Bytes)
    requires SameFamily(src, dst) && 20 + HeaderLen(p) + |payload| <= 65535
    ensures var seg := Segment(src, dst, p, payload);
            var packet := IpHeader(src, dst, IPPROTO_TCP, ttl, id, |seg|) + seg;
            var ip := ParseIp(packet, src.V6?, true);
            && ip.Some? && ip.value.src == src && ip.value.dst == dst && ip.value.protocol == IPPROTO_TCP
            && packet[ip.value.headerLen..ip.value.totalLen] == seg
            && Parse(seg, src, dst) == Accepted((Parsed(p.srcPort, p.dstPort, p.sequence, p.ackSequence, p.syn, p.ack, p.psh, false,
                                                        Stamps(true, p.ts, p.tsAck), HeaderLen(p), true), payload))
  {
    hide Parse, ParseIp, IpHeader, Segment;
    TcpRoundTrip(src, dst, p, payload);
    var seg := Segment(src, dst, p, payload);
    SegmentLength(src, dst, p, payload);
    var h := IpHeader(src, dst, IPPROTO_TCP, ttl, id, |seg|);
    IpHeaderLength(src, dst, IPPROTO_TCP, ttl, id, |seg|);
    if src.V4? {
      Ip4RoundTrip(src.octets4, dst.octets4, IPPROTO_TCP, ttl, id, seg, true);
    } else {
      Ip6RoundTrip(src.octets6, dst.octets6, IPPROTO_TCP, ttl, id, seg, true);
    }
    assert (h + seg)[|h|..|h| + |seg|] == seg;
  }

  lemma SegmentLength(src: IpAddr, dst: IpAddr, p: Params, payload: Bytes)
    requires SameFamily(src, dst)
    ensures |Segment(src, dst, p, payload)| == HeaderLen(p) + |payload|
  {
  }

  lemma IpHeaderLength(src: IpAddr, dst: IpAddr, protocol: U8, ttl: U8, id: U16, n: nat)
    requires SameFamily(src, dst)
    ensures |IpHeader(src, dst, protocol, ttl, id, n)| == if src.V4? then IPV4_HEADER_LEN else IPV6_HEADER_LEN
  {
  }
}
