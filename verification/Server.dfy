/**
 The server's connection tables: a slab of connections with a free list, an index by address, an
 index of Ready connections by constant id, and a slab of conversation sockets.
 */
module Server {
  import opened Machine
  import A = AntiReplay

  const MAX_HANDSHAKE_CONN_NUM: nat := 10000
  const MAX_READY_CONN_NUM: nat := 1000
  const MAX_CONV_NUM: nat := 10000
  const CONN_CLEAR_RATIO: nat := 50
  const CONN_CLEAR_MIN: nat := 1
  const CONN_CLEAR_INTERVAL_MS: nat := 1000
  const SERVER_CONN_TIMEOUT_MS: nat := 240_000
  const SERVER_HANDSHAKE_TIMEOUT_MS: nat := 10_000

  datatype Addr = Addr(ip: nat, port: nat)

  datatype Phase = Idle | Handshake1 | Ready

  datatype Ids = Ids(my: U32, opp: U32, cid: U32)

  datatype Times = Times(state: U64, hbRecv: U64, hbSent: U64)

  /** `convs` maps each conversation to its index in the socket slab. */
  datatype Conn = Conn(phase: Phase, addr: Addr, ids: Ids, times: Times, generation: nat,
                       window: A.Window, nextSend: U64, convs: map<U32, nat>)

  datatype Sock = Sock(slot: nat, conv: U32)

  datatype Server = Server(
    conns: seq<Option<Conn>>,
    freeConns: seq<nat>,
    byAddr: map<Addr, nat>,
    byConst: map<U32, nat>,
    readyNum: nat,
    socks: seq<Option<Sock>>,
    freeSocks: seq<nat>,
    cursor: nat,
    lastClear: U64,
    nextGeneration: nat,
    constId: U32)

  /** What the server puts on the wire. */
  datatype Packet = Bare(id1: U32, id2: U32, id3: U32) | Safer(from: U32, to: U32, seqno: U64)

  predicate Live(s: Server, i: nat) {
    i < |s.conns| && s.conns[i].Some?
  }

  function At(s: Server, i: nat): Conn
    requires Live(s, i)
  {
    s.conns[i].value
  }

  function Put(s: Server, i: nat, c: Conn): Server
    requires i < |s.conns|
  {
    s.(conns := s.conns[i := Some(c)])
  }

  predicate IsReady(s: Server, i: nat) {
    Live(s, i) && At(s, i).phase.Ready?
  }

  function LiveCount(s: Server): nat {
    SatSub(|s.conns|, |s.freeConns|)
  }

  // ------------------------------------------------------------------ slabs

  /** Put a value in the most recently freed slot, or in a new one. */
  function Allocate<T>(slots: seq<Option<T>>, free: seq<nat>, x: T): (seq<Option<T>>, seq<nat>, nat)
    requires FreeList(slots, free)
  {
    if free != [] then
      var i := free[|free| - 1];
      (slots[i := Some(x)], free[..|free| - 1], i)
    else (slots + [Some(x)], free, |slots|)
  }

  // ------------------------------------------------------------------ handshake

  /** Send one safer packet of connection `i`, consuming a sequence number. */
  function SendSafer(s: Server, i: nat): (Server, Packet)
    requires Live(s, i)
  {
    var c := At(s, i);
    (Put(s, i, c.(nextSend := if c.nextSend == U64_MAX then 0 else c.nextSend + 1)),
     Safer(c.ids.my, c.ids.opp, c.nextSend))
  }

  function BecomeReady(c: Conn, cid: U32, now: U64): Conn {
    c.(phase := Ready, ids := c.ids.(cid := cid), times := c.times.(hbRecv := now, hbSent := now),
       window := A.ReInit(c.window))
  }

  function GiveUp(c: Conn): Conn {
    c.(phase := Idle, ids := c.ids.(cid := 0))
  }

  /** The established connection takes over the identity and the address of the new one. */
  function Recover(ori: Conn, fresh': Conn, now: U64, generation: nat): Conn {
    ori.(addr := fresh'.addr, ids := ori.ids.(my := fresh'.ids.my, opp := fresh'.ids.opp),
         times := fresh'.times.(hbRecv := now), window := A.ReInit(ori.window), generation := generation)
  }

  /** `pre_ready`: go ready, or recover the Ready connection with the same constant id. */
  function PreReady(s: Server, i: nat, cid: U32, now: U64): (Server, seq<Packet>)
    requires Live(s, i)
  {
    var c := At(s, i);
    if cid !in s.byConst then
      if s.readyNum >= MAX_READY_CONN_NUM then (Put(s, i, c.(phase := Idle)), [])
      else
        var s1 := Put(s, i, BecomeReady(c, cid, now)).(readyNum := s.readyNum + 1, byConst := s.byConst[cid := i]);
        var (s2, p) := SendSafer(s1, i);
        (s2, [p])
    else
      var o := s.byConst[cid];
      if o == i || !Live(s, o) then (s, [])
      else if !At(s, o).phase.Ready? || c.times.state < At(s, o).times.state then (Put(s, i, GiveUp(c)), [])
      else
        var ori := At(s, o);
        var s1 := s.(byAddr := s.byAddr[c.addr := o][ori.addr := i], nextGeneration := s.nextGeneration + 1,
                     conns := s.conns[o := Some(Recover(ori, c, now, s.nextGeneration))]
                                     [i := Some(GiveUp(c).(addr := ori.addr))]);
        var (s2, p) := SendSafer(s1, o);
        (s2, [p])
  }

  /** `on_handshake1` for connection `i`: three ids from the wire. */
  function OnHandshake1(s: Server, i: nat, id1: U32, id2: U32, id3: U32, now: U64): (Server, seq<Packet>)
    requires Live(s, i)
  {
    var c := At(s, i);
    if id2 == 0 then (s, [Bare(c.ids.my, id1, s.constId)])
    else if id2 == c.ids.my then PreReady(Put(s, i, c.(ids := c.ids.(opp := id1))), i, id3, now)
    else (s, [])
  }

  /** A handshake packet from an address without a connection; `myId` and `seed` are drawn. */
  function OnNewAddress(s: Server, a: Addr, id1: U32, id2: U32, id3: U32, now: U64, myId: U32, seed: U64): (Server, seq<Packet>)
    requires a !in s.byAddr && FreeList(s.conns, s.freeConns)
  {
    if LiveCount(s) >= MAX_HANDSHAKE_CONN_NUM || id2 != 0 then (s, [])
    else
      var c := Conn(Handshake1, a, Ids(myId, 0, 0), Times(now, 0, 0), s.nextGeneration, A.Window(0, A.Zeros()), seed / 10, map[]);
      var (conns, free, i) := Allocate(s.conns, s.freeConns, c);
      var s1 := s.(conns := conns, freeConns := free, byAddr := s.byAddr[a := i], nextGeneration := s.nextGeneration + 1);
      assert Live(s1, i);
      OnHandshake1(s1, i, id1, id2, id3, now)
  }

  // ------------------------------------------------------------------ traffic

  /** `accept_safer` on a Ready connection: the id check, then the replay window. */
  function Accept(s: Server, i: nat, from: U32, to: U32, seqno: U64): (Server, bool)
    requires Live(s, i) && |At(s, i).window.bits| == A.WINDOW
  {
    var c := At(s, i);
    if !c.phase.Ready? || from != c.ids.opp || to != c.ids.my then (s, false)
    else
      var (w, ok) := A.Check(c.window, seqno);
      (Put(s, i, c.(window := w)), ok)
  }

  /** A heartbeat that was accepted. */
  function Beat(s: Server, i: nat, now: U64): Server
    requires Live(s, i)
  {
    Put(s, i, At(s, i).(times := At(s, i).times.(hbRecv := now)))
  }

  /** DATA for a conversation: open its socket on first use, unless a limit or the kernel refuses. */
  function OnData(s: Server, i: nat, conv: U32, connected: bool, registered: bool): Server
    requires Live(s, i) && FreeList(s.socks, s.freeSocks)
  {
    var c := At(s, i);
    if conv in c.convs || |c.convs| >= MAX_CONV_NUM || !connected then s
    else
      var (socks, free, k) := Allocate(s.socks, s.freeSocks, Sock(i, conv));
      var s1 := s.(socks := socks, freeSocks := free);
      if !registered then CloseSock(s1, k)
      else Put(s1, i, c.(convs := c.convs[conv := k]))
  }

  function CloseSock(s: Server, k: nat): Server {
    if k < |s.socks| && s.socks[k].Some? then s.(socks := s.socks[k := None], freeSocks := s.freeSocks + [k]) else s
  }

  function CloseSocks(s: Server, ks: seq<nat>): Server {
    if ks == [] then s else CloseSock(CloseSocks(s, ks[..|ks| - 1]), ks[|ks| - 1])
  }

  /** The sockets of a connection, in any order. */
  ghost predicate Lists(convs: map<U32, nat>, ks: seq<nat>) {
    && (forall k :: k in ks <==> k in convs.Values)
    && forall i, j :: 0 <= i < j < |ks| ==> ks[i] != ks[j]
  }

  /** `erase_conn`; `ks` is the order in which the table yields the sockets. */
  function Erase(s: Server, i: nat, ks: seq<nat>): Server
    requires Live(s, i)
  {
    var c := At(s, i);
    var s1 := s.(conns := s.conns[i := None]);
    var s2 := if c.phase.Ready?
              then s1.(readyNum := SatSub(s1.readyNum, 1), byConst := s1.byConst - {c.ids.cid}) else s1;
    var s3 := CloseSocks(s2, ks);
    s3.(byAddr := s3.byAddr - {c.addr}, freeConns := s3.freeConns + [i])
  }

  /** The sweep keeps a Ready connection with recent heartbeats or open conversations, and a
      handshake that is not too old. */
  predicate Keep(c: Conn, now: U64) {
    if c.phase.Ready? then SatSub(now, c.times.hbRecv) <= SERVER_CONN_TIMEOUT_MS || c.convs != map[]
    else SatSub(now, c.times.state) <= SERVER_HANDSHAKE_TIMEOUT_MS
  }

  /** Conversations `gone` of connection `i` expired; their sockets are closed. */
  function Expire(s: Server, i: nat, gone: set<U32>, ks: seq<nat>): Server
    requires Live(s, i)
  {
    CloseSocks(Put(s, i, At(s, i).(convs := At(s, i).convs - gone)), ks)
  }

  // ------------------------------------------------------------------ the table invariant

  /** The free list is exactly the empty slots, each once. */
  predicate FreeList<T>(slots: seq<Option<T>>, free: seq<nat>) {
    && (forall i :: 0 <= i < |free| ==> free[i] < |slots| && slots[free[i]].None?)
    && (forall i :: 0 <= i < |slots| && slots[i].None? ==> i in free)
    && (forall i, j :: 0 <= i < j < |free| ==> free[i] != free[j])
  }

  /** `byAddr` is exactly the inverse of the live connections' addresses. */
  ghost predicate AddrIndex(s: Server) {
    && (forall a :: a in s.byAddr ==> Live(s, s.byAddr[a]) && At(s, s.byAddr[a]).addr == a)
    && (forall i :: Live(s, i) ==> At(s, i).addr in s.byAddr && s.byAddr[At(s, i).addr] == i)
  }

  /** `byConst` maps exactly the Ready connections. */
  ghost predicate ConstIndex(s: Server) {
    && (forall k :: k in s.byConst ==> IsReady(s, s.byConst[k]) && At(s, s.byConst[k]).ids.cid == k)
    && (forall i :: IsReady(s, i) ==> At(s, i).ids.cid in s.byConst && s.byConst[At(s, i).ids.cid] == i)
    && s.readyNum == |s.byConst|
    && s.readyNum <= MAX_READY_CONN_NUM
  }

  /** Each open socket belongs to one conversation of one Ready connection, and back. */
  ghost predicate SockIndex(s: Server) {
    && (forall k :: 0 <= k < |s.socks| && s.socks[k].Some? ==> SockOwned(s, k))
    && (forall i, conv :: Live(s, i) && conv in At(s, i).convs ==> ConvOpen(s, i, conv))
  }

  predicate SockOwned(s: Server, k: nat)
    requires k < |s.socks| && s.socks[k].Some?
  {
    var w := s.socks[k].value;
    IsReady(s, w.slot) && w.conv in At(s, w.slot).convs && At(s, w.slot).convs[w.conv] == k
  }

  predicate ConvOpen(s: Server, i: nat, conv: U32)
    requires Live(s, i) && conv in At(s, i).convs
  {
    var k := At(s, i).convs[conv];
    k < |s.socks| && s.socks[k] == Some(Sock(i, conv))
  }

  ghost predicate Generations(s: Server) {
    forall i, j :: Live(s, i) ==>
      && At(s, i).generation < s.nextGeneration
      && |At(s, i).window.bits| == A.WINDOW
      && (Live(s, j) && At(s, i).generation == At(s, j).generation ==> i == j)
  }

  ghost predicate Tables(s: Server) {
    && FreeList(s.conns, s.freeConns)
    && FreeList(s.socks, s.freeSocks)
    && AddrIndex(s)
    && ConstIndex(s)
    && SockIndex(s)
    && Generations(s)
  }

  function Empty(constId: U32): Server {
    Server([], [], map[], map[], 0, [], [], 0, 0, 1, constId)
  }
}
