/** Exactly what a handshake packet leads to: an answer, a new Ready connection, a recovery, or nothing. */
module ServerRecovery {
  import opened Machine
  import A = AntiReplay
  import opened Server
  import opened ServerTables

  /** Every connection but those in `except` is as it was. */
  ghost predicate Others(s: Server, t: Server, except: set<nat>) {
    && |t.conns| == |s.conns|
    && (forall j :: 0 <= j < |s.conns| && j !in except ==> t.conns[j] == s.conns[j])
    && t.socks == s.socks && t.freeSocks == s.freeSocks && t.freeConns == s.freeConns
  }

  /** The number after `q` on the wire. */
  function Following(q: U64): U64 {
    if q == U64_MAX then 0 else q + 1
  }

  /** A packet carries the two ids and the next number, which then goes up by one and wraps around. */
  lemma SendExact(s: Server, i: nat)
    requires Live(s, i)
    ensures var (t, p) := SendSafer(s, i);
            && p == Safer(At(s, i).ids.my, At(s, i).ids.opp, At(s, i).nextSend)
            && t == s.(conns := s.conns[i := Some(At(s, i).(nextSend := Following(At(s, i).nextSend)))])
  {
  }

  /** Connection `i` is Ready with the two ids of the handshake, under the peer's constant id, with a
      window that starts over, and has sent its first heartbeat. */
  ghost predicate BecameReady(s: Server, t: Server, i: nat, opp: U32, cid: U32, now: U64, out: seq<Packet>)
    requires Live(s, i)
  {
    && IsReady(t, i) && Others(s, t, {i})
    && var c, d := At(s, i), At(t, i);
       && d.ids == Ids(c.ids.my, opp, cid) && d.addr == c.addr && d.convs == c.convs && d.generation == c.generation
       && d.times == Times(c.times.state, now, now) && d.window == A.Window(0, c.window.bits)
       && out == [Safer(c.ids.my, opp, c.nextSend)] && d.nextSend == Following(c.nextSend)
       && t.byAddr == s.byAddr && t.byConst == s.byConst[cid := i] && t.readyNum == s.readyNum + 1
  }

  /** Connection `o` goes on under the new ids and the new address, with its conversations, under a
      generation no connection had; connection `i` is idle at the old address. */
  ghost predicate Recovered(s: Server, t: Server, i: nat, o: nat, opp: U32, now: U64, out: seq<Packet>)
    requires Live(s, i) && Live(s, o)
  {
    && IsReady(t, o) && Live(t, i) && Others(s, t, {i, o})
    && var c, ori, d, idle := At(s, i), At(s, o), At(t, o), At(t, i);
       && d.ids == Ids(c.ids.my, opp, ori.ids.cid) && d.addr == c.addr && d.convs == ori.convs
       && (forall j :: Live(s, j) ==> At(s, j).generation != d.generation)
       && d.times == Times(c.times.state, now, c.times.hbSent) && d.window == A.Window(0, ori.window.bits)
       && out == [Safer(c.ids.my, opp, ori.nextSend)] && d.nextSend == Following(ori.nextSend)
       && idle.phase.Idle? && idle.addr == ori.addr && idle.convs == c.convs && idle.ids == Ids(c.ids.my, opp, 0)
       && t.byAddr == s.byAddr[c.addr := o][ori.addr := i] && t.byConst == s.byConst && t.readyNum == s.readyNum
  }

  /** Connection `i` has used up its id and nothing is sent. */
  ghost predicate FellIdle(s: Server, t: Server, i: nat, out: seq<Packet>)
    requires Live(s, i)
  {
    && Live(t, i) && At(t, i).phase.Idle? && At(t, i).addr == At(s, i).addr && At(t, i).convs == At(s, i).convs
    && Others(s, t, {i}) && out == []
    && t.byAddr == s.byAddr && t.byConst == s.byConst && t.readyNum == s.readyNum
  }

  /** No connection is Ready under `cid`. */
  ghost predicate Unknown(s: Server, cid: U32) {
    forall j :: IsReady(s, j) ==> At(s, j).ids.cid != cid
  }

  lemma UnknownIs(s: Server, cid: U32)
    requires ConstIndex(s)
    ensures Unknown(s, cid) <==> cid !in s.byConst
    ensures forall o :: IsReady(s, o) && At(s, o).ids.cid == cid ==> cid in s.byConst && s.byConst[cid] == o
  {
    if cid in s.byConst { assert IsReady(s, s.byConst[cid]); }
  }

  lemma PreReadyFresh(s: Server, i: nat, cid: U32, now: U64)
    requires Tables(s) && Live(s, i) && At(s, i).phase.Handshake1? && Unknown(s, cid)
    ensures var (t, out) := PreReady(s, i, cid, now);
            if |ReadySlots(s)| < 1000 then BecameReady(s, t, i, At(s, i).ids.opp, cid, now, out) else FellIdle(s, t, i, out)
  {
    hide FreeList, AddrIndex, ConstIndex, SockIndex, Generations, Unknown;
    UnknownIs(s, cid);
    CountReady(s);
  }

  lemma NewGeneration(s: Server)
    requires Generations(s)
    ensures forall j :: Live(s, j) ==> At(s, j).generation != s.nextGeneration
  {
  }

  lemma PreReadyKnown(s: Server, i: nat, o: nat, cid: U32, now: U64)
    requires Tables(s) && Live(s, i) && At(s, i).phase.Handshake1? && IsReady(s, o) && At(s, o).ids.cid == cid
    ensures var (t, out) := PreReady(s, i, cid, now);
            if At(s, i).times.state >= At(s, o).times.state then Recovered(s, t, i, o, At(s, i).ids.opp, now, out)
            else FellIdle(s, t, i, out)
  {
    hide FreeList, AddrIndex, ConstIndex, SockIndex, Generations;
    UnknownIs(s, cid);
    NewGeneration(s);
  }

  /** For every consistent server and every handshake packet `(id1, id2, id3)` of a connection in its
      handshake. A first packet is answered with our id. A packet that echoes another id is ignored. One
      that echoes ours completes the handshake: as a new Ready connection while fewer than a thousand are
      Ready, or, when a connection is Ready under the same constant id, as its recovery, unless this
      handshake began before that connection's last one. */
  lemma HandshakeExact(s: Server, i: nat, o: nat, id1: U32, id2: U32, id3: U32, now: U64)
    requires Tables(s) && Live(s, i) && At(s, i).phase.Handshake1?
    ensures var (t, out) := OnHandshake1(s, i, id1, id2, id3, now);
            && (id2 == 0 ==> t == s && out == [Bare(At(s, i).ids.my, id1, s.constId)])
            && (id2 != 0 && id2 != At(s, i).ids.my ==> t == s && out == [])
            && (id2 != 0 && id2 == At(s, i).ids.my && Unknown(s, id3) ==>
                  if |ReadySlots(s)| < 1000 then BecameReady(s, t, i, id1, id3, now, out) else FellIdle(s, t, i, out))
            && (id2 != 0 && id2 == At(s, i).ids.my && IsReady(s, o) && At(s, o).ids.cid == id3 ==>
                  if At(s, i).times.state >= At(s, o).times.state then Recovered(s, t, i, o, id1, now, out)
                  else FellIdle(s, t, i, out))
  {
    hide Tables, PreReady, Unknown, BecameReady, Recovered, FellIdle, ReadySlots;
    var c := At(s, i);
    if id2 != 0 && id2 == c.ids.my {
      var u := Put(s, i, c.(ids := c.ids.(opp := id1)));
      PutKeeps(s, i, c.(ids := c.ids.(opp := id1)));
      EchoedSame(s, u, i, id1, id3);
      var (t, out) := PreReady(u, i, id3, now);
      if Unknown(s, id3) {
        PreReadyFresh(u, i, id3, now);
        FreshSame(s, u, t, i, id1, id3, now, out);
      }
      if IsReady(s, o) && At(s, o).ids.cid == id3 {
        PreReadyKnown(u, i, o, id3, now);
        KnownSame(s, u, t, i, o, id1, now, out);
      }
    }
  }

  ghost predicate Echoed(s: Server, u: Server, i: nat, opp: U32) {
    Live(s, i) && At(s, i).phase.Handshake1? && u == Put(s, i, At(s, i).(ids := At(s, i).ids.(opp := opp)))
  }

  lemma EchoedSame(s: Server, u: Server, i: nat, opp: U32, cid: U32)
    requires Echoed(s, u, i, opp)
    ensures forall j :: Live(u, j) <==> Live(s, j)
    ensures forall j :: IsReady(u, j) <==> IsReady(s, j)
    ensures forall j :: IsReady(s, j) ==> At(u, j) == At(s, j)
    ensures Unknown(u, cid) <==> Unknown(s, cid)
    ensures ReadySlots(u) == ReadySlots(s)
  {
    assert forall j :: IsReady(u, j) <==> IsReady(s, j);
  }

  lemma FreshSame(s: Server, u: Server, t: Server, i: nat, opp: U32, cid: U32, now: U64, out: seq<Packet>)
    requires Echoed(s, u, i, opp)
    ensures BecameReady(u, t, i, opp, cid, now, out) ==> BecameReady(s, t, i, opp, cid, now, out)
    ensures FellIdle(u, t, i, out) ==> FellIdle(s, t, i, out)
  {
  }

  lemma KnownSame(s: Server, u: Server, t: Server, i: nat, o: nat, opp: U32, now: U64, out: seq<Packet>)
    requires Echoed(s, u, i, opp) && IsReady(s, o)
    ensures Live(u, o) && (Recovered(u, t, i, o, opp, now, out) ==> Recovered(s, t, i, o, opp, now, out))
    ensures FellIdle(u, t, i, out) ==> FellIdle(s, t, i, out)
  {
    if Recovered(u, t, i, o, opp, now, out) {
      forall j | Live(s, j) ensures At(s, j).generation != At(t, o).generation {
        assert Live(u, j) && At(u, j).generation == At(s, j).generation;
      }
    }
  }

  /** A handshake from an address without a connection opens one exactly when it is a first packet and
      fewer than ten thousand connections exist; the reply carries the id drawn for it. */
  lemma NewAddressExact(s: Server, a: Addr, id1: U32, id2: U32, id3: U32, now: U64, myId: U32, seed: U64)
    requires Tables(s) && a !in s.byAddr
    ensures var (t, out) := OnNewAddress(s, a, id1, id2, id3, now, myId, seed);
            if id2 == 0 && LiveCount(s) < 10000 then
              && out == [Bare(myId, id1, s.constId)]
              && a in t.byAddr && var i := t.byAddr[a];
                 && !Live(s, i) && Live(t, i)
                 && At(t, i).phase.Handshake1? && At(t, i).addr == a && At(t, i).ids.my == myId
                 && At(t, i).times.state == now && At(t, i).convs == map[] && At(t, i).nextSend == seed / 10
                 && (forall j :: j != i ==> (Live(t, j) <==> Live(s, j)))
                 && (forall j :: j != i && Live(s, j) ==> At(t, j) == At(s, j))
                 && t.byConst == s.byConst && t.readyNum == s.readyNum && t.constId == s.constId
            else t == s && out == []
  {
    hide FreeList, Allocate, AddrIndex, ConstIndex, SockIndex, Generations, Tables;
    FreeOf(s);
    if id2 == 0 && LiveCount(s) < 10000 {
      var c := Conn(Handshake1, a, Ids(myId, 0, 0), Times(now, 0, 0), s.nextGeneration, A.Window(0, A.Zeros()), seed / 10, map[]);
      AddKeeps(s, c);
    }
  }
}
