/** Every operation of the server keeps its tables consistent. */
module ServerTables {
  import opened Machine
  import Arith
  import A = AntiReplay
  import opened Server

  // ------------------------------------------------------------------ slabs

  lemma AllocateKeeps<T>(slots: seq<Option<T>>, free: seq<nat>, x: T)
    requires FreeList(slots, free)
    ensures var (slots', free', i) := Allocate(slots, free, x);
            && FreeList(slots', free')
            && i < |slots'| && slots'[i] == Some(x) && |slots| <= |slots'| <= Max(|slots|, i + 1)
            && i <= |slots| && (i < |slots| ==> slots[i].None?)
            && forall j :: 0 <= j < |slots'| && j != i ==> j < |slots| && slots'[j] == slots[j]
  {
    var (slots', free', i) := Allocate(slots, free, x);
    if free != [] {
      forall j | 0 <= j < |slots'| && slots'[j].None? ensures j in free' {
        assert j in free;
        var k :| 0 <= k < |free| && free[k] == j;
        assert free'[k] == j;
      }
    }
  }

  lemma UpdateKeepsFree<T>(slots: seq<Option<T>>, free: seq<nat>, i: nat, x: T)
    requires FreeList(slots, free) && i < |slots| && slots[i].Some?
    ensures FreeList(slots[i := Some(x)], free)
  {
  }

  lemma ReleaseKeepsFree<T>(slots: seq<Option<T>>, free: seq<nat>, i: nat)
    requires FreeList(slots, free) && i < |slots| && slots[i].Some?
    ensures FreeList(slots[i := None], free + [i])
  {
    var slots', free' := slots[i := None], free + [i];
    assert free'[|free|] == i;
    forall j | 0 <= j < |slots'| && slots'[j].None? ensures j in free' {
      if j != i { assert j in free; }
    }
  }

  // ------------------------------------------------------------------ updates of one connection

  /** A connection updated in place without touching what the indexes are about. */
  predicate SameRole(c: Conn, d: Conn) {
    && d.phase.Ready? == c.phase.Ready?
    && d.addr == c.addr && d.convs == c.convs && d.generation == c.generation
    && (c.phase.Ready? ==> d.ids.cid == c.ids.cid)
    && |d.window.bits| == |c.window.bits|
  }

  /** No socket and no conversation changes: connections keep theirs, new ones have none. */
  lemma SocksKept(s: Server, t: Server)
    requires SockIndex(s) && t.socks == s.socks
    requires forall j :: IsReady(s, j) ==> IsReady(t, j) && At(t, j).convs == At(s, j).convs
    requires forall j :: Live(t, j) ==> At(t, j).convs == if Live(s, j) then At(s, j).convs else map[]
    ensures SockIndex(t)
  {
    forall k | 0 <= k < |t.socks| && t.socks[k].Some? ensures SockOwned(t, k) {
      assert SockOwned(s, k);
    }
    forall j, conv | Live(t, j) && conv in At(t, j).convs ensures ConvOpen(t, j, conv) {
      assert Live(s, j) && ConvOpen(s, j, conv);
    }
  }

  lemma RolesAddr(s: Server, i: nat, d: Conn)
    requires AddrIndex(s) && Live(s, i) && d.addr == At(s, i).addr
    ensures AddrIndex(Put(s, i, d))
  {
    var t := Put(s, i, d);
    assert forall j :: Live(t, j) <==> Live(s, j);
  }

  lemma RolesConst(s: Server, i: nat, d: Conn)
    requires ConstIndex(s) && Live(s, i)
    requires d.phase.Ready? == At(s, i).phase.Ready? && (d.phase.Ready? ==> d.ids.cid == At(s, i).ids.cid)
    ensures ConstIndex(Put(s, i, d))
  {
    var t := Put(s, i, d);
    assert forall j :: IsReady(t, j) <==> IsReady(s, j);
  }

  lemma RolesGenerations(s: Server, i: nat, d: Conn)
    requires Generations(s) && Live(s, i) && d.generation == At(s, i).generation && |d.window.bits| == |At(s, i).window.bits|
    ensures Generations(Put(s, i, d))
  {
    var t := Put(s, i, d);
    assert forall j :: Live(t, j) <==> Live(s, j);
  }

  lemma PutKeeps(s: Server, i: nat, d: Conn)
    requires Tables(s) && Live(s, i) && SameRole(At(s, i), d)
    ensures Tables(Put(s, i, d))
  {
    hide FreeList, AddrIndex, ConstIndex, SockIndex, Generations;
    UpdateKeepsFree(s.conns, s.freeConns, i, d);
    RolesAddr(s, i, d);
    RolesConst(s, i, d);
    RolesGenerations(s, i, d);
    SocksKept(s, Put(s, i, d));
  }

  lemma SendKeeps(s: Server, i: nat)
    requires Tables(s) && Live(s, i)
    ensures Tables(SendSafer(s, i).0)
  {
    hide Tables;
    var c := At(s, i);
    PutKeeps(s, i, c.(nextSend := if c.nextSend == U64_MAX then 0 else c.nextSend + 1));
  }

  // ------------------------------------------------------------------ becoming ready

  ghost function Promoted(s: Server, i: nat, cid: U32, now: U64): Server
    requires Live(s, i)
  {
    Put(s, i, BecomeReady(At(s, i), cid, now)).(readyNum := s.readyNum + 1, byConst := s.byConst[cid := i])
  }

  lemma ReadyIndexes(s: Server, i: nat, cid: U32, now: U64)
    requires Tables(s) && Live(s, i) && !At(s, i).phase.Ready?
    requires cid !in s.byConst && s.readyNum < MAX_READY_CONN_NUM
    ensures AddrIndex(Promoted(s, i, cid, now)) && Generations(Promoted(s, i, cid, now))
  {
    hide FreeList, SockIndex, ConstIndex;
    var t := Promoted(s, i, cid, now);
    assert forall j :: Live(t, j) <==> Live(s, j);
  }

  lemma ReadyConst(s: Server, i: nat, cid: U32, now: U64)
    requires ConstIndex(s) && Live(s, i) && !At(s, i).phase.Ready?
    requires cid !in s.byConst && s.readyNum < MAX_READY_CONN_NUM
    ensures ConstIndex(Promoted(s, i, cid, now))
  {
    var t := Promoted(s, i, cid, now);
    assert forall j :: IsReady(t, j) <==> j == i || IsReady(s, j);
  }

  lemma ReadyKeeps(s: Server, i: nat, cid: U32, now: U64)
    requires Tables(s) && Live(s, i) && !At(s, i).phase.Ready?
    requires cid !in s.byConst && s.readyNum < MAX_READY_CONN_NUM
    ensures Tables(Promoted(s, i, cid, now))
  {
    hide FreeList, AddrIndex, ConstIndex, SockIndex, Generations;
    UpdateKeepsFree(s.conns, s.freeConns, i, BecomeReady(At(s, i), cid, now));
    ReadyIndexes(s, i, cid, now);
    ReadyConst(s, i, cid, now);
    SocksKept(s, Promoted(s, i, cid, now));
  }

  /** The state after a recovery, before its heartbeat. */
  ghost function Swapped(s: Server, i: nat, o: nat, now: U64): Server
    requires Live(s, i) && Live(s, o)
  {
    var c, ori := At(s, i), At(s, o);
    s.(byAddr := s.byAddr[c.addr := o][ori.addr := i], nextGeneration := s.nextGeneration + 1,
       conns := s.conns[o := Some(Recover(ori, c, now, s.nextGeneration))][i := Some(GiveUp(c).(addr := ori.addr))])
  }

  lemma SwapAddr(s: Server, i: nat, o: nat, now: U64)
    requires AddrIndex(s) && Live(s, i) && Live(s, o) && i != o
    ensures AddrIndex(Swapped(s, i, o, now))
  {
    var t := Swapped(s, i, o, now);
    assert forall j :: Live(t, j) <==> Live(s, j);
  }

  lemma SwapConst(s: Server, i: nat, o: nat, now: U64)
    requires ConstIndex(s) && Live(s, i) && !At(s, i).phase.Ready? && IsReady(s, o)
    ensures ConstIndex(Swapped(s, i, o, now))
  {
    var t := Swapped(s, i, o, now);
    assert forall j :: IsReady(t, j) <==> IsReady(s, j);
  }

  lemma SwapGenerations(s: Server, i: nat, o: nat, now: U64)
    requires Generations(s) && Live(s, i) && Live(s, o) && i != o
    ensures Generations(Swapped(s, i, o, now))
  {
    var t := Swapped(s, i, o, now);
    assert forall j :: Live(t, j) <==> Live(s, j);
  }

  lemma SwapKeeps(s: Server, i: nat, o: nat, now: U64)
    requires Tables(s) && Live(s, i) && !At(s, i).phase.Ready? && IsReady(s, o)
    ensures Tables(Swapped(s, i, o, now))
  {
    hide FreeList, AddrIndex, ConstIndex, SockIndex, Generations;
    var c, ori := At(s, i), At(s, o);
    UpdateKeepsFree(s.conns, s.freeConns, o, Recover(ori, c, now, s.nextGeneration));
    UpdateKeepsFree(s.conns[o := Some(Recover(ori, c, now, s.nextGeneration))], s.freeConns, i, GiveUp(c).(addr := ori.addr));
    SwapAddr(s, i, o, now);
    SwapConst(s, i, o, now);
    SwapGenerations(s, i, o, now);
    SocksKept(s, Swapped(s, i, o, now));
  }

  lemma PreReadyKeeps(s: Server, i: nat, cid: U32, now: U64)
    requires Tables(s) && Live(s, i) && At(s, i).phase.Handshake1?
    ensures Tables(PreReady(s, i, cid, now).0)
  {
    hide Tables, FreeList, AddrIndex, SockIndex, Generations;
    var c := At(s, i);
    if cid !in s.byConst {
      if s.readyNum >= MAX_READY_CONN_NUM {
        PutKeeps(s, i, c.(phase := Idle));
      } else {
        ReadyKeeps(s, i, cid, now);
        SendKeeps(Promoted(s, i, cid, now), i);
      }
    } else {
      NeverHappens(s, i, cid);
      var o := s.byConst[cid];
      if c.times.state < At(s, o).times.state {
        PutKeeps(s, i, GiveUp(c));
      } else {
        SwapKeeps(s, i, o, now);
        SendKeeps(Swapped(s, i, o, now), o);
      }
    }
  }

  /** The two branches logged as "shouldnt happen" in `pre_ready` are unreachable: the indexed
      connection is another one, it exists, and it is Ready. */
  lemma NeverHappens(s: Server, i: nat, cid: U32)
    requires Tables(s) && Live(s, i) && !At(s, i).phase.Ready? && cid in s.byConst
    ensures s.byConst[cid] != i && IsReady(s, s.byConst[cid])
  {
  }

  lemma Handshake1Keeps(s: Server, i: nat, id1: U32, id2: U32, id3: U32, now: U64)
    requires Tables(s) && Live(s, i) && At(s, i).phase.Handshake1?
    ensures Tables(OnHandshake1(s, i, id1, id2, id3, now).0)
  {
    hide Tables, PreReady;
    var c := At(s, i);
    if id2 != 0 && id2 == c.ids.my {
      var d := c.(ids := c.ids.(opp := id1));
      PutKeeps(s, i, d);
      PreReadyKeeps(Put(s, i, d), i, id3, now);
    }
  }

  /** A connection in a new slot, under a new address. */
  ghost function Added(s: Server, c: Conn): Server
    requires FreeList(s.conns, s.freeConns)
  {
    var (conns, free, i) := Allocate(s.conns, s.freeConns, c);
    s.(conns := conns, freeConns := free, byAddr := s.byAddr[c.addr := i], nextGeneration := s.nextGeneration + 1)
  }

  ghost predicate Newcomer(s: Server, c: Conn) {
    && c.addr !in s.byAddr && c.phase.Handshake1? && c.convs == map[]
    && c.generation == s.nextGeneration && |c.window.bits| == A.WINDOW
  }

  /** Slot `i` was empty and now holds `c`; everything else is unchanged. */
  ghost predicate Adds(s: Server, t: Server, i: nat, c: Conn) {
    && !Live(s, i) && Live(t, i) && At(t, i) == c
    && (forall j :: j != i ==> (Live(t, j) <==> Live(s, j)))
    && (forall j :: j != i && Live(s, j) ==> At(t, j) == At(s, j))
    && t.byAddr == s.byAddr[c.addr := i] && t.byConst == s.byConst && t.readyNum == s.readyNum
    && t.socks == s.socks && t.nextGeneration == s.nextGeneration + 1
  }

  lemma AddAdds(s: Server, c: Conn)
    requires FreeList(s.conns, s.freeConns)
    ensures Adds(s, Added(s, c), Allocate(s.conns, s.freeConns, c).2, c)
    ensures FreeList(Added(s, c).conns, Added(s, c).freeConns)
    ensures Added(s, c).socks == s.socks && Added(s, c).freeSocks == s.freeSocks
  {
    hide FreeList, Allocate;
    AllocateKeeps(s.conns, s.freeConns, c);
  }

  lemma AddIndexes(s: Server, t: Server, i: nat, c: Conn)
    requires AddrIndex(s) && ConstIndex(s) && Newcomer(s, c) && Adds(s, t, i, c)
    ensures AddrIndex(t) && ConstIndex(t)
  {
    assert forall j :: IsReady(t, j) <==> IsReady(s, j);
  }

  lemma AddGenerations(s: Server, t: Server, i: nat, c: Conn)
    requires Generations(s) && Newcomer(s, c) && Adds(s, t, i, c)
    ensures Generations(t)
  {
  }

  lemma AddKeeps(s: Server, c: Conn)
    requires Tables(s) && Newcomer(s, c)
    ensures Tables(Added(s, c)) && Adds(s, Added(s, c), Allocate(s.conns, s.freeConns, c).2, c)
  {
    hide FreeList, Allocate, AddrIndex, ConstIndex, SockIndex, Generations, Added;
    var t, i := Added(s, c), Allocate(s.conns, s.freeConns, c).2;
    AddAdds(s, c);
    AddIndexes(s, t, i, c);
    AddGenerations(s, t, i, c);
    SocksKept(s, t);
  }

  lemma NewAddressKeeps(s: Server, a: Addr, id1: U32, id2: U32, id3: U32, now: U64, myId: U32, seed: U64)
    requires Tables(s) && a !in s.byAddr
    ensures Tables(OnNewAddress(s, a, id1, id2, id3, now, myId, seed).0)
  {
    hide Tables, Allocate, OnHandshake1;
    assert FreeList(s.conns, s.freeConns) by { FreeOf(s); }
    if LiveCount(s) < MAX_HANDSHAKE_CONN_NUM && id2 == 0 {
      var c := Conn(Handshake1, a, Ids(myId, 0, 0), Times(now, 0, 0), s.nextGeneration, A.Window(0, A.Zeros()), seed / 10, map[]);
      AddKeeps(s, c);
      Handshake1Keeps(Added(s, c), Allocate(s.conns, s.freeConns, c).2, id1, id2, id3, now);
    }
  }

  lemma FreeOf(s: Server)
    requires Tables(s)
    ensures FreeList(s.conns, s.freeConns) && FreeList(s.socks, s.freeSocks)
  {
  }

  // ------------------------------------------------------------------ traffic

  lemma AcceptKeeps(s: Server, i: nat, from: U32, to: U32, seqno: U64)
    requires Tables(s) && Live(s, i)
    ensures |At(s, i).window.bits| == A.WINDOW && Tables(Accept(s, i, from, to, seqno).0)
  {
    hide FreeList, AddrIndex, ConstIndex, SockIndex, A.Check;
    var c := At(s, i);
    if c.phase.Ready? && from == c.ids.opp && to == c.ids.my {
      PutKeeps(s, i, c.(window := A.Check(c.window, seqno).0));
    }
  }

  /** A Ready connection opens socket `k` for a new conversation. */
  ghost function Opened(s: Server, i: nat, conv: U32): Server
    requires IsReady(s, i) && FreeList(s.socks, s.freeSocks)
  {
    var (socks, free, k) := Allocate(s.socks, s.freeSocks, Sock(i, conv));
    Put(s.(socks := socks, freeSocks := free), i, At(s, i).(convs := At(s, i).convs[conv := k]))
  }

  lemma OpenSocks(s: Server, i: nat, conv: U32)
    requires SockIndex(s) && IsReady(s, i) && conv !in At(s, i).convs && FreeList(s.socks, s.freeSocks)
    ensures SockIndex(Opened(s, i, conv))
  {
    hide FreeList, Allocate;
    AllocateKeeps(s.socks, s.freeSocks, Sock(i, conv));
    var t, k := Opened(s, i, conv), Allocate(s.socks, s.freeSocks, Sock(i, conv)).2;
    assert forall j :: IsReady(t, j) <==> IsReady(s, j);
    forall m | 0 <= m < |t.socks| && t.socks[m].Some? ensures SockOwned(t, m) {
      if m != k { assert SockOwned(s, m); }
    }
    forall j, v | Live(t, j) && v in At(t, j).convs ensures ConvOpen(t, j, v) {
      if j != i || v != conv { assert ConvOpen(s, j, v); }
    }
  }

  lemma OpenIndexes(s: Server, i: nat, conv: U32)
    requires AddrIndex(s) && ConstIndex(s) && Generations(s) && IsReady(s, i) && FreeList(s.socks, s.freeSocks)
    ensures AddrIndex(Opened(s, i, conv)) && ConstIndex(Opened(s, i, conv)) && Generations(Opened(s, i, conv))
  {
    hide FreeList, Allocate, AddrIndex, ConstIndex, Generations;
    var t := Opened(s, i, conv);
    ExpireIndexes(s, i, At(t, i));
    SameConns(Put(s, i, At(t, i)), t);
  }

  lemma OpenKeeps(s: Server, i: nat, conv: U32)
    requires Tables(s) && IsReady(s, i) && conv !in At(s, i).convs
    ensures Tables(Opened(s, i, conv))
  {
    hide FreeList, Allocate, AddrIndex, ConstIndex, SockIndex, Generations;
    AllocateKeeps(s.socks, s.freeSocks, Sock(i, conv));
    UpdateKeepsFree(s.conns, s.freeConns, i, At(Opened(s, i, conv), i));
    OpenSocks(s, i, conv);
    OpenIndexes(s, i, conv);
  }

  lemma DataKeeps(s: Server, i: nat, conv: U32, connected: bool, registered: bool)
    requires Tables(s) && IsReady(s, i)
    ensures FreeList(s.socks, s.freeSocks) && Tables(OnData(s, i, conv, connected, registered))
  {
    hide Tables, Allocate;
    FreeOf(s);
    var c := At(s, i);
    if conv !in c.convs && |c.convs| < MAX_CONV_NUM && connected {
      if registered {
        OpenKeeps(s, i, conv);
      } else {
        TakenBack(s, i, conv);
      }
    }
  }

  /** A socket that could not be registered leaves the tables as they were, up to its free slot. */
  lemma TakenBack(s: Server, i: nat, conv: U32)
    requires Tables(s) && FreeList(s.socks, s.freeSocks)
    ensures var (socks, free, k) := Allocate(s.socks, s.freeSocks, Sock(i, conv));
            Tables(CloseSock(s.(socks := socks, freeSocks := free), k))
  {
    hide FreeList, Allocate, AddrIndex, ConstIndex, SockIndex, Generations;
    AllocateKeeps(s.socks, s.freeSocks, Sock(i, conv));
    var (socks, free, k) := Allocate(s.socks, s.freeSocks, Sock(i, conv));
    var t := CloseSock(s.(socks := socks, freeSocks := free), k);
    ReleaseKeepsFree(socks, free, k);
    SameConns(s, t);
    assert t.socks == socks[k := None];
    SameSocks(s, t, k);
  }

  lemma SameConns(s: Server, t: Server)
    requires AddrIndex(s) && ConstIndex(s) && Generations(s)
    requires t.conns == s.conns && t.byAddr == s.byAddr && t.byConst == s.byConst && t.readyNum == s.readyNum
    requires t.nextGeneration == s.nextGeneration
    ensures AddrIndex(t) && ConstIndex(t) && Generations(t)
  {
    assert forall j :: Live(t, j) <==> Live(s, j);
    assert forall j :: IsReady(t, j) <==> IsReady(s, j);
  }

  /** Slot `k` is empty in both slabs of sockets; nothing else differs. */
  lemma SameSocks(s: Server, t: Server, k: nat)
    requires SockIndex(s) && t.conns == s.conns
    requires k <= |s.socks| <= |t.socks| <= Max(|s.socks|, k + 1)
    requires forall m :: 0 <= m < |s.socks| && m != k ==> t.socks[m] == s.socks[m]
    requires (k < |t.socks| ==> t.socks[k].None?) && (k < |s.socks| ==> s.socks[k].None?)
    ensures SockIndex(t)
  {
    forall m | 0 <= m < |t.socks| && t.socks[m].Some? ensures SockOwned(t, m) {
      assert SockOwned(s, m);
    }
    forall j, v | Live(t, j) && v in At(t, j).convs ensures ConvOpen(t, j, v) {
      assert ConvOpen(s, j, v);
    }
  }

  /** The branch logged as "shouldnt happen" for a packet from a conversation socket is unreachable. */
  lemma SocketHasReadyOwner(s: Server, k: nat)
    requires Tables(s) && k < |s.socks| && s.socks[k].Some?
    ensures IsReady(s, s.socks[k].value.slot)
    ensures At(s, s.socks[k].value.slot).convs[s.socks[k].value.conv] == k
  {
    assert SockOwned(s, k);
  }

  // ------------------------------------------------------------------ closing

  ghost predicate OpenSet(s: Server, ks: seq<nat>) {
    && (forall i :: 0 <= i < |ks| ==> ks[i] < |s.socks| && s.socks[ks[i]].Some?)
    && forall i, j :: 0 <= i < j < |ks| ==> ks[i] != ks[j]
  }

  /** Exactly the listed sockets are closed, and nothing but the socket slab changes. */
  ghost predicate Closes(s: Server, t: Server, ks: seq<nat>) {
    && t == s.(socks := t.socks, freeSocks := t.freeSocks)
    && |t.socks| == |s.socks|
    && forall m :: 0 <= m < |s.socks| ==> t.socks[m] == if m in ks then None else s.socks[m]
  }

  lemma {:induction false} CloseSocksEffect(s: Server, ks: seq<nat>)
    requires FreeList(s.socks, s.freeSocks) && OpenSet(s, ks)
    ensures Closes(s, CloseSocks(s, ks), ks) && FreeList(CloseSocks(s, ks).socks, CloseSocks(s, ks).freeSocks)
  {
    hide FreeList, Closes, OpenSet;
    if ks == [] {
      ClosesNothing(s);
    } else {
      var n := |ks| - 1;
      OpenPrefix(s, ks);
      CloseSocksEffect(s, ks[..n]);
      var t := CloseSocks(s, ks[..n]);
      ClosesOneMore(s, t, ks);
      ReleaseKeepsFree(t.socks, t.freeSocks, ks[n]);
    }
  }

  lemma ClosesNothing(s: Server)
    ensures Closes(s, s, [])
  {
  }

  lemma OpenPrefix(s: Server, ks: seq<nat>)
    requires OpenSet(s, ks) && ks != []
    ensures OpenSet(s, ks[..|ks| - 1])
  {
  }

  lemma ClosesOneMore(s: Server, t: Server, ks: seq<nat>)
    requires OpenSet(s, ks) && ks != [] && Closes(s, t, ks[..|ks| - 1])
    ensures var k := ks[|ks| - 1]; k < |t.socks| && t.socks[k].Some? && Closes(s, CloseSock(t, k), ks)
  {
    var n, k := |ks| - 1, ks[|ks| - 1];
    assert k !in ks[..n];
    var u := CloseSock(t, k);
    forall m | 0 <= m < |s.socks| ensures u.socks[m] == if m in ks then None else s.socks[m] {
      assert ks == ks[..n] + [k];
    }
  }

  /** The conversations of one connection use distinct open sockets. */
  lemma ConvsAreOpen(s: Server, i: nat, convs: map<U32, nat>, ks: seq<nat>)
    requires SockIndex(s) && Live(s, i) && Lists(convs, ks)
    requires forall v :: v in convs ==> v in At(s, i).convs && At(s, i).convs[v] == convs[v]
    ensures OpenSet(s, ks)
    ensures forall k :: k in ks ==> k < |s.socks| && s.socks[k].Some? && s.socks[k].value.slot == i && s.socks[k].value.conv in convs
  {
    forall k | k in ks ensures k < |s.socks| && s.socks[k].Some? && s.socks[k].value.slot == i && s.socks[k].value.conv in convs {
      assert k in convs.Values;
      var v :| v in convs && convs[v] == k;
      assert ConvOpen(s, i, v);
    }
    forall m | 0 <= m < |ks| ensures ks[m] < |s.socks| && s.socks[ks[m]].Some? {
      assert ks[m] in ks;
    }
  }

  /** The connection table without slot `i`. */
  ghost function Removed(s: Server, i: nat): Server
    requires Live(s, i)
  {
    var c := At(s, i);
    s.(conns := s.conns[i := None], freeConns := s.freeConns + [i], byAddr := s.byAddr - {c.addr},
       readyNum := if c.phase.Ready? then SatSub(s.readyNum, 1) else s.readyNum,
       byConst := if c.phase.Ready? then s.byConst - {c.ids.cid} else s.byConst)
  }

  lemma RemoveAddr(s: Server, i: nat)
    requires AddrIndex(s) && Generations(s) && Live(s, i)
    ensures AddrIndex(Removed(s, i)) && Generations(Removed(s, i))
  {
    var t := Removed(s, i);
    assert forall j :: Live(t, j) <==> j != i && Live(s, j);
  }

  lemma MapRemoveSize<K, V>(m: map<K, V>, k: K)
    requires k in m
    ensures |m - {k}| + 1 == |m|
  {
    assert (m - {k}).Keys == m.Keys - {k};
    assert |m.Keys| == |m| && |(m - {k}).Keys| == |m - {k}|;
  }

  lemma RemoveConst(s: Server, i: nat)
    requires ConstIndex(s) && Live(s, i)
    ensures ConstIndex(Removed(s, i))
  {
    if At(s, i).phase.Ready? {
      RemoveReady(s, i);
    } else {
      RemoveUnready(s, i);
    }
  }

  lemma RemoveReady(s: Server, i: nat)
    requires ConstIndex(s) && IsReady(s, i)
    ensures ConstIndex(Removed(s, i))
  {
    var t, cid := Removed(s, i), At(s, i).ids.cid;
    MapRemoveSize(s.byConst, cid);
    ReadyRemoved(s, t, i, cid);
  }

  lemma RemoveUnready(s: Server, i: nat)
    requires ConstIndex(s) && Live(s, i) && !At(s, i).phase.Ready?
    ensures ConstIndex(Removed(s, i))
  {
    hide ConstIndex;
    ConstKept(s, Removed(s, i));
  }

  /** The same connections are Ready, under the same constant ids. */
  lemma ConstKept(s: Server, t: Server)
    requires ConstIndex(s) && t.byConst == s.byConst && t.readyNum == s.readyNum
    requires forall j :: IsReady(s, j) ==> IsReady(t, j) && At(t, j).ids.cid == At(s, j).ids.cid
    requires forall j :: IsReady(t, j) ==> IsReady(s, j)
    ensures ConstIndex(t)
  {
    hide Live, At;
    forall k | k in t.byConst ensures IsReady(t, t.byConst[k]) && At(t, t.byConst[k]).ids.cid == k {
      assert IsReady(s, s.byConst[k]);
    }
    forall j | IsReady(t, j) ensures At(t, j).ids.cid in t.byConst && t.byConst[At(t, j).ids.cid] == j {
      assert IsReady(s, j);
    }
  }

  lemma ReadyRemoved(s: Server, t: Server, i: nat, cid: U32)
    requires ConstIndex(s) && IsReady(s, i) && At(s, i).ids.cid == cid
    requires t.conns == s.conns[i := None] && t.byConst == s.byConst - {cid}
    ensures forall k :: k in t.byConst ==> IsReady(t, t.byConst[k]) && At(t, t.byConst[k]).ids.cid == k
    ensures forall j :: IsReady(t, j) ==> At(t, j).ids.cid in t.byConst && t.byConst[At(t, j).ids.cid] == j
  {
    forall k | k in t.byConst ensures IsReady(t, t.byConst[k]) && At(t, t.byConst[k]).ids.cid == k {
      assert k in s.byConst && t.byConst[k] == s.byConst[k];
    }
    forall j | IsReady(t, j) ensures At(t, j).ids.cid in t.byConst && t.byConst[At(t, j).ids.cid] == j {
      assert IsReady(s, j) && At(t, j) == At(s, j);
    }
  }

  lemma InValues(m: map<U32, nat>, v: U32)
    requires v in m
    ensures m[v] in m.Values
  {
  }

  /** An open socket whose conversation is in `convs` is among the listed ones. */
  lemma OwnedListed(s: Server, i: nat, convs: map<U32, nat>, ks: seq<nat>, m: nat)
    requires SockIndex(s) && Live(s, i) && Lists(convs, ks) && m < |s.socks| && s.socks[m].Some?
    requires forall v :: v in convs ==> v in At(s, i).convs && At(s, i).convs[v] == convs[v]
    ensures SockOwned(s, m)
    ensures s.socks[m].value.slot == i && s.socks[m].value.conv in convs ==> m in ks
  {
    assert SockOwned(s, m);
    if s.socks[m].value.slot == i && s.socks[m].value.conv in convs {
      InValues(convs, s.socks[m].value.conv);
    }
  }

  lemma RemoveSocks(s: Server, t: Server, i: nat, ks: seq<nat>)
    requires SockIndex(s) && Live(s, i) && Lists(At(s, i).convs, ks)
    requires t.conns == s.conns[i := None] && |t.socks| == |s.socks|
    requires forall m :: 0 <= m < |s.socks| ==> t.socks[m] == if m in ks then None else s.socks[m]
    ensures SockIndex(t)
  {
    hide Lists;
    ConvsAreOpen(s, i, At(s, i).convs, ks);
    assert forall j :: Live(t, j) <==> j != i && Live(s, j);
    forall m | 0 <= m < |t.socks| && t.socks[m].Some? ensures SockOwned(t, m) {
      OwnedListed(s, i, At(s, i).convs, ks, m);
    }
    forall j, v | Live(t, j) && v in At(t, j).convs ensures ConvOpen(t, j, v) {
      assert ConvOpen(s, j, v);
    }
  }

  /** Erasing a connection removes it from every table and closes exactly its sockets. */
  lemma EraseKeeps(s: Server, i: nat, ks: seq<nat>)
    requires Tables(s) && Live(s, i) && Lists(At(s, i).convs, ks)
    ensures Tables(Erase(s, i, ks))
    ensures forall j :: Live(Erase(s, i, ks), j) <==> j != i && Live(s, j)
    ensures forall j :: j != i && Live(s, j) ==> At(Erase(s, i, ks), j) == At(s, j)
    ensures LiveCount(Erase(s, i, ks)) + 1 == LiveCount(s)
  {
    hide FreeList, AddrIndex, ConstIndex, SockIndex, Generations, CloseSocks, Lists;
    var c := At(s, i);
    var s2 := s.(conns := s.conns[i := None], byConst := Removed(s, i).byConst, readyNum := Removed(s, i).readyNum);
    ConvsAreOpen(s, i, c.convs, ks);
    CloseSocksEffect(s2, ks);
    var t := Erase(s, i, ks);
    assert t == Removed(s, i).(socks := CloseSocks(s2, ks).socks, freeSocks := CloseSocks(s2, ks).freeSocks);
    ReleaseKeepsFree(s.conns, s.freeConns, i);
    RemoveAddr(s, i);
    RemoveConst(s, i);
    SameConns(Removed(s, i), t);
    RemoveSocks(s, t, i, ks);
    FreeFits(s.conns, s.freeConns, i);
  }

  lemma FreeFits<T>(slots: seq<Option<T>>, free: seq<nat>, i: nat)
    requires FreeList(slots, free) && i < |slots| && slots[i].Some?
    ensures |free| < |slots|
  {
    var used := Arith.Members(free);
    Arith.MembersSize(free);
    assert i in Arith.Below(|slots|) && i !in used;
    assert used <= Arith.Below(|slots|) - {i};
    Arith.SubsetSize(used, Arith.Below(|slots|) - {i});
  }

  lemma ExpireSocks(s: Server, t: Server, i: nat, gone: set<U32>, ks: seq<nat>)
    requires SockIndex(s) && Live(s, i) && Lists(map v | v in gone && v in At(s, i).convs :: At(s, i).convs[v], ks)
    requires t.conns == s.conns[i := Some(At(s, i).(convs := At(s, i).convs - gone))] && |t.socks| == |s.socks|
    requires forall m :: 0 <= m < |s.socks| ==> t.socks[m] == if m in ks then None else s.socks[m]
    ensures SockIndex(t)
  {
    hide Lists;
    var convs := map v | v in gone && v in At(s, i).convs :: At(s, i).convs[v];
    ConvsAreOpen(s, i, convs, ks);
    assert forall j :: IsReady(t, j) <==> IsReady(s, j);
    forall m | 0 <= m < |t.socks| && t.socks[m].Some? ensures SockOwned(t, m) {
      OwnedListed(s, i, convs, ks, m);
    }
    forall j, v | Live(t, j) && v in At(t, j).convs ensures ConvOpen(t, j, v) {
      assert ConvOpen(s, j, v);
    }
  }

  lemma ExpireIndexes(s: Server, i: nat, d: Conn)
    requires AddrIndex(s) && ConstIndex(s) && Generations(s) && Live(s, i) && d == At(s, i).(convs := d.convs)
    ensures AddrIndex(Put(s, i, d)) && ConstIndex(Put(s, i, d)) && Generations(Put(s, i, d))
  {
    RolesAddr(s, i, d);
    RolesConst(s, i, d);
    RolesGenerations(s, i, d);
  }

  /** Expired conversations lose exactly their sockets. */
  /** Expiry takes exactly the expired conversations from one connection and closes exactly their sockets. */
  lemma ExpireKeeps(s: Server, i: nat, gone: set<U32>, ks: seq<nat>)
    requires Tables(s) && Live(s, i)
    requires Lists(map v | v in gone && v in At(s, i).convs :: At(s, i).convs[v], ks)
    ensures Tables(Expire(s, i, gone, ks))
    ensures var t, c := Expire(s, i, gone, ks), At(s, i);
            && t == s.(conns := s.conns[i := Some(c.(convs := c.convs - gone))], socks := t.socks, freeSocks := t.freeSocks)
            && |t.socks| == |s.socks|
            && forall m :: 0 <= m < |s.socks| ==> t.socks[m] == if m in ks then None else s.socks[m]
  {
    hide FreeList, AddrIndex, ConstIndex, SockIndex, Generations, CloseSocks, Lists;
    var d := At(s, i).(convs := At(s, i).convs - gone);
    var s1 := Put(s, i, d);
    UpdateKeepsFree(s.conns, s.freeConns, i, d);
    ConvsAreOpen(s, i, map v | v in gone && v in At(s, i).convs :: At(s, i).convs[v], ks);
    CloseSocksEffect(s1, ks);
    var t := Expire(s, i, gone, ks);
    ExpireIndexes(s, i, d);
    SameConns(s1, t);
    ExpireSocks(s, t, i, gone, ks);
  }

  // ------------------------------------------------------------------ whole runs

  /** `beats` says that DATA counts as a heartbeat (`hb_mode` 0). */
  datatype Body = HeartbeatBody | DataBody(conv: U32, connected: bool, registered: bool, beats: bool) | OtherBody

  /** What happens to a server: a handshake packet from an address, a decrypted safer packet of a
      pipeline job, a packet from a conversation socket, a heartbeat, one visit of the sweep, and
      expired conversations. Sockets are closed in the order `ks` the hash map yields them. */
  datatype Event =
    | Handshake(addr: Addr, id1: U32, id2: U32, id3: U32, now: U64, myId: U32, seed: U64)
    | Decrypted(slot: nat, generation: nat, from: U32, to: U32, seqno: U64, body: Body, now: U64)
    | FromSocket(k: nat)
    | Heartbeat(slot: nat, now: U64)
    | Visit(slot: nat, now: U64, ks: seq<nat>)
    | Expired(slot: nat, gone: set<U32>, ks: seq<nat>)

  /** `valid_ready`: the job's connection is still there, in the same generation, and Ready. */
  predicate ValidReady(s: Server, slot: nat, generation: nat) {
    Live(s, slot) && At(s, slot).generation == generation && At(s, slot).phase.Ready?
  }

  ghost function OnPacket(s: Server, i: nat, body: Body, now: U64): Server
    requires Tables(s) && IsReady(s, i)
  {
    match body
    case HeartbeatBody => Beat(s, i, now)
    case DataBody(conv, connected, registered, beats) =>
      OnData(if beats then Beat(s, i, now) else s, i, conv, connected, registered)
    case OtherBody => s
  }

  ghost function Received(s: Server, i: nat, from: U32, to: U32, seqno: U64, body: Body, now: U64): Server
    requires Tables(s) && IsReady(s, i)
  {
    AcceptKeeps(s, i, from, to, seqno);
    var (t, ok) := Accept(s, i, from, to, seqno);
    if ok then OnPacket(t, i, body, now) else t
  }

  /** What a handshake packet is answered with. */
  ghost function Reply(s: Server, a: Addr, id1: U32, id2: U32, id3: U32, now: U64, myId: U32, seed: U64): seq<Packet>
    requires Tables(s)
  {
    if a !in s.byAddr then OnNewAddress(s, a, id1, id2, id3, now, myId, seed).1
    else if At(s, s.byAddr[a]).phase.Handshake1? then OnHandshake1(s, s.byAddr[a], id1, id2, id3, now).1
    else []
  }

  ghost function Step(s: Server, e: Event): Server
    requires Tables(s)
  {
    match e
    case Handshake(addr, id1, id2, id3, now, myId, seed) =>
      if addr !in s.byAddr then OnNewAddress(s, addr, id1, id2, id3, now, myId, seed).0
      else if At(s, s.byAddr[addr]).phase.Handshake1? then OnHandshake1(s, s.byAddr[addr], id1, id2, id3, now).0
      else s
    case Decrypted(slot, generation, from, to, seqno, body, now) =>
      if ValidReady(s, slot, generation) then Received(s, slot, from, to, seqno, body, now) else s
    case FromSocket(k) =>
      if k < |s.socks| && s.socks[k].Some? && Live(s, s.socks[k].value.slot)
      then SendSafer(s, s.socks[k].value.slot).0 else s
    case Heartbeat(slot, now) =>
      if IsReady(s, slot) then
        var c := At(s, slot);
        SendSafer(Put(s, slot, c.(times := c.times.(hbSent := now))), slot).0
      else s
    case Visit(slot, now, ks) =>
      if Live(s, slot) && !Keep(At(s, slot), now) && Lists(At(s, slot).convs, ks) then Erase(s, slot, ks) else s
    case Expired(slot, gone, ks) =>
      if IsReady(s, slot) && Lists(map v | v in gone && v in At(s, slot).convs :: At(s, slot).convs[v], ks)
      then Expire(s, slot, gone, ks) else s
  }

  lemma ReceivedKeeps(s: Server, i: nat, from: U32, to: U32, seqno: U64, body: Body, now: U64)
    requires Tables(s) && IsReady(s, i)
    ensures Tables(Received(s, i, from, to, seqno, body, now))
  {
    hide Tables, OnData, A.Check;
    AcceptKeeps(s, i, from, to, seqno);
    var (t, ok) := Accept(s, i, from, to, seqno);
    if ok {
      match body
      case HeartbeatBody => PutKeeps(t, i, At(t, i).(times := At(t, i).times.(hbRecv := now)));
      case DataBody(conv, connected, registered, beats) =>
        PutKeeps(t, i, At(t, i).(times := At(t, i).times.(hbRecv := now)));
        DataKeeps(if beats then Beat(t, i, now) else t, i, conv, connected, registered);
      case OtherBody =>
    }
  }

  lemma StepKeeps(s: Server, e: Event)
    requires Tables(s)
    ensures Tables(Step(s, e))
  {
    hide FreeList, AddrIndex, ConstIndex, SockIndex, Generations, Lists, OnHandshake1, OnNewAddress, Erase, Expire, Received;
    match e
    case Handshake(addr, id1, id2, id3, now, myId, seed) =>
      if addr !in s.byAddr {
        NewAddressKeeps(s, addr, id1, id2, id3, now, myId, seed);
      } else {
        AddrIsLive(s, addr);
        if At(s, s.byAddr[addr]).phase.Handshake1? { Handshake1Keeps(s, s.byAddr[addr], id1, id2, id3, now); }
      }
    case Decrypted(slot, generation, from, to, seqno, body, now) =>
      if ValidReady(s, slot, generation) { ReceivedKeeps(s, slot, from, to, seqno, body, now); }
    case FromSocket(k) =>
      if k < |s.socks| && s.socks[k].Some? && Live(s, s.socks[k].value.slot) { SendKeeps(s, s.socks[k].value.slot); }
    case Heartbeat(slot, now) =>
      if IsReady(s, slot) {
        var c := At(s, slot);
        PutKeeps(s, slot, c.(times := c.times.(hbSent := now)));
        SendKeeps(Put(s, slot, c.(times := c.times.(hbSent := now))), slot);
      }
    case Visit(slot, now, ks) =>
      if Live(s, slot) && !Keep(At(s, slot), now) && Lists(At(s, slot).convs, ks) { EraseKeeps(s, slot, ks); }
    case Expired(slot, gone, ks) =>
      if IsReady(s, slot) && Lists(map v | v in gone && v in At(s, slot).convs :: At(s, slot).convs[v], ks) {
        ExpireKeeps(s, slot, gone, ks);
      }
  }

  lemma AddrIsLive(s: Server, a: Addr)
    requires Tables(s) && a in s.byAddr
    ensures Live(s, s.byAddr[a])
  {
  }

  lemma EmptyTables(constId: U32)
    ensures Tables(Empty(constId))
  {
  }

  ghost function Run(s: Server, es: seq<Event>): (t: Server)
    requires Tables(s)
    ensures Tables(t)
    decreases |es|
  {
    if es == [] then s
    else
      StepKeeps(Run(s, es[..|es| - 1]), es[|es| - 1]);
      Step(Run(s, es[..|es| - 1]), es[|es| - 1])
  }

  /** The Ready connections. */
  ghost function ReadySlots(s: Server): set<nat> {
    set i | 0 <= i < |s.conns| && IsReady(s, i)
  }

  lemma {:induction false} Bijection(m: map<U32, nat>, r: set<nat>)
    requires forall k :: k in m ==> m[k] in r
    requires forall i :: i in r ==> exists k :: k in m && m[k] == i
    requires forall k, l :: k in m && l in m && m[k] == m[l] ==> k == l
    ensures |m| == |r|
  {
    if r == {} {
      assert m.Keys == {};
    } else {
      var i :| i in r;
      var k :| k in m && m[k] == i;
      var m', r' := m - {k}, r - {i};
      forall j | j in r' ensures exists l :: l in m' && m'[l] == j {
        var l :| l in m && m[l] == j;
        assert l in m' && m'[l] == j;
      }
      Bijection(m', r');
      MapRemoveSize(m, k);
    }
  }

  /** In every run from an empty server: `byAddr` inverts the live addresses, `byConst` maps exactly
      the Ready connections and `readyNum` counts them (at most a thousand), the free lists are
      exactly the empty slots, and every open socket belongs to one conversation of one Ready
      connection. */
  lemma TablesStayConsistent(constId: U32, es: seq<Event>)
    ensures Tables(Empty(constId))
    ensures var s := Run(Empty(constId), es);
            && Tables(s)
            && s.readyNum == |ReadySlots(s)| <= MAX_READY_CONN_NUM
  {
    EmptyTables(constId);
    var s := Run(Empty(constId), es);
    CountReady(s);
  }

  lemma CountReady(s: Server)
    requires ConstIndex(s)
    ensures s.readyNum == |ReadySlots(s)|
  {
    forall i | i in ReadySlots(s) ensures exists k :: k in s.byConst && s.byConst[k] == i {
      assert IsReady(s, i);
      assert s.byConst[At(s, i).ids.cid] == i;
    }
    forall k, l | k in s.byConst && l in s.byConst && s.byConst[k] == s.byConst[l] ensures k == l {
      assert At(s, s.byConst[k]).ids.cid == k;
    }
    Bijection(s.byConst, ReadySlots(s));
  }
}
