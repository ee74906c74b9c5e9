/** The server as it runs: tables updated in place, with the early returns of the program. */
module ServerObject {
  import opened Machine
  import A = AntiReplay
  import S = Server
  import opened ServerTables
  import T = ServerTables
  import Sweep = ServerSweep

  class Server {
    var conns: seq<Option<S.Conn>>
    var freeConns: seq<nat>
    var byAddr: map<S.Addr, nat>
    var byConst: map<U32, nat>
    var readyNum: nat
    var socks: seq<Option<S.Sock>>
    var freeSocks: seq<nat>
    var cursor: nat
    var lastClear: U64
    var nextGeneration: nat
    const constId: U32

    function Value(): S.Server
      reads this
    {
      S.Server(conns, freeConns, byAddr, byConst, readyNum, socks, freeSocks, cursor, lastClear, nextGeneration, constId)
    }

    ghost predicate Valid()
      reads this
    {
      S.Tables(Value())
    }

    constructor (constId: U32)
      ensures Valid() && Value() == S.Empty(constId)
    {
      conns, freeConns, byAddr, byConst, readyNum, socks, freeSocks := [], [], map[], map[], 0, [], [];
      cursor, lastClear, nextGeneration := 0, 0, 1;
      this.constId := constId;
      new;
      EmptyTables(constId);
    }

    predicate Live(i: nat)
      reads this
    {
      i < |conns| && conns[i].Some?
    }

    /** A heartbeat of connection `i`: the packet handed to the pipeline. */
    method SendHeartbeat(i: nat) returns (p: S.Packet)
      requires Valid() && Live(i)
      modifies this`conns
      ensures Valid() && (Value(), p) == S.SendSafer(old(Value()), i)
    {
      hide S.Tables;
      SendKeeps(Value(), i);
      var c := conns[i].value;
      p := S.Safer(c.ids.my, c.ids.opp, c.nextSend);
      conns := conns[i := Some(c.(nextSend := if c.nextSend == U64_MAX then 0 else c.nextSend + 1))];
    }

    method PreReady(i: nat, cid: U32, now: U64) returns (out: seq<S.Packet>)
      requires Valid() && Live(i) && conns[i].value.phase.Handshake1?
      modifies this
      ensures Valid() && (Value(), out) == S.PreReady(old(Value()), i, cid, now)
    {
      hide S.Tables;
      PreReadyKeeps(Value(), i, cid, now);
      var c := conns[i].value;
      if cid !in byConst {
        if readyNum >= S.MAX_READY_CONN_NUM {
          conns := conns[i := Some(c.(phase := S.Idle))];
          return [];
        }
        ReadyKeeps(Value(), i, cid, now);
        conns := conns[i := Some(S.BecomeReady(c, cid, now))];
        readyNum := readyNum + 1;
        byConst := byConst[cid := i];
        var p := SendHeartbeat(i);
        return [p];
      }
      var o := byConst[cid];
      NeverHappens(Value(), i, cid);
      var ori := conns[o].value;
      if c.times.state < ori.times.state {
        conns := conns[i := Some(S.GiveUp(c))];
        return [];
      }
      SwapKeeps(Value(), i, o, now);
      byAddr := byAddr[c.addr := o];
      byAddr := byAddr[ori.addr := i];
      conns := conns[o := Some(S.Recover(ori, c, now, nextGeneration))];
      nextGeneration := nextGeneration + 1;
      conns := conns[i := Some(S.GiveUp(c).(addr := ori.addr))];
      var p := SendHeartbeat(o);
      return [p];
    }

    method OnHandshake1(i: nat, id1: U32, id2: U32, id3: U32, now: U64) returns (out: seq<S.Packet>)
      requires Valid() && Live(i) && conns[i].value.phase.Handshake1?
      modifies this
      ensures Valid() && (Value(), out) == S.OnHandshake1(old(Value()), i, id1, id2, id3, now)
    {
      hide S.Tables, S.PreReady;
      var c := conns[i].value;
      if id2 == 0 {
        return [S.Bare(c.ids.my, id1, constId)];
      }
      if id2 == c.ids.my {
        PutKeeps(Value(), i, c.(ids := c.ids.(opp := id1)));
        conns := conns[i := Some(c.(ids := c.ids.(opp := id1)))];
        out := PreReady(i, id3, now);
        return;
      }
      return [];
    }

    method AllocConn(c: S.Conn) returns (i: nat)
      requires S.FreeList(conns, freeConns)
      modifies this`conns, this`freeConns
      ensures (conns, freeConns, i) == S.Allocate(old(conns), old(freeConns), c)
    {
      if freeConns != [] {
        i := freeConns[|freeConns| - 1];
        freeConns := freeConns[..|freeConns| - 1];
        conns := conns[i := Some(c)];
      } else {
        conns := conns + [Some(c)];
        i := |conns| - 1;
      }
    }

    /** A decrypted handshake from `a`: a new connection, an ongoing one, or nothing. */
    method OnHandshakePacket(a: S.Addr, id1: U32, id2: U32, id3: U32, now: U64, myId: U32, seed: U64) returns (out: seq<S.Packet>)
      requires Valid()
      modifies this
      ensures Valid() && Value() == Step(old(Value()), Handshake(a, id1, id2, id3, now, myId, seed))
      ensures out == T.Reply(old(Value()), a, id1, id2, id3, now, myId, seed)
    {
      hide S.Tables, S.FreeList, S.OnHandshake1;
      if a !in byAddr {
        FreeOf(Value());
        if S.LiveCount(Value()) >= S.MAX_HANDSHAKE_CONN_NUM || id2 != 0 {
          return [];
        }
        var c := S.Conn(S.Handshake1, a, S.Ids(myId, 0, 0), S.Times(now, 0, 0), nextGeneration,
                        A.Window(0, A.Zeros()), seed / 10, map[]);
        AddKeeps(Value(), c);
        nextGeneration := nextGeneration + 1;
        var i := AllocConn(c);
        byAddr := byAddr[a := i];
        out := OnHandshake1(i, id1, id2, id3, now);
        return;
      }
      var i := byAddr[a];
      AddrIsLive(Value(), a);
      if conns[i].value.phase.Handshake1? {
        out := OnHandshake1(i, id1, id2, id3, now);
        return;
      }
      return [];
    }

    method CloseSock(k: nat)
      modifies this`socks, this`freeSocks
      ensures Value() == S.CloseSock(old(Value()), k)
    {
      if k < |socks| && socks[k].Some? {
        socks := socks[k := None];
        freeSocks := freeSocks + [k];
      }
    }

    /** Take the connection out of every table and close its sockets, in the order the map yields. */
    method EraseConn(i: nat) returns (ghost ks: seq<nat>)
      requires Valid() && Live(i)
      modifies this
      ensures Valid() && S.Lists(old(conns[i].value.convs), ks) && Value() == S.Erase(old(Value()), i, ks)
      ensures conns == old(conns)[i := None] && cursor == old(cursor) && lastClear == old(lastClear)
    {
      hide S.Tables, S.Lists;
      ghost var v := Value();
      var c := conns[i].value;
      var sidxs := ListSockets(c.convs);
      ks := sidxs;
      EraseKeeps(v, i, ks);
      conns := conns[i := None];
      if c.phase.Ready? {
        readyNum := SatSub(readyNum, 1);
        byConst := byConst - {c.ids.cid};
      }
      CloseAll(sidxs);
      byAddr := byAddr - {c.addr};
      freeConns := freeConns + [i];
    }

    method CloseAll(ks: seq<nat>)
      modifies this`socks, this`freeSocks
      ensures Value() == S.CloseSocks(old(Value()), ks)
    {
      for n := 0 to |ks|
        invariant Value() == S.CloseSocks(old(Value()), ks[..n])
      {
        assert ks[..n + 1][..n] == ks[..n];
        CloseSock(ks[n]);
      }
      assert ks[..|ks|] == ks;
    }

    /** One visit of the sweep: erase the connection in this slot unless it is to be kept. */
    method Visit(i: nat, now: U64) returns (ghost ks: seq<nat>)
      requires Valid() && Live(i)
      modifies this
      ensures Valid() && Value() == Step(old(Value()), T.Visit(i, now, ks))
      ensures S.Keep(old(conns)[i].value, now) || S.Lists(old(conns)[i].value.convs, ks)
      ensures conns == (if S.Keep(old(conns)[i].value, now) then old(conns) else old(conns)[i := None])
      ensures cursor == old(cursor) && lastClear == old(lastClear)
    {
      hide S.Tables, S.Keep, S.Erase, S.Lists;
      ks := [];
      if !S.Keep(conns[i].value, now) {
        ks := EraseConn(i);
      }
    }

    /** `clear_inactive_conns`: rate-limited, visits its quota of live slots from the cursor on, and
        erases exactly the visited connections that are not to be kept. */
    method ClearInactiveConns(now: U64) returns (ghost turns: nat, ghost visits: seq<Event>)
      requires Valid()
      modifies this
      ensures Valid()
      ensures SatSub(now, old(lastClear)) <= S.CONN_CLEAR_INTERVAL_MS ==> Value() == old(Value())
      ensures SatSub(now, old(lastClear)) > S.CONN_CLEAR_INTERVAL_MS ==>
                && Sweep.Pass(old(Value()), Value(), now, turns)
                && Value() == Run(old(Value()), visits).(cursor := cursor, lastClear := now)
                && |visits| == Sweep.Quota(S.LiveCount(old(Value()))) && Sweep.InOrder(old(Value()), visits, now, turns)
    {
      hide S.Tables, S.Keep, Step, Sweep.Underway, Sweep.From, Sweep.Reached, Sweep.InOrder, S.Lists;
      ghost var v := Value();
      turns, visits := 0, [];
      if SatSub(now, lastClear) <= S.CONN_CLEAR_INTERVAL_MS {
        return;
      }
      Sweep.NothingYet(v, now);
      Sweep.StillLive(v, v.(lastClear := now), now, 0, []);
      lastClear := now;
      var size := S.LiveCount(Value());
      if size == 0 {
        Sweep.PassDone(v, Value(), now, turns, visits);
        return;
      }
      var quota := Min(size / S.CONN_CLEAR_RATIO + S.CONN_CLEAR_MIN, size);
      var count, scanned := 0, 0;
      while count < quota && scanned < |conns|
        invariant Valid() && turns == scanned <= |conns| == |v.conns| && lastClear == now
        invariant Sweep.Underway(v, Value(), now, turns, visits)
        invariant count == |visits| == |Sweep.Reached(v.conns, v.cursor, turns)| <= quota
        invariant turns > 0 ==> |Sweep.Reached(v.conns, v.cursor, turns - 1)| < quota
        decreases |conns| - scanned
      {
        ghost var u := Value();
        Sweep.FromIs(|conns|, cursor);
        if cursor >= |conns| {
          cursor := 0;
        }
        var slot := cursor;
        Sweep.CursorFree(u, slot + 1, now);
        cursor := cursor + 1;
        scanned := scanned + 1;
        turns := scanned;
        if conns[slot].None? {
          Sweep.ScanEmpty(v, u, now, turns - 1, visits, slot);
          continue;
        }
        count := count + 1;
        ghost var ks := Visit(slot, now);
        Sweep.ScanLive(v, u, now, turns - 1, visits, slot, ks);
        visits := visits + [T.Visit(slot, now, ks)];
      }
      Sweep.PassDone(v, Value(), now, turns, visits);
    }
  }

  /** The sockets of a connection in some order, each once. */
  method ListSockets(convs: map<U32, nat>) returns (ks: seq<nat>)
    ensures S.Lists(convs, ks)
  {
    ks := [];
    var rest := convs.Values;
    while rest != {}
      invariant rest <= convs.Values
      invariant forall k :: k in convs.Values <==> k in rest || k in ks
      invariant forall k :: k in ks ==> k !in rest
      invariant forall m, n :: 0 <= m < n < |ks| ==> ks[m] != ks[n]
      decreases rest
    {
      var k :| k in rest;
      ks := ks + [k];
      rest := rest - {k};
    }
  }
}
