/** What the protocol must do when packets arrive: handshakes complete, new packets are delivered. */
module SessionLiveness {
  import opened Machine
  import A = AntiReplay
  import S = Server
  import T = ServerTables
  import R = ServerRecovery
  import opened Session
  import opened SessionRuns
  import opened SessionSafety

  // ------------------------------------------------------------------ new packets are delivered

  /** Nothing under receiver id `to` had number `q`, or one that is 4000 or more ahead of it. */
  ghost predicate Recent(acc: set<Packet>, to: U32, q: nat) {
    forall p :: p in acc && p.Safer? && p.to == to ==> p.seqno != q && p.seqno < q + 4000
  }

  lemma RecentIsAdmitted(w: A.Window, acc: set<Packet>, to: U32, q: U64)
    requires A.Agrees(w, SeqsTo(acc, to)) && q >= 1
    ensures A.Check(w, q).1 <==> Recent(acc, to, q)
  {
    hide A.Check;
    var seen := SeqsTo(acc, to);
    A.CheckRefinesSet(w, seen, q);
    if A.Admits(seen, w.max, q) {
      forall p | p in acc && p.Safer? && p.to == to ensures p.seqno != q && p.seqno < q + 4000 {
        assert p.seqno in seen;
      }
    }
    if Recent(acc, to, q) && w.max >= 1 {
      var p :| p in acc && p.Safer? && p.to == to && p.seqno == w.max;
    }
  }

  /** The packet carries the two ids of the connection and a recent number. */
  ghost predicate IsForServer(w: World, slot: nat, p: Packet) {
    && S.Live(w.server, slot) && p.Safer?
    && p.from == S.At(w.server, slot).ids.opp && p.to == S.At(w.server, slot).ids.my
    && Recent(w.past.accepted, p.to, p.seqno)
  }

  ghost predicate IsForClient(w: World, i: nat, p: Packet) {
    && i < |w.clients| && i < |w.taken| && p.Safer?
    && p.from == w.clients[i].opp && p.to == w.clients[i].my && Recent(w.taken[i], p.to, p.seqno)
  }

  /** The server delivers a packet from number 1 on if and only if it carries the two ids of the
      connection and its number is recent. */
  lemma ServerDeliversNew(w: World, slot: nat, generation: nat, p: Packet, body: T.Body, now: U64)
    requires WorldOk(w) && T.ValidReady(w.server, slot, generation) && p in w.net && p.Safer? && p.seqno >= 1
    ensures ServerDelivers(w, ServerSafer(slot, generation, p, body, now), p) <==> IsForServer(w, slot, p)
  {
    hide S.Tables, A.Agrees, A.Check, Recent, PacketOk, ClientOk;
    ViewAt(w.server, slot);
    var c := S.At(w.server, slot);
    assert PeerOk(w.past, ViewOf(w.server)[slot].value);
    RecentIsAdmitted(c.window, w.past.accepted, c.ids.my, p.seqno);
  }

  /** So does a client that has learnt the server's id. */
  lemma ClientDeliversNew(w: World, i: nat, p: Packet, wellFormed: bool)
    requires WorldOk(w) && i < |w.clients| && (w.clients[i].phase.Handshake2? || w.clients[i].phase.Ready?)
    requires p in w.net && p.Safer? && p.seqno >= 1
    ensures ClientDelivers(w, ClientSafer(i, p, wellFormed), i, p) <==> IsForClient(w, i, p)
  {
    hide S.Tables, A.Agrees, A.Check, Recent, PacketOk, ServerOk;
    var c := w.clients[i];
    assert ClientOk(w.past, w.clientIds, c, w.taken[i]);
    RecentIsAdmitted(c.window, w.taken[i], c.my, p.seqno);
  }

  // ------------------------------------------------------------------ single steps

  /** A step of a client leaves the server alone and forgets nothing. */
  lemma ClientApplies(w: World, e: Event)
    requires WorldOk(w) && Enabled(w, e) && OfClient(e)
    ensures e.i < |w.clients| && |w.taken| == |w.clients| && |w.clients[e.i].window.bits| == A.WINDOW
    ensures var u := Apply(w, e);
            var (c, acc, out) := ClientNext(w.clients[e.i], w.taken[e.i], e);
            && u.server == w.server && u.past == w.past
            && u.clients == w.clients[e.i := c] && u.clientIds == w.clientIds + Drawn(e) && u.net == w.net + out
  {
    hide S.Tables, ServerOk, PacketOk, A.Agrees, ClientNext;
    assert ClientOk(w.past, w.clientIds, w.clients[e.i], w.taken[e.i]);
  }

  /** A handshake packet leaves the clients alone. */
  lemma HandshakeApplies(w: World, e: Event)
    requires WorldOk(w) && Enabled(w, e) && e.ServerHandshake?
    ensures S.Tables(w.server)
    ensures var u := Apply(w, e);
            var (t, out) := HandshakeStep(w.server, e.addr, e.p, e.now, e.my, e.seed);
            && u.server == t && u.clients == w.clients && u.clientIds == w.clientIds && u.past.ids == w.past.ids + {e.my}
            && u.net == w.net + (set p | p in out)
  {
    hide S.Tables, WorldOk, HandshakeStep, ViewOf, NewlyReady;
    WorldTables(w);
  }

  // ------------------------------------------------------------------ a handshake completes

  /** The client at the start of an exchange, the address its packets come from, the ids drawn on both
      sides, and the two times at which its packets reach the server. */
  datatype Setting = Setting(i: nat, my: U32, addr: S.Addr, sid: U32, spare: U32, t1: U64, t2: U64, seed: U64)

  /** An idle client, fresh ids, an address without a connection, and room for one more. */
  ghost predicate Starting(w: World, x: Setting) {
    && WorldOk(w) && x.i < |w.clients| && w.clients[x.i].phase.Idle?
    && IsFresh(w, x.my) && IsFresh(w, x.sid) && IsFresh(w, x.spare) && x.my != x.sid && x.my != x.spare && x.sid != x.spare
    && x.addr !in w.server.byAddr && S.LiveCount(w.server) < 10000
  }

  /** Every packet of the exchange is delivered once, in turn; `q` numbers the server's heartbeat. */
  ghost function Exchange(w: World, x: Setting, q: U64): (r: seq<Event>)
    requires x.i < |w.clients|
    ensures |r| == 7
  {
    var cid := w.clients[x.i].cid;
    [ClientStart(x.i, x.my), ClientHandshake(x.i),
     ServerHandshake(x.addr, S.Bare(x.my, 0, cid), x.t1, x.sid, x.seed),
     ClientBare(x.i, S.Bare(x.sid, x.my, w.server.constId)), ClientHandshake(x.i),
     ServerHandshake(x.addr, S.Bare(x.my, x.sid, cid), x.t2, x.spare, 0),
     ClientSafer(x.i, S.Safer(x.sid, x.my, q), true)]
  }

  /** After the client's first packet. */
  ghost predicate Asked(w: World, x: Setting, u: World)
    requires Starting(w, x)
  {
    var c := w.clients[x.i];
    && WorldOk(u) && u.server == w.server && u.past == w.past
    && u.clients == w.clients[x.i := c.(phase := Handshake1, my := x.my, window := A.ReInit(c.window))]
    && u.clientIds == w.clientIds + {x.my} && S.Bare(x.my, 0, c.cid) in u.net
  }

  lemma Asks(w: World, x: Setting, q: U64)
    requires Starting(w, x)
    ensures Asked(w, x, After(w, Exchange(w, x, q)[..2]))
  {
    hide WorldOk, Apply, After, A.ReInit;
    var es := Exchange(w, x, q);
    AfterNone(w, es);
    AfterNext(w, es, 0);
    AfterNext(w, es, 1);
    ClientApplies(w, es[0]);
    ClientApplies(After(w, es[..1]), es[1]);
  }

  lemma AfterNone(w: World, es: seq<Event>)
    requires WorldOk(w)
    ensures After(w, es[..0]) == w
  {
    hide WorldOk, Apply;
  }

  /** After the server's first answer: a connection in its handshake, and nothing else new. */
  ghost predicate Answered(w: World, x: Setting, u: World)
    requires Starting(w, x)
  {
    var c := w.clients[x.i];
    && WorldOk(u) && S.Tables(u.server) && x.addr in u.server.byAddr
    && u.clients == w.clients[x.i := c.(phase := Handshake1, my := x.my, window := A.ReInit(c.window))]
    && u.clientIds == w.clientIds + {x.my} && u.past.ids == w.past.ids + {x.sid}
    && S.Bare(x.sid, x.my, w.server.constId) in u.net
    && Opened(w.server, u.server, x, u.server.byAddr[x.addr])
  }

  ghost predicate Opened(s: S.Server, t: S.Server, x: Setting, k: nat) {
    && !S.Live(s, k) && S.Live(t, k)
    && S.At(t, k).phase.Handshake1? && S.At(t, k).addr == x.addr && S.At(t, k).ids.my == x.sid
    && S.At(t, k).times.state == x.t1 && S.At(t, k).nextSend == x.seed / 10
    && (forall j :: j != k ==> (S.Live(t, j) <==> S.Live(s, j)))
    && (forall j :: j != k && S.Live(s, j) ==> S.At(t, j) == S.At(s, j))
    && t.readyNum == s.readyNum && t.byConst == s.byConst && t.constId == s.constId
  }

  lemma Answers(w: World, x: Setting, q: U64)
    requires Starting(w, x)
    ensures Answered(w, x, After(w, Exchange(w, x, q)[..3]))
  {
    hide WorldOk, Apply, After, A.ReInit, S.Tables, S.OnNewAddress;
    var es := Exchange(w, x, q);
    Asks(w, x, q);
    AfterNext(w, es, 2);
    var v := After(w, es[..2]);
    HandshakeApplies(v, es[2]);
    R.NewAddressExact(v.server, x.addr, x.my, 0, w.clients[x.i].cid, x.t1, x.sid, x.seed);
    WorldTables(After(w, es[..3]));
  }

  lemma WorldTables(w: World)
    requires WorldOk(w)
    ensures S.Tables(w.server)
  {
    hide S.Tables, ServerOk, ClientOk, PacketOk;
  }

  /** After the client's second packet. */
  ghost predicate Echoes(w: World, x: Setting, u: World)
    requires Starting(w, x)
  {
    var c := w.clients[x.i];
    && WorldOk(u) && S.Tables(u.server) && x.addr in u.server.byAddr
    && u.clients == w.clients[x.i := c.(phase := Handshake2, my := x.my, opp := x.sid, window := A.ReInit(c.window))]
    && u.clientIds == w.clientIds + {x.my} && u.past.ids == w.past.ids + {x.sid}
    && S.Bare(x.my, x.sid, c.cid) in u.net
    && Opened(w.server, u.server, x, u.server.byAddr[x.addr])
  }

  lemma EchoesBack(w: World, x: Setting, q: U64)
    requires Starting(w, x)
    ensures Echoes(w, x, After(w, Exchange(w, x, q)[..5]))
  {
    hide WorldOk, Apply, After, A.ReInit, S.Tables, Opened;
    var es := Exchange(w, x, q);
    Answers(w, x, q);
    AfterNext(w, es, 3);
    AfterNext(w, es, 4);
    var v := After(w, es[..3]);
    ClientApplies(v, es[3]);
    ClientApplies(After(w, es[..4]), es[4]);
  }

  /** Connection `k` is Ready with the ids and the address of the exchange, and has sent number `q`. */
  ghost predicate Serves(w: World, x: Setting, u: World, k: nat, q: U64)
    requires x.i < |w.clients|
  {
    && S.IsReady(u.server, k) && S.At(u.server, k).addr == x.addr && S.At(u.server, k).nextSend == R.Following(q)
    && S.At(u.server, k).ids == S.Ids(x.sid, x.my, w.clients[x.i].cid)
  }

  /** The client knows both ids, and is Ready or not. */
  ghost predicate Learnt(u: World, x: Setting, ready: bool) {
    && x.i < |u.clients| && u.clients[x.i].my == x.my && u.clients[x.i].opp == x.sid
    && (if ready then u.clients[x.i].phase.Ready? else u.clients[x.i].phase.Handshake2? && u.clients[x.i].window.max == 0)
  }

  lemma OpenedSame(s: S.Server, t: S.Server, x: Setting, k: nat, cid: U32)
    requires Opened(s, t, x, k)
    ensures R.Unknown(t, cid) <==> R.Unknown(s, cid)
    ensures forall j :: S.IsReady(t, j) <==> S.IsReady(s, j)
    ensures forall j :: S.IsReady(s, j) ==> S.At(t, j) == S.At(s, j)
  {
    assert forall j :: S.IsReady(t, j) <==> S.IsReady(s, j);
  }

  lemma ReadyCounts(s: S.Server, t: S.Server)
    requires S.Tables(s) && S.Tables(t) && s.readyNum == t.readyNum
    ensures |T.ReadySlots(s)| == |T.ReadySlots(t)|
  {
    hide S.FreeList, S.AddrIndex, S.SockIndex, S.Generations, T.ReadySlots, S.ConstIndex;
    T.CountReady(s);
    T.CountReady(t);
  }

  /** The sixth step of the exchange, for the connection the fourth one opened. */
  lemma Completes(w: World, x: Setting, q: U64)
    requires Starting(w, x)
    ensures var es, v := Exchange(w, x, q), After(w, Exchange(w, x, q)[..5]);
            Echoes(w, x, v) &&
            var k := v.server.byAddr[x.addr];
            var (t, out) := S.OnHandshake1(v.server, k, x.my, x.sid, w.clients[x.i].cid, x.t2);
            && After(w, es[..6]).server == t && After(w, es[..6]).clients == v.clients
            && forall p :: p in out ==> p in After(w, es[..6]).net
  {
    hide WorldOk, Apply, After, A.ReInit, S.Tables, S.OnHandshake1;
    var es := Exchange(w, x, q);
    EchoesBack(w, x, q);
    AfterNext(w, es, 5);
    HandshakeApplies(After(w, es[..5]), es[5]);
  }

  /** The heartbeat makes the client Ready; number 0 is the one number a fresh window refuses. */
  lemma Beats(w: World, x: Setting, q: U64)
    requires Starting(w, x)
    requires S.Safer(x.sid, x.my, q) in After(w, Exchange(w, x, q)[..6]).net
    ensures var u := After(w, Exchange(w, x, q));
            u.server == After(w, Exchange(w, x, q)[..6]).server && Learnt(u, x, q >= 1)
  {
    hide WorldOk, Apply, After, S.Tables, S.OnHandshake1, Opened, A.Clear, A.Zeros;
    var es := Exchange(w, x, q);
    Completes(w, x, q);
    AfterNext(w, es, 6);
    assert es[..7] == es;
    ClientApplies(After(w, es[..6]), es[6]);
  }

  /** A first connection: with every packet delivered once, a client whose constant id the server does not
      know, while fewer than a thousand connections are Ready, is Ready after one exchange with a Ready
      connection of its own; the heartbeat number `seed / 10` must not be 0. */
  lemma FirstTime(w: World, x: Setting)
    requires Starting(w, x) && S.Tables(w.server)
    requires R.Unknown(w.server, w.clients[x.i].cid) && |T.ReadySlots(w.server)| < 1000
    ensures var u := After(w, Exchange(w, x, x.seed / 10));
            && (exists k: nat :: Serves(w, x, u, k, x.seed / 10) && !S.Live(w.server, k))
            && Learnt(u, x, x.seed >= 10)
  {
    hide WorldOk, After, S.Tables, S.OnHandshake1, R.Unknown, T.ReadySlots, Exchange, A.ReInit, IsFresh;
    var q, cid := x.seed / 10, w.clients[x.i].cid;
    var es := Exchange(w, x, q);
    Completes(w, x, q);
    var v := After(w, es[..5]);
    var k := v.server.byAddr[x.addr];
    OpenedSame(w.server, v.server, x, k, cid);
    ReadyCounts(w.server, v.server);
    NotZero(w, x);
    R.HandshakeExact(v.server, k, 0, x.my, x.sid, cid, x.t2);
    var (t, out) := S.OnHandshake1(v.server, k, x.my, x.sid, cid, x.t2);
    assert out == [S.Safer(x.sid, x.my, q)] && out[0] in out;
    Beats(w, x, q);
    assert Serves(w, x, After(w, es), k, q);
  }

  lemma NotZero(w: World, x: Setting)
    requires Starting(w, x)
    ensures x.sid != 0 && x.my != 0
  {
    hide WorldOk;
  }

  /** A reconnect: when connection `o` is Ready under the client's constant id and its last handshake began
      no later than this one, the client is Ready after one exchange and `o` goes on at the new address
      with its conversations; the next number `o` sends must not be 0. */
  lemma Reconnect(w: World, x: Setting, o: nat)
    requires Starting(w, x) && S.IsReady(w.server, o) && S.At(w.server, o).ids.cid == w.clients[x.i].cid
    requires S.At(w.server, o).times.state <= x.t1
    ensures var q := S.At(w.server, o).nextSend;
            var u := After(w, Exchange(w, x, q));
            && Serves(w, x, u, o, q) && S.At(u.server, o).convs == S.At(w.server, o).convs
            && Learnt(u, x, q >= 1)
  {
    hide WorldOk, After, S.Tables, S.OnHandshake1, R.Unknown, T.ReadySlots, Exchange, A.ReInit, IsFresh;
    var q, cid := S.At(w.server, o).nextSend, w.clients[x.i].cid;
    var es := Exchange(w, x, q);
    Completes(w, x, q);
    var v := After(w, es[..5]);
    var k := v.server.byAddr[x.addr];
    OpenedSame(w.server, v.server, x, k, cid);
    NotZero(w, x);
    R.HandshakeExact(v.server, k, o, x.my, x.sid, cid, x.t2);
    var (t, out) := S.OnHandshake1(v.server, k, x.my, x.sid, cid, x.t2);
    assert out == [S.Safer(x.sid, x.my, q)] && out[0] in out;
    Beats(w, x, q);
  }

  /** Should the first heartbeat have had number 0, the next one makes the client Ready. */
  lemma NextBeat(w: World, i: nat, k: nat, now: U64)
    requires WorldOk(w) && i < |w.clients| && w.clients[i].phase.Handshake2? && w.clients[i].window.max == 0
    requires S.IsReady(w.server, k) && S.At(w.server, k).ids.my == w.clients[i].opp && S.At(w.server, k).ids.opp == w.clients[i].my
    requires S.At(w.server, k).nextSend >= 1
    ensures var c, q := w.clients[i], S.At(w.server, k).nextSend;
            var u := After(w, [ServerSend(k, now), ClientSafer(i, S.Safer(c.opp, c.my, q), true)]);
            i < |u.clients| && u.clients[i].phase.Ready? && u.clients[i].my == c.my && u.clients[i].opp == c.opp
  {
    hide WorldOk, Apply, After, S.Tables, A.Clear, A.Zeros;
    var c, q := w.clients[i], S.At(w.server, k).nextSend;
    var es := [ServerSend(k, now), ClientSafer(i, S.Safer(c.opp, c.my, q), true)];
    AfterNone(w, es);
    AfterNext(w, es, 0);
    AfterNext(w, es, 1);
    assert es[..2] == es;
    SendApplies(w, k, now);
    ClientApplies(After(w, es[..1]), es[1]);
  }

  lemma SendSends(w: World, e: T.Event, slot: nat)
    requires S.Tables(w.server) && S.Live(w.server, slot)
    ensures SendStep(w, e, slot).clients == w.clients && Outgoing(w.server, slot) in SendStep(w, e, slot).net
  {
    hide S.Tables, T.Step, ViewOf, NewlyReady;
    var out := [Outgoing(w.server, slot)];
    assert out[0] in out;
  }

  lemma SendApplies(w: World, k: nat, now: U64)
    requires WorldOk(w) && S.IsReady(w.server, k)
    ensures Apply(w, ServerSend(k, now)).clients == w.clients && Outgoing(w.server, k) in Apply(w, ServerSend(k, now)).net
  {
    hide S.Tables, WorldOk, ViewOf, NewlyReady, SendStep;
    WorldTables(w);
    SendSends(w, T.Heartbeat(k, now), k);
  }
}
