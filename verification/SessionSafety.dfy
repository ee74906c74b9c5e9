/** What every run of the connection protocol guarantees. */
module SessionSafety {
  import opened Machine
  import A = AntiReplay
  import S = Server
  import T = ServerTables
  import opened Session
  import opened SessionRuns

  // ------------------------------------------------------------------ deliveries

  /** The server accepts packet `p` in event `e`. */
  ghost predicate ServerDelivers(w: World, e: Event, p: Packet) {
    hide S.Tables;
    && WorldOk(w) && Enabled(w, e) && e.ServerSafer? && e.p == p
    && Takes(w.server, e.slot, p)
  }

  /** Client `i` accepts packet `p` in event `e`: the ids match and its window takes the number. A body that
      is not well formed is dropped after that. */
  ghost predicate ClientDelivers(w: World, e: Event, i: nat, p: Packet) {
    && WorldOk(w) && Enabled(w, e) && e.ClientSafer? && e.i == i && e.p == p
    && p.from == w.clients[i].opp && p.to == w.clients[i].my
    && |w.clients[i].window.bits| == A.WINDOW && A.Check(w.clients[i].window, p.seqno).1
  }

  lemma ServerRecords(w: World, e: Event, p: Packet)
    requires ServerDelivers(w, e, p)
    ensures p !in w.past.accepted && p in Apply(w, e).past.accepted
  {
    hide S.Tables, ServerOk, ClientOk, PacketOk, A.Check, T.Step, ViewOf;
    SaferKeeps(w, e.slot, e.generation, e.p, e.body, e.now);
  }

  lemma ClientRecords(w: World, e: Event, i: nat, p: Packet)
    requires ClientDelivers(w, e, i, p)
    ensures p !in w.taken[i] && p in Apply(w, e).taken[i]
  {
    hide S.Tables, ServerOk, PacketOk, A.Agrees, A.Check, ServerNext;
    assert ClientOk(w.past, w.clientIds, w.clients[i], w.taken[i]);
    var c := w.clients[i];
    assert p in w.taken[i] ==> p.seqno in SeqsTo(w.taken[i], c.my);
    A.CheckRefinesSet(c.window, SeqsTo(w.taken[i], c.my), p.seqno);
  }

  lemma AfterNext(w: World, es: seq<Event>, j: nat)
    requires WorldOk(w) && j < |es|
    ensures After(w, es[..j + 1]) == Apply(After(w, es[..j]), es[j])
  {
    hide WorldOk, Apply;
    assert es[..j + 1][..j] == es[..j];
  }

  /** However the network duplicates, delays and reorders, and however often connections are recovered,
      reset and erased: no packet is delivered twice by the server, and none twice by the same client. */
  lemma AtMostOnce(w: World, es: seq<Event>, j: nat, k: nat, p: Packet, i: nat)
    requires WorldOk(w) && j < k < |es|
    ensures !(ServerDelivers(After(w, es[..j]), es[j], p) && ServerDelivers(After(w, es[..k]), es[k], p))
    ensures !(ClientDelivers(After(w, es[..j]), es[j], i, p) && ClientDelivers(After(w, es[..k]), es[k], i, p))
  {
    hide WorldOk, Apply, After, ServerDelivers, ClientDelivers;
    var u, v := After(w, es[..j]), After(w, es[..k]);
    AfterNext(w, es, j);
    assert es[..k][..j + 1] == es[..j + 1];
    RunLater(w, es[..k], j + 1);
    if ServerDelivers(u, es[j], p) && ServerDelivers(v, es[k], p) {
      ServerRecords(u, es[j], p);
      ServerRecords(v, es[k], p);
    }
    if ClientDelivers(u, es[j], i, p) && ClientDelivers(v, es[k], i, p) {
      ClientInRange(v, es[k], i, p);
      ClientRecords(u, es[j], i, p);
      ClientRecords(v, es[k], i, p);
    }
  }

  lemma ClientInRange(w: World, e: Event, i: nat, p: Packet)
    requires ClientDelivers(w, e, i, p)
    ensures i < |w.clients| == |w.taken|
  {
    hide S.Tables, ServerOk, ClientOk, PacketOk;
  }

  // ------------------------------------------------------------------ agreement

  /** Some connection of `w`'s server is Ready with `my` as its own id and `opp` as its peer's. */
  ghost predicate ServerReady(w: World, my: U32, opp: U32) {
    exists i: nat :: ReadyAt(w, i, my, opp)
  }

  ghost predicate ReadyAt(w: World, i: nat, my: U32, opp: U32) {
    S.IsReady(w.server, i) && S.At(w.server, i).ids.my == my && S.At(w.server, i).ids.opp == opp
  }

  /** What becomes Ready in a step is Ready after it. */
  lemma BecameNow(w: World, e: Event, my: U32, opp: U32)
    requires WorldOk(w) && (my, opp) in Apply(w, e).past.became
    ensures (my, opp) in w.past.became || ServerReady(Apply(w, e), my, opp)
  {
    hide S.Tables, ServerOk, ClientOk, PacketOk, ClientNext, HandshakeStep, T.Step, WorldOk, Takes;
    var u := Apply(w, e);
    if (my, opp) !in w.past.became {
      assert (my, opp) in NewlyReady(ViewOf(w.server), ViewOf(u.server));
      var v := ViewOf(u.server);
      var i :| 0 <= i < |v| && Starts(ViewOf(w.server), v, i) && (my, opp) == (v[i].value.my, v[i].value.opp);
      assert ReadyAt(u, i, my, opp);
    }
  }

  /** Every pair the server ever started was Ready at some point of the run. */
  lemma {:induction false} BecameOnce(w: World, es: seq<Event>, my: U32, opp: U32)
    requires WorldOk(w) && w.past.became == {} && (my, opp) in After(w, es).past.became
    ensures exists k :: 0 <= k <= |es| && ServerReady(After(w, es[..k]), my, opp)
    decreases |es|
  {
    hide WorldOk, Apply, ServerReady;
    if es != [] {
      var front := es[..|es| - 1];
      BecameNow(After(w, front), es[|es| - 1], my, opp);
      if (my, opp) in After(w, front).past.became {
        BecameOnce(w, front, my, opp);
        var k :| 0 <= k <= |front| && ServerReady(After(w, front[..k]), my, opp);
        assert front[..k] == es[..k];
      } else {
        assert es[..|es|] == es;
      }
    }
  }

  /** A client that is Ready under ids `(my, opp)` agrees with the server: at some point of the run the
      server had a Ready connection with the same two ids, in the other order. */
  lemma HandshakeAgreement(w: World, constId: U32, es: seq<Event>, i: nat)
    requires Initial(w, constId)
    ensures WorldOk(w)
    ensures var u := After(w, es);
            i < |u.clients| && u.clients[i].phase.Ready? ==>
              exists k :: 0 <= k <= |es| && ServerReady(After(w, es[..k]), u.clients[i].opp, u.clients[i].my)
  {
    hide S.Tables, ServerOk, PacketOk, A.Agrees, After, ServerReady;
    InitialOk(w, constId);
    var u := After(w, es);
    if i < |u.clients| && u.clients[i].phase.Ready? {
      assert ClientOk(u.past, u.clientIds, u.clients[i], u.taken[i]);
      BecameOnce(w, es, u.clients[i].opp, u.clients[i].my);
    }
  }

  predicate InUse(s: S.Server, i: nat) {
    S.Live(s, i) && !S.At(s, i).phase.Idle?
  }

  /** At any point of a run, an id is used by at most one connection that is in its handshake or Ready. */
  lemma IdsAreExclusive(w: World, es: seq<Event>, i: nat, j: nat)
    requires WorldOk(w)
    ensures var s := After(w, es).server;
            InUse(s, i) && InUse(s, j) && S.At(s, i).ids.my == S.At(s, j).ids.my ==> i == j
  {
    hide S.Tables, ClientOk, PacketOk, PeerOk, After;
    var s := After(w, es).server;
    if InUse(s, i) && InUse(s, j) && S.At(s, i).ids.my == S.At(s, j).ids.my {
      ViewAt(s, i);
      ViewAt(s, j);
      assert Active(ViewOf(s), i) && Active(ViewOf(s), j);
    }
  }

  /** Over a whole run, a server id is Ready with one client id only. */
  lemma OnePeerPerId(w: World, es: seq<Event>, j: nat, k: nat, my: U32, c: U32, d: U32)
    requires WorldOk(w) && j <= k <= |es|
    requires ServerReady(After(w, es[..j]), my, c) && ServerReady(After(w, es[..k]), my, d)
    ensures c == d && c in After(w, es).clientIds
  {
    hide WorldOk, After, ServerReady;
    var u, v := After(w, es[..j]), After(w, es[..k]);
    RunLater(w, es, j);
    RunLater(w, es, k);
    ReadyIsRecorded(u, my, c);
    ReadyIsRecorded(v, my, d);
    ServerFacts(After(w, es));
  }

  lemma ReadyIsRecorded(w: World, my: U32, opp: U32)
    requires WorldOk(w) && ServerReady(w, my, opp)
    ensures (my, opp) in w.past.became
  {
    hide S.Tables, ClientOk, PacketOk, A.Agrees;
    var i: nat :| ReadyAt(w, i, my, opp);
    ViewAt(w.server, i);
    assert PeerOk(w.past, ViewOf(w.server)[i].value);
  }

  /** From an id a client drew to an id of the server, which had become Ready together. */
  ghost predicate ToServer(w: World, p: Packet) {
    p.Safer? && p.from in w.clientIds && p.to in w.past.ids && (p.to, p.from) in w.past.became
  }

  /** From an id of the server to an id a client drew, which had become Ready together. */
  ghost predicate ToClient(w: World, p: Packet) {
    p.Safer? && p.from in w.past.ids && p.to in w.clientIds && (p.from, p.to) in w.past.became
  }

  /** What the server delivers a client sent, and what a client delivers the server sent to it, under
      ids the two had agreed on. */
  lemma NoReflection(w: World, e: Event, i: nat, p: Packet)
    requires WorldOk(w)
    ensures ServerDelivers(w, e, p) ==> ToServer(w, p)
    ensures ClientDelivers(w, e, i, p) ==> ToClient(w, p)
  {
    hide S.Tables, A.Agrees, A.Check;
    if ServerDelivers(w, e, p) {
      ViewAt(w.server, e.slot);
      assert PeerOk(w.past, ViewOf(w.server)[e.slot].value);
    }
    if ClientDelivers(w, e, i, p) {
      assert ClientOk(w.past, w.clientIds, w.clients[i], w.taken[i]);
      assert PacketOk(w.past, w.clientIds, p);
    }
  }
}
