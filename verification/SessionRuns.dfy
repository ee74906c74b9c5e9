/** Every run of the connection protocol. */
module SessionRuns {
  import opened Machine
  import A = AntiReplay
  import S = Server
  import T = ServerTables
  import opened Session

  datatype ClientPhase = Idle | Handshake1 | Handshake2 | Ready

  datatype Client = Client(phase: ClientPhase, my: U32, opp: U32, cid: U32, window: A.Window, nextSend: U64)

  /** The server, what it drew, started and accepted; the clients, the ids they drew and the packets
      each of them accepted; and everything ever put on the wire. */
  datatype World = World(server: S.Server, past: Past, clients: seq<Client>, clientIds: set<U32>,
                         taken: seq<set<Packet>>, net: set<Packet>)

  datatype Event =
    | ClientStart(i: nat, my: U32)
    | ClientIdle(i: nat, my: U32)
    | ClientHandshake(i: nat)
    | ClientBare(i: nat, p: Packet)
    | ClientSafer(i: nat, p: Packet, wellFormed: bool)
    | ClientSend(i: nat)
    | ServerHandshake(addr: S.Addr, p: Packet, now: U64, my: U32, seed: U64)
    | ServerSafer(slot: nat, generation: nat, p: Packet, body: T.Body, now: U64)
    | ServerSend(slot: nat, now: U64)
    | ServerSocket(k: nat)
    | ServerVisit(slot: nat, now: U64, ks: seq<nat>)
    | ServerExpire(slot: nat, gone: set<U32>, ks: seq<nat>)

  // ------------------------------------------------------------------ steps

  ghost predicate IsFresh(w: World, id: U32) {
    id != 0 && id !in w.past.ids && id !in w.clientIds
  }

  /** Packets come from the wire, and drawn ids are fresh. */
  ghost predicate Enabled(w: World, e: Event) {
    match e
    case ClientStart(i, my) => i < |w.clients| && w.clients[i].phase.Idle? && IsFresh(w, my)
    case ClientIdle(i, my) => i < |w.clients| && IsFresh(w, my)
    case ClientHandshake(i) => i < |w.clients| && (w.clients[i].phase.Handshake1? || w.clients[i].phase.Handshake2?)
    case ClientBare(i, p) => i < |w.clients| && w.clients[i].phase.Handshake1? && p in w.net && p.Bare?
    case ClientSafer(i, p, _) => i < |w.clients| && (w.clients[i].phase.Handshake2? || w.clients[i].phase.Ready?) && p in w.net && p.Safer?
    case ClientSend(i) => i < |w.clients| && w.clients[i].phase.Ready?
    case ServerHandshake(addr, p, now, my, seed) => p in w.net && p.Bare? && IsFresh(w, my)
    case ServerSafer(slot, generation, p, body, now) => T.ValidReady(w.server, slot, generation) && p in w.net && p.Safer?
    case ServerSend(slot, now) => S.IsReady(w.server, slot)
    case ServerSocket(k) => k < |w.server.socks| && w.server.socks[k].Some? && S.Live(w.server, w.server.socks[k].value.slot)
    case ServerVisit(slot, now, ks) => true
    case ServerExpire(slot, gone, ks) => true
  }

  /** The ids under which some connection is Ready after a step and was not before. */
  ghost function NewlyReady(v: View, w: View): set<(U32, U32)> {
    set i | 0 <= i < |w| && Starts(v, w, i) :: (w[i].value.my, w[i].value.opp)
  }

  predicate Starts(v: View, w: View, i: nat)
    requires i < |w|
  {
    && w[i].Some? && w[i].value.phase.Ready?
    && !(In(v, i) && v[i].value.phase.Ready? && v[i].value.my == w[i].value.my && v[i].value.opp == w[i].value.opp)
  }

  ghost function ServerMoves(w: World, t: S.Server, out: seq<Packet>, drawn: set<U32>, acc: set<Packet>): World {
    w.(server := t, net := w.net + (set p | p in out),
       past := Past(w.past.ids + drawn, w.past.became + NewlyReady(ViewOf(w.server), ViewOf(t)), w.past.accepted + acc))
  }

  ghost function PutClient(w: World, i: nat, c: Client, out: set<Packet>): World
    requires i < |w.clients|
  {
    w.(clients := w.clients[i := c], net := w.net + out)
  }

  ghost function HandshakeStep(s: S.Server, addr: S.Addr, p: Packet, now: U64, my: U32, seed: U64): (S.Server, seq<Packet>)
    requires S.Tables(s) && p.Bare?
  {
    if addr !in s.byAddr then S.OnNewAddress(s, addr, p.id1, p.id2, p.id3, now, my, seed)
    else if S.At(s, s.byAddr[addr]).phase.Handshake1? then S.OnHandshake1(s, s.byAddr[addr], p.id1, p.id2, p.id3, now)
    else (s, [])
  }

  /** Whether connection `i` accepts the packet. */
  ghost function Takes(s: S.Server, i: nat, p: Packet): bool
    requires S.Tables(s) && S.Live(s, i) && p.Safer?
  {
    T.AcceptKeeps(s, i, p.from, p.to, p.seqno);
    S.Accept(s, i, p.from, p.to, p.seqno).1
  }

  ghost function ClientNext(c: Client, acc: set<Packet>, e: Event): (Client, set<Packet>, set<Packet>)
    requires |c.window.bits| == A.WINDOW
    requires (e.ClientBare? ==> e.p.Bare?) && (e.ClientSafer? ==> e.p.Safer?)
  {
    match e
    case ClientStart(i, my) => (c.(phase := Handshake1, my := my, window := A.ReInit(c.window)), acc, {})
    case ClientIdle(i, my) => (c.(phase := Idle, my := my), acc, {})
    case ClientHandshake(i) => (c, acc, {S.Bare(c.my, if c.phase.Handshake1? then 0 else c.opp, c.cid)})
    case ClientBare(i, p) =>
      if p.id2 == c.my then (c.(phase := Handshake2, opp := p.id1), acc, {}) else (c, acc, {})
    case ClientSafer(i, p, wellFormed) =>
      if p.from != c.opp || p.to != c.my then (c, acc, {})
      else
        var (win, ok) := A.Check(c.window, p.seqno);
        if ok then (c.(phase := if wellFormed then Ready else c.phase, window := win), acc + {p}, {}) else (c.(window := win), acc, {})
    case ClientSend(i) =>
      (c.(nextSend := if c.nextSend == U64_MAX then 0 else c.nextSend + 1), acc, {S.Safer(c.my, c.opp, c.nextSend)})
    case _ => (c, acc, {})
  }

  ghost function Drawn(e: Event): set<U32> {
    match e
    case ClientStart(i, my) => {my}
    case ClientIdle(i, my) => {my}
    case _ => {}
  }

  ghost function ServerNext(w: World, e: Event): World
    requires S.Tables(w.server) && Enabled(w, e)
  {
    hide S.Tables;
    match e
    case ServerHandshake(addr, p, now, my, seed) =>
      var (t, out) := HandshakeStep(w.server, addr, p, now, my, seed);
      ServerMoves(w, t, out, {my}, {})
    case ServerSafer(slot, generation, p, body, now) => SaferStep(w, slot, generation, p, body, now)
    case ServerSend(slot, now) => SendStep(w, T.Heartbeat(slot, now), slot)
    case ServerSocket(k) => SendStep(w, T.FromSocket(k), w.server.socks[k].value.slot)
    case ServerVisit(slot, now, ks) => ServerMoves(w, T.Step(w.server, T.Visit(slot, now, ks)), [], {}, {})
    case ServerExpire(slot, gone, ks) => ServerMoves(w, T.Step(w.server, T.Expired(slot, gone, ks)), [], {}, {})
    case _ => w
  }

  ghost function SaferStep(w: World, slot: nat, generation: nat, p: Packet, body: T.Body, now: U64): World
    requires S.Tables(w.server) && S.Live(w.server, slot) && p.Safer?
  {
    ServerMoves(w, T.Step(w.server, T.Decrypted(slot, generation, p.from, p.to, p.seqno, body, now)), [], {},
                if Takes(w.server, slot, p) then {p} else {})
  }

  ghost function SendStep(w: World, e: T.Event, slot: nat): World
    requires S.Tables(w.server) && S.Live(w.server, slot)
  {
    ServerMoves(w, T.Step(w.server, e), [Outgoing(w.server, slot)], {}, {})
  }

  predicate OfClient(e: Event) {
    e.ClientStart? || e.ClientIdle? || e.ClientHandshake? || e.ClientBare? || e.ClientSafer? || e.ClientSend?
  }

  ghost function Next(w: World, e: Event): World
    requires WorldOk(w) && Enabled(w, e)
  {
    if OfClient(e) then
      var (c, acc, out) := ClientNext(w.clients[e.i], w.taken[e.i], e);
      PutClient(w, e.i, c, out).(clientIds := w.clientIds + Drawn(e), taken := w.taken[e.i := acc])
    else ServerNext(w, e)
  }

  function Outgoing(s: S.Server, i: nat): Packet
    requires S.Live(s, i)
  {
    S.Safer(S.At(s, i).ids.my, S.At(s, i).ids.opp, S.At(s, i).nextSend)
  }

  // ------------------------------------------------------------------ the invariant

  ghost predicate PacketOk(h: Past, clientIds: set<U32>, p: Packet) {
    match p
    case Bare(id1, id2, _) =>
      || (id1 in clientIds && (id2 == 0 || id2 in h.ids))
      || (id1 in h.ids && id2 in clientIds)
    case Safer(from, to, _) =>
      from in clientIds || (from in h.ids && (from, to) in h.became)
  }

  ghost predicate ClientOk(h: Past, clientIds: set<U32>, c: Client, acc: set<Packet>) {
    && c.my in clientIds
    && |c.window.bits| == A.WINDOW
    && (forall p :: p in acc ==> p.Safer? && p.to in clientIds)
    && (c.phase.Idle? ==> Untouched(acc, c.my))
    && (c.phase.Handshake1? ==> Untouched(acc, c.my) && A.Agrees(c.window, {}))
    && (c.phase.Handshake2? || c.phase.Ready? ==>
          && c.opp in h.ids
          && AllFrom(acc, c.my, c.opp)
          && A.Agrees(c.window, SeqsTo(acc, c.my)))
    && (c.phase.Ready? ==> (c.opp, c.my) in h.became)
  }

  /** The server pairs its ids with ids of clients, and takes packets from clients, only. */
  ghost predicate Authentic(h: Past, clientIds: set<U32>) {
    && (forall s, c :: (s, c) in h.became ==> c in clientIds)
    && (forall p :: p in h.accepted && p.Safer? ==> p.from in clientIds)
  }

  ghost predicate WorldOk(w: World) {
    && S.Tables(w.server)
    && ServerOk(ViewOf(w.server), w.past)
    && w.past.ids !! w.clientIds && 0 !in w.past.ids && 0 !in w.clientIds
    && Authentic(w.past, w.clientIds)
    && |w.taken| == |w.clients|
    && (forall i :: 0 <= i < |w.clients| ==> ClientOk(w.past, w.clientIds, w.clients[i], w.taken[i]))
    && (forall p :: p in w.net ==> PacketOk(w.past, w.clientIds, p))
  }

  // ------------------------------------------------------------------ growing histories

  ghost predicate Grows(h: Past, h': Past) {
    h.ids <= h'.ids && h.became <= h'.became
  }

  lemma PacketLater(h: Past, ids: set<U32>, h': Past, ids': set<U32>, p: Packet)
    requires PacketOk(h, ids, p) && Grows(h, h') && ids <= ids'
    ensures PacketOk(h', ids', p)
  {
  }

  lemma ClientLater(h: Past, ids: set<U32>, h': Past, ids': set<U32>, c: Client, acc: set<Packet>)
    requires ClientOk(h, ids, c, acc) && Grows(h, h') && ids <= ids'
    ensures ClientOk(h', ids', c, acc)
  {
    hide A.Agrees;
  }

  /** A step of client `i` alone. */
  lemma ClientMoves(w: World, i: nat, c: Client, ids: set<U32>, acc: set<Packet>, out: set<Packet>)
    requires WorldOk(w) && i < |w.clients|
    requires ids !! w.past.ids && 0 !in ids
    requires ClientOk(w.past, w.clientIds + ids, c, acc)
    requires forall p :: p in out ==> PacketOk(w.past, w.clientIds + ids, p)
    ensures WorldOk(PutClient(w, i, c, out).(clientIds := w.clientIds + ids, taken := w.taken[i := acc]))
  {
    hide ServerOk, S.Tables, ClientOk, PacketOk;
    var w' := PutClient(w, i, c, out).(clientIds := w.clientIds + ids, taken := w.taken[i := acc]);
    forall j | 0 <= j < |w'.clients| ensures ClientOk(w'.past, w'.clientIds, w'.clients[j], w'.taken[j]) {
      if j != i { ClientLater(w.past, w.clientIds, w'.past, w'.clientIds, w.clients[j], w.taken[j]); }
    }
    forall p | p in w'.net ensures PacketOk(w'.past, w'.clientIds, p) {
      if p in w.net { PacketLater(w.past, w.clientIds, w'.past, w'.clientIds, p); }
    }
  }

  /** A step of the server alone. */
  lemma ServerMovesKeeps(w: World, t: S.Server, out: seq<Packet>, drawn: set<U32>, acc: set<Packet>)
    requires WorldOk(w) && S.Tables(t) && drawn !! w.clientIds && 0 !in drawn
    requires ServerOk(ViewOf(t), ServerMoves(w, t, out, drawn, acc).past)
    requires Authentic(ServerMoves(w, t, out, drawn, acc).past, w.clientIds)
    requires forall p :: p in out ==> PacketOk(ServerMoves(w, t, out, drawn, acc).past, w.clientIds, p)
    ensures WorldOk(ServerMoves(w, t, out, drawn, acc))
  {
    hide ServerOk, S.Tables, ClientOk, PacketOk;
    var w' := ServerMoves(w, t, out, drawn, acc);
    forall j | 0 <= j < |w'.clients| ensures ClientOk(w'.past, w'.clientIds, w'.clients[j], w'.taken[j]) {
      ClientLater(w.past, w.clientIds, w'.past, w'.clientIds, w.clients[j], w.taken[j]);
    }
    forall p | p in w'.net ensures PacketOk(w'.past, w'.clientIds, p) {
      if p in w.net { PacketLater(w.past, w.clientIds, w'.past, w'.clientIds, p); }
    }
  }

  // ------------------------------------------------------------------ clients

  lemma ClientStepOk(h: Past, ids: set<U32>, net: set<Packet>, c: Client, acc: set<Packet>, e: Event)
    requires ClientOk(h, ids, c, acc) && OfClient(e) && h.ids !! ids && 0 !in ids && 0 !in h.ids
    requires forall p :: p in net ==> PacketOk(h, ids, p)
    requires e.ClientStart? || e.ClientIdle? ==> e.my !in ids
    requires e.ClientHandshake? ==> c.phase.Handshake1? || c.phase.Handshake2?
    requires e.ClientBare? ==> c.phase.Handshake1? && e.p in net && e.p.Bare?
    requires e.ClientSafer? ==> (c.phase.Handshake2? || c.phase.Ready?) && e.p in net && e.p.Safer?
    requires e.ClientSend? ==> c.phase.Ready?
    ensures var (d, acc', out) := ClientNext(c, acc, e);
            && ClientOk(h, ids + Drawn(e), d, acc')
            && (forall p :: p in out ==> PacketOk(h, ids + Drawn(e), p))
            && (acc' == acc || (e.ClientSafer? && e.p !in acc && acc' == acc + {e.p}))
  {
    hide A.Agrees, A.Check;
    match e
    case ClientStart(i, my) => A.ResetAgrees(c.window);
    case ClientIdle(i, my) =>
    case ClientHandshake(i) =>
    case ClientBare(i, p) =>
      EmptySeqs(acc, c.my);
    case ClientSafer(i, p, _) =>
      if p.from == c.opp && p.to == c.my {
        A.CheckRefinesSet(c.window, SeqsTo(acc, c.my), p.seqno);
        SeqsAdd(acc, p);
        if p in acc { assert p.seqno in SeqsTo(acc, c.my); }
        assert PacketOk(h, ids, p);
      }
    case ClientSend(i) =>
  }

  // ------------------------------------------------------------------ server

  lemma SameView(v: View, w: View)
    requires |w| == |v| && forall i :: 0 <= i < |w| && w[i].Some? && w[i].value.phase.Ready? ==>
               v[i].Some? && v[i].value.phase.Ready? && v[i].value.my == w[i].value.my && v[i].value.opp == w[i].value.opp
    ensures NewlyReady(v, w) == {}
  {
  }

  /** The three things a handshake packet can do to connection `i`, as the protocol sees it. */
  ghost predicate Replied(v: View, w: View, i: nat, id1: U32, id2: U32, out: seq<Packet>) {
    && In(v, i) && w == v
    && (out == [] || (id2 == 0 && |out| == 1 && out[0].Bare? && out[0].id1 == v[i].value.my && out[0].id2 == id1))
  }

  ghost predicate GaveUp(v: View, w: View, i: nat, out: seq<Packet>) {
    && In(v, i) && |w| == |v| && out == []
    && (forall j :: 0 <= j < |v| && j != i ==> w[j] == v[j])
    && w[i].Some? && w[i] == Some(v[i].value.(phase := S.Idle, opp := w[i].value.opp))
  }

  ghost predicate Started(v: View, w: View, i: nat, o: nat, id1: U32, out: seq<Packet>) {
    && In(v, i) && In(v, o) && (o == i || v[o].value.phase.Ready?)
    && |w| == |v| && (forall j :: 0 <= j < |v| && j != i && j != o ==> w[j] == v[j])
    && w[o] == Some(Peer(S.Ready, v[i].value.my, id1, A.ReInit(v[o].value.window)))
    && (o != i ==> w[i].Some? && w[i].value.phase.Idle? && w[i].value.my == v[i].value.my && w[i].value.window == v[i].value.window)
    && |out| == 1 && out[0].Safer? && out[0].from == v[i].value.my && out[0].to == id1
  }

  ghost predicate HandshakeCase(v: View, w: View, i: nat, id1: U32, id2: U32, out: seq<Packet>) {
    || Replied(v, w, i, id1, id2, out)
    || GaveUp(v, w, i, out)
    || (In(v, i) && id2 == v[i].value.my && exists o: nat :: Started(v, w, i, o, id1, out))
  }

  lemma PreReadyCase(s: S.Server, i: nat, id1: U32, cid: U32, now: U64)
    requires S.Tables(s) && S.Live(s, i) && S.At(s, i).phase.Handshake1?
    ensures var c := S.At(s, i);
            var s1 := S.Put(s, i, c.(ids := c.ids.(opp := id1)));
            var (t, out) := S.PreReady(s1, i, cid, now);
            GaveUp(ViewOf(s), ViewOf(t), i, out) || exists o: nat :: Started(ViewOf(s), ViewOf(t), i, o, id1, out)
  {
    hide S.FreeList, S.AddrIndex, S.ConstIndex, S.SockIndex, S.Generations;
    var c := S.At(s, i);
    var s1 := S.Put(s, i, c.(ids := c.ids.(opp := id1)));
    var (t, out) := S.PreReady(s1, i, cid, now);
    var v, w := ViewOf(s), ViewOf(t);
    if cid !in s.byConst {
      if s.readyNum < S.MAX_READY_CONN_NUM { assert Started(v, w, i, i, id1, out); }
    } else {
      T.NeverHappens(s, i, cid);
      var o := s.byConst[cid];
      if c.times.state >= S.At(s, o).times.state { assert Started(v, w, i, o, id1, out); }
    }
  }

  lemma Handshake1Case(s: S.Server, i: nat, id1: U32, id2: U32, id3: U32, now: U64)
    requires S.Tables(s) && S.Live(s, i) && S.At(s, i).phase.Handshake1?
    ensures var (t, out) := S.OnHandshake1(s, i, id1, id2, id3, now);
            HandshakeCase(ViewOf(s), ViewOf(t), i, id1, id2, out)
  {
    hide S.Tables, S.PreReady, Started, GaveUp;
    ViewAt(s, i);
    PreReadyCase(s, i, id1, id3, now);
  }

  lemma CaseKeeps(w: World, t: S.Server, i: nat, id1: U32, id2: U32, out: seq<Packet>)
    requires WorldOk(w) && S.Tables(t) && S.Live(w.server, i) && S.At(w.server, i).phase.Handshake1?
    requires HandshakeCase(ViewOf(w.server), ViewOf(t), i, id1, id2, out)
    requires id2 == 0 || id2 in w.past.ids ==> id1 in w.clientIds
    ensures WorldOk(ServerMoves(w, t, out, {}, {}))
  {
    hide S.Tables, ClientOk, ServerOk, WorldOk, ViewOf, A.Agrees;
    var v, u := ViewOf(w.server), ViewOf(t);
    var h := w.past;
    var w' := ServerMoves(w, t, out, {}, {});
    ServerFacts(w);
    ViewAt(w.server, i);
    if Replied(v, u, i, id1, id2, out) {
      SameView(v, u);
      assert w'.past == h;
      MyIsDrawn(v, h, i);
    } else if GaveUp(v, u, i, out) {
      SameView(v, u);
      assert w'.past == h;
      Quieter(v, u, h);
    } else {
      var o: nat :| Started(v, u, i, o, id1, out);
      StartsOne(v, u, h, i, o, id1);
      Epoch(v, u, h, i, o, id1);
      assert w'.past == h.(became := h.became + {(v[i].value.my, id1)});
      MyIsDrawn(v, h, i);
    }
    ServerMovesKeeps(w, t, out, {}, {});
  }

  lemma ServerFacts(w: World)
    requires WorldOk(w)
    ensures ServerOk(ViewOf(w.server), w.past) && S.Tables(w.server) && Authentic(w.past, w.clientIds)
  {
  }

  lemma ViewAt(s: S.Server, i: nat)
    requires S.Live(s, i)
    ensures In(ViewOf(s), i) && ViewOf(s)[i] == Some(PeerOf(S.At(s, i)))
  {
  }

  lemma MyIsDrawn(v: View, h: Past, i: nat)
    requires ServerOk(v, h) && In(v, i)
    ensures v[i].value.my in h.ids
  {
    assert PeerOk(h, v[i].value);
  }

  lemma StartsOne(v: View, u: View, h: Past, i: nat, o: nat, id1: U32)
    requires ServerOk(v, h) && In(v, i) && v[i].value.phase.Handshake1? && In(v, o) && (o == i || v[o].value.phase.Ready?)
    requires |u| == |v| && forall j :: 0 <= j < |v| && j != i && j != o ==> u[j] == v[j]
    requires u[o].Some? && u[o].value.phase.Ready? && u[o].value.my == v[i].value.my && u[o].value.opp == id1
    requires o != i ==> u[i].Some? && u[i].value.phase.Idle?
    ensures NewlyReady(v, u) == {(v[i].value.my, id1)}
  {
    hide PeerOk;
    assert Active(v, i);
    if o != i { assert Active(v, o); }
    assert Starts(v, u, o);
    forall j | 0 <= j < |u| && Starts(v, u, j) ensures j == o {}
  }

  lemma IdsGrow(w: World, my: U32)
    requires WorldOk(w) && IsFresh(w, my)
    ensures WorldOk(w.(past := w.past.(ids := w.past.ids + {my})))
  {
    hide S.Tables, ClientOk, PacketOk, ViewOf;
    var h := w.past.(ids := w.past.ids + {my});
    MoreIds(ViewOf(w.server), w.past, my);
    forall j | 0 <= j < |w.clients| ensures ClientOk(h, w.clientIds, w.clients[j], w.taken[j]) {
      ClientLater(w.past, w.clientIds, h, w.clientIds, w.clients[j], w.taken[j]);
    }
    forall p | p in w.net ensures PacketOk(h, w.clientIds, p) {
      PacketLater(w.past, w.clientIds, h, w.clientIds, p);
    }
  }

  lemma MoreIds(v: View, h: Past, my: U32)
    requires ServerOk(v, h)
    ensures ServerOk(v, h.(ids := h.ids + {my}))
  {
    hide A.Agrees;
    forall i | In(v, i) ensures PeerOk(h.(ids := h.ids + {my}), v[i].value) {
      assert PeerOk(h, v[i].value);
    }
  }

  lemma OngoingKeeps(w: World, e: Event)
    requires WorldOk(w) && Enabled(w, e) && e.ServerHandshake? && e.addr in w.server.byAddr
    ensures WorldOk(ServerNext(w, e))
  {
    hide S.Tables, ServerOk, ClientOk, S.OnHandshake1, HandshakeCase, ViewOf;
    var s, i := w.server, w.server.byAddr[e.addr];
    var w0 := w.(past := w.past.(ids := w.past.ids + {e.my}));
    IdsGrow(w, e.my);
    T.AddrIsLive(s, e.addr);
    assert PacketOk(w.past, w.clientIds, e.p);
    if S.At(s, i).phase.Handshake1? {
      Handshake1Case(s, i, e.p.id1, e.p.id2, e.p.id3, e.now);
      T.Handshake1Keeps(s, i, e.p.id1, e.p.id2, e.p.id3, e.now);
      var (t, out) := S.OnHandshake1(s, i, e.p.id1, e.p.id2, e.p.id3, e.now);
      CaseKeeps(w0, t, i, e.p.id1, e.p.id2, out);
      assert ServerMoves(w0, t, out, {}, {}) == ServerMoves(w, t, out, {e.my}, {});
    } else {
      SameView(ViewOf(s), ViewOf(s));
      assert ServerNext(w, e) == w0;
    }
  }

  lemma NewcomerKeeps(w: World, e: Event)
    requires WorldOk(w) && Enabled(w, e) && e.ServerHandshake? && e.addr !in w.server.byAddr
    ensures WorldOk(ServerNext(w, e))
  {
    hide S.Tables, ServerOk, ClientOk, S.OnHandshake1, HandshakeCase, ViewOf, T.Added, S.Allocate;
    var s := w.server;
    T.FreeOf(s);
    assert PacketOk(w.past, w.clientIds, e.p);
    if S.LiveCount(s) >= S.MAX_HANDSHAKE_CONN_NUM || e.p.id2 != 0 {
      IdsGrow(w, e.my);
      SameView(ViewOf(s), ViewOf(s));
      assert ServerNext(w, e) == w.(past := w.past.(ids := w.past.ids + {e.my}));
    } else {
      var c := S.Conn(S.Handshake1, e.addr, S.Ids(e.my, 0, 0), S.Times(e.now, 0, 0), s.nextGeneration,
                      A.Window(0, A.Zeros()), e.seed / 10, map[]);
      var s1, i := T.Added(s, c), S.Allocate(s.conns, s.freeConns, c).2;
      T.AddKeeps(s, c);
      AddedKeeps(w, s1, i, c);
      var w1 := ServerMoves(w, s1, [], {e.my}, {});
      Handshake1Case(s1, i, e.p.id1, 0, e.p.id3, e.now);
      T.Handshake1Keeps(s1, i, e.p.id1, 0, e.p.id3, e.now);
      var (t, out) := S.OnHandshake1(s1, i, e.p.id1, 0, e.p.id3, e.now);
      CaseKeeps(w1, t, i, e.p.id1, 0, out);
      NewAddressIs(s, e, s1, i, t, out);
      FirstReply(s, s1, i, e.p.id1, e.p.id3, e.now);
      assert t == s1;
      SameView(ViewOf(s1), ViewOf(s1));
      assert ServerMoves(w1, t, out, {}, {}) == ServerMoves(w, t, out, {e.my}, {});
    }
  }

  lemma FirstReply(s: S.Server, s1: S.Server, i: nat, id1: U32, id3: U32, now: U64)
    requires S.Live(s1, i)
    ensures S.OnHandshake1(s1, i, id1, 0, id3, now).0 == s1
  {
  }

  lemma NewAddressIs(s: S.Server, e: Event, s1: S.Server, i: nat, t: S.Server, out: seq<Packet>)
    requires S.Tables(s) && e.ServerHandshake? && e.addr !in s.byAddr && e.p.Bare? && e.p.id2 == 0
    requires S.LiveCount(s) < S.MAX_HANDSHAKE_CONN_NUM
    requires var c := S.Conn(S.Handshake1, e.addr, S.Ids(e.my, 0, 0), S.Times(e.now, 0, 0), s.nextGeneration,
                             A.Window(0, A.Zeros()), e.seed / 10, map[]);
             s1 == T.Added(s, c) && i == S.Allocate(s.conns, s.freeConns, c).2
    requires S.Live(s1, i) && (t, out) == S.OnHandshake1(s1, i, e.p.id1, 0, e.p.id3, e.now)
    ensures HandshakeStep(s, e.addr, e.p, e.now, e.my, e.seed) == (t, out)
  {
    hide S.OnHandshake1, S.FreeList, S.Allocate, S.AddrIndex, S.ConstIndex, S.SockIndex, S.Generations;
  }

  /** A new connection under a fresh id. */
  lemma AddedKeeps(w: World, t: S.Server, i: nat, c: S.Conn)
    requires WorldOk(w) && S.Tables(t) && IsFresh(w, c.ids.my) && T.Adds(w.server, t, i, c)
    requires c.phase.Handshake1? && |c.window.bits| == A.WINDOW
    ensures WorldOk(ServerMoves(w, t, [], {c.ids.my}, {}))
  {
    hide S.Tables, ServerOk, ClientOk, PacketOk;
    var v, u := ViewOf(w.server), ViewOf(t);
    assert In(u, i) && u[i] == Some(PeerOf(c)) && !In(v, i);
    forall j | j != i ensures (In(u, j) <==> In(v, j)) && (In(v, j) ==> u[j] == v[j]) {
      if 0 <= j { assert S.Live(t, j) <==> S.Live(w.server, j); }
    }
    Added(v, u, w.past, i, PeerOf(c));
    NoneStarts(v, u, i);
    assert ServerMoves(w, t, [], {c.ids.my}, {}).past == w.past.(ids := w.past.ids + {c.ids.my});
    ServerMovesKeeps(w, t, [], {c.ids.my}, {});
  }

  lemma NoneStarts(v: View, u: View, i: nat)
    requires In(u, i) && u[i].value.phase.Handshake1?
    requires forall j :: j != i ==> (In(u, j) <==> In(v, j)) && (In(v, j) ==> u[j] == v[j])
    ensures NewlyReady(v, u) == {}
  {
    forall j | 0 <= j < |u| ensures !Starts(v, u, j) {
      if j != i && u[j].Some? { assert In(u, j); }
    }
  }

  // ------------------------------------------------------------------ traffic of the server

  /** A step that changes nothing the protocol sees and sends only under a current pair. */
  lemma QuietKeeps(w: World, t: S.Server, out: seq<Packet>)
    requires WorldOk(w) && S.Tables(t) && ViewOf(t) == ViewOf(w.server)
    requires forall p :: p in out ==> PacketOk(w.past, w.clientIds, p)
    ensures WorldOk(ServerMoves(w, t, out, {}, {}))
  {
    hide S.Tables, ServerOk, ClientOk, PacketOk, ViewOf;
    SameView(ViewOf(w.server), ViewOf(w.server));
    assert ServerMoves(w, t, out, {}, {}).past == w.past;
    ServerMovesKeeps(w, t, out, {}, {});
  }

  lemma OutgoingOk(w: World, i: nat)
    requires WorldOk(w) && S.IsReady(w.server, i)
    ensures PacketOk(w.past, w.clientIds, Outgoing(w.server, i))
    ensures S.At(w.server, i).ids.opp in w.clientIds
  {
    hide S.Tables, ClientOk, A.Agrees;
    ViewAt(w.server, i);
    assert PeerOk(w.past, ViewOf(w.server)[i].value);
  }

  lemma SendStepKeeps(w: World, e: T.Event, slot: nat)
    requires WorldOk(w) && S.IsReady(w.server, slot)
    requires (e.Heartbeat? && e.slot == slot) || (e.FromSocket? && e.k < |w.server.socks| && w.server.socks[e.k].Some? && w.server.socks[e.k].value.slot == slot)
    ensures WorldOk(SendStep(w, e, slot))
  {
    hide S.Tables, ServerOk, ClientOk, PacketOk;
    var t := T.Step(w.server, e);
    T.StepKeeps(w.server, e);
    assert ViewOf(t) == ViewOf(w.server);
    OutgoingOk(w, slot);
    QuietKeeps(w, t, [Outgoing(w.server, slot)]);
  }

  lemma VisitKeeps(w: World, slot: nat, now: U64, ks: seq<nat>)
    requires WorldOk(w)
    ensures WorldOk(ServerMoves(w, T.Step(w.server, T.Visit(slot, now, ks)), [], {}, {}))
  {
    hide S.Tables, ServerOk, ClientOk, PacketOk, S.Erase, S.Keep, S.Lists;
    var s := w.server;
    var t := T.Step(s, T.Visit(slot, now, ks));
    T.StepKeeps(s, T.Visit(slot, now, ks));
    if S.Live(s, slot) && !S.Keep(S.At(s, slot), now) && S.Lists(S.At(s, slot).convs, ks) {
      T.EraseKeeps(s, slot, ks);
      Erased(s, t, slot);
      Quieter(ViewOf(s), ViewOf(t), w.past);
      assert ServerMoves(w, t, [], {}, {}).past == w.past;
      ServerMovesKeeps(w, t, [], {}, {});
    } else {
      QuietKeeps(w, s, []);
    }
  }

  lemma Erased(s: S.Server, t: S.Server, slot: nat)
    requires forall j :: S.Live(t, j) <==> j != slot && S.Live(s, j)
    requires forall j :: j != slot && S.Live(s, j) ==> S.At(t, j) == S.At(s, j)
    ensures forall j :: In(ViewOf(t), j) ==> In(ViewOf(s), j) && ViewOf(t)[j] == ViewOf(s)[j]
    ensures NewlyReady(ViewOf(s), ViewOf(t)) == {}
  {
    forall j | In(ViewOf(t), j) ensures In(ViewOf(s), j) && ViewOf(t)[j] == ViewOf(s)[j] {
      assert S.Live(t, j);
    }
    forall j | 0 <= j < |ViewOf(t)| ensures !Starts(ViewOf(s), ViewOf(t), j) {
      if ViewOf(t)[j].Some? { assert In(ViewOf(t), j); }
    }
  }

  lemma {:induction false} CloseView(s: S.Server, ks: seq<nat>)
    ensures S.CloseSocks(s, ks).conns == s.conns
  {
    if ks != [] { CloseView(s, ks[..|ks| - 1]); }
  }

  lemma ExpireKeeps(w: World, slot: nat, gone: set<U32>, ks: seq<nat>)
    requires WorldOk(w)
    ensures WorldOk(ServerMoves(w, T.Step(w.server, T.Expired(slot, gone, ks)), [], {}, {}))
  {
    hide S.Tables, ServerOk, ClientOk, PacketOk, S.CloseSocks, S.Lists;
    var s := w.server;
    var t := T.Step(s, T.Expired(slot, gone, ks));
    T.StepKeeps(s, T.Expired(slot, gone, ks));
    if S.Live(s, slot) {
      CloseView(S.Put(s, slot, S.At(s, slot).(convs := S.At(s, slot).convs - gone)), ks);
    }
    assert ViewOf(t) == ViewOf(s);
    QuietKeeps(w, t, []);
  }

  /** What receiving a packet does to the views: at most the window of its connection moves. */
  lemma ReceivedView(s: S.Server, i: nat, p: Packet, body: T.Body, now: U64)
    requires S.Tables(s) && S.IsReady(s, i) && p.Safer?
    ensures |S.At(s, i).window.bits| == A.WINDOW
    ensures ViewOf(T.Received(s, i, p.from, p.to, p.seqno, body, now)) == ViewOf(S.Accept(s, i, p.from, p.to, p.seqno).0)
  {
    hide S.Tables, A.Check, T.OnPacket, ViewOf;
    T.AcceptKeeps(s, i, p.from, p.to, p.seqno);
    var (t, ok) := S.Accept(s, i, p.from, p.to, p.seqno);
    if ok {
      T.ReceivedKeeps(s, i, p.from, p.to, p.seqno, body, now);
      OnPacketView(t, i, body, now);
    }
  }

  lemma OnPacketView(t: S.Server, i: nat, body: T.Body, now: U64)
    requires S.Tables(t) && S.IsReady(t, i)
    ensures ViewOf(T.OnPacket(t, i, body, now)) == ViewOf(t)
  {
    hide S.Tables, S.FreeList, S.Allocate;
    T.FreeOf(t);
    var u := T.OnPacket(t, i, body, now);
    assert |u.conns| == |t.conns| && forall j :: 0 <= j < |t.conns| ==> u.conns[j].Some? == t.conns[j].Some?;
    forall j | 0 <= j < |t.conns| && t.conns[j].Some? ensures PeerOf(u.conns[j].value) == PeerOf(t.conns[j].value) {}
  }

  lemma SaferKeeps(w: World, slot: nat, generation: nat, p: Packet, body: T.Body, now: U64)
    requires WorldOk(w) && T.ValidReady(w.server, slot, generation) && p.Safer? && p in w.net
    ensures WorldOk(SaferStep(w, slot, generation, p, body, now))
    ensures Takes(w.server, slot, p) ==> p !in w.past.accepted
  {
    hide S.Tables, ServerOk, ClientOk, PacketOk, A.Check, T.Received;
    var s := w.server;
    var e := T.Decrypted(slot, generation, p.from, p.to, p.seqno, body, now);
    T.StepKeeps(s, e);
    ReceivedView(s, slot, p, body, now);
    var t := T.Step(s, e);
    var c := S.At(s, slot);
    var v, u := ViewOf(s), ViewOf(t);
    var ok := Takes(s, slot, p);
    var acc := if ok then {p} else {};
    if p.from == c.ids.opp && p.to == c.ids.my {
      assert u == v[slot := Some(v[slot].value.(window := A.Check(v[slot].value.window, p.seqno).0))];
      Accepted(v, u, w.past, slot, p);
      OutgoingOk(w, slot);
    } else {
      assert u == v;
    }
    SameView(v, u);
    assert ServerMoves(w, t, [], {}, acc).past == if ok then w.past.(accepted := w.past.accepted + {p}) else w.past;
    ServerMovesKeeps(w, t, [], {}, acc);
  }

  // ------------------------------------------------------------------ runs

  lemma NextKeeps(w: World, e: Event)
    requires WorldOk(w) && Enabled(w, e)
    ensures WorldOk(Next(w, e))
  {
    hide S.Tables, ServerOk, PacketOk, ClientNext, ServerNext, A.Agrees;
    if OfClient(e) {
      var c, acc := w.clients[e.i], w.taken[e.i];
      assert ClientOk(w.past, w.clientIds, c, acc);
      ClientStepOk(w.past, w.clientIds, w.net, c, acc, e);
      var (d, acc', out) := ClientNext(c, acc, e);
      ClientMoves(w, e.i, d, Drawn(e), acc', out);
    } else {
      ServerNextKeeps(w, e);
    }
  }

  lemma ServerNextKeeps(w: World, e: Event)
    requires WorldOk(w) && Enabled(w, e)
    ensures WorldOk(ServerNext(w, e))
  {
    hide S.Tables, ServerOk, ClientOk, PacketOk, HandshakeStep, SaferStep, SendStep, T.Step, ServerMoves;
    match e
    case ServerHandshake(addr, p, now, my, seed) =>
      if addr in w.server.byAddr { OngoingKeeps(w, e); } else { NewcomerKeeps(w, e); }
    case ServerSafer(slot, generation, p, body, now) => SaferKeeps(w, slot, generation, p, body, now);
    case ServerSend(slot, now) => SendStepKeeps(w, T.Heartbeat(slot, now), slot);
    case ServerSocket(k) =>
      T.SocketHasReadyOwner(w.server, k);
      SendStepKeeps(w, T.FromSocket(k), w.server.socks[k].value.slot);
    case ServerVisit(slot, now, ks) => VisitKeeps(w, slot, now, ks);
    case ServerExpire(slot, gone, ks) => ExpireKeeps(w, slot, gone, ks);
    case _ =>
  }

  /** One event; one that is not enabled does not happen. */
  ghost function Apply(w: World, e: Event): (r: World)
    requires WorldOk(w)
    ensures WorldOk(r)
  {
    hide WorldOk;
    if Enabled(w, e) then NextKeeps(w, e); Next(w, e) else w
  }

  ghost function After(w: World, es: seq<Event>): (r: World)
    requires WorldOk(w)
    ensures WorldOk(r)
  {
    if es == [] then w else Apply(After(w, es[..|es| - 1]), es[|es| - 1])
  }

  /** A server with empty tables, clients in their initial phase under distinct drawn ids, an empty wire. */
  ghost predicate Initial(w: World, constId: U32) {
    && w.server == S.Empty(constId)
    && w.past == Past({}, {}, {})
    && w.net == {} && 0 !in w.clientIds
    && |w.taken| == |w.clients|
    && forall i :: 0 <= i < |w.clients| ==>
         && w.taken[i] == {} && w.clients[i].phase.Idle?
         && w.clients[i].my in w.clientIds && |w.clients[i].window.bits| == A.WINDOW
  }

  lemma InitialOk(w: World, constId: U32)
    requires Initial(w, constId)
    ensures WorldOk(w)
  {
    T.EmptyTables(constId);
  }

  // ------------------------------------------------------------------ what grows along a run

  ghost predicate Later(w: World, u: World) {
    && Grows(w.past, u.past) && w.past.accepted <= u.past.accepted
    && |w.clients| == |u.clients| && |w.taken| == |u.taken| == |w.clients|
    && forall i :: 0 <= i < |w.taken| ==> w.taken[i] <= u.taken[i]
  }

  lemma ApplyLater(w: World, e: Event)
    requires WorldOk(w)
    ensures Later(w, Apply(w, e))
  {
    hide S.Tables, ServerOk, ClientOk, PacketOk, ClientNext, HandshakeStep, T.Step, ViewOf;
    if Enabled(w, e) && OfClient(e) {
      assert ClientOk(w.past, w.clientIds, w.clients[e.i], w.taken[e.i]);
      ClientStepOk(w.past, w.clientIds, w.net, w.clients[e.i], w.taken[e.i], e);
    }
  }

  lemma {:induction false} RunLater(w: World, es: seq<Event>, k: nat)
    requires WorldOk(w) && k <= |es|
    ensures Later(After(w, es[..k]), After(w, es))
    decreases |es|
  {
    hide WorldOk, Apply;
    if k == |es| {
      assert es[..k] == es;
      StaysLater(After(w, es));
    } else {
      var front := es[..|es| - 1];
      RunLater(w, front, k);
      assert front[..k] == es[..k];
      ApplyLater(After(w, front), es[|es| - 1]);
    }
  }

  lemma StaysLater(w: World)
    requires WorldOk(w)
    ensures Later(w, w)
  {
    hide S.Tables, ServerOk, ClientOk, PacketOk;
  }
}
