/**
 The connection protocol between one server and its clients over a network that may lose, duplicate,
 delay, reorder and misdeliver packets: the three-id handshake, recovery, and the replay windows.
 */
module Session {
  import opened Machine
  import A = AntiReplay
  import S = Server

  type Packet = S.Packet

  // ------------------------------------------------------------------ what the protocol sees of a connection

  /** The part of a server connection the protocol is about. */
  datatype Peer = Peer(phase: S.Phase, my: U32, opp: U32, window: A.Window)

  type View = seq<Option<Peer>>

  function PeerOf(c: S.Conn): Peer {
    Peer(c.phase, c.ids.my, c.ids.opp, c.window)
  }

  function ViewOf(s: S.Server): (v: View)
    ensures |v| == |s.conns|
    ensures forall i :: 0 <= i < |v| ==> v[i] == if s.conns[i].Some? then Some(PeerOf(s.conns[i].value)) else None
  {
    seq(|s.conns|, i requires 0 <= i < |s.conns| => if s.conns[i].Some? then Some(PeerOf(s.conns[i].value)) else None)
  }

  predicate In(v: View, i: int) {
    0 <= i < |v| && v[i].Some?
  }

  /** A connection that has used up its id: it stays Idle until it is erased. */
  predicate Active(v: View, i: int) {
    In(v, i) && !v[i].value.phase.Idle?
  }

  // ------------------------------------------------------------------ histories

  /** The sequence numbers accepted under receiver id `to`. */
  ghost function SeqsTo(acc: set<Packet>, to: U32): set<nat> {
    set p | p in acc && p.Safer? && p.to == to :: p.seqno
  }

  ghost predicate AllFrom(acc: set<Packet>, to: U32, from: U32) {
    forall p :: p in acc && p.Safer? && p.to == to ==> p.from == from
  }

  ghost predicate Untouched(acc: set<Packet>, to: U32) {
    forall p :: p in acc && p.Safer? ==> p.to != to
  }

  /** The server's half of the history: the ids it drew, the pairs `(my, opp)` under which some
      connection became Ready, and the packets some connection accepted. */
  datatype Past = Past(ids: set<U32>, became: set<(U32, U32)>, accepted: set<Packet>)

  ghost predicate Fresh(h: Past, my: U32) {
    && Untouched(h.accepted, my)
    && forall c :: (my, c) !in h.became
  }

  ghost predicate Current(h: Past, p: Peer) {
    && (p.my, p.opp) in h.became
    && AllFrom(h.accepted, p.my, p.opp)
    && A.Agrees(p.window, SeqsTo(h.accepted, p.my))
  }

  ghost predicate PeerOk(h: Past, p: Peer) {
    && p.my in h.ids
    && |p.window.bits| == A.WINDOW
    && (p.phase.Handshake1? ==> Fresh(h, p.my))
    && (p.phase.Ready? ==> Current(h, p))
  }

  /** One window epoch per id: an id in use belongs to one connection, is fresh until that connection
      becomes Ready, and then all that was ever accepted under it is what the window remembers. */
  ghost predicate ServerOk(v: View, h: Past) {
    && (forall i :: In(v, i) ==> PeerOk(h, v[i].value))
    && (forall i, j :: Active(v, i) && Active(v, j) && v[i].value.my == v[j].value.my ==> i == j)
    && (forall s, c, d :: (s, c) in h.became && (s, d) in h.became ==> c == d)
    && (forall s, c :: (s, c) in h.became ==> s in h.ids)
    && (forall p :: p in h.accepted ==> p.Safer? && p.to in h.ids)
  }

  // ------------------------------------------------------------------ how views evolve

  lemma Added(v: View, w: View, h: Past, i: nat, p: Peer)
    requires ServerOk(v, h) && !In(v, i) && In(w, i) && w[i] == Some(p)
    requires forall j :: j != i ==> (In(w, j) <==> In(v, j)) && (In(v, j) ==> w[j] == v[j])
    requires p.phase.Handshake1? && p.my !in h.ids && |p.window.bits| == A.WINDOW
    ensures ServerOk(w, h.(ids := h.ids + {p.my}))
  {
    var h' := h.(ids := h.ids + {p.my});
    assert Fresh(h', p.my);
    forall j | In(w, j) ensures PeerOk(h', w[j].value) {
      if j != i { assert PeerOk(h, v[j].value); }
    }
    forall j, k | Active(w, j) && Active(w, k) && w[j].value.my == w[k].value.my ensures j == k {
      if j != i && k != i { assert Active(v, j) && Active(v, k); }
      if j != i { assert PeerOk(h, v[j].value); }
      if k != i { assert PeerOk(h, v[k].value); }
    }
  }

  /** A connection that gives up or is erased frees no id for reuse. */
  lemma Quieter(v: View, w: View, h: Past)
    requires ServerOk(v, h)
    requires forall j :: In(w, j) ==> In(v, j) && (w[j] == v[j] || w[j] == Some(v[j].value.(phase := S.Idle, opp := w[j].value.opp)))
    ensures ServerOk(w, h)
  {
    forall j | In(w, j) ensures PeerOk(h, w[j].value) {
      assert PeerOk(h, v[j].value);
    }
    forall j, k | Active(w, j) && Active(w, k) && w[j].value.my == w[k].value.my ensures j == k {
      assert Active(v, j) && Active(v, k);
    }
  }

  lemma EmptySeqs(acc: set<Packet>, to: U32)
    requires Untouched(acc, to)
    ensures SeqsTo(acc, to) == {} && forall from :: AllFrom(acc, to, from)
  {
  }

  /** Becoming Ready under a fresh id starts an epoch: connection `o` takes `(my, opp)` with a reset
      window, and the connection `i` that held the id either is `o` or falls idle. */
  lemma Epoch(v: View, w: View, h: Past, i: nat, o: nat, opp: U32)
    requires ServerOk(v, h) && In(v, i) && v[i].value.phase.Handshake1? && In(v, o) && (o == i || v[o].value.phase.Ready?)
    requires |w| == |v| && forall j :: 0 <= j < |v| && j != i && j != o ==> w[j] == v[j]
    requires w[o] == Some(Peer(S.Ready, v[i].value.my, opp, A.ReInit(v[o].value.window)))
    requires o != i ==> w[i].Some? && w[i].value.phase.Idle? && w[i].value.my == v[i].value.my && w[i].value.window == v[i].value.window
    ensures ServerOk(w, h.(became := h.became + {(v[i].value.my, opp)}))
  {
    hide A.Agrees;
    var my := v[i].value.my;
    var h' := h.(became := h.became + {(my, opp)});
    assert PeerOk(h, v[i].value) && PeerOk(h, v[o].value);
    EmptySeqs(h.accepted, my);
    A.ResetAgrees(v[o].value.window);
    assert Current(h', w[o].value);
    forall j | In(w, j) ensures PeerOk(h', w[j].value) {
      if j != i && j != o {
        assert PeerOk(h, v[j].value);
        if v[j].value.phase.Handshake1? {
          assert Active(v, j) && Active(v, i);
          assert v[j].value.my != my;
        }
      }
    }
    forall j, k | Active(w, j) && Active(w, k) && w[j].value.my == w[k].value.my ensures j == k {
      Renamed(v, w, i, o, j);
      Renamed(v, w, i, o, k);
    }
  }

  /** The connection that uses an id after an epoch starts used it before, up to the takeover. */
  lemma Renamed(v: View, w: View, i: nat, o: nat, j: nat)
    requires In(v, i) && v[i].value.phase.Handshake1? && In(v, o) && (o == i || v[o].value.phase.Ready?)
    requires |w| == |v| && forall j :: 0 <= j < |v| && j != i && j != o ==> w[j] == v[j]
    requires w[o].Some? && w[o].value.my == v[i].value.my && (o != i ==> w[i].Some? && w[i].value.phase.Idle?)
    requires Active(w, j)
    ensures var k := if j == o then i else j; Active(v, k) && v[k].value.my == w[j].value.my && (j != o ==> j != i)
  {
  }

  lemma SeqsAdd(acc: set<Packet>, p: Packet)
    requires p.Safer?
    ensures SeqsTo(acc + {p}, p.to) == SeqsTo(acc, p.to) + {p.seqno}
    ensures forall to :: to != p.to ==> SeqsTo(acc + {p}, to) == SeqsTo(acc, to)
  {
    assert p in acc + {p};
    forall q | q in SeqsTo(acc, p.to) + {p.seqno} ensures q in SeqsTo(acc + {p}, p.to) {
      if q == p.seqno { assert p in acc + {p} && p.seqno == q; }
      else {
        var x :| x in acc && x.Safer? && x.to == p.to && x.seqno == q;
        assert x in acc + {p};
      }
    }
    forall to | to != p.to ensures SeqsTo(acc + {p}, to) == SeqsTo(acc, to) {
      forall q | q in SeqsTo(acc, to) ensures q in SeqsTo(acc + {p}, to) {
        var x :| x in acc && x.Safer? && x.to == to && x.seqno == q;
        assert x in acc + {p};
      }
    }
  }

  /** Connection `i` checks a packet that carries its ids. */
  lemma Accepted(v: View, w: View, h: Past, i: nat, p: Packet)
    requires ServerOk(v, h) && In(v, i) && v[i].value.phase.Ready? && p.Safer? && p.to == v[i].value.my && p.from == v[i].value.opp
    requires |v[i].value.window.bits| == A.WINDOW
    requires w == v[i := Some(v[i].value.(window := A.Check(v[i].value.window, p.seqno).0))]
    ensures var ok := A.Check(v[i].value.window, p.seqno).1;
            && (ok ==> p !in h.accepted)
            && ServerOk(w, if ok then h.(accepted := h.accepted + {p}) else h)
  {
    hide A.Agrees, A.Check;
    var c := v[i].value;
    assert PeerOk(h, c) && Active(v, i);
    A.CheckRefinesSet(c.window, SeqsTo(h.accepted, c.my), p.seqno);
    var ok := A.Check(c.window, p.seqno).1;
    var h' := if ok then h.(accepted := h.accepted + {p}) else h;
    SeqsAdd(h.accepted, p);
    if p in h.accepted { assert p.seqno in SeqsTo(h.accepted, c.my); }
    forall j | In(w, j) ensures PeerOk(h', w[j].value) {
      assert PeerOk(h, v[j].value);
      if j != i && Active(v, j) { assert v[j].value.my != c.my; }
    }
    forall j, k | Active(w, j) && Active(w, k) && w[j].value.my == w[k].value.my ensures j == k {
      assert Active(v, j) && Active(v, k) && v[j].value.my == v[k].value.my;
    }
  }
}
