/** The sweep over the connection slab: which slots a pass visits, and that none waits for ever. */
module ServerSweep {
  import opened Machine
  import Arith
  import opened Server
  import opened ServerTables

  type Slots = seq<Option<Conn>>

  // ------------------------------------------------------------------ one pass

  /** A cursor beyond the slab starts over. */
  function From(n: nat, cursor: nat): nat {
    if cursor >= n then 0 else cursor
  }

  /** How many slots a pass scans before it comes to slot `i`, going round. */
  function Ahead(n: nat, cursor: nat, i: nat): (r: nat)
    requires i < n
    ensures r < n
  {
    if i >= From(n, cursor) then i - From(n, cursor) else i + n - From(n, cursor)
  }

  /** The cursor after `turns` slots. */
  function Moved(n: nat, cursor: nat, turns: nat): (r: nat)
    requires turns <= n
  {
    if turns == 0 then cursor
    else if From(n, cursor) + turns <= n then From(n, cursor) + turns
    else From(n, cursor) + turns - n
  }

  ghost function LiveSlots(conns: Slots): set<nat> {
    set i | 0 <= i < |conns| && conns[i].Some?
  }

  /** The live slots among the first `turns` ones from the cursor on. */
  ghost function Reached(conns: Slots, cursor: nat, turns: nat): set<nat> {
    set i | i in LiveSlots(conns) && Ahead(|conns|, cursor, i) < turns
  }

  /** A fiftieth of the live connections and one more, but not more than there are. */
  function Quota(size: nat): nat {
    Min(size / CONN_CLEAR_RATIO + CONN_CLEAR_MIN, size)
  }

  lemma QuotaIs(n: nat)
    ensures Quota(n) == if n == 0 then 0 else if n / 50 + 1 < n then n / 50 + 1 else n
  {
  }

  /** Of the visited slots exactly those with a connection that is not to be kept are emptied. */
  ghost predicate Swept(before: Slots, after: Slots, visited: set<nat>, now: U64) {
    && |after| == |before|
    && forall i :: 0 <= i < |before| ==>
         after[i] == if i in visited && before[i].Some? && !Keep(before[i].value, now) then None else before[i]
  }

  /** A pass of `turns` slots visits exactly its quota of live slots, the first ones from the cursor
      on, ends at the last of them, and leaves the cursor behind it. */
  ghost predicate Pass(s: Server, t: Server, now: U64, turns: nat) {
    && turns <= |s.conns|
    && |Reached(s.conns, s.cursor, turns)| == Quota(LiveCount(s))
    && (turns > 0 ==> |Reached(s.conns, s.cursor, turns - 1)| < Quota(LiveCount(s)))
    && Swept(s.conns, t.conns, Reached(s.conns, s.cursor, turns), now)
    && t.cursor == Moved(|s.conns|, s.cursor, turns)
    && t.lastClear == now
  }

  lemma FreeAndLive(conns: Slots, free: seq<nat>)
    requires FreeList(conns, free)
    ensures |LiveSlots(conns)| + |free| == |conns|
  {
    var all, used, live := Arith.Below(|conns|), Arith.Members(free), LiveSlots(conns);
    Arith.MembersSize(free);
    assert used !! live;
    assert all == used + live;
  }

  lemma LiveIsCounted(s: Server)
    requires Tables(s)
    ensures |LiveSlots(s.conns)| == LiveCount(s)
  {
    hide FreeList, Tables;
    FreeOf(s);
    FreeAndLive(s.conns, s.freeConns);
  }

  /** One more slot: the one under the cursor. */
  lemma OneMore(conns: Slots, cursor: nat, turns: nat)
    requires turns < |conns|
    ensures var n := |conns|;
            var slot := From(n, Moved(n, cursor, turns));
            && slot < n && Ahead(n, cursor, slot) == turns
            && slot + 1 == Moved(n, cursor, turns + 1)
            && slot !in Reached(conns, cursor, turns)
            && Reached(conns, cursor, turns + 1) == Reached(conns, cursor, turns) + (if conns[slot].Some? then {slot} else {})
  {
    var n := |conns|;
    var slot := From(n, Moved(n, cursor, turns));
    forall i | 0 <= i < n && Ahead(n, cursor, i) == turns ensures i == slot {
    }
  }

  /** A whole round reaches every live slot, so the quota is always met. */
  lemma WholeRound(s: Server)
    requires Tables(s)
    ensures |Reached(s.conns, s.cursor, |s.conns|)| == LiveCount(s) >= Quota(LiveCount(s))
    ensures Reached(s.conns, s.cursor, 0) == {}
  {
    LiveIsCounted(s);
    assert Reached(s.conns, s.cursor, |s.conns|) == LiveSlots(s.conns);
  }

  lemma SweptSoFar(conns: Slots, after: Slots, cursor: nat, turns: nat, now: U64, after': Slots)
    requires turns < |conns| && Swept(conns, after, Reached(conns, cursor, turns), now)
    requires var slot := From(|conns|, Moved(|conns|, cursor, turns));
             after' == if after[slot].Some? && !Keep(after[slot].value, now) then after[slot := None] else after
    ensures Swept(conns, after', Reached(conns, cursor, turns + 1), now)
    ensures var slot := From(|conns|, Moved(|conns|, cursor, turns)); after[slot] == conns[slot]
  {
    hide Keep, Moved, From;
    OneMore(conns, cursor, turns);
  }

  // ------------------------------------------------------------------ visits as events

  lemma {:induction false} CloseSocksOnly(s: Server, ks: seq<nat>, cursor: nat, lastClear: U64)
    ensures var t := CloseSocks(s, ks);
            && t == s.(socks := t.socks, freeSocks := t.freeSocks)
            && CloseSocks(s.(cursor := cursor, lastClear := lastClear), ks) == t.(cursor := cursor, lastClear := lastClear)
  {
    if ks != [] { CloseSocksOnly(s, ks[..|ks| - 1], cursor, lastClear); }
  }

  /** The cursor and the stamp of the sweep play no part in an erasure. */
  lemma EraseElsewhere(s: Server, i: nat, ks: seq<nat>, cursor: nat, lastClear: U64)
    requires Live(s, i)
    ensures Erase(s.(cursor := cursor, lastClear := lastClear), i, ks)
            == Erase(s, i, ks).(cursor := cursor, lastClear := lastClear)
    ensures Erase(s, i, ks).cursor == s.cursor && Erase(s, i, ks).conns == s.conns[i := None]
  {
    hide CloseSocks;
    var c := At(s, i);
    var s1 := s.(conns := s.conns[i := None]);
    var s2 := if c.phase.Ready?
              then s1.(readyNum := SatSub(s1.readyNum, 1), byConst := s1.byConst - {c.ids.cid}) else s1;
    CloseSocksOnly(s2, ks, cursor, lastClear);
  }

  lemma CursorFree(s: Server, cursor: nat, lastClear: U64)
    requires Tables(s)
    ensures Tables(s.(cursor := cursor, lastClear := lastClear))
  {
    hide FreeList, AddrIndex, ConstIndex, SockIndex, Generations;
    var t := s.(cursor := cursor, lastClear := lastClear);
    SameConns(s, t);
    SocksKept(s, t);
  }

  lemma VisitConns(s: Server, i: nat, now: U64, ks: seq<nat>)
    requires Tables(s) && Live(s, i) && (Keep(At(s, i), now) || Lists(At(s, i).convs, ks))
    ensures var t := Step(s, Visit(i, now, ks));
            t.cursor == s.cursor && t.conns == if Keep(At(s, i), now) then s.conns else s.conns[i := None]
  {
    hide Tables, Keep, Lists, Erase;
    EraseElsewhere(s, i, ks, 0, 0);
  }

  lemma VisitElsewhere(s: Server, i: nat, now: U64, ks: seq<nat>, cursor: nat, lastClear: U64)
    requires Tables(s) && Tables(s.(cursor := cursor, lastClear := lastClear))
    ensures Step(s.(cursor := cursor, lastClear := lastClear), Visit(i, now, ks))
            == Step(s, Visit(i, now, ks)).(cursor := cursor, lastClear := lastClear)
  {
    hide Tables, Lists, Keep, Erase;
    if Live(s, i) { EraseElsewhere(s, i, ks, cursor, lastClear); }
  }

  /** Visits of live slots at one instant, each further from the cursor than the one before. */
  ghost predicate InOrder(s: Server, visits: seq<Event>, now: U64, turns: nat) {
    && (forall k :: 0 <= k < |visits| ==>
          visits[k].Visit? && visits[k].now == now && visits[k].slot in Reached(s.conns, s.cursor, turns))
    && (forall k, l :: 0 <= k < l < |visits| ==>
          Ahead(|s.conns|, s.cursor, visits[k].slot) < Ahead(|s.conns|, s.cursor, visits[l].slot))
  }

  lemma FromIs(n: nat, cursor: nat)
    ensures From(n, cursor) == if cursor >= n then 0 else cursor
  {
  }

  lemma InOrderLater(s: Server, visits: seq<Event>, now: U64, turns: nat)
    requires InOrder(s, visits, now, turns)
    ensures InOrder(s, visits, now, turns + 1)
  {
  }

  lemma InOrderMore(s: Server, visits: seq<Event>, now: U64, turns: nat, e: Event)
    requires InOrder(s, visits, now, turns) && e.Visit? && e.now == now
    requires e.slot in Reached(s.conns, s.cursor, turns + 1) && Ahead(|s.conns|, s.cursor, e.slot) == turns
    ensures InOrder(s, visits + [e], now, turns + 1)
  {
  }

  /** A pass that started in `v` has scanned `turns` slots and is now in `u`. */
  ghost predicate Underway(v: Server, u: Server, now: U64, turns: nat, visits: seq<Event>) {
    && Tables(v) && Tables(u) && turns <= |v.conns|
    && Swept(v.conns, u.conns, Reached(v.conns, v.cursor, turns), now)
    && u.cursor == Moved(|v.conns|, v.cursor, turns)
    && u == Run(v, visits).(cursor := u.cursor, lastClear := now)
    && |visits| == |Reached(v.conns, v.cursor, turns)| && InOrder(v, visits, now, turns)
  }

  lemma NothingYet(v: Server, now: U64)
    requires Tables(v)
    ensures Tables(v.(lastClear := now)) && Underway(v, v.(lastClear := now), now, 0, [])
  {
    hide Tables, Step;
    CursorFree(v, v.cursor, now);
    assert Reached(v.conns, v.cursor, 0) == {};
  }

  lemma StillLive(v: Server, u: Server, now: U64, turns: nat, visits: seq<Event>)
    requires Underway(v, u, now, turns, visits)
    ensures |u.conns| == |v.conns|
    ensures Reached(v.conns, v.cursor, 0) == {} && |Reached(v.conns, v.cursor, |v.conns|)| == LiveCount(v)
  {
    hide Tables, Step;
    WholeRound(v);
  }

  lemma ScanEmpty(v: Server, u: Server, now: U64, turns: nat, visits: seq<Event>, slot: nat)
    requires Underway(v, u, now, turns, visits) && turns < |v.conns| && slot == From(|u.conns|, u.cursor)
    requires slot < |u.conns| && u.conns[slot].None?
    ensures Underway(v, u.(cursor := slot + 1), now, turns + 1, visits) && |visits| == |Reached(v.conns, v.cursor, turns + 1)|
  {
    hide Tables, Step, Keep, Reached, Moved, From, InOrder;
    OneMore(v.conns, v.cursor, turns);
    SweptSoFar(v.conns, u.conns, v.cursor, turns, now, u.conns);
    InOrderLater(v, visits, now, turns);
    CursorFree(u, slot + 1, now);
  }

  lemma ScanLive(v: Server, u: Server, now: U64, turns: nat, visits: seq<Event>, slot: nat, ks: seq<nat>)
    requires Underway(v, u, now, turns, visits) && turns < |v.conns| && slot == From(|u.conns|, u.cursor)
    requires slot < |u.conns| && u.conns[slot].Some? && (Keep(u.conns[slot].value, now) || Lists(u.conns[slot].value.convs, ks))
    ensures Tables(u.(cursor := slot + 1)) && |visits| + 1 == |Reached(v.conns, v.cursor, turns + 1)|
    ensures Underway(v, Step(u.(cursor := slot + 1), Visit(slot, now, ks)), now, turns + 1, visits + [Visit(slot, now, ks)])
  {
    hide Tables, Keep, Reached, Moved, From, InOrder, Step, Lists;
    var w, e := Run(v, visits), Visit(slot, now, ks);
    OneMore(v.conns, v.cursor, turns);
    CursorFree(u, slot + 1, now);
    VisitConns(u.(cursor := slot + 1), slot, now, ks);
    CursorFree(w, slot + 1, now);
    VisitElsewhere(w, slot, now, ks, slot + 1, now);
    var u' := Step(u.(cursor := slot + 1), e);
    StepKeeps(u.(cursor := slot + 1), e);
    SweptSoFar(v.conns, u.conns, v.cursor, turns, now, u'.conns);
    InOrderMore(v, visits, now, turns, e);
    assert (visits + [e])[..|visits|] == visits;
  }

  lemma PassDone(v: Server, u: Server, now: U64, turns: nat, visits: seq<Event>)
    requires Underway(v, u, now, turns, visits) && |Reached(v.conns, v.cursor, turns)| == Quota(LiveCount(v))
    requires turns > 0 ==> |Reached(v.conns, v.cursor, turns - 1)| < Quota(LiveCount(v))
    ensures Pass(v, u, now, turns)
    ensures u == Run(v, visits).(cursor := u.cursor, lastClear := now)
    ensures |visits| == Quota(LiveCount(v)) && InOrder(v, visits, now, turns)
  {
    hide Tables, Step, Reached;
  }

  // ------------------------------------------------------------------ what a visit does

  /** A visit removes a Ready connection exactly when nothing was heard for over four minutes and it has no
      conversation, and any other exactly when its handshake began over ten seconds ago. */
  lemma VisitExact(s: Server, i: nat, now: U64, ks: seq<nat>)
    requires Tables(s) && Live(s, i) && Lists(At(s, i).convs, ks)
    ensures var t, c := Step(s, Visit(i, now, ks)), At(s, i);
            && (!Live(t, i) <==>
                  if c.phase.Ready? then now > c.times.hbRecv + 240_000 && c.convs == map[] else now > c.times.state + 10_000)
            && (Live(t, i) ==> t == s)
            && (!Live(t, i) ==> c.addr !in t.byAddr && forall j :: j != i ==> (Live(t, j) <==> Live(s, j)))
  {
    hide FreeList, ConstIndex, SockIndex, Generations, Lists, Erase, AddrIndex;
    EraseKeeps(s, i, ks);
    if !Keep(At(s, i), now) { ErasedAddr(s, i, ks); }
  }

  lemma ErasedAddr(s: Server, i: nat, ks: seq<nat>)
    requires Live(s, i)
    ensures At(s, i).addr !in Erase(s, i, ks).byAddr
  {
    hide CloseSocks;
  }

  /** A heartbeat that is accepted is heard: for four minutes no visit removes the connection. */
  lemma HeardIsKept(s: Server, i: nat, generation: nat, from: U32, to: U32, seqno: U64, t1: U64, t2: U64, ks: seq<nat>)
    requires Tables(s) && ValidReady(s, i, generation)
    requires |At(s, i).window.bits| == A.WINDOW && Accept(s, i, from, to, seqno).1 && t2 <= t1 + 240_000
    ensures var t := Step(s, Decrypted(i, generation, from, to, seqno, HeartbeatBody, t1));
            Tables(t) && IsReady(t, i) && At(t, i).times.hbRecv == t1 && Step(t, Visit(i, t2, ks)) == t
  {
    hide FreeList, AddrIndex, ConstIndex, SockIndex, Generations, Lists, A.Check;
    StepKeeps(s, Decrypted(i, generation, from, to, seqno, HeartbeatBody, t1));
    AcceptKeeps(s, i, from, to, seqno);
  }

  /** DATA for a conversation opens a socket exactly when the conversation is new, fewer than ten thousand
      are open, and the kernel connects and registers it; then the two point to each other. */
  lemma DataExact(s: Server, i: nat, conv: U32, connected: bool, registered: bool)
    requires Tables(s) && IsReady(s, i)
    ensures FreeList(s.socks, s.freeSocks)
    ensures var t, c := OnData(s, i, conv, connected, registered), At(s, i);
            if conv !in c.convs && |c.convs| < 10_000 && connected && registered then
              && Live(t, i) && conv in At(t, i).convs && At(t, i) == c.(convs := c.convs[conv := At(t, i).convs[conv]])
              && At(t, i).convs[conv] < |t.socks| && t.socks[At(t, i).convs[conv]] == Some(Sock(i, conv))
              && (forall j :: 0 <= j < |s.socks| && j != At(t, i).convs[conv] ==> j < |t.socks| && t.socks[j] == s.socks[j])
              && (At(t, i).convs[conv] < |s.socks| ==> s.socks[At(t, i).convs[conv]].None?)
            else t.conns == s.conns && forall j :: 0 <= j < |s.socks| ==> j < |t.socks| && t.socks[j] == s.socks[j]
  {
    hide AddrIndex, ConstIndex, SockIndex, Generations;
  }

  // ------------------------------------------------------------------ no slot waits for ever

  /** No event but a pass moves the cursor; the slab never shrinks and never outgrows its limit. */
  ghost predicate Grows(s: Server, t: Server) {
    && t.cursor == s.cursor
    && |s.conns| <= |t.conns| <= Max(|s.conns|, MAX_HANDSHAKE_CONN_NUM)
  }

  lemma PreReadyGrows(s: Server, i: nat, cid: U32, now: U64)
    requires Live(s, i)
    ensures Grows(s, PreReady(s, i, cid, now).0)
  {
  }

  lemma Handshake1Grows(s: Server, i: nat, id1: U32, id2: U32, id3: U32, now: U64)
    requires Live(s, i)
    ensures Grows(s, OnHandshake1(s, i, id1, id2, id3, now).0)
  {
    hide PreReady;
    var c := At(s, i);
    PreReadyGrows(Put(s, i, c.(ids := c.ids.(opp := id1))), i, id3, now);
  }

  lemma NewAddressGrows(s: Server, a: Addr, id1: U32, id2: U32, id3: U32, now: U64, myId: U32, seed: U64)
    requires Tables(s) && a !in s.byAddr
    ensures Grows(s, OnNewAddress(s, a, id1, id2, id3, now, myId, seed).0)
  {
    hide FreeList, OnHandshake1, Tables;
    FreeOf(s);
    if LiveCount(s) < MAX_HANDSHAKE_CONN_NUM && id2 == 0 {
      var c := Conn(Handshake1, a, Ids(myId, 0, 0), Times(now, 0, 0), s.nextGeneration, A.Window(0, A.Zeros()), seed / 10, map[]);
      var (conns, free, i) := Allocate(s.conns, s.freeConns, c);
      var s1 := s.(conns := conns, freeConns := free, byAddr := s.byAddr[a := i], nextGeneration := s.nextGeneration + 1);
      AllocateGrows(s.conns, s.freeConns, c);
      Handshake1Grows(s1, i, id1, id2, id3, now);
    }
  }

  lemma AllocateGrows(conns: Slots, free: seq<nat>, c: Conn)
    requires FreeList(conns, free)
    ensures var (conns', _, i) := Allocate(conns, free, c);
            && i < |conns'| && conns'[i] == Some(c)
            && |conns'| == (if free == [] then |conns| + 1 else |conns|)
  {
  }

  lemma ReceivedGrows(s: Server, i: nat, from: U32, to: U32, seqno: U64, body: Body, now: U64)
    requires Tables(s) && IsReady(s, i)
    ensures Grows(s, Received(s, i, from, to, seqno, body, now))
  {
    hide Tables, A.Check, FreeList, OnData;
    AcceptKeeps(s, i, from, to, seqno);
    var (t, ok) := Accept(s, i, from, to, seqno);
    if ok && body.DataBody? {
      var u := if body.beats then Beat(t, i, now) else t;
      PutKeeps(t, i, At(t, i).(times := At(t, i).times.(hbRecv := now)));
      FreeOf(u);
      DataGrows(u, i, body.conv, body.connected, body.registered);
    }
  }

  lemma DataGrows(s: Server, i: nat, conv: U32, connected: bool, registered: bool)
    requires Live(s, i) && FreeList(s.socks, s.freeSocks)
    ensures Grows(s, OnData(s, i, conv, connected, registered))
  {
    hide FreeList, Allocate;
  }

  lemma StepGrows(s: Server, e: Event)
    requires Tables(s)
    ensures Grows(s, Step(s, e))
  {
    hide FreeList, AddrIndex, ConstIndex, SockIndex, Generations, Lists, OnHandshake1, OnNewAddress, Received, CloseSocks, Keep;
    match e
    case Handshake(addr, id1, id2, id3, now, myId, seed) =>
      if addr !in s.byAddr {
        NewAddressGrows(s, addr, id1, id2, id3, now, myId, seed);
      } else {
        AddrIsLive(s, addr);
        Handshake1Grows(s, s.byAddr[addr], id1, id2, id3, now);
      }
    case Decrypted(slot, generation, from, to, seqno, body, now) =>
      if ValidReady(s, slot, generation) { ReceivedGrows(s, slot, from, to, seqno, body, now); }
    case FromSocket(k) =>
    case Heartbeat(slot, now) =>
    case Visit(slot, now, ks) =>
      if Live(s, slot) { EraseElsewhere(s, slot, ks, 0, 0); }
    case Expired(slot, gone, ks) =>
      if Live(s, slot) { CloseSocksOnly(Put(s, slot, At(s, slot).(convs := At(s, slot).convs - gone)), ks, 0, 0); }
  }

  datatype Move = Other(event: Event) | Sweep(now: U64, turns: nat)

  ghost predicate Next(s: Server, m: Move, t: Server) {
    && Tables(s)
    && match m
       case Other(e) => t == Step(s, e)
       case Sweep(now, turns) => Tables(t) && Pass(s, t, now, turns)
  }

  /** Passes of the sweep, in any order with anything else the server does. */
  ghost predicate Behaviour(ss: seq<Server>, ms: seq<Move>) {
    && |ss| == |ms| + 1
    && |ss[0].conns| <= MAX_HANDSHAKE_CONN_NUM
    && forall k :: 0 <= k < |ms| ==> Next(ss[k], ms[k], ss[k + 1])
  }

  ghost function Sweeps(ms: seq<Move>): nat {
    if ms == [] then 0 else Sweeps(ms[..|ms| - 1]) + if ms[|ms| - 1].Sweep? then 1 else 0
  }

  /** How far the cursor still has to go to slot `i`, if the slab grows to its limit meanwhile. */
  function Gap(cursor: nat, i: nat): int {
    if cursor <= i then i - cursor else MAX_HANDSHAKE_CONN_NUM - cursor + i
  }

  ghost predicate Visits(s: Server, m: Move, i: nat) {
    m.Sweep? && i in Reached(s.conns, s.cursor, m.turns)
  }

  lemma PassAdvances(s: Server, t: Server, now: U64, turns: nat, i: nat)
    requires Tables(s) && Live(s, i) && Pass(s, t, now, turns) && i !in Reached(s.conns, s.cursor, turns)
    requires |s.conns| <= MAX_HANDSHAKE_CONN_NUM
    ensures Gap(t.cursor, i) < Gap(s.cursor, i) || s.cursor > |s.conns|
    ensures t.cursor <= |s.conns| && 0 <= Gap(t.cursor, i)
    ensures |t.conns| == |s.conns|
  {
    hide FreeList, AddrIndex, ConstIndex, SockIndex, Generations, Keep;
    assert i in LiveSlots(s.conns);
    LiveIsCounted(s);
    WholeRound(s);
    assert turns > 0;
  }

  lemma {:induction false} GapRun(ss: seq<Server>, ms: seq<Move>, i: nat, k: nat)
    requires Behaviour(ss, ms) && k < |ss|
    requires ss[0].cursor <= |ss[0].conns|
    requires forall j :: 0 <= j < |ms| ==> Live(ss[j], i) && !Visits(ss[j], ms[j], i)
    ensures ss[k].cursor <= |ss[k].conns| <= MAX_HANDSHAKE_CONN_NUM
    ensures |ms| > 0 ==> 0 <= Gap(ss[k].cursor, i) <= Gap(ss[0].cursor, i) - Sweeps(ms[..k])
  {
    hide Tables, Pass, Step, Reached;
    if k == 0 {
      assert ms[..0] == [];
      if |ms| > 0 { assert Live(ss[0], i); }
    } else {
      GapRun(ss, ms, i, k - 1);
      var s, m, t := ss[k - 1], ms[k - 1], ss[k];
      assert Next(s, m, t) && Live(s, i) && !Visits(s, m, i);
      assert ms[..k][..k - 1] == ms[..k - 1];
      match m
      case Other(e) => StepGrows(s, e);
      case Sweep(now, turns) => PassAdvances(s, t, now, turns, i);
    }
  }

  /** Whatever else the server does in between: a slot that stays occupied is visited by one of any
      ten thousand passes, and that visit empties it exactly when its connection is not to be kept. */
  lemma NoSlotWaits(ss: seq<Server>, ms: seq<Move>, i: nat)
    requires Behaviour(ss, ms) && ss[0].cursor <= |ss[0].conns|
    requires forall j :: 0 <= j < |ms| ==> Live(ss[j], i)
    requires Sweeps(ms) >= MAX_HANDSHAKE_CONN_NUM
    ensures exists j :: 0 <= j < |ms| && Visits(ss[j], ms[j], i)
                        && (Live(ss[j + 1], i) <==> Keep(At(ss[j], i), ms[j].now))
  {
    hide Tables, Step, Reached, Keep;
    assert Live(ss[0], i);
    assert ms[..|ms|] == ms;
    if forall j :: 0 <= j < |ms| ==> !Visits(ss[j], ms[j], i) {
      GapRun(ss, ms, i, |ms|);
    } else {
      var j :| 0 <= j < |ms| && Visits(ss[j], ms[j], i);
      assert Next(ss[j], ms[j], ss[j + 1]) && Live(ss[j], i);
    }
  }
}
