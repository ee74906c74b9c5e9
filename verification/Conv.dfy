/** Conversations: two inverse maps, last activity, and the set that orders them by age. */
module Conv {
  import opened Machine
  import Arith

  const CONV_CLEAR_RATIO: nat := 30
  const CONV_CLEAR_MIN: nat := 1
  const CONV_CLEAR_INTERVAL_MS: nat := 1000
  const CONV_TIMEOUT_MS: nat := 180_000

  /** A last-activity time and the conversation it belongs to. */
  type Stamp = (U64, U32)

  datatype Index<T> = Index(dataToConv: map<T, U32>, convToData: map<U32, T>, lastActive: map<U32, U64>,
                            lru: set<Stamp>, lastClear: U64)

  function New<T>(): Index<T> {
    Index(map[], map[], map[], {}, 0)
  }

  // ------------------------------------------------------------------ the order of the set

  predicate Before(a: Stamp, b: Stamp) {
    a.0 < b.0 || (a.0 == b.0 && a.1 < b.1)
  }

  predicate IsFirst(s: set<Stamp>, f: Stamp) {
    f in s && forall x :: x in s && x != f ==> Before(f, x)
  }

  lemma {:induction false} HasFirst(s: set<Stamp>)
    requires s != {}
    ensures exists f :: IsFirst(s, f)
    decreases s
  {
    var x :| x in s;
    if s == {x} {
      assert IsFirst(s, x);
    } else {
      HasFirst(s - {x});
      var f :| IsFirst(s - {x}, f);
      var g := if Before(x, f) then x else f;
      forall y | y in s && y != g ensures Before(g, y) {
        if y != f && y != x { assert Before(f, y); }
      }
      assert IsFirst(s, g);
    }
  }

  function First(s: set<Stamp>): (f: Stamp)
    requires s != {}
    ensures IsFirst(s, f)
  {
    HasFirst(s);
    var f :| IsFirst(s, f);
    f
  }

  // ------------------------------------------------------------------ operations

  function Insert<T>(m: Index<T>, conv: U32, data: T, now: U64): Index<T> {
    m.(dataToConv := m.dataToConv[data := conv], convToData := m.convToData[conv := data],
       lastActive := m.lastActive[conv := now], lru := m.lru + {(now, conv)})
  }

  function Touch<T>(m: Index<T>, conv: U32, now: U64): Index<T> {
    if conv !in m.lastActive || m.lastActive[conv] == now then m
    else m.(lastActive := m.lastActive[conv := now], lru := m.lru - {(m.lastActive[conv], conv)} + {(now, conv)})
  }

  function Erase<T>(m: Index<T>, conv: U32): (Index<T>, Option<T>) {
    if conv !in m.convToData then (m, None)
    else
      var data := m.convToData[conv];
      (m.(dataToConv := m.dataToConv - {data}, convToData := m.convToData - {conv}, lastActive := m.lastActive - {conv},
          lru := if conv in m.lastActive then m.lru - {(m.lastActive[conv], conv)} else m.lru), Some(data))
  }

  function Clear<T>(m: Index<T>): Index<T> {
    New<T>().(lastClear := m.lastClear)
  }

  predicate IsIdle(time: U64, now: U64) {
    SatSub(now, time) >= CONV_TIMEOUT_MS
  }

  /** The loop of a pass: at most `n` evictions, oldest first, up to the first active conversation. */
  function Evict<T>(m: Index<T>, now: U64, n: nat): (Index<T>, seq<(U32, T)>)
    decreases n
  {
    if n == 0 || m.lru == {} then (m, [])
    else
      var (time, conv) := First(m.lru);
      if !IsIdle(time, now) then (m, [])
      else
        var (m1, data) := Erase(m, conv);
        var (m2, rest) := Evict(m1, now, n - 1);
        (m2, (if data.Some? then [(conv, data.value)] else []) + rest)
  }

  predicate RateLimited<T>(m: Index<T>, now: U64) {
    SatSub(now, m.lastClear) <= CONV_CLEAR_INTERVAL_MS
  }

  function Quota(size: nat): nat {
    Min(size / CONV_CLEAR_RATIO + CONV_CLEAR_MIN, size)
  }

  function ClearInactive<T>(m: Index<T>, now: U64): (Index<T>, seq<(U32, T)>) {
    if RateLimited(m, now) then (m, [])
    else Evict(m.(lastClear := now), now, Quota(|m.lru|))
  }

  // ------------------------------------------------------------------ the plain map behind the index

  datatype Entry<T> = Entry(data: T, time: U64)

  type Plain<T> = map<U32, Entry<T>>

  ghost predicate Inverse<T(!new)>(m: Index<T>) {
    && (forall c :: c in m.convToData ==> m.convToData[c] in m.dataToConv && m.dataToConv[m.convToData[c]] == c)
    && (forall d :: d in m.dataToConv ==> m.dataToConv[d] in m.convToData && m.convToData[m.dataToConv[d]] == d)
  }

  ghost predicate Aged<T>(m: Index<T>) {
    && m.lastActive.Keys == m.convToData.Keys
    && (forall p: Stamp :: p in m.lru <==> p.1 in m.lastActive && m.lastActive[p.1] == p.0)
  }

  ghost predicate Consistent<T(!new)>(m: Index<T>) {
    Inverse(m) && Aged(m)
  }

  ghost function PlainOf<T(!new)>(m: Index<T>): (p: Plain<T>)
    requires Consistent(m)
    ensures p.Keys == m.convToData.Keys
  {
    map c | c in m.convToData :: Entry(m.convToData[c], m.lastActive[c])
  }

  predicate Fresh<T(==)>(m: Index<T>, conv: U32, data: T) {
    conv !in m.convToData && data !in m.dataToConv
  }

  /** An insert keeps the index consistent exactly when both sides are new, or it repeats what is there. */
  lemma InsertKeepsIffFresh<T(!new)>(m: Index<T>, conv: U32, data: T, now: U64)
    requires Consistent(m)
    ensures Consistent(Insert(m, conv, data, now)) <==>
              Fresh(m, conv, data) || (conv in m.convToData && m.convToData[conv] == data && m.lastActive[conv] == now)
    ensures Fresh(m, conv, data) ==> PlainOf(Insert(m, conv, data, now)) == PlainOf(m)[conv := Entry(data, now)]
  {
    hide Consistent, PlainOf, Insert;
    if conv in m.convToData {
      InsertAgain(m, conv, data, now);
    } else if data in m.dataToConv {
      InsertTaken(m, conv, data, now);
    } else {
      InsertFresh(m, conv, data, now);
    }
  }

  lemma InsertAgain<T(!new)>(m: Index<T>, conv: U32, data: T, now: U64)
    requires Consistent(m) && conv in m.convToData
    ensures conv in m.lastActive
    ensures Consistent(Insert(m, conv, data, now)) <==> m.convToData[conv] == data && m.lastActive[conv] == now
  {
    var u := Insert(m, conv, data, now);
    var d, t := m.convToData[conv], m.lastActive[conv];
    if d != data {
      assert d in u.dataToConv && u.dataToConv[d] == conv;
    } else if t != now {
      assert (t, conv) in u.lru && u.lastActive[conv] != t;
    } else {
      assert u == m;
    }
  }

  lemma InsertTaken<T(!new)>(m: Index<T>, conv: U32, data: T, now: U64)
    requires Consistent(m) && conv !in m.convToData && data in m.dataToConv
    ensures !Consistent(Insert(m, conv, data, now))
  {
    var u := Insert(m, conv, data, now);
    var c := m.dataToConv[data];
    assert c in u.convToData && u.convToData[c] == data && c != conv;
  }

  lemma InsertFresh<T(!new)>(m: Index<T>, conv: U32, data: T, now: U64)
    requires Consistent(m) && Fresh(m, conv, data)
    ensures Consistent(Insert(m, conv, data, now))
    ensures PlainOf(Insert(m, conv, data, now)) == PlainOf(m)[conv := Entry(data, now)]
  {
    hide Inverse, Aged, PlainOf;
    InsertFreshInverse(m, conv, data, now);
    InsertFreshAged(m, conv, data, now);
    InsertFreshPlain(m, conv, data, now);
  }

  lemma InsertFreshInverse<T(!new)>(m: Index<T>, conv: U32, data: T, now: U64)
    requires Consistent(m) && Fresh(m, conv, data)
    ensures Inverse(Insert(m, conv, data, now))
  {
  }

  lemma InsertFreshAged<T(!new)>(m: Index<T>, conv: U32, data: T, now: U64)
    requires Consistent(m) && Fresh(m, conv, data)
    ensures Aged(Insert(m, conv, data, now))
  {
    var u := Insert(m, conv, data, now);
    assert u.lastActive.Keys == u.convToData.Keys;
  }

  lemma InsertFreshPlain<T(!new)>(m: Index<T>, conv: U32, data: T, now: U64)
    requires Consistent(m) && Fresh(m, conv, data) && Consistent(Insert(m, conv, data, now))
    ensures PlainOf(Insert(m, conv, data, now)) == PlainOf(m)[conv := Entry(data, now)]
  {
    hide Inverse;
    assert PlainOf(Insert(m, conv, data, now)) == PlainOf(m)[conv := Entry(data, now)];
  }

  lemma TouchKeeps<T(!new)>(m: Index<T>, conv: U32, now: U64)
    requires Consistent(m)
    ensures Consistent(Touch(m, conv, now))
    ensures PlainOf(Touch(m, conv, now)) ==
              if conv in PlainOf(m) then PlainOf(m)[conv := PlainOf(m)[conv].(time := now)] else PlainOf(m)
  {
    var u := Touch(m, conv, now);
    assert u.lastActive.Keys == u.convToData.Keys;
    assert conv in PlainOf(m) ==> PlainOf(u) == PlainOf(m)[conv := PlainOf(m)[conv].(time := now)];
  }

  lemma EraseKeeps<T(!new)>(m: Index<T>, conv: U32)
    requires Consistent(m)
    ensures var (u, data) := Erase(m, conv);
            && Consistent(u) && PlainOf(u) == PlainOf(m) - {conv} && u.lastClear == m.lastClear
            && data == (if conv in PlainOf(m) then Some(PlainOf(m)[conv].data) else None)
            && u.lru == (if conv in PlainOf(m) then m.lru - {(PlainOf(m)[conv].time, conv)} else m.lru)
  {
    var (u, data) := Erase(m, conv);
    assert u.lastActive.Keys == u.convToData.Keys;
    assert PlainOf(u) == PlainOf(m) - {conv};
  }

  /** The set has one stamp per conversation. */
  lemma {:induction false} LruSize<T(!new)>(m: Index<T>)
    requires Consistent(m)
    ensures |m.lru| == |m.convToData|
    decreases |m.convToData|
  {
    if c :| c in m.convToData {
      EraseKeeps(m, c);
      var u := Erase(m, c).0;
      LruSize(u);
      assert u.convToData.Keys == m.convToData.Keys - {c};
      assert (m.lastActive[c], c) in m.lru;
    } else {
      assert m.convToData.Keys == {};
      assert m.lru == {};
    }
  }

  // ------------------------------------------------------------------ passes

  function Convs<T>(out: seq<(U32, T)>): (r: set<U32>)
    ensures forall k :: 0 <= k < |out| ==> out[k].0 in r
  {
    if out == [] then {} else {out[0].0} + Convs(out[1..])
  }

  function StampOf<T>(p: Plain<T>, c: U32): Stamp
    requires c in p
  {
    (p[c].time, c)
  }

  /** `out` names idle conversations of `p` with their data. */
  ghost predicate AllIdle<T>(p: Plain<T>, now: U64, out: seq<(U32, T)>) {
    forall k :: 0 <= k < |out| ==> out[k].0 in p && out[k].1 == p[out[k].0].data && IsIdle(p[out[k].0].time, now)
  }

  /** Oldest first. */
  ghost predicate ByAge<T>(p: Plain<T>, out: seq<(U32, T)>) {
    && (forall k :: 0 <= k < |out| ==> out[k].0 in p)
    && (forall j, k :: 0 <= j < k < |out| ==> Before(StampOf(p, out[j].0), StampOf(p, out[k].0)))
  }

  /** Conversation `c` is younger than all of `out`. */
  ghost predicate Younger<T>(p: Plain<T>, out: seq<(U32, T)>, c: U32) {
    c in p && forall k :: 0 <= k < |out| && out[k].0 in p ==> Before(StampOf(p, out[k].0), StampOf(p, c))
  }

  /** `out` lists the oldest conversations of `p`, oldest first; they are idle. */
  ghost predicate OldestFirst<T>(p: Plain<T>, now: U64, out: seq<(U32, T)>) {
    && AllIdle(p, now, out)
    && ByAge(p, out)
    && forall c :: c in p && c !in Convs(out) ==> Younger(p, out, c)
  }

  ghost predicate NoneIdle<T>(p: Plain<T>, now: U64) {
    forall c :: c in p ==> !IsIdle(p[c].time, now)
  }

  lemma Nothing<T(!new)>(p: Plain<T>, now: U64)
    ensures OldestFirst(p, now, []) && p - Convs<T>([]) == p
  {
    assert forall c :: c in p ==> Younger(p, [], c);
  }

  lemma {:induction false} EvictKeeps<T(!new)>(m: Index<T>, now: U64, n: nat)
    requires Consistent(m)
    ensures var (u, out) := Evict(m, now, n);
            && Consistent(u) && PlainOf(u) == PlainOf(m) - Convs(out) && u.lastClear == m.lastClear
            && OldestFirst(PlainOf(m), now, out)
            && |out| <= n && (|out| < n ==> NoneIdle(PlainOf(u), now))
    decreases n
  {
    hide OldestFirst, Convs, Consistent, PlainOf, Erase, IsFirst;
    var p := PlainOf(m);
    var (u, out) := Evict(m, now, n);
    Nothing(p, now);
    if n > 0 && m.lru == {} {
      EmptyLru(m);
    } else if n > 0 {
      var f := First(m.lru);
      var c := f.1;
      FirstIsOldest(m);
      if IsIdle(f.0, now) {
        EraseKeeps(m, c);
        var m1 := Erase(m, c).0;
        EvictKeeps(m1, now, n - 1);
        var (u', rest) := Evict(m1, now, n - 1);
        assert out == [(c, p[c].data)] + rest && u == u';
        Consed(p, now, c, rest);
      } else {
        YoungestIdle(p, f, now);
      }
    }
  }

  lemma EmptyLru<T(!new)>(m: Index<T>)
    requires Consistent(m) && m.lru == {}
    ensures PlainOf(m) == map[]
  {
    LruSize(m);
    assert m.convToData == map[];
  }

  lemma YoungestIdle<T>(p: Plain<T>, f: Stamp, now: U64)
    requires f.1 in p && p[f.1].time == f.0 && !IsIdle(f.0, now)
    requires forall c :: c in p && c != f.1 ==> Before(f, StampOf(p, c))
    ensures NoneIdle(p, now)
  {
    forall c | c in p ensures !IsIdle(p[c].time, now) {
      if c != f.1 { assert Before(f, StampOf(p, c)); }
    }
  }

  lemma FirstIsOldest<T(!new)>(m: Index<T>)
    requires Consistent(m) && m.lru != {}
    ensures var f := First(m.lru);
            && f.1 in PlainOf(m) && PlainOf(m)[f.1].time == f.0
            && forall c :: c in PlainOf(m) && c != f.1 ==> Before(f, StampOf(PlainOf(m), c))
  {
    var f, p := First(m.lru), PlainOf(m);
    forall c | c in p && c != f.1 ensures Before(f, StampOf(p, c)) {
      assert StampOf(p, c) in m.lru;
    }
  }

  /** The oldest conversation in front of the oldest of the others. */
  lemma Consed<T(!new)>(p: Plain<T>, now: U64, c: U32, rest: seq<(U32, T)>)
    requires c in p && IsIdle(p[c].time, now)
    requires forall d :: d in p && d != c ==> Before(StampOf(p, c), StampOf(p, d))
    requires OldestFirst(p - {c}, now, rest)
    ensures var out := [(c, p[c].data)] + rest;
            OldestFirst(p, now, out) && p - Convs(out) == p - {c} - Convs(rest)
  {
    hide IsIdle, Before;
    var q, out := p - {c}, [(c, p[c].data)] + rest;
    assert out[1..] == rest;
    ConsedByAge(p, c, rest);
    forall d | d in p && d !in Convs(out) ensures Younger(p, out, d) {
      assert Younger(q, rest, d);
      forall k | 0 <= k < |out| && out[k].0 in p ensures Before(StampOf(p, out[k].0), StampOf(p, d)) {
        if k > 0 { assert out[k] == rest[k - 1] && rest[k - 1].0 in q; }
      }
    }
  }

  lemma ConsedByAge<T(!new)>(p: Plain<T>, c: U32, rest: seq<(U32, T)>)
    requires c in p && ByAge(p - {c}, rest)
    requires forall d :: d in p && d != c ==> Before(StampOf(p, c), StampOf(p, d))
    ensures ByAge(p, [(c, p[c].data)] + rest)
  {
    hide Before;
    var q, out := p - {c}, [(c, p[c].data)] + rest;
    forall k | 0 <= k < |out| ensures out[k].0 in p {
      if k > 0 { assert out[k] == rest[k - 1] && rest[k - 1].0 in q; }
    }
    forall j, k | 0 <= j < k < |out| ensures Before(StampOf(p, out[j].0), StampOf(p, out[k].0)) {
      assert out[k] == rest[k - 1] && rest[k - 1].0 in q;
      if j > 0 {
        assert out[j] == rest[j - 1] && rest[j - 1].0 in q;
        assert Before(StampOf(q, rest[j - 1].0), StampOf(q, rest[k - 1].0));
      }
    }
  }

  ghost function IdleIn<T(!new)>(p: Plain<T>, now: U64): set<U32> {
    set c | c in p && IsIdle(p[c].time, now)
  }

  /** A list in strictly increasing age order names each conversation once. */
  lemma {:induction false} ConvsListed<T(!new)>(out: seq<(U32, T)>, c: U32)
    requires c in Convs(out)
    ensures exists k :: 0 <= k < |out| && out[k].0 == c
    decreases |out|
  {
    if c != out[0].0 {
      ConvsListed(out[1..], c);
      var k :| 0 <= k < |out[1..]| && out[1..][k].0 == c;
      assert out[k + 1].0 == c;
    }
  }

  lemma FirstIsNew<T(!new)>(p: Plain<T>, out: seq<(U32, T)>)
    requires ByAge(p, out) && out != []
    ensures out[0].0 !in Convs(out[1..])
  {
    hide Convs;
    forall k | 0 <= k < |out[1..]| ensures out[1..][k].0 != out[0].0 {
      assert Before(StampOf(p, out[0].0), StampOf(p, out[k + 1].0));
    }
    if out[0].0 in Convs(out[1..]) { ConvsListed(out[1..], out[0].0); }
  }

  lemma {:induction false} ConvsSize<T(!new)>(p: Plain<T>, out: seq<(U32, T)>)
    requires ByAge(p, out)
    ensures |Convs(out)| == |out|
    decreases |out|
  {
    hide ByAge;
    if out != [] {
      LaterByAge(p, out);
      ConvsSize(p, out[1..]);
      FirstIsNew(p, out);
    }
  }

  lemma LaterByAge<T(!new)>(p: Plain<T>, out: seq<(U32, T)>)
    requires ByAge(p, out) && out != []
    ensures ByAge(p, out[1..])
  {
  }

  /** A conversation is idle from 180 s without traffic on, a pass runs no sooner than a second after the one
      before, and of two conversations the one with the earlier stamp is older, or the smaller number. */
  lemma TimesAre<T>(m: Index<T>, time: U64, now: U64, a: Stamp, b: Stamp)
    ensures IsIdle(time, now) <==> now >= time + 180_000
    ensures RateLimited(m, now) <==> now <= m.lastClear + 1_000
    ensures Before(a, b) <==> a.0 < b.0 || (a.0 == b.0 && a.1 < b.1)
  {
  }

  /** A pass over `n` conversations takes at most a thirtieth of them and one more. */
  lemma QuotaIs(n: nat)
    ensures Quota(n) == if n == 0 then 0 else if n / 30 + 1 < n then n / 30 + 1 else n
  {
  }

  /** A pass that is not rate-limited removes exactly the oldest idle conversations, as many as its quota
      allows, and touches nothing else; a rate-limited one does nothing. */
  lemma PassEvictsOldestIdle<T(!new)>(m: Index<T>, now: U64)
    requires Consistent(m)
    ensures var (u, out) := ClearInactive(m, now);
            && Consistent(u) && PlainOf(u) == PlainOf(m) - Convs(out)
            && OldestFirst(PlainOf(m), now, out)
            && |out| == (if RateLimited(m, now) then 0 else Min(Quota(|PlainOf(m)|), |IdleIn(PlainOf(m), now)|))
            && (!RateLimited(m, now) && |out| < Quota(|PlainOf(m)|) ==> NoneIdle(PlainOf(u), now))
  {
    hide OldestFirst, Convs, Evict;
    var p := PlainOf(m);
    var (u, out) := ClearInactive(m, now);
    Nothing(p, now);
    if !RateLimited(m, now) {
      var m0 := m.(lastClear := now);
      assert PlainOf(m0) == p && p.Keys == m.convToData.Keys;
      LruSize(m);
      EvictKeeps(m0, now, Quota(|p|));
      CountEvicted(p, now, out, Quota(|p|));
    }
  }

  lemma CountEvicted<T(!new)>(p: Plain<T>, now: U64, out: seq<(U32, T)>, n: nat)
    requires OldestFirst(p, now, out) && |out| <= n && (|out| < n ==> NoneIdle(p - Convs(out), now))
    ensures |out| == Min(n, |IdleIn(p, now)|)
  {
    hide Convs, ByAge, Younger;
    ConvsSize(p, out);
    forall c | c in Convs(out) ensures c in IdleIn(p, now) { ConvsListed(out, c); }
    Arith.SubsetSize(Convs(out), IdleIn(p, now));
    if |out| < n {
      forall c | c in IdleIn(p, now) ensures c in Convs(out) {
        assert c !in Convs(out) ==> c in p - Convs(out);
      }
      Arith.SubsetSize(IdleIn(p, now), Convs(out));
    }
  }

  // ------------------------------------------------------------------ runs

  datatype Op<T> =
    | InsertOp(conv: U32, data: T, now: U64)
    | TouchOp(conv: U32, now: U64)
    | EraseOp(conv: U32)
    | ClearOp
    | PassOp(now: U64)

  /** The owners insert only a conversation and a peer that are both new. */
  function Step<T(==)>(m: Index<T>, op: Op<T>): Index<T> {
    match op
    case InsertOp(conv, data, now) => if Fresh(m, conv, data) then Insert(m, conv, data, now) else m
    case TouchOp(conv, now) => Touch(m, conv, now)
    case EraseOp(conv) => Erase(m, conv).0
    case ClearOp => Clear(m)
    case PassOp(now) => ClearInactive(m, now).0
  }

  function Run<T(==)>(m: Index<T>, ops: seq<Op<T>>): Index<T> {
    if ops == [] then m else Step(Run(m, ops[..|ops| - 1]), ops[|ops| - 1])
  }

  /** The same operations on the plain map; a pass takes away some of the oldest idle entries. */
  ghost predicate PlainStep<T(!new)>(p: Plain<T>, op: Op<T>, q: Plain<T>) {
    match op
    case InsertOp(conv, data, now) =>
      q == if conv in p || (exists c :: c in p && p[c].data == data) then p else p[conv := Entry(data, now)]
    case TouchOp(conv, now) => q == if conv in p then p[conv := p[conv].(time := now)] else p
    case EraseOp(conv) => q == p - {conv}
    case ClearOp => q == map[]
    case PassOp(now) =>
      exists out: seq<(U32, T)> :: OldestFirst(p, now, out) && q == p - Convs(out) && |out| <= |p| / CONV_CLEAR_RATIO + CONV_CLEAR_MIN
  }

  lemma FreshInPlain<T(!new)>(m: Index<T>, conv: U32, data: T)
    requires Consistent(m)
    ensures Fresh(m, conv, data) <==> conv !in PlainOf(m) && !exists c :: c in PlainOf(m) && PlainOf(m)[c].data == data
  {
    var p := PlainOf(m);
    if data in m.dataToConv { assert m.dataToConv[data] in p && p[m.dataToConv[data]].data == data; }
  }

  lemma ClearKeeps<T(!new)>(m: Index<T>)
    ensures Consistent(Clear(m)) && PlainOf(Clear(m)) == map[]
  {
    assert Consistent(Clear(m));
  }

  lemma StepRefines<T(!new)>(m: Index<T>, op: Op<T>)
    requires Consistent(m)
    ensures Consistent(Step(m, op))
    ensures PlainStep(PlainOf(m), op, PlainOf(Step(m, op)))
  {
    hide Consistent, PlainOf, Insert, Fresh, Touch, Erase, Clear, ClearInactive, OldestFirst, Convs;
    var p := PlainOf(m);
    match op
    case InsertOp(conv, data, now) =>
      InsertKeepsIffFresh(m, conv, data, now);
      FreshInPlain(m, conv, data);
    case TouchOp(conv, now) => TouchKeeps(m, conv, now);
    case EraseOp(conv) => EraseKeeps(m, conv);
    case ClearOp => ClearKeeps(m);
    case PassOp(now) =>
      PassEvictsOldestIdle(m, now);
      var out := ClearInactive(m, now).1;
      assert |out| <= |p| / CONV_CLEAR_RATIO + CONV_CLEAR_MIN;
  }

  /** After any run the two maps are inverse, the set is exactly the stamps of the live conversations, and
      every step is the step of the plain map. */
  lemma {:induction false} IndexAgreesWithPlainMap<T(!new)>(ops: seq<Op<T>>, k: nat)
    requires k < |ops|
    ensures var m, u := Run(New(), ops[..k]), Run(New(), ops[..k + 1]);
            Consistent(m) && Consistent(u) && PlainStep(PlainOf(m), ops[k], PlainOf(u))
    decreases k
  {
    hide Step, PlainStep;
    if k == 0 {
      assert ops[..0] == [];
      assert Consistent(New<T>());
    } else {
      IndexAgreesWithPlainMap(ops, k - 1);
    }
    assert ops[..k + 1][..k] == ops[..k];
    StepRefines(Run(New(), ops[..k]), ops[k]);
  }
}
