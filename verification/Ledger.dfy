/**
 The durable ledger of old-address probes: a token bucket plus per-key caps and cooldowns,
 kept in one locked file that several processes share and that survives crashes.
 */
module Ledger {
  import opened Machine
  import opened Relay

  /** A probe is keyed by the address it returns to and the DNS answer that excludes it. */
  datatype Key = Key(candidate: Ip, dnsSet: seq<Ip>)

  /** One charge: when it was made and for which key. */
  datatype Record = Record(now: U64, key: Key)

  datatype Entry = Entry(key: Key, charged: U32, notBefore: U64, lastUsed: U64)

  datatype State = State(tokens: U32, updated: U64, entries: seq<Entry>)

  // ------------------------------------------------------------------ one charge

  function Fresh(capacity: U32, now: U64): State {
    State(capacity, now, [])
  }

  function Refill(s: State, p: Policy, now: U64): State {
    if now >= s.updated && p.RefillSecs() > 0 && (now - s.updated) / p.RefillSecs() > 0 then
      var intervals := (now - s.updated) / p.RefillSecs();
      assert intervals * p.RefillSecs() <= now - s.updated;
      s.(tokens := Min(Min(s.tokens + Min(intervals, U32_MAX), U32_MAX), p.capacity),
         updated := s.updated + intervals * p.RefillSecs())
    else
      s
  }

  function Position(es: seq<Entry>, k: Key): (r: Option<nat>)
    ensures r.Some? ==> r.value < |es| && es[r.value].key == k
    ensures r.None? ==> forall i :: 0 <= i < |es| ==> es[i].key != k
  {
    if es == [] then None
    else if es[0].key == k then Some(0)
    else match Position(es[1..], k)
      case None => None
      case Some(i) => Some(i + 1)
  }

  /** One step of the stable descending sort by `lastUsed`. */
  function Insert(e: Entry, es: seq<Entry>): (r: seq<Entry>) {
    if es == [] || e.lastUsed >= es[0].lastUsed then [e] + es else [es[0]] + Insert(e, es[1..])
  }

  function SortByUse(es: seq<Entry>): (r: seq<Entry>) {
    if es == [] then [] else Insert(es[0], SortByUse(es[1..]))
  }

  function Precharge(s: State, p: Policy, now: U64, k: Key): (r: Option<State>) {
    var n := Refill(s, p, now);
    if n.tokens == 0 then None
    else match Position(n.entries, k)
      case Some(i) =>
        var e := n.entries[i];
        if e.charged >= p.maxAttempts || now < e.notBefore then None
        else
          var e' := Entry(k, SatInc(e.charged), SatAdd(now, p.CooldownSecs()), now);
          Some(State(n.tokens - 1, n.updated, SortByUse(n.entries[i := e'])))
      case None =>
        if |n.entries| >= MAX_BUDGET_ENTRIES then None
        else
          var e' := Entry(k, 1, SatAdd(now, p.CooldownSecs()), now);
          Some(State(n.tokens - 1, n.updated, SortByUse(n.entries + [e'])))
  }

  /** The in-place form: refill, find the key, update its entry, pay, sort. */
  method PrechargeFallbackState(s: State, p: Policy, now: U64, k: Key) returns (r: Option<State>)
    ensures r == Precharge(s, p, now, k)
  {
    var tokens, updated, entries := s.tokens, s.updated, s.entries;
    var refillSecs := p.RefillSecs();
    if now >= updated && refillSecs > 0 {
      var intervals := (now - updated) / refillSecs;
      if intervals > 0 {
        assert intervals * refillSecs <= now - updated;
        tokens := Min(Min(tokens + Min(intervals, U32_MAX), U32_MAX), p.capacity);
        updated := updated + intervals * refillSecs;
      }
    }
    assert State(tokens, updated, entries) == Refill(s, p, now);
    if tokens == 0 {
      return None;
    }
    var pos := FindEntry(entries, k);
    if pos < |entries| {
      var e := entries[pos];
      if e.charged >= p.maxAttempts || now < e.notBefore {
        return None;
      }
      entries := entries[pos := Entry(k, SatInc(e.charged), SatAdd(now, p.CooldownSecs()), now)];
    } else {
      if |entries| >= MAX_BUDGET_ENTRIES {
        return None;
      }
      entries := entries + [Entry(k, 1, SatAdd(now, p.CooldownSecs()), now)];
    }
    tokens := tokens - 1;
    entries := SortByUse(entries);
    return Some(State(tokens, updated, entries));
  }

  /** The linear search of the ledger: the position of `k`, or the length when it is absent. */
  method FindEntry(entries: seq<Entry>, k: Key) returns (pos: nat)
    ensures Position(entries, k) == if pos < |entries| then Some(pos) else None
  {
    pos := 0;
    while pos < |entries| && entries[pos].key != k
      invariant 0 <= pos <= |entries|
      invariant Position(entries, k) == Shift(Position(entries[pos..], k), pos)
    {
      assert entries[pos..][1..] == entries[pos + 1..];
      pos := pos + 1;
    }
  }

  ghost function Shift(r: Option<nat>, d: nat): Option<nat> {
    match r case None => None case Some(i) => Some(i + d)
  }

  // ------------------------------------------------------------------ what a state records

  ghost function Find(es: seq<Entry>, k: Key): Option<Entry> {
    if es == [] then None else if es[0].key == k then Some(es[0]) else Find(es[1..], k)
  }

  ghost predicate UniqueKeys(es: seq<Entry>) {
    es == [] || (Find(es[1..], es[0].key).None? && UniqueKeys(es[1..]))
  }

  /** How often key `k` has been charged. */
  ghost function ChargedFor(es: seq<Entry>, k: Key): nat {
    match Find(es, k) case None => 0 case Some(e) => e.charged
  }

  /** No probe of key `k` is admitted before this instant. */
  ghost function NotBeforeFor(es: seq<Entry>, k: Key): nat {
    match Find(es, k) case None => 0 case Some(e) => e.notBefore
  }

  ghost function TotalCharged(es: seq<Entry>): nat {
    if es == [] then 0 else es[0].charged + TotalCharged(es[1..])
  }

  lemma {:induction false} PositionFinds(es: seq<Entry>, k: Key)
    ensures Find(es, k) == match Position(es, k) case None => None case Some(i) => Some(es[i])
  {
    if es != [] && es[0].key != k { PositionFinds(es[1..], k); }
  }

  /** Inserting adds exactly one entry: same other lookups, one longer, sum grown by its count. */
  lemma {:induction false} InsertAdds(e: Entry, es: seq<Entry>, k: Key)
    requires Find(es, e.key).None?
    ensures Find(Insert(e, es), k) == if k == e.key then Some(e) else Find(es, k)
    ensures |Insert(e, es)| == |es| + 1
    ensures TotalCharged(Insert(e, es)) == TotalCharged(es) + e.charged
    ensures forall x :: x in Insert(e, es) <==> x == e || x in es
  {
    if es == [] || e.lastUsed >= es[0].lastUsed {
      assert ([e] + es)[1..] == es;
    } else {
      InsertAdds(e, es[1..], k);
      assert ([es[0]] + Insert(e, es[1..]))[1..] == Insert(e, es[1..]);
      assert es == [es[0]] + es[1..];
    }
  }

  lemma {:induction false} InsertKeepsUnique(e: Entry, es: seq<Entry>)
    requires Find(es, e.key).None? && UniqueKeys(es)
    ensures UniqueKeys(Insert(e, es))
  {
    if es == [] || e.lastUsed >= es[0].lastUsed {
      assert ([e] + es)[1..] == es;
    } else {
      InsertKeepsUnique(e, es[1..]);
      InsertAdds(e, es[1..], es[0].key);
      assert ([es[0]] + Insert(e, es[1..]))[1..] == Insert(e, es[1..]);
    }
  }

  /** Sorting changes no lookup, no length, no sum and no member. */
  lemma {:induction false} SortKeeps(es: seq<Entry>, k: Key)
    requires UniqueKeys(es)
    ensures UniqueKeys(SortByUse(es))
    ensures Find(SortByUse(es), k) == Find(es, k)
    ensures |SortByUse(es)| == |es|
    ensures TotalCharged(SortByUse(es)) == TotalCharged(es)
    ensures forall x :: x in SortByUse(es) <==> x in es
  {
    if es != [] {
      SortKeeps(es[1..], k);
      SortKeeps(es[1..], es[0].key);
      InsertAdds(es[0], SortByUse(es[1..]), k);
      InsertKeepsUnique(es[0], SortByUse(es[1..]));
      assert es == [es[0]] + es[1..];
    }
  }

  ghost predicate SortedByUse(es: seq<Entry>) {
    forall i, j :: 0 <= i < j < |es| ==> es[i].lastUsed >= es[j].lastUsed
  }

  lemma {:induction false} InsertSorts(e: Entry, es: seq<Entry>)
    requires UniqueKeys(es) && Find(es, e.key).None? && SortedByUse(es)
    ensures SortedByUse(Insert(e, es))
  {
    if es != [] && e.lastUsed < es[0].lastUsed {
      InsertSorts(e, es[1..]);
      InsertAdds(e, es[1..], e.key);
      forall x | x in Insert(e, es[1..]) ensures es[0].lastUsed >= x.lastUsed {
        assert x == e || x in es[1..];
      }
    }
  }

  /** The written entries are ordered by most recent use. */
  lemma {:induction false} SortSorts(es: seq<Entry>)
    requires UniqueKeys(es)
    ensures SortedByUse(SortByUse(es))
  {
    if es != [] {
      SortSorts(es[1..]);
      SortKeeps(es[1..], es[0].key);
      InsertSorts(es[0], SortByUse(es[1..]));
    }
  }

  lemma {:induction false} UpdateEffect(es: seq<Entry>, i: nat, e: Entry, k: Key)
    requires UniqueKeys(es) && i < |es| && es[i].key == e.key
    ensures UniqueKeys(es[i := e])
    ensures Find(es, e.key) == Some(es[i])
    ensures Find(es[i := e], k) == if k == e.key then Some(e) else Find(es, k)
    ensures TotalCharged(es[i := e]) + es[i].charged == TotalCharged(es) + e.charged
    ensures forall x :: x in es[i := e] ==> x == e || x in es
  {
    var r := es[i := e];
    if i == 0 {
      assert r[1..] == es[1..];
    } else {
      UpdateEffect(es[1..], i - 1, e, k);
      UpdateEffect(es[1..], i - 1, e, es[0].key);
      assert r[1..] == es[1..][i - 1 := e];
    }
  }

  lemma {:induction false} AppendEffect(es: seq<Entry>, e: Entry, k: Key)
    requires UniqueKeys(es) && Find(es, e.key).None?
    ensures UniqueKeys(es + [e])
    ensures Find(es + [e], k) == if k == e.key then Some(e) else Find(es, k)
    ensures TotalCharged(es + [e]) == TotalCharged(es) + e.charged
  {
    if es == [] {
      assert es + [e] == [e];
    } else {
      AppendEffect(es[1..], e, k);
      AppendEffect(es[1..], e, es[0].key);
      assert (es + [e])[1..] == es[1..] + [e];
    }
  }

  /** The entry a granted charge leaves for its key. */
  ghost function ChargedEntry(s: State, p: Policy, now: U64, k: Key): Entry {
    Entry(k, match Find(s.entries, k) case None => 1 case Some(e) => SatInc(e.charged),
          SatAdd(now, p.CooldownSecs()), now)
  }

  /** When a charge may be granted: a token is left and the key is below its cap, past its
      cooldown, and either known or still fits in the table. */
  ghost predicate MayCharge(s: State, p: Policy, now: U64, k: Key) {
    && Refill(s, p, now).tokens > 0
    && match Find(s.entries, k)
       case None => |s.entries| < MAX_BUDGET_ENTRIES
       case Some(e) => e.charged < p.maxAttempts && e.notBefore <= now
  }

  /** What a granted charge of `k` does to the quantities the limits are about. */
  ghost predicate Charged(s: State, p: Policy, now: U64, k: Key, n: State) {
    var e := ChargedEntry(s, p, now, k);
    && UniqueKeys(n.entries)
    && SortedByUse(n.entries)
    && n.tokens + 1 == Refill(s, p, now).tokens
    && n.updated == Refill(s, p, now).updated
    && (forall q :: Find(n.entries, q) == if q == k then Some(e) else Find(s.entries, q))
    && TotalCharged(n.entries) + ChargedFor(s.entries, k) == TotalCharged(s.entries) + e.charged
    && |n.entries| == |s.entries| + (if Find(s.entries, k).None? then 1 else 0)
    && forall x :: x in n.entries ==> x == e || x in s.entries
  }

  lemma PrechargeLookup(s: State, p: Policy, now: U64, k: Key, q: Key)
    requires UniqueKeys(s.entries)
    requires Precharge(s, p, now, k).Some?
    ensures var n := Precharge(s, p, now, k).value;
            var e := ChargedEntry(s, p, now, k);
            && UniqueKeys(n.entries)
            && SortedByUse(n.entries)
            && Find(n.entries, q) == (if q == k then Some(e) else Find(s.entries, q))
            && TotalCharged(n.entries) + ChargedFor(s.entries, k) == TotalCharged(s.entries) + e.charged
            && |n.entries| == |s.entries| + (if Find(s.entries, k).None? then 1 else 0)
            && forall x :: x in n.entries ==> x == e || x in s.entries
  {
    var es := s.entries;
    PositionFinds(es, k);
    var e' := ChargedEntry(s, p, now, k);
    var i := Position(es, k);
    var fs := if i.Some? then es[i.value := e'] else es + [e'];
    if i.Some? {
      UpdateEffect(es, i.value, e', q);
    } else {
      AppendEffect(es, e', q);
    }
    SortKeeps(fs, q);
    SortSorts(fs);
    assert Precharge(s, p, now, k).value.entries == SortByUse(fs);
  }

  /** A charge is granted exactly when it may be, and then it does exactly what a charge does. */
  lemma PrechargeEffect(s: State, p: Policy, now: U64, k: Key)
    requires UniqueKeys(s.entries)
    ensures Precharge(s, p, now, k).Some? <==> MayCharge(s, p, now, k)
    ensures Precharge(s, p, now, k).Some? ==> Charged(s, p, now, k, Precharge(s, p, now, k).value)
  {
    PositionFinds(s.entries, k);
    if Precharge(s, p, now, k).Some? {
      PrechargeLookup(s, p, now, k, k);
      forall q ensures Find(Precharge(s, p, now, k).value.entries, q)
                       == if q == k then Some(ChargedEntry(s, p, now, k)) else Find(s.entries, q) {
        PrechargeLookup(s, p, now, k, q);
      }
    }
  }

  // ------------------------------------------------------------------ what a load accepts

  /** The keys a load accepts: safe addresses, under a canonical, non-empty, safe answer. */
  predicate Loadable(k: Key, safe: set<Ip>) {
    && k.candidate in safe
    && (forall ip :: ip in k.dnsSet ==> ip in safe)
    && Increasing(k.dnsSet)
    && 1 <= |k.dnsSet| <= MAX_ENDPOINT_CANDIDATES
  }

  /** The checks a persisted entry must pass against the clock `now`. */
  predicate EntryAccepted(e: Entry, safe: set<Ip>, now: U64) {
    && e.charged != 0
    && e.lastUsed <= SatAdd(now, CLOCK_SKEW_SECS)
    && e.lastUsed <= e.notBefore
    && e.notBefore - e.lastUsed <= MAX_PERSISTED_COOLDOWN_SECS
    && Loadable(e.key, safe)
  }

  /** The checks a persisted document must pass: anything else disables probes for the process. */
  ghost predicate Accepted(s: State, capacity: U32, safe: set<Ip>, now: U64) {
    && s.tokens <= capacity
    && s.updated <= SatAdd(now, CLOCK_SKEW_SECS)
    && |s.entries| <= MAX_BUDGET_ENTRIES
    && (forall e :: e in s.entries ==> EntryAccepted(e, safe, now))
    && UniqueKeys(s.entries)
  }
}
