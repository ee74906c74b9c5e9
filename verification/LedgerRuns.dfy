/**
 Every run of the shared ledger: any number of processes, any interleaving of their locked
 reload-charge-write sections, crashes at any point, a wall clock that may go backwards.
 */
module LedgerRuns {
  import opened Machine
  import opened Arith
  import opened Relay
  import opened Ledger

  /** How the locked section ends. Only `Written` tells the process that it was granted. */
  datatype Outcome =
    | Written
    | WriteErrorLost   // the error is reported and the old document stays
    | WriteErrorKept   // the error is reported although the new document became durable
    | CrashBefore
    | CrashAfter
    | LockFailed

  datatype Event =
    | Charge(proc: nat, now: U64, key: Key, outcome: Outcome)
    | Restart(proc: nat, now: U64, readable: bool)

  datatype Grant = Grant(proc: nat, record: Record)

  /** `cell` is the durable file; `log` its durable charges; `grants` the charges that some
      process was told about; `disabled` the processes that refuse to probe any more. */
  datatype World = World(cell: Option<State>, disabled: set<nat>, log: seq<Record>, grants: seq<Grant>)

  ghost function Durable(w: World, next: State, r: Record): World {
    w.(cell := Some(next), log := w.log + [r])
  }

  ghost function Step(p: Policy, safe: set<Ip>, w: World, e: Event): World {
    match e
    case Restart(proc, now, readable) =>
      if !readable || (w.cell.Some? && !Accepted(w.cell.value, p.capacity, safe, now))
      then w.(disabled := w.disabled + {proc})
      else w.(disabled := w.disabled - {proc})
    case Charge(proc, now, key, outcome) =>
      if proc in w.disabled then w
      else if outcome.LockFailed? || (w.cell.Some? && !Accepted(w.cell.value, p.capacity, safe, now))
      then w.(disabled := w.disabled + {proc})
      else
        var s := if w.cell.Some? then w.cell.value else Fresh(p.capacity, now);
        match Precharge(s, p, now, key)
        case None => w
        case Some(next) =>
          var r := Record(now, key);
          match outcome
          case Written => Durable(w, next, r).(grants := w.grants + [Grant(proc, r)])
          case WriteErrorLost => w.(disabled := w.disabled + {proc})
          case WriteErrorKept => Durable(w, next, r).(disabled := w.disabled + {proc})
          case CrashBefore => w
          case CrashAfter => Durable(w, next, r)
          case LockFailed => w
  }

  ghost function Run(p: Policy, safe: set<Ip>, w: World, es: seq<Event>): World {
    if es == [] then w else Step(p, safe, Run(p, safe, w, es[..|es| - 1]), es[|es| - 1])
  }

  /** The document a locked section works on. */
  ghost function Loaded(p: Policy, w: World, now: U64): State {
    if w.cell.Some? then w.cell.value else Fresh(p.capacity, now)
  }

  /** A step either leaves the ledger alone or makes exactly one durable charge. */
  ghost predicate Transition(p: Policy, w: World, e: Event, w': World) {
    || (w'.cell == w.cell && w'.log == w.log && w'.grants == w.grants)
    || (&& e.Charge? && w'.cell.Some?
        && MayCharge(Loaded(p, w, e.now), p, e.now, e.key)
        && Charged(Loaded(p, w, e.now), p, e.now, e.key, w'.cell.value)
        && w'.log == w.log + [Record(e.now, e.key)]
        && (w'.grants == w.grants || w'.grants == w.grants + [Grant(e.proc, Record(e.now, e.key))]))
  }

  lemma StepIsTransition(p: Policy, safe: set<Ip>, w: World, e: Event)
    requires UniqueKeys(Entries(w.cell))
    ensures Transition(p, w, e, Step(p, safe, w, e))
  {
    hide Precharge, MayCharge, Charged, Accepted, UniqueKeys;
    if e.Charge? {
      PrechargeEffect(Loaded(p, w, e.now), p, e.now, e.key);
    }
  }

  ghost predicate Initial(w: World) {
    && w.log == [] && w.grants == []
    && (w.cell.Some? ==> UniqueKeys(w.cell.value.entries))
  }

  /** The latest wall-clock reading in a run. */
  ghost function Latest(es: seq<Event>): U64 {
    if es == [] then 0 else Max(Latest(es[..|es| - 1]), es[|es| - 1].now)
  }

  // ------------------------------------------------------------------ the token bucket

  ghost function Tokens0(p: Policy, c0: Option<State>): nat {
    if c0.Some? then c0.value.tokens else p.capacity
  }

  /** When the bucket was first filled: the initial document, or the first charge if there was none. */
  ghost function Updated0(c0: Option<State>, log: seq<Record>): nat
    requires c0.Some? || log != []
  {
    if c0.Some? then c0.value.updated else log[0].now
  }

  ghost predicate BucketInv(p: Policy, c0: Option<State>, w: World, latest: nat) {
    && (w.cell.None? ==> c0.None? && w.log == [])
    && (w.cell.Some? ==>
        && (c0.Some? || w.log != [])
        && UniqueKeys(w.cell.value.entries)
        && var s, u0 := w.cell.value, Updated0(c0, w.log);
           && u0 <= s.updated <= Max(u0, latest)
           && (c0.None? ==> u0 <= latest)
           && (p.RefillSecs() == 0 ==> |w.log| + s.tokens <= Tokens0(p, c0))
           && (|w.log| + s.tokens - Tokens0(p, c0)) * p.RefillSecs() <= s.updated - u0)
  }

  lemma RefillBound(s: State, p: Policy, now: U64)
    ensures var n := Refill(s, p, now);
            && s.updated <= n.updated <= Max(s.updated, now)
            && n.entries == s.entries
            && (p.RefillSecs() == 0 ==> n.tokens == s.tokens)
            && (n.tokens - s.tokens) * p.RefillSecs() <= n.updated - s.updated
  {
    var r := p.RefillSecs();
    var n := Refill(s, p, now);
    if n != s {
      var k := (now - s.updated) / r;
      assert n.updated == s.updated + k * r;
      MulMonotone(n.tokens - s.tokens, k, r);
    }
  }

  lemma BucketStep(p: Policy, c0: Option<State>, w: World, latest: nat, e: Event, w': World)
    requires BucketInv(p, c0, w, latest) && Transition(p, w, e, w')
    ensures BucketInv(p, c0, w', Max(latest, e.now))
  {
    hide MayCharge, UniqueKeys, Charged, Refill;
    if w'.log != w.log {
      var s := Loaded(p, w, e.now);
      ChargedTokens(s, p, e.now, e.key, w'.cell.value);
      RefillBound(s, p, e.now);
      var n := Refill(s, p, e.now);
      var r := p.RefillSecs();
      Combine(|w.log| + s.tokens - Tokens0(p, c0), n.tokens - s.tokens, r);
    }
  }

  lemma ChargedTokens(s: State, p: Policy, now: U64, k: Key, n: State)
    requires Charged(s, p, now, k, n)
    ensures UniqueKeys(n.entries) && n.tokens + 1 == Refill(s, p, now).tokens && n.updated == Refill(s, p, now).updated
  {
  }

  lemma Combine(a: int, b: int, r: nat)
    ensures (a + b) * r == a * r + b * r
  {
  }

  lemma {:induction false} BucketRun(p: Policy, safe: set<Ip>, w0: World, es: seq<Event>)
    requires Initial(w0)
    ensures BucketInv(p, w0.cell, Run(p, safe, w0, es), Latest(es))
  {
    if es == [] {
      assert (if w0.cell.Some? then w0.cell.value.tokens - Tokens0(p, w0.cell) else 0) == 0;
    } else {
      var i := |es| - 1;
      BucketRun(p, safe, w0, es[..i]);
      var w := Run(p, safe, w0, es[..i]);
      StepIsTransition(p, safe, w, es[i]);
      BucketStep(p, w0.cell, w, Latest(es[..i]), es[i], Run(p, safe, w0, es));
    }
  }

  /** Old-address probes over a whole run never exceed the initial tokens plus one per refill
      interval between the first fill of the bucket and the latest wall clock seen. */
  lemma ProbeBudget(p: Policy, safe: set<Ip>, w0: World, es: seq<Event>)
    requires Initial(w0)
    ensures var w := Run(p, safe, w0, es);
            w.log != [] ==>
              |w.log| <= Tokens0(p, w0.cell)
                + (if p.RefillSecs() == 0 then 0
                   else SatSub(Latest(es), Updated0(w0.cell, w.log)) / p.RefillSecs())
  {
    BucketRun(p, safe, w0, es);
    var w := Run(p, safe, w0, es);
    if w.log != [] {
      var s, u0, r := w.cell.value, Updated0(w0.cell, w.log), p.RefillSecs();
      var n := |w.log| + s.tokens - Tokens0(p, w0.cell);
      if r > 0 {
        QuotientBound(n, r, SatSub(Latest(es), u0));
      }
    }
  }

  // ------------------------------------------------------------------ per-key caps

  ghost function CountKey(log: seq<Record>, k: Key): nat {
    if log == [] then 0 else CountKey(log[..|log| - 1], k) + if log[|log| - 1].key == k then 1 else 0
  }

  ghost function Entries(c: Option<State>): seq<Entry> {
    if c.Some? then c.value.entries else []
  }

  ghost function Cap(p: Policy): nat {
    Max(1, p.maxAttempts)
  }

  ghost predicate CapInv(p: Policy, c0: Option<State>, w: World, k: Key) {
    var es0, es := Entries(c0), Entries(w.cell);
    && UniqueKeys(es)
    && ChargedFor(es, k) == ChargedFor(es0, k) + CountKey(w.log, k)
    && ChargedFor(es, k) <= Max(ChargedFor(es0, k), Cap(p))
    && TotalCharged(es) == TotalCharged(es0) + |w.log|
    && |es| <= Max(|es0|, MAX_BUDGET_ENTRIES)
  }

  lemma CapStep(p: Policy, c0: Option<State>, w: World, e: Event, w': World, k: Key)
    requires CapInv(p, c0, w, k) && Transition(p, w, e, w')
    requires e.Charge? ==> CapInv(p, c0, w, e.key)
    ensures CapInv(p, c0, w', k)
  {
    hide MayCharge, Charged, UniqueKeys, ChargedFor, TotalCharged, Refill, CountKey;
    if w'.log != w.log {
      CountMore(w.log, Record(e.now, e.key), k);
      ChargedCounts(p, Loaded(p, w, e.now), e.now, e.key, w'.cell.value, k);
      ChargedCounts(p, Loaded(p, w, e.now), e.now, e.key, w'.cell.value, e.key);
    }
  }

  lemma CountMore(log: seq<Record>, r: Record, k: Key)
    ensures CountKey(log + [r], k) == CountKey(log, k) + if r.key == k then 1 else 0
  {
    assert (log + [r])[..|log|] == log;
  }

  /** A charge adds one to its own key, within the cap, and nothing to the others. */
  lemma ChargedCounts(p: Policy, s: State, now: U64, key: Key, n: State, k: Key)
    requires MayCharge(s, p, now, key) && Charged(s, p, now, key, n)
    ensures UniqueKeys(n.entries)
    ensures ChargedFor(n.entries, k) == ChargedFor(s.entries, k) + if k == key then 1 else 0
    ensures k == key ==> ChargedFor(n.entries, k) <= Cap(p)
    ensures TotalCharged(n.entries) == TotalCharged(s.entries) + 1
    ensures |n.entries| <= Max(|s.entries|, MAX_BUDGET_ENTRIES)
  {
    hide UniqueKeys, SortedByUse, Refill, TotalCharged, Find;
  }

  lemma {:induction false} CapRun(p: Policy, safe: set<Ip>, w0: World, es: seq<Event>, k: Key)
    requires Initial(w0)
    ensures CapInv(p, w0.cell, Run(p, safe, w0, es), k)
  {
    if es != [] {
      var i := |es| - 1;
      var w := Run(p, safe, w0, es[..i]);
      CapRun(p, safe, w0, es[..i], k);
      if es[i].Charge? {
        CapRun(p, safe, w0, es[..i], es[i].key);
      }
      StepIsTransition(p, safe, w, es[i]);
      CapStep(p, w0.cell, w, es[i], Run(p, safe, w0, es), k);
    }
  }

  /** A key that starts within its cap is never charged beyond `max_attempts` (at least one). */
  lemma KeyCap(p: Policy, safe: set<Ip>, w0: World, es: seq<Event>, k: Key)
    requires Initial(w0)
    requires ChargedFor(Entries(w0.cell), k) <= Cap(p)
    ensures ChargedFor(Entries(w0.cell), k) + CountKey(Run(p, safe, w0, es).log, k) <= Cap(p)
  {
    CapRun(p, safe, w0, es, k);
  }

  lemma {:induction false} TotalAtMost(es: seq<Entry>, cap: nat)
    requires UniqueKeys(es)
    requires forall k :: ChargedFor(es, k) <= cap
    ensures TotalCharged(es) <= |es| * cap
  {
    if es != [] {
      assert ChargedFor(es, es[0].key) == es[0].charged;
      forall k ensures ChargedFor(es[1..], k) <= cap {
        assert ChargedFor(es, k) <= cap;
        assert k != es[0].key ==> Find(es, k) == Find(es[1..], k);
      }
      TotalAtMost(es[1..], cap);
      assert |es| * cap == |es[1..]| * cap + cap;
    }
  }

  /** From an empty ledger, everything that can ever be charged is sixteen keys at their cap:
      entries are never evicted, whatever the clocks and however long the run. */
  lemma LifetimeBudget(p: Policy, safe: set<Ip>, w0: World, es: seq<Event>)
    requires Initial(w0) && Entries(w0.cell) == []
    ensures |Run(p, safe, w0, es).log| <= MAX_BUDGET_ENTRIES * Cap(p)
  {
    var w := Run(p, safe, w0, es);
    forall k ensures CapInv(p, w0.cell, w, k) {
      CapRun(p, safe, w0, es, k);
    }
    var fs := Entries(w.cell);
    var any := Key(0, []);
    assert CapInv(p, w0.cell, w, any);
    forall k ensures ChargedFor(fs, k) <= Cap(p) {
      assert CapInv(p, w0.cell, w, k);
    }
    TotalAtMost(fs, Cap(p));
    MulMonotone(|fs|, MAX_BUDGET_ENTRIES, Cap(p));
  }

  // ------------------------------------------------------------------ cooldowns

  ghost predicate SpacingInv(p: Policy, w: World) {
    && UniqueKeys(Entries(w.cell))
    && (forall i :: 0 <= i < |w.log| ==>
          SatAdd(w.log[i].now, p.CooldownSecs()) <= NotBeforeFor(Entries(w.cell), w.log[i].key))
    && Spaced(p, w.log)
  }

  /** Two charges of one key are at least the cooldown apart. */
  ghost predicate Spaced(p: Policy, log: seq<Record>) {
    forall i, j :: 0 <= i < j < |log| && log[i].key == log[j].key ==>
      SatAdd(log[i].now, p.CooldownSecs()) <= log[j].now
  }

  lemma SpacingStep(p: Policy, w: World, e: Event, w': World)
    requires SpacingInv(p, w) && Transition(p, w, e, w')
    ensures SpacingInv(p, w')
  {
    if w'.log != w.log {
      assert Entries(w.cell) == Loaded(p, w, e.now).entries;
      forall i | 0 <= i < |w'.log|
        ensures SatAdd(w'.log[i].now, p.CooldownSecs()) <= NotBeforeFor(Entries(w'.cell), w'.log[i].key)
        ensures i < |w.log| && w.log[i].key == e.key ==> SatAdd(w.log[i].now, p.CooldownSecs()) <= e.now
      {
        assert i < |w.log| ==> w'.log[i] == w.log[i];
      }
    }
  }

  /** Cooldowns hold over whole runs, even when the wall clock goes backwards in between. */
  lemma {:induction false} CooldownSpacing(p: Policy, safe: set<Ip>, w0: World, es: seq<Event>)
    requires Initial(w0)
    ensures SpacingInv(p, Run(p, safe, w0, es))
  {
    if es != [] {
      var i := |es| - 1;
      var w := Run(p, safe, w0, es[..i]);
      CooldownSpacing(p, safe, w0, es[..i]);
      StepIsTransition(p, safe, w, es[i]);
      SpacingStep(p, w, es[i], Run(p, safe, w0, es));
    }
  }

  // ------------------------------------------------------------------ grants

  ghost function Records(gs: seq<Grant>): seq<Record> {
    seq(|gs|, i requires 0 <= i < |gs| => gs[i].record)
  }

  /** Every grant a process acts on has its own durable charge. */
  lemma {:induction false} GrantsAreDurable(p: Policy, safe: set<Ip>, w0: World, es: seq<Event>)
    requires Initial(w0)
    ensures var w := Run(p, safe, w0, es);
            multiset(Records(w.grants)) <= multiset(w.log) && |w.grants| <= |w.log|
  {
    hide Step;
    if es != [] {
      var w := Run(p, safe, w0, es[..|es| - 1]);
      GrantsAreDurable(p, safe, w0, es[..|es| - 1]);
      GrantStep(p, safe, w, es[|es| - 1]);
    }
  }

  lemma GrantStep(p: Policy, safe: set<Ip>, w: World, e: Event)
    requires multiset(Records(w.grants)) <= multiset(w.log) && |w.grants| <= |w.log|
    ensures var w' := Step(p, safe, w, e); multiset(Records(w'.grants)) <= multiset(w'.log) && |w'.grants| <= |w'.log|
  {
    hide Records;
    StepGrants(p, safe, w, e);
    var w' := Step(p, safe, w, e);
    if w'.log != w.log {
      var r := w'.log[|w.log|];
      assert multiset(w'.log) == multiset(w.log) + multiset{r};
      RecordsAppend(w.grants, Grant(e.proc, r));
    }
  }

  lemma StepGrants(p: Policy, safe: set<Ip>, w: World, e: Event)
    ensures var w' := Step(p, safe, w, e);
            || (w'.log == w.log && w'.grants == w.grants)
            || (e.Charge? && exists r :: w'.log == w.log + [r] && (w'.grants == w.grants || w'.grants == w.grants + [Grant(e.proc, r)]))
  {
    hide Precharge, Accepted;
    if e.Charge? {
      assert Step(p, safe, w, e).log == w.log || Step(p, safe, w, e).log == w.log + [Record(e.now, e.key)];
    }
  }

  lemma RecordsAppend(gs: seq<Grant>, g: Grant)
    ensures multiset(Records(gs + [g])) == multiset(Records(gs)) + multiset{g.record}
  {
    assert Records(gs + [g]) == Records(gs) + [g.record];
  }
}
