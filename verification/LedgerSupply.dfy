/** What the ledger must grant: the bucket refills, and nothing that is due is withheld. */
module LedgerSupply {
  import opened Machine
  import opened Arith
  import opened Relay
  import opened Ledger
  import opened LedgerRuns

  /** At `now`, exactly `k` whole refill intervals have passed since the document was last refilled. */
  predicate Elapsed(s: State, p: Policy, now: U64, k: nat) {
    if now < s.updated || p.RefillSecs() == 0 then k == 0
    else s.updated + k * p.RefillSecs() <= now < s.updated + (k + 1) * p.RefillSecs()
  }

  /** The entry of `key` is not there and fits, or is there, under its cap and past its cooldown. */
  ghost predicate Open(s: State, p: Policy, now: U64, key: Key) {
    || (|s.entries| < MAX_BUDGET_ENTRIES && forall e :: e in s.entries ==> e.key != key)
    || (exists e :: e in s.entries && e.key == key && e.charged < p.maxAttempts && e.notBefore <= now)
  }

  lemma {:induction false} FindIs(es: seq<Entry>, key: Key)
    requires UniqueKeys(es)
    ensures Find(es, key).None? ==> forall e :: e in es ==> e.key != key
    ensures forall e :: e in es && e.key == key ==> Find(es, key) == Some(e)
    ensures Find(es, key).Some? ==> Find(es, key).value in es && Find(es, key).value.key == key
  {
    if es != [] {
      FindIs(es[1..], key);
      FindIs(es[1..], es[0].key);
      assert es == [es[0]] + es[1..];
    }
  }

  lemma QuotientIs(d: nat, r: nat, k: nat)
    requires r > 0 && k * r <= d < (k + 1) * r
    ensures d / r == k
  {
    assert (k + 1) * r == k * r + r;
    ModUnique(k, d - k * r, r);
  }

  /** A refill mints one token per interval, up to the capacity, and accounts for exactly those intervals. */
  lemma RefillMints(s: State, p: Policy, now: U64, k: nat)
    requires s.tokens <= p.capacity && Elapsed(s, p, now, k)
    ensures Refill(s, p, now).tokens == Min(p.capacity, s.tokens + k)
    ensures Refill(s, p, now).updated == s.updated + k * p.RefillSecs()
  {
    if now >= s.updated && p.RefillSecs() > 0 {
      var r := p.RefillSecs();
      assert (k + 1) * r == k * r + r;
      QuotientIs(now - s.updated, r, k);
    }
  }

  /** From any acceptable document: a written charge is granted exactly when the tokens left plus the
      intervals that have passed are not zero (up to the capacity) and the key is open; and then it is
      logged, told to the process, and leaves one token less. */
  lemma ChargeIsGranted(p: Policy, safe: set<Ip>, w: World, proc: nat, now: U64, key: Key, k: nat)
    requires w.cell.Some? && Accepted(w.cell.value, p.capacity, safe, now) && proc !in w.disabled
    requires Elapsed(w.cell.value, p, now, k)
    ensures var s, w' := w.cell.value, Step(p, safe, w, Charge(proc, now, key, Written));
            if Min(p.capacity, s.tokens + k) > 0 && Open(s, p, now, key) then
              && w'.log == w.log + [Record(now, key)] && w'.grants == w.grants + [Grant(proc, Record(now, key))]
              && w'.cell.Some? && w'.disabled == w.disabled
              && w'.cell.value.tokens == Min(p.capacity, s.tokens + k) - 1
              && w'.cell.value.updated == s.updated + k * p.RefillSecs()
              && Recorded(s.entries, w'.cell.value.entries, key, ChargedFor(s.entries, key) + 1, SatAdd(now, p.CooldownSecs()), now)
            else w' == w
  {
    hide Precharge, MayCharge, Charged, Accepted, Refill, UniqueKeys, Elapsed, Open, Recorded;
    var s := w.cell.value;
    AcceptedIs(s, p, safe, now);
    RefillMints(s, p, now, k);
    PrechargeEffect(s, p, now, key);
    MayChargeIs(s, p, now, key);
    if Precharge(s, p, now, key).Some? {
      ChargedTokens(s, p, now, key, Precharge(s, p, now, key).value);
      ChargedRecords(s, p, now, key, Precharge(s, p, now, key).value);
    }
  }

  /** Afterwards the table holds one entry of `key`, with this count, cooldown end and use, and all there
      was about other keys, most recent use first. */
  ghost predicate Recorded(before: seq<Entry>, after: seq<Entry>, key: Key, charged: nat, notBefore: nat, used: nat) {
    && (forall x :: x in after <==> if x.key == key then x.charged == charged && x.notBefore == notBefore && x.lastUsed == used else x in before)
    && (forall i, j :: 0 <= i < j < |after| ==> after[i].lastUsed >= after[j].lastUsed)
    && |after| <= |before| + 1
  }

  lemma ChargedRecords(s: State, p: Policy, now: U64, key: Key, n: State)
    requires UniqueKeys(s.entries) && MayCharge(s, p, now, key) && Charged(s, p, now, key, n)
    ensures Recorded(s.entries, n.entries, key, ChargedFor(s.entries, key) + 1, SatAdd(now, p.CooldownSecs()), now)
  {
    hide UniqueKeys, Find, Refill;
    var e := ChargedEntry(s, p, now, key);
    assert e.charged == ChargedFor(s.entries, key) + 1;
    FindIs(n.entries, key);
    forall x ensures x in n.entries <==> x == e || (x in s.entries && x.key != key) {
      FindIs(n.entries, x.key);
      FindIs(s.entries, x.key);
    }
  }

  lemma AcceptedIs(s: State, p: Policy, safe: set<Ip>, now: U64)
    requires Accepted(s, p.capacity, safe, now)
    ensures s.tokens <= p.capacity && UniqueKeys(s.entries) && |s.entries| <= MAX_BUDGET_ENTRIES
  {
  }

  lemma MayChargeIs(s: State, p: Policy, now: U64, key: Key)
    requires UniqueKeys(s.entries)
    ensures MayCharge(s, p, now, key) <==> Refill(s, p, now).tokens > 0 && Open(s, p, now, key)
  {
    hide Refill, UniqueKeys, Find;
    FindIs(s.entries, key);
  }

  /** The first charge of all is granted from a full bucket. */
  lemma FirstCharge(p: Policy, safe: set<Ip>, w: World, proc: nat, now: U64, key: Key)
    requires w.cell.None? && proc !in w.disabled
    ensures var w' := Step(p, safe, w, Charge(proc, now, key, Written));
            if p.capacity > 0 then
              && w'.log == w.log + [Record(now, key)] && w'.cell.Some?
              && w'.cell.value.tokens == p.capacity - 1 && w'.cell.value.updated == now
            else w' == w
  {
    hide Precharge, MayCharge, Charged, Refill, UniqueKeys, Open;
    var s := Fresh(p.capacity, now);
    FreshOpen(p, now, key);
    RefillMints(s, p, now, 0);
    PrechargeEffect(s, p, now, key);
    MayChargeIs(s, p, now, key);
    if Precharge(s, p, now, key).Some? {
      ChargedTokens(s, p, now, key, Precharge(s, p, now, key).value);
    }
  }

  lemma FreshOpen(p: Policy, now: U64, key: Key)
    ensures var s := Fresh(p.capacity, now); Open(s, p, now, key) && UniqueKeys(s.entries) && Elapsed(s, p, now, 0)
  {
  }

  // ------------------------------------------------------------------ conservation over runs

  /** What the capacity cuts off when a document is next refilled. */
  function Overflow(s: State, p: Policy, now: U64): nat {
    if now < s.updated || p.RefillSecs() == 0 then 0
    else SatSub(s.tokens + (now - s.updated) / p.RefillSecs(), p.capacity)
  }

  /** What the capacity cut off over a run. */
  ghost function Cut(p: Policy, safe: set<Ip>, w0: World, es: seq<Event>): nat {
    if es == [] then 0
    else
      var w, e := Run(p, safe, w0, es[..|es| - 1]), es[|es| - 1];
      Cut(p, safe, w0, es[..|es| - 1])
        + if Step(p, safe, w, e).log != w.log then Overflow(Loaded(p, w, e.now), p, e.now) else 0
  }

  /** Tokens and charges account for every interval but those the capacity cut off, and no interval
      that had passed at the latest charge is left out unless its clock was behind. */
  ghost predicate Balanced(p: Policy, c0: Option<State>, w: World, cut: nat) {
    && (w.cell.None? ==> c0.None? && w.log == [] && cut == 0)
    && (w.cell.Some? ==>
        && (c0.Some? || w.log != [])
        && UniqueKeys(w.cell.value.entries) && w.cell.value.tokens <= p.capacity
        && var s, u0 := w.cell.value, Updated0(c0, w.log);
           && Supplied(p, s.updated, u0, |w.log| + s.tokens + cut - Tokens0(p, c0))
           && (w.log != [] && p.RefillSecs() > 0 ==> w.log[|w.log| - 1].now < s.updated + p.RefillSecs()))
  }

  /** `n` tokens were minted between `u0` and `updated`: one per interval. */
  predicate Supplied(p: Policy, updated: nat, u0: nat, n: int) {
    n >= 0 && updated == u0 + n * p.RefillSecs() && (p.RefillSecs() == 0 ==> n == 0)
  }

  lemma OverflowIs(s: State, p: Policy, now: U64, k: nat)
    requires s.tokens <= p.capacity && Elapsed(s, p, now, k)
    ensures Refill(s, p, now).tokens + Overflow(s, p, now) == s.tokens + k
  {
    RefillMints(s, p, now, k);
    if now >= s.updated && p.RefillSecs() > 0 {
      var r := p.RefillSecs();
      assert (k + 1) * r == k * r + r;
      QuotientIs(now - s.updated, r, k);
    }
  }

  lemma ElapsedExists(s: State, p: Policy, now: U64) returns (k: nat)
    ensures Elapsed(s, p, now, k)
  {
    if now < s.updated || p.RefillSecs() == 0 { return 0; }
    k := (now - s.updated) / p.RefillSecs();
    QuotientBounds(now - s.updated, p.RefillSecs());
  }

  lemma QuotientBounds(d: nat, r: nat)
    requires r > 0
    ensures (d / r) * r <= d < (d / r + 1) * r
  {
    assert d == (d / r) * r + d % r;
    assert (d / r + 1) * r == (d / r) * r + r;
  }

  lemma SuppliedMore(p: Policy, updated: nat, u0: nat, n: int, k: nat)
    requires Supplied(p, updated, u0, n) && (p.RefillSecs() == 0 ==> k == 0)
    ensures Supplied(p, updated + k * p.RefillSecs(), u0, n + k)
  {
    Combine(n, k, p.RefillSecs());
  }

  lemma BalancedStep(p: Policy, c0: Option<State>, w: World, cut: nat, e: Event, w': World)
    requires Balanced(p, c0, w, cut) && Transition(p, w, e, w')
    ensures Balanced(p, c0, w', cut + if w'.log != w.log then Overflow(Loaded(p, w, e.now), p, e.now) else 0)
  {
    hide MayCharge, UniqueKeys, Charged, Refill, Overflow, Elapsed, Supplied;
    if w'.log != w.log {
      var s := Loaded(p, w, e.now);
      var k := ElapsedExists(s, p, e.now);
      ChargedTokens(s, p, e.now, e.key, w'.cell.value);
      RefillMints(s, p, e.now, k);
      OverflowIs(s, p, e.now, k);
      ElapsedBounds(s, p, e.now, k);
      var n := |w.log| + s.tokens + cut - Tokens0(p, c0);
      var u0 := Updated0(c0, w'.log);
      if w.cell.None? { NothingSupplied(p, e.now); }
      SuppliedMore(p, s.updated, u0, n, k);
    }
  }

  lemma NothingSupplied(p: Policy, u: nat)
    ensures Supplied(p, u, u, 0)
  {
  }

  lemma ElapsedBounds(s: State, p: Policy, now: U64, k: nat)
    requires Elapsed(s, p, now, k)
    ensures p.RefillSecs() == 0 ==> k == 0
    ensures p.RefillSecs() > 0 ==> now < s.updated + k * p.RefillSecs() + p.RefillSecs()
  {
    assert (k + 1) * p.RefillSecs() == k * p.RefillSecs() + p.RefillSecs();
  }

  /** Over every run from an absent document, or one within its capacity: charges, tokens left and what
      the capacity cut off add up exactly to the tokens there were at first plus one per interval. */
  lemma {:induction false} TokensAreConserved(p: Policy, safe: set<Ip>, w0: World, es: seq<Event>)
    requires Initial(w0) && (w0.cell.Some? ==> w0.cell.value.tokens <= p.capacity)
    ensures Balanced(p, w0.cell, Run(p, safe, w0, es), Cut(p, safe, w0, es))
  {
    hide Step, UniqueKeys, Supplied, Overflow;
    if es == [] {
      if w0.cell.Some? { NothingSupplied(p, w0.cell.value.updated); }
    } else {
      var i := |es| - 1;
      TokensAreConserved(p, safe, w0, es[..i]);
      var w := Run(p, safe, w0, es[..i]);
      BalancedUnique(p, w0.cell, w, Cut(p, safe, w0, es[..i]));
      StepIsTransition(p, safe, w, es[i]);
      BalancedStep(p, w0.cell, w, Cut(p, safe, w0, es[..i]), es[i], Run(p, safe, w0, es));
    }
  }

  lemma BalancedUnique(p: Policy, c0: Option<State>, w: World, cut: nat)
    requires Balanced(p, c0, w, cut)
    ensures UniqueKeys(Entries(w.cell))
  {
  }
}
