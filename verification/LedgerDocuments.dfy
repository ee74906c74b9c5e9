/** Every document that a run of the ledger leaves behind can be read back. */
module LedgerDocuments {
  import opened Machine
  import opened Relay
  import opened Ledger
  import opened LedgerRuns
  import opened LedgerText

  ghost predicate SoundEntry(e: Entry, safe: set<Ip>, upto: nat) {
    && e.charged >= 1
    && e.lastUsed <= e.notBefore && e.notBefore - e.lastUsed <= MAX_PERSISTED_COOLDOWN_SECS
    && e.lastUsed <= upto
    && Loadable(e.key, safe)
  }

  /** Everything a load checks, with every time stamp at most `upto`. */
  ghost predicate Sound(s: State, p: Policy, safe: set<Ip>, upto: nat) {
    && s.tokens <= p.capacity
    && s.updated <= upto
    && |s.entries| <= MAX_BUDGET_ENTRIES
    && UniqueKeys(s.entries)
    && forall e :: e in s.entries ==> SoundEntry(e, safe, upto)
  }

  lemma ChargeIsSound(p: Policy, safe: set<Ip>, s: State, upto: nat, now: U64, k: Key, n: State)
    requires p.Validated() && Loadable(k, safe)
    requires Sound(s, p, safe, upto)
    requires MayCharge(s, p, now, k) && Charged(s, p, now, k, n)
    ensures Sound(n, p, safe, Max(upto, now))
  {
    hide Loadable;
    RefillBound(s, p, now);
    var e := ChargedEntry(s, p, now, k);
    assert p.CooldownSecs() <= MAX_PERSISTED_COOLDOWN_SECS;
    assert SoundEntry(e, safe, Max(upto, now));
    forall x | x in n.entries ensures SoundEntry(x, safe, Max(upto, now)) {
      assert x == e || x in s.entries;
    }
  }

  /** The run starts from an absent document, or from one whose stamps are at most `upto`. */
  ghost predicate StartsSound(p: Policy, safe: set<Ip>, w0: World, upto: nat) {
    p.Validated() && Initial(w0) && (w0.cell.Some? ==> Sound(w0.cell.value, p, safe, upto))
  }

  ghost predicate AllLoadable(es: seq<Event>, safe: set<Ip>) {
    forall e :: e in es && e.Charge? ==> Loadable(e.key, safe)
  }

  lemma {:induction false} RunIsSound(p: Policy, safe: set<Ip>, w0: World, upto: nat, es: seq<Event>)
    requires StartsSound(p, safe, w0, upto) && AllLoadable(es, safe)
    ensures var w := Run(p, safe, w0, es); w.cell.Some? ==> Sound(w.cell.value, p, safe, Max(upto, Latest(es)))
  {
    hide Step, Sound, Loadable;
    if es != [] {
      var i := |es| - 1;
      var w := Run(p, safe, w0, es[..i]);
      RunIsSound(p, safe, w0, upto, es[..i]);
      BucketRun(p, safe, w0, es[..i]);
      StepIsTransition(p, safe, w, es[i]);
      var w' := Run(p, safe, w0, es);
      assert es[i] in es;
      if w'.cell == w.cell {
        if w.cell.Some? { SoundLater(w.cell.value, p, safe, Max(upto, Latest(es[..i])), Max(upto, Latest(es))); }
      } else {
        FreshIsSound(p, safe, es[i].now);
        var before := if w.cell.Some? then Max(upto, Latest(es[..i])) else es[i].now;
        ChargeIsSound(p, safe, Loaded(p, w, es[i].now), before, es[i].now, es[i].key, w'.cell.value);
        SoundLater(w'.cell.value, p, safe, Max(before, es[i].now), Max(upto, Latest(es)));
      }
    }
  }

  lemma FreshIsSound(p: Policy, safe: set<Ip>, now: U64)
    ensures Sound(Fresh(p.capacity, now), p, safe, now)
  {
  }

  lemma SoundLater(s: State, p: Policy, safe: set<Ip>, a: nat, b: nat)
    requires Sound(s, p, safe, a) && a <= b
    ensures Sound(s, p, safe, b)
  {
    forall e | e in s.entries ensures SoundEntry(e, safe, b) {
      assert SoundEntry(e, safe, a);
    }
  }

  lemma SoundIsAccepted(s: State, p: Policy, safe: set<Ip>, upto: nat, now: U64)
    requires Sound(s, p, safe, upto) && upto <= SatAdd(now, CLOCK_SKEW_SECS)
    ensures Accepted(s, p.capacity, safe, now)
  {
    forall e | e in s.entries ensures EntryAccepted(e, safe, now) {
      assert SoundEntry(e, safe, upto);
    }
  }

  /** What a document is worth to a process with clock `now`: it fits the file limit and reads back
      to exactly the state that was written. */
  ghost predicate Reloads(s: State, p: Policy, safe: set<Ip>, host: string, port: Port, now: U64) {
    && Keyed(s.entries)
    && |Serialize(host, port, s)| <= STATE_MAX_BYTES
    && Load(Serialize(host, port, s), host, port, p.capacity, safe, now) == Some(s)
  }

  /** Whatever the interleaving, crashes and clocks of charges for loadable keys, the document on
      disk reloads for any process whose clock is no more than 300 s behind. */
  lemma DocumentsReload(p: Policy, safe: set<Ip>, w0: World, upto: nat, es: seq<Event>, host: string, port: Port, now: U64)
    requires StartsSound(p, safe, w0, upto) && AllLoadable(es, safe) && HostOk(host)
    requires Max(upto, Latest(es)) <= SatAdd(now, CLOCK_SKEW_SECS)
    ensures var w := Run(p, safe, w0, es); w.cell.Some? ==> Reloads(w.cell.value, p, safe, host, port, now)
  {
    hide Serialize, Load, Step;
    var w := Run(p, safe, w0, es);
    RunIsSound(p, safe, w0, upto, es);
    if w.cell.Some? {
      var s, last := w.cell.value, Max(upto, Latest(es));
      SoundIsAccepted(s, p, safe, last, now);
      forall e | e in s.entries ensures 1 <= |e.key.dnsSet| <= MAX_ENDPOINT_CANDIDATES {
        assert SoundEntry(e, safe, last);
      }
      KeyedEntries(s.entries);
      DocumentFits(host, port, s);
      LoadExact(Serialize(host, port, s), host, port, p.capacity, safe, now, s);
    }
  }

  // ------------------------------------------------------------------ fail-closed, and no further

  /** No lock, read or write failed. */
  predicate WentWell(e: Event) {
    match e
    case Restart(_, _, readable) => readable
    case Charge(_, _, _, outcome) => !outcome.LockFailed? && !outcome.WriteErrorLost? && !outcome.WriteErrorKept?
  }

  /** No lock, read or write failed, and no clock lagged by more than 300 s. */
  ghost predicate Orderly(es: seq<Event>, upto: nat) {
    forall i :: 0 <= i < |es| ==>
      Max(upto, Latest(es[..i])) <= SatAdd(es[i].now, CLOCK_SKEW_SECS) && WentWell(es[i])
  }

  /** A ledger disables a process only for an I/O failure or a lagging clock: nothing the program
      itself writes ever does. */
  lemma {:induction false} NoneDisabled(p: Policy, safe: set<Ip>, w0: World, upto: nat, es: seq<Event>)
    requires StartsSound(p, safe, w0, upto) && AllLoadable(es, safe) && w0.disabled == {}
    requires Orderly(es, upto)
    ensures Run(p, safe, w0, es).disabled == {}
  {
    hide Sound, Loadable, Accepted, Step, Orderly, Latest;
    if es != [] {
      var i := |es| - 1;
      OrderlyPrefix(es, upto);
      NoneDisabled(p, safe, w0, upto, es[..i]);
      RunIsSound(p, safe, w0, upto, es[..i]);
      var w := Run(p, safe, w0, es[..i]);
      if w.cell.Some? {
        SoundIsAccepted(w.cell.value, p, safe, Max(upto, Latest(es[..i])), es[i].now);
      }
      StepEnables(p, safe, w, es[i]);
    }
  }

  lemma OrderlyPrefix(es: seq<Event>, upto: nat)
    requires Orderly(es, upto) && es != []
    ensures var i := |es| - 1;
            Orderly(es[..i], upto) && WentWell(es[i]) && Max(upto, Latest(es[..i])) <= SatAdd(es[i].now, CLOCK_SKEW_SECS)
  {
    hide Latest;
    var i := |es| - 1;
    assert forall j :: 0 <= j < i ==> es[..i][..j] == es[..j];
  }

  lemma StepEnables(p: Policy, safe: set<Ip>, w: World, e: Event)
    requires WentWell(e) && (w.cell.Some? ==> Accepted(w.cell.value, p.capacity, safe, e.now))
    ensures Step(p, safe, w, e).disabled <= w.disabled
  {
    hide Accepted, Precharge;
  }

  lemma KeyedEntries(es: seq<Entry>)
    requires forall e :: e in es ==> 1 <= |e.key.dnsSet|
    ensures Keyed(es)
  {
    forall i | 0 <= i < |es| ensures es[i].key.dnsSet != [] {
      assert es[i] in es;
    }
  }
}
