/** The resolver is never asked in a tight loop. */
module EndpointQueries {
  import opened Machine
  import opened Arith
  import opened Relay
  import opened Candidates
  import opened Endpoint
  import opened EndpointRuns

  const TTL_FLOOR_MS: nat := 10_000

  /** Nothing in the segment resets the backoff: no authentication, no operator refresh, and hence
      no lost session. */
  ghost predicate Quiet(es: seq<Event>) {
    forall i :: 0 <= i < |es| ==> QuietEvent(es[i])
  }

  predicate QuietEvent(e: Event) {
    && !e.Authenticated? && !e.ReconnectCommand?
    && !(e.Cycle? && e.reason.SessionLost?)
  }

  /** When the resolver was asked, in order. */
  ghost function QueryTimes(c: Controller, es: seq<Event>): seq<U64> {
    if es == [] then []
    else
      var n := |es| - 1;
      QueryTimes(c, es[..n]) + if Apply(Run(c, es[..n]), es[n]).queried then [es[n].x.now] else []
  }

  function Spacing(b: Backoff): nat {
    Min(b.minMs, TTL_FLOOR_MS)
  }

  /** No query is possible before `t`. */
  ghost predicate ClosedUntil(l: Lookup, t: U64) {
    || t <= l.backoff.notBefore
    || (&& !l.force && !l.pending && l.candidates != []
        && l.expiresAt.Some? && t <= l.expiresAt.value)
  }

  lemma QueryCloses(c: Controller, reason: Reason, x: Inputs)
    requires Inv(c) && OnCycle(c, reason, x).queried
    ensures ClosedUntil(Refreshed(c, reason, x).dns, SatAdd(x.now, Spacing(c.dns.backoff)))
  {
    hide Usable, Same, Ordered, Select;
    var c0 := MarkLost(c, reason);
    var c1 := if OpensRound(reason) then Begin(c0, x.now) else c0;
    var c2 := c1.(dns := c1.dns.(force := false));
    QueryKeeps(c2, x.now, x.dns, x.rnd);
    DelayFloor(c.dns.backoff, x.rnd);
  }

  /** No failure is retried sooner than the configured minimum, whatever the jitter. */
  lemma DelayFloor(b: Backoff, rnd: U32)
    ensures FailureDelay(b, rnd) >= Min(b.minMs, b.maxMs)
  {
  }

  lemma SameEmpty(s: seq<Ip>, t: seq<Ip>)
    requires Same(s, t) && t != []
    ensures s != []
  {
    assert t[0] in s;
  }

  lemma CycleCloses(c: Controller, e: Event)
    requires Inv(c) && e.Cycle? && Apply(c, e).queried
    ensures ClosedUntil(Apply(c, e).c.dns, SatAdd(e.x.now, Spacing(c.dns.backoff)))
    ensures Apply(c, e).c.dns.backoff.minMs == c.dns.backoff.minMs
  {
    hide Usable, Same, OnCycle, Refreshed, Inv, Spacing;
    CycleSelected(c, e.reason, e.x);
    QueryCloses(c, e.reason, e.x);
    BackoffKept(c, e.reason, e.x);
    var d := Refreshed(c, e.reason, e.x);
    if d.dns.candidates != [] {
      SameEmpty(Apply(c, e).c.dns.candidates, d.dns.candidates);
    }
  }

  lemma BackoffKept(c: Controller, reason: Reason, x: Inputs)
    ensures Refreshed(c, reason, x).dns.backoff.minMs == c.dns.backoff.minMs
  {
    hide Query, Due, Begin;
    var c0 := MarkLost(c, reason);
    var c1 := if OpensRound(reason) then Begin(c0, x.now) else c0;
    BeginKeepsDns(c0, x.now);
    QueryBackoff(c1.(dns := c1.dns.(force := false)), x);
  }

  lemma BeginKeepsDns(c: Controller, now: U64)
    ensures Begin(c, now).dns == c.dns
  {
  }

  lemma QueryBackoff(c: Controller, x: Inputs)
    ensures Query(c, x.now, x.dns, x.rnd).0.dns.backoff.minMs == c.dns.backoff.minMs
  {
    hide Ordered, Canonical, FailureDelay, SafeOnly;
  }

  lemma ReorderNonEmpty(c: Controller, good: Option<Ip>)
    requires Inv(c) && c.dns.candidates != []
    ensures Ordered(c.dns.candidates, c.current, good) != []
  {
    OrderedKeeps(c.dns.candidates, c.current, good);
  }

  lemma ClosedStep(c: Controller, e: Event, t: U64)
    requires Inv(c) && QuietEvent(e) && ClosedUntil(c.dns, t)
    requires !Apply(c, e).queried
    ensures ClosedUntil(Apply(c, e).c.dns, t)
    ensures Apply(c, e).c.dns.backoff.minMs == c.dns.backoff.minMs
  {
    hide Usable, Same, Select, Ordered, HealthDeadline;
    if e.Cycle? {
      CycleSelected(c, e.reason, e.x);
      var d := Refreshed(c, e.reason, e.x);
      assert d.dns == c.dns;
      if d.dns.candidates != [] {
        SameEmpty(Apply(c, e).c.dns.candidates, d.dns.candidates);
      }
    } else if e.PromoteCommand? && c.dns.candidates != [] {
      ReorderNonEmpty(c, Some(e.expected));
    }
  }

  /** A closed lookup asks nothing before its instant. */
  lemma ClosedAsksNothing(c: Controller, e: Event, t: U64)
    requires QuietEvent(e) && ClosedUntil(c.dns, t) && Apply(c, e).queried
    ensures e.Cycle? && e.x.now >= t
  {
    hide Select, Refresh, HealthDeadline;
  }

  ghost predicate Spaced(ts: seq<U64>, g: nat) {
    forall i :: 0 <= i < |ts| - 1 ==> SatAdd(ts[i], g) <= ts[i + 1]
  }

  ghost predicate QueryInv(c: Controller, ts: seq<U64>, minMs: nat, g: nat) {
    && c.dns.backoff.minMs == minMs
    && Spaced(ts, g)
    && (ts != [] ==> ClosedUntil(c.dns, SatAdd(ts[|ts| - 1], g)))
  }

  lemma QueryStep(c: Controller, e: Event, ts: seq<U64>, minMs: nat, first: bool)
    requires Inv(c) && (first || QuietEvent(e)) && (first ==> ts == [] && e.Cycle?)
    requires QueryInv(c, ts, minMs, Min(minMs, TTL_FLOOR_MS))
    ensures QueryInv(Apply(c, e).c, ts + (if Apply(c, e).queried then [e.x.now] else []), minMs, Min(minMs, TTL_FLOOR_MS))
  {
    hide Apply, Inv, ClosedUntil;
    if Apply(c, e).queried {
      if ts != [] { ClosedAsksNothing(c, e, SatAdd(ts[|ts| - 1], Min(minMs, TTL_FLOOR_MS))); }
      assert e.Cycle? by { OnlyCyclesAsk(c, e); }
      CycleCloses(c, e);
    } else {
      if ts != [] { ClosedStep(c, e, SatAdd(ts[|ts| - 1], Min(minMs, TTL_FLOOR_MS))); }
      MinKept(c, e);
      assert ts + [] == ts;
    }
  }

  lemma OnlyCyclesAsk(c: Controller, e: Event)
    requires Apply(c, e).queried
    ensures e.Cycle?
  {
    hide OnCycle, HealthDeadline;
  }

  lemma MinKept(c: Controller, e: Event)
    requires Inv(c)
    ensures Apply(c, e).c.dns.backoff.minMs == c.dns.backoff.minMs
  {
    hide Usable, Same, OnCycle, Refreshed, Ordered, HealthDeadline;
    if e.Cycle? {
      CycleSelected(c, e.reason, e.x);
      BackoffKept(c, e.reason, e.x);
    }
  }

  /** In a segment that starts with any cycle (a lost session included) and then stays quiet, two
      consecutive resolver calls are at least `min(backoff_min, 10 s)` apart, for every jitter and
      every mix of errors, unusable answers and stale usable answers. */
  lemma {:induction false} QuerySpacing(c: Controller, e0: Event, es: seq<Event>)
    requires Inv(c) && e0.Cycle? && Quiet(es)
    ensures QueryInv(Run(c, [e0] + es), QueryTimes(c, [e0] + es), c.dns.backoff.minMs, Spacing(c.dns.backoff))
  {
    hide Apply, Inv, QueryInv;
    var all := [e0] + es;
    var n := |es|;
    RunKeeps(c, all[..n]);
    assert all[n] == if n == 0 then e0 else es[n - 1];
    if n == 0 {
      assert all[..0] == [];
      StartInv(c);
      QueryStep(c, e0, [], c.dns.backoff.minMs, true);
    } else {
      assert all[..n] == [e0] + es[..n - 1];
      QuerySpacing(c, e0, es[..n - 1]);
      QueryStep(Run(c, all[..n]), all[n], QueryTimes(c, all[..n]), c.dns.backoff.minMs, false);
    }
  }

  lemma StartInv(c: Controller)
    ensures QueryInv(c, [], c.dns.backoff.minMs, Min(c.dns.backoff.minMs, TTL_FLOOR_MS))
  {
  }

  // ------------------------------------------------------------------ whole runs, from start-up on

  /** Consecutive resolver calls closer than `g`. */
  ghost function Close(ts: seq<U64>, g: nat): nat {
    if |ts| <= 1 then 0 else Close(ts[..|ts| - 1], g) + Count(ts[|ts| - 1] < SatAdd(ts[|ts| - 2], g))
  }

  /** Events that may reopen the resolver: authentications, operator commands, lost sessions. */
  ghost function Loud(es: seq<Event>): nat {
    if es == [] then 0 else Loud(es[..|es| - 1]) + Count(!QuietEvent(es[|es| - 1]))
  }

  /** The resolver may be asked sooner than `g` after the last call. */
  ghost predicate Reopened(c: Controller, ts: seq<U64>, g: nat) {
    ts != [] && !ClosedUntil(c.dns, SatAdd(ts[|ts| - 1], g))
  }

  /** A call soon after another uses up one loud event; a call closes the resolver again. */
  lemma LoudStep(c: Controller, e: Event, ts: seq<U64>, g: nat)
    requires Inv(c) && g == Spacing(c.dns.backoff)
    ensures var r := Apply(c, e);
            var us := ts + (if r.queried then [e.x.now] else []);
            && Close(us, g) + Count(Reopened(r.c, us, g)) <= Close(ts, g) + Count(Reopened(c, ts, g)) + Count(!QuietEvent(e))
            && g == Spacing(r.c.dns.backoff)
  {
    hide Apply, Inv, ClosedUntil, QuietEvent;
    MinKept(c, e);
    if Apply(c, e).queried {
      OnlyCyclesAsk(c, e);
      CycleCloses(c, e);
      assert (ts + [e.x.now])[..|ts|] == ts;
      if ts != [] && QuietEvent(e) && !Reopened(c, ts, g) { ClosedAsksNothing(c, e, SatAdd(ts[|ts| - 1], g)); }
    } else {
      assert ts + [] == ts;
      if ts != [] && QuietEvent(e) && !Reopened(c, ts, g) { ClosedStep(c, e, SatAdd(ts[|ts| - 1], g)); }
    }
  }

  lemma {:induction false} LoudRun(c: Controller, first: U64, es: seq<Event>, g: nat)
    requires Inv(c) && g == Spacing(c.dns.backoff) && ClosedUntil(c.dns, SatAdd(first, g))
    ensures var ts := [first] + QueryTimes(c, es);
            && Close(ts, g) + Count(Reopened(Run(c, es), ts, g)) <= Loud(es)
            && g == Spacing(Run(c, es).dns.backoff)
  {
    hide Apply, Inv, ClosedUntil, Spacing, QuietEvent, Close;
    if es == [] {
      assert [first] + [] == [first];
      CloseOne(first, g);
    } else {
      var n := |es| - 1;
      LoudRun(c, first, es[..n], g);
      RunKeeps(c, es[..n]);
      var d := Run(c, es[..n]);
      LoudStep(d, es[n], [first] + QueryTimes(c, es[..n]), g);
      if Apply(d, es[n]).queried { OnlyCyclesAsk(d, es[n]); }
      assert [first] + QueryTimes(c, es) == [first] + QueryTimes(c, es[..n]) + (if Apply(d, es[n]).queried then [es[n].x.now] else []);
    }
  }

  lemma CloseOne(first: U64, g: nat)
    ensures Close([first], g) == 0
  {
  }

  lemma StartCloses(cfg: Config, b: Boot)
    requires Bootstrap(cfg, b).Some?
    ensures var c := Bootstrap(cfg, b).value; ClosedUntil(c.dns, SatAdd(b.now, Spacing(c.dns.backoff)))
  {
    hide Ordered, CachedFreshUntil, Canonical;
    var c0 := BeforeFirstQuery(cfg, b);
    EmptyUsable(cfg.safe);
    QueryKeeps(c0, b.now, b.dns, b.rnd);
    DelayFloor(c0.dns.backoff, b.rnd);
    var c := Query(c0, b.now, b.dns, b.rnd).0;
    var d := Bootstrap(cfg, b).value;
    if c.dns.candidates != [] {
      OrderedKeeps(c.dns.candidates, d.current, c.home.good);
    }
  }

  lemma EmptyUsable(safe: set<Ip>)
    ensures Usable([], safe)
  {
  }

  /** From start-up on, through any events whatever: two consecutive resolver calls, the one made at
      start-up included, are at least `min(backoff_min, 10 s)` apart, except for at most one pair per
      authentication, operator command or lost session. */
  lemma QueriesAreRare(cfg: Config, b: Boot, es: seq<Event>)
    requires (b.cached.Some? ==> b.cached.value in cfg.safe) && Bootstrap(cfg, b).Some?
    ensures var c := Bootstrap(cfg, b).value;
            Close([b.now] + QueryTimes(c, es), Spacing(c.dns.backoff)) <= Loud(es)
  {
    hide Bootstrap, Inv, Spacing, ClosedUntil;
    var c := Bootstrap(cfg, b).value;
    BootstrapKeeps(cfg, b);
    StartCloses(cfg, b);
    LoudRun(c, b.now, es, Spacing(c.dns.backoff));
  }

  lemma {:induction false} SpacedCount(ts: seq<U64>, g: nat)
    requires ts != [] && Spaced(ts, g) && ts[|ts| - 1] < U64_MAX
    ensures ts[0] + (|ts| - 1) * g <= ts[|ts| - 1]
  {
    if |ts| > 1 {
      var n := |ts| - 1;
      SpacedCount(ts[..n], g);
      assert n * g == (n - 1) * g + g;
    }
  }

  /** Hence a stretch of `T` milliseconds holds at most `1 + T / min(backoff_min, 10 s)` queries. */
  lemma QueryRate(c: Controller, e0: Event, es: seq<Event>)
    requires Inv(c) && e0.Cycle? && Quiet(es)
    ensures Rated(QueryTimes(c, [e0] + es), Spacing(c.dns.backoff))
  {
    hide Run, QueryTimes, ClosedUntil, Inv, QuietEvent;
    QuerySpacing(c, e0, es);
    SpacingPositive(c);
    SpacedRated(QueryTimes(c, [e0] + es), Spacing(c.dns.backoff));
  }

  lemma SpacingPositive(c: Controller)
    requires Inv(c)
    ensures Spacing(c.dns.backoff) > 0
  {
  }

  /** At most one event plus one per `g` elapsed, as long as the clock has not run out. */
  ghost predicate Rated(ts: seq<U64>, g: nat) {
    ts != [] && g > 0 && ts[|ts| - 1] < U64_MAX ==>
      ts[0] <= ts[|ts| - 1] && |ts| <= 1 + (ts[|ts| - 1] - ts[0]) / g
  }

  lemma SpacedRated(ts: seq<U64>, g: nat)
    requires Spaced(ts, g)
    ensures Rated(ts, g)
  {
    if ts != [] && g > 0 && ts[|ts| - 1] < U64_MAX {
      SpacedCount(ts, g);
      var d := ts[|ts| - 1] - ts[0];
      QuotientBound(|ts| - 1, g, d);
    }
  }
}
