/** What each decision of the controller means to somebody outside it: both directions, in plain terms. */
module EndpointExact {
  import opened Machine
  import opened Arith
  import opened Relay
  import opened Candidates
  import opened Ledger
  import opened Endpoint
  import opened EndpointRuns
  import opened EndpointRecovery
  import opened EndpointCutover

  // ------------------------------------------------------------------ how long committed-good is fresh

  /** Committed-good was active within the rollback window, or its cached age still counts. */
  predicate StillFresh(h: Home, p: Policy, now: U64) {
    && p.enabled && h.good.Some?
    && (|| (h.activity.Some? && now <= SatAdd(h.activity.value, p.rollbackWindowMs))
        || (h.cacheUntil.Some? && now <= h.cacheUntil.value))
  }

  lemma FreshIff(c: Controller, now: U64)
    ensures HealthDeadline(c.home, c.cfg.policy, now).Some? <==> StillFresh(c.home, c.cfg.policy, now)
    ensures CommittedFresh(c, now) == if StillFresh(c.home, c.cfg.policy, now) && !c.AtHome() then c.home.good else None
  {
  }

  /** A session on committed-good keeps it fresh for a whole rollback window after its latest packet. */
  lemma ActivityCounts(c: Controller, now: U64, isData: bool, u: U64)
    requires c.authenticated && c.AtHome() && c.cfg.policy.enabled && u <= SatAdd(now, c.cfg.policy.rollbackWindowMs)
    ensures StillFresh(OnActivity(c, now, isData).home, c.cfg.policy, u)
    ensures OnActivity(c, now, isData).home.good == c.home.good
  {
  }

  /** A cached address counts for its remaining age: not at all with the policy off, without a saved time,
      with one over 300 s in the future, or when older than the maximum. */
  lemma CacheCounts(cfg: Config, b: Boot)
    ensures var h := BeforeFirstQuery(cfg, b).home;
            && h.good == b.cached && h.activity.None?
            && (h.cacheUntil.Some? <==>
                  && b.cached.Some? && cfg.policy.enabled && b.saved.Some?
                  && b.saved.value <= SatAdd(b.wall, 300) && SatSub(b.wall, b.saved.value) * 1000 < cfg.policy.maxAgeMs)
            && (h.cacheUntil.Some? ==>
                  h.cacheUntil.value == SatAdd(b.now, cfg.policy.maxAgeMs - SatSub(b.wall, b.saved.value) * 1000))
  {
  }

  // ------------------------------------------------------------------ the rollback instant

  /** A rollback is scheduled exactly when committed-good stays fresh, and the window lasts, to the end of
      the probation plus two timer intervals; and then two timer intervals before the last instant at which
      both hold. */
  lemma RollbackIsLatest(h: Home, p: Policy, t: U64)
    ensures var end := SatAdd(SatAdd(t, p.probationMs), 800);
            RollbackInstant(h, p, t).Some? <==> StillFresh(h, p, end) && end <= SatAdd(t, p.rollbackWindowMs)
    ensures RollbackInstant(h, p, t).Some? ==>
              forall u: U64 :: t <= u ==>
                (u <= RollbackInstant(h, p, t).value + 800 <==> StillFresh(h, p, u) && u <= SatAdd(t, p.rollbackWindowMs))
  {
    var end := SatAdd(SatAdd(t, p.probationMs), 800);
    forall u: U64 | t <= u
      ensures StillFresh(h, p, u) <==> HealthDeadline(h, p, t).Some? && u <= HealthDeadline(h, p, t).value {
    }
    assert t <= end;
  }

  // ------------------------------------------------------------------ authentication

  /** Authentication ends the round and reopens the resolver; it commits the address when there is nothing
      to protect, and otherwise puts it on probation against committed-good, which stays as it was. */
  lemma AuthenticationExact(c: Controller, now: U64)
    ensures var d := OnAuthenticated(c, now);
            && d.authenticated && !d.attended && d.current == c.current && d.cfg == c.cfg && d.usable == c.usable
            && d.round == Round(0, None, 0) && !d.dns.pending && d.dns.backoff.notBefore == 0 && d.dns.backoff.failures == 0
            && d.dns.force == c.dns.force && d.dns.expiresAt == c.dns.expiresAt
            && (if c.cfg.policy.enabled && c.home.good.Some? && c.home.good != Some(c.current)
                then
                  && d.home == c.home && d.probation.Some?
                  && d.probation.value == Probation(c.current, c.home.good.value, now, c.attended,
                                                    RollbackInstant(c.home, c.cfg.policy, now), false, None, None, 0)
                else d.home == Home(Some(c.current), None, Some(now)) && d.probation.None?)
  {
    hide Ordered, RollbackInstant;
  }

  // ------------------------------------------------------------------ asking the resolver

  /** A cycle asks the resolver if and only if it has a reason to and the backoff is over. */
  lemma QueriedIff(c: Controller, reason: Reason, x: Inputs)
    ensures OnCycle(c, reason, x).queried <==>
              && x.now >= c.dns.backoff.notBefore
              && (c.dns.force || c.dns.pending || reason.SessionLost? || c.dns.candidates == []
                  || c.dns.expiresAt.None? || x.now >= c.dns.expiresAt.value)
  {
    hide Select, Refresh;
  }

  /** After the operator's command the next cycle always asks. */
  lemma CommandAsks(c: Controller, reason: Reason, x: Inputs)
    ensures OnCycle(RequestRefresh(c), reason, x).queried
    ensures RequestRefresh(c).attended == (c.authenticated && c.AtHome())
  {
    hide OnCycle;
    QueriedIff(RequestRefresh(c), reason, x);
  }

  /** An answer with a safe address replaces the candidates by its lowest eight safe ones, in order of
      preference, holds for its time to live, and ends the backoff, but for the minimum delay while a lost
      session still waits; a different set starts the counts over. */
  lemma AnswerTaken(c: Controller, now: U64, dns: Dns, rnd: U32)
    requires dns.Answer? && exists ip :: ip in dns.addrs && ip in c.cfg.safe
    ensures var (d, answered) := Query(c, now, dns, rnd);
            var kept := SafeOnly(dns.addrs, c.cfg.safe);
            && answered && d.current == c.current && d.home == c.home
            && (forall ip :: ip in kept <==> ip in dns.addrs && ip in c.cfg.safe)
            && d.dns.candidates == Ordered(Canonical(kept), c.current, c.home.good)
            && d.dns.expiresAt == Some(SatAdd(now, dns.ttl * 1000)) && d.dns.backoff.failures == 0
            && d.dns.backoff.notBefore == (if c.dns.pending then SatAdd(now, c.dns.backoff.minMs) else 0)
            && d.round.deadline == c.round.deadline
            && (if Canonical(kept) == Canonical(c.dns.candidates) then d.round == c.round
                else d.round.failures == 0 && d.round.attempts == 0)
  {
    hide Ordered, Canonical;
    var ip :| ip in dns.addrs && ip in c.cfg.safe;
    assert ip in SafeOnly(dns.addrs, c.cfg.safe);
  }

  /** Anything else only delays the next query. */
  lemma NoAnswerKept(c: Controller, now: U64, dns: Dns, rnd: U32)
    requires dns.Failed? || forall ip :: ip in dns.addrs ==> ip !in c.cfg.safe
    ensures var (d, answered) := Query(c, now, dns, rnd);
            && !answered && d == c.(dns := c.dns.(backoff := d.dns.backoff))
            && d.dns.backoff.failures == SatInc(c.dns.backoff.failures)
            && Delayed(c.dns.backoff, now, d.dns.backoff.notBefore)
  {
    hide Ordered, Canonical, FailureDelay, Delayed;
    if dns.Answer? { NoneUsable(dns.addrs, c.cfg.safe); }
    DelayDoubles(c.dns.backoff, now, rnd);
  }

  /** The undisturbed delay after `failures` earlier failures: doubled each time, up to the maximum. */
  function Undisturbed(b: Backoff): nat {
    Min(b.minMs * Pow2(Min(b.failures, 20)), b.maxMs)
  }

  /** The next query waits for the undisturbed delay give or take a quarter, and never for less than the
      minimum. */
  predicate Delayed(b: Backoff, now: U64, notBefore: U64) {
    var d := Undisturbed(b);
    && SatAdd(now, Max(Min(b.minMs, b.maxMs), d - d / 4)) <= notBefore
    && notBefore <= SatAdd(now, Max(Min(b.minMs, b.maxMs), d + d / 4 + 1))
  }

  lemma DelayDoubles(b: Backoff, now: U64, rnd: U32)
    ensures Delayed(b, now, OnFailure(b, now, rnd).notBefore)
  {
    hide Pow2;
    var scaled := Min(b.minMs * Pow2(Min(b.failures, 20)), U64_MAX);
    var base := Min(scaled, b.maxMs);
    assert base == Undisturbed(b);
    var jitter := if base / 2 == 0 then 0 else rnd % (base / 2 + 1);
    assert 0 <= jitter <= base / 2;
  }

  /** The first delay is the minimum; each further failure doubles it until the maximum, twenty times at
      most. */
  lemma DelaySteps(b: Backoff)
    ensures b.failures == 0 ==> Undisturbed(b) == Min(b.minMs, b.maxMs)
    ensures b.failures < 20 ==>
              Undisturbed(b.(failures := b.failures + 1)) == if Undisturbed(b) == b.maxMs then b.maxMs else Min(2 * Undisturbed(b), b.maxMs)
    ensures b.failures >= 20 ==> Undisturbed(b) == Undisturbed(b.(failures := 20))
  {
    if b.failures < 20 {
      var p := Pow2(b.failures);
      assert Pow2(b.failures + 1) == 2 * p;
      Regroup(2, p, b.minMs);
      assert b.minMs * (2 * p) == 2 * (b.minMs * p);
    }
  }

  /** The random word spreads the delay over half its size: 0 gives the earliest instant, half the delay the
      latest. */
  lemma JitterSpreads(b: Backoff)
    requires 1 <= b.minMs <= b.maxMs && b.maxMs <= U32_MAX
    ensures var d := Undisturbed(b);
            && FailureDelay(b, 0) == Max(b.minMs, d - d / 4)
            && FailureDelay(b, d / 2) == Max(b.minMs, Min(d - d / 4 + d / 2, b.maxMs + b.maxMs / 4))
  {
    hide Pow2;
    var d := Undisturbed(b);
    assert Min(Min(b.minMs * Pow2(Min(b.failures, 20)), U64_MAX), b.maxMs) == d;
    if d / 2 > 0 {
      ModUnique(0, 0, d / 2 + 1);
      ModUnique(0, d / 2, d / 2 + 1);
    }
  }

  /** A new controller may ask at once, and its delays run from the configured minimum, at least one
      millisecond, to the configured maximum, at least the minimum. */
  lemma BackoffStarts(minMs: U64, maxMs: U64)
    ensures var b := NewBackoff(minMs, maxMs);
            && b.failures == 0 && b.notBefore == 0
            && b.minMs == (if minMs == 0 then 1 else minMs) && b.maxMs == (if maxMs < b.minMs then b.minMs else maxMs)
  {
  }

  // ------------------------------------------------------------------ a lost session

  /** Returning from a failed probation needs a fresh committed-good and, unless the operator's authority
      covers it, a granted charge. */
  lemma ReturnExact(c: Controller, now: U64, wall: U64, v: Verdict)
    ensures var (usable, back, asked) := ProbationReturn(c, now, wall, v);
            && (back <==>
                  && c.probation.Some? && c.probation.value.candidate == c.current
                  && CommittedFresh(c, now) == Some(c.probation.value.rollback)
                  && (c.probation.value.direct || (c.usable && c.cfg.stateFile && v.Granted?)))
            && (asked != [] <==>
                  && c.probation.Some? && c.probation.value.candidate == c.current && !c.probation.value.direct
                  && CommittedFresh(c, now) == Some(c.probation.value.rollback) && c.usable && c.cfg.stateFile)
  {
    hide CommittedFresh, Canonical;
  }

  /** A lost session off probation moves only when it was on committed-good and the answer no longer lists
      it, and then to the lowest listed address; otherwise the same address is tried again. */
  lemma SessionLostExact(c: Controller, now: U64, wall: U64, v: Verdict)
    requires Inv(c)
    ensures var r, back := SelectSessionLost(c, now, wall, v), ProbationReturn(c, now, wall, v).1;
            && (back ==> r.switch == c.home.good)
            && (!back && c.AtHome() && c.current !in c.dns.candidates && c.dns.candidates != [] ==>
                  r.switch.Some? && r.switch.value in c.dns.candidates && forall ip :: ip in c.dns.candidates ==> r.switch.value <= ip)
            && (!back && (!c.AtHome() || c.current in c.dns.candidates || c.dns.candidates == []) ==> r.switch.None?)
  {
    hide ProbationReturn, Ordered, Usable;
    var s := Canonical(c.dns.candidates);
    if ProbationReturn(c, now, wall, v).1 { ReturnGoesHome(c, now, wall, v); }
    CandidatesOk(c);
    CanonicalShape(c.dns.candidates);
    if c.dns.candidates != [] {
      assert s[0] in s;
      forall ip | ip in c.dns.candidates ensures s[0] <= ip { assert ip in s; }
    }
  }

  lemma ReturnGoesHome(c: Controller, now: U64, wall: U64, v: Verdict)
    requires Inv(c) && ProbationReturn(c, now, wall, v).1
    ensures c.probation.Some? && c.home.good == Some(c.probation.value.rollback) && c.probation.value.rollback != c.current
  {
    hide Usable, HealthDeadline, Canonical;
  }

  // ------------------------------------------------------------------ an attended cutover

  /** A Forced cycle moves to the preferred answer exactly when there is one, it is another address, the
      round has not run out, and leaving committed-good would leave a way back. */
  lemma ForcedExact(c: Controller, now: U64, answered: bool)
    requires Inv(c)
    ensures var r := SelectForced(c, now, answered);
            if answered && c.dns.candidates != [] && c.dns.candidates[0] != c.current && !RoundExpired(c.round, now)
               && (c.cfg.policy.enabled && c.AtHome() ==> StillFresh(c.home, c.cfg.policy, now)
                                                          && StillFresh(c.home, c.cfg.policy, CutoverEnd(c, now)))
            then r.switch == Some(c.dns.candidates[0]) && r.c.attended == c.attended
            else r.switch.None? && !r.c.attended && r.c.current == c.current
  {
    hide Usable, HealthDeadline, Ordered, StillFresh, CutoverEnd;
    if c.cfg.policy.enabled && c.AtHome() { WayBackIff(c, now); }
  }

  /** Without a fresh usable answer of its own a Forced cycle changes nothing it uses, and the operator's
      authority ends. */
  lemma ForcedNeedsAnswer(c: Controller, x: Inputs)
    requires Inv(c)
    ensures var r := OnCycle(c, Forced, x);
            !r.queried || x.dns.Failed? || (forall ip :: ip in x.dns.addrs ==> ip !in c.cfg.safe) ==>
              r.switch.None? && r.c.current == c.current && !r.c.attended && r.asked == []
  {
    hide Usable, HealthDeadline, Ordered, Canonical, FailureDelay, NoWayBack;
    if x.dns.Answer? && forall ip :: ip in x.dns.addrs ==> ip !in c.cfg.safe { NoneUsable(x.dns.addrs, c.cfg.safe); }
  }

  /** The last instant an attended cutover begun now can need its way back: the rest of the round, a
      handshake of five seconds, the probation, and two timer intervals. */
  function CutoverEnd(c: Controller, now: U64): U64 {
    var deadline := if c.round.deadline.Some? then c.round.deadline.value
                    else if c.cfg.policy.enabled then SatAdd(now, c.cfg.policy.roundTimeoutMs) else now;
    SatAdd(SatAdd(SatAdd(deadline, 5_000), c.cfg.policy.probationMs), 800)
  }

  lemma WayBackIff(c: Controller, now: U64)
    requires c.cfg.policy.enabled && c.AtHome()
    ensures NoWayBack(Begin(c, now), now) <==>
              !StillFresh(c.home, c.cfg.policy, now) || !StillFresh(c.home, c.cfg.policy, CutoverEnd(c, now))
  {
  }

  // ------------------------------------------------------------------ a failed attempt away from committed-good

  /** The probe of committed-good is asked for when the round has run out, or when both the failures since
      the last success and the attempts of this round suffice; never earlier, and never without freshness. */
  predicate ProbeDue(c: Controller, now: U64) {
    && StillFresh(c.home, c.cfg.policy, now) && !c.AtHome()
    && (|| (c.round.deadline.Some? && now >= c.round.deadline.value)
        || (c.round.failures >= c.cfg.policy.afterFailures && c.round.attempts >= Max(1, |Canonical(c.dns.candidates)|)))
  }

  lemma ProbeExact(c: Controller, now: U64, wall: U64, v: Verdict)
    ensures var (usable, granted, asked) := FallbackProbe(c, now, wall, v);
            && (asked != [] <==> ProbeDue(c, now) && c.usable && c.cfg.stateFile)
            && (granted <==> asked != [] && v.Granted?)
  {
    hide Canonical;
    FreshIff(c, now);
  }

  /** One failed attempt: counted once; home on a granted probe; else the round ends if it has run out, and
      otherwise the next candidate is tried. */
  lemma PreferredExact(c: Controller, now: U64, wall: U64, v: Verdict)
    requires Inv(c) && !c.AtHome()
    ensures var r, d := RetryPreferred(c, now, wall, v), CountFailure(c, now);
            && d.round.failures == SatInc(c.round.failures)
            && d.round.attempts == SatInc(if c.cfg.policy.enabled && c.round.deadline.None? then 0 else c.round.attempts)
            && (c.cfg.policy.enabled && c.round.deadline.None? ==> d.round.deadline == Some(SatAdd(now, c.cfg.policy.roundTimeoutMs)))
            && (c.round.deadline.Some? ==> d.round.deadline == c.round.deadline)
            && (r.asked != [] <==> ProbeDue(d, now) && c.usable && c.cfg.stateFile)
            && (if r.asked != [] && v.Granted? then r.switch == c.home.good && r.c.round.deadline.None?
                else if RoundExpired(d.round, now) then r.switch.None? && r.c.round.deadline.None? && r.c.round.attempts == 0
                else r.c.round == d.round && r.c.current == Successor(Canonical(c.dns.candidates), c.current))
  {
    hide Canonical, NextCandidate, Ordered, FallbackProbe, Successor, CommittedFresh, StillFresh, Usable;
    var d := CountFailure(c, now);
    ProbeExact(d, now, wall, v);
    FreshIff(d, now);
    NextIsSuccessor(c.dns.candidates, c.current);
  }

  /** A failed attempt on committed-good itself: the next candidate within the round, which is opened if none
      is, and nothing but the end of the round once it has run out. */
  lemma CommittedExact(c: Controller, now: U64)
    requires Inv(c) && c.AtHome()
    ensures var r := RetryCommitted(c, now);
            if RoundExpired(c.round, now) then r.switch.None? && r.c == c.(round := c.round.(deadline := None, attempts := 0))
            else
              && r.c.current == Successor(Canonical(c.dns.candidates), c.current)
              && r.c.round.failures == c.round.failures
              && r.c.round.deadline == (if c.round.deadline.None? && c.cfg.policy.enabled
                                        then Some(SatAdd(now, c.cfg.policy.roundTimeoutMs)) else c.round.deadline)
  {
    hide Canonical, NextCandidate, Ordered, Successor, Usable;
    NextIsSuccessor(c.dns.candidates, c.current);
  }

  /** A lost session leaves the resolver to be asked until something authenticates, and a command is used up
      by the query it caused. */
  lemma LostWaits(c: Controller, reason: Reason, x: Inputs)
    requires Inv(c)
    ensures OnCycle(c, SessionLost, x).c.dns.pending
    ensures OnCycle(c, reason, x).queried ==> !OnCycle(c, reason, x).c.dns.force
  {
    hide OnCycle, Refreshed, Inv, Usable, Same;
    CycleSelected(c, SessionLost, x);
    CycleSelected(c, reason, x);
    RefreshPending(c, SessionLost, x);
    RefreshPending(c, reason, x);
  }

  lemma RefreshPending(c: Controller, reason: Reason, x: Inputs)
    ensures Refreshed(c, reason, x).dns.pending == (c.dns.pending || reason.SessionLost?)
    ensures OnCycle(c, reason, x).queried ==> !Refreshed(c, reason, x).dns.force
  {
    hide Select, Ordered, Canonical, OnFailure;
  }

  /** An authorised rollback is taken and ends the probation; nothing happens without authorisation. */
  lemma TakenExact(c: Controller)
    requires Inv(c)
    ensures var r := SelectRollback(c);
            if c.probation.Some? && c.probation.value.authorized
            then r.c.current == c.probation.value.rollback && r.c.probation.None? && !r.c.attended && r.asked == []
            else r == Stay(c, [])
  {
    hide Usable, Ordered;
  }

  /** Traffic is unbroken while no gap exceeds five seconds, or the probation if that is shorter. */
  lemma GapIs(p: Policy)
    requires p.probationMs >= 1
    ensures MaxGap(p) == if p.probationMs < 5_000 then p.probationMs else 5_000
  {
  }

  // ------------------------------------------------------------------ authorising a rollback

  lemma RollbackExact(c: Controller, now: U64, wall: U64, v: Verdict)
    ensures var r := ProbationRollbackDue(c, now, wall, v);
            var p := c.probation;
            && (r.answer <==>
                  && p.Some? && p.value.candidate == c.current && p.value.rollbackAt.Some? && now >= p.value.rollbackAt.value
                  && CommittedFresh(c, now) == Some(p.value.rollback)
                  && (p.value.authorized || p.value.direct || (c.usable && c.cfg.stateFile && v.Granted?)))
            && (r.answer ==> r.c.probation == Some(p.value.(authorized := true)))
            && (r.asked != [] ==> !p.value.authorized && !p.value.direct)
            && (!r.answer ==> r.c == c.(usable := r.c.usable))
  {
    hide CommittedFresh, Canonical;
  }

  lemma OperatorExact(c: Controller, expected: Ip, now: U64, wall: U64, v: Verdict)
    ensures var r := AuthorizeOperatorRollback(c, expected, now, wall, v);
            var p := c.probation;
            && (r.answer <==>
                  && p.Some? && c.current == expected && p.value.candidate == expected
                  && CommittedFresh(c, now) == Some(p.value.rollback)
                  && (p.value.authorized || p.value.direct || (c.usable && c.cfg.stateFile && v.Granted?)))
            && (r.answer ==> r.c.probation == Some(p.value.(authorized := true)))
            && (r.asked != [] ==> !p.value.authorized && !p.value.direct)
            && (!r.answer ==> r.c == c.(usable := r.c.usable))
  {
    hide CommittedFresh, Canonical;
  }

  // ------------------------------------------------------------------ start-up

  /** Start-up picks the cached address if the answer lists it, else the lowest address of the answer; with
      no usable answer the cached address, then the configured one; an unsafe configured address is refused
      outright. */
  lemma BootstrapExact(cfg: Config, b: Boot)
    requires 0 !in cfg.safe && (b.cached.Some? ==> b.cached.value in cfg.safe)
    ensures var r, usable := Bootstrap(cfg, b), (set ip | b.dns.Answer? && ip in b.dns.addrs && ip in cfg.safe);
            && (b.literal.Some? && b.literal.value !in cfg.safe ==> r.None?)
            && ((b.literal.Some? ==> b.literal.value in cfg.safe) ==>
                  && (r.None? <==> usable == {} && b.cached.None? && b.literal.None?)
                  && (usable != {} ==> Picked(usable, b.cached, r.value.current))
                  && (usable == {} && r.Some? ==>
                        r.value.current == if b.cached.Some? then b.cached.value else b.literal.value))
  {
    hide Ordered, Canonical, CachedFreshUntil, FailureDelay, Picked;
    var c0 := BeforeFirstQuery(cfg, b);
    var usable := set ip | b.dns.Answer? && ip in b.dns.addrs && ip in cfg.safe;
    if b.dns.Answer? && usable != {} {
      var s := SafeOnly(b.dns.addrs, cfg.safe);
      var ip :| ip in usable;
      assert ip in s;
      PicksLowest(s, usable, b.cached);
    } else if b.dns.Answer? {
      forall ip | ip in b.dns.addrs ensures ip !in cfg.safe { assert ip !in usable; }
      NoneUsable(b.dns.addrs, cfg.safe);
    }
  }

  /** A new controller: nobody authenticated, nothing on probation, a round that begins now with nothing counted,
      and probes disabled exactly when the ledger is in use and could not be loaded. */
  lemma BootstrapState(cfg: Config, b: Boot)
    requires Bootstrap(cfg, b).Some?
    ensures var c := Bootstrap(cfg, b).value;
            && c.cfg == cfg && !c.authenticated && !c.attended && c.probation.None? && !c.dns.force && !c.dns.pending
            && c.home == BeforeFirstQuery(cfg, b).home
            && c.round.failures == 0 && c.round.attempts == 0
            && c.round.deadline == (if cfg.policy.enabled then Some(SatAdd(b.now, cfg.policy.roundTimeoutMs)) else None)
            && (!c.usable <==> cfg.policy.enabled && cfg.stateFile && !b.loaded)
  {
    hide Ordered, Canonical, CachedFreshUntil, FailureDelay;
  }

  lemma {:induction false} NoneUsable(addrs: seq<Ip>, safe: set<Ip>)
    requires forall ip :: ip in addrs ==> ip !in safe
    ensures SafeOnly(addrs, safe) == []
  {
    if addrs != [] {
      NoneUsable(addrs[..|addrs| - 1], safe);
      assert addrs[|addrs| - 1] in addrs;
    }
  }

  /** The cached address when it is among the lowest eight, and otherwise the lowest. */
  ghost predicate Picked(usable: set<Ip>, cached: Option<Ip>, ip: Ip) {
    && ip in usable
    && (Some(ip) != cached ==> forall x :: x in usable ==> ip <= x)
    && (cached.Some? && cached.value in usable && Some(ip) != cached ==> |usable| > 8)
  }

  lemma PicksLowest(s: seq<Ip>, usable: set<Ip>, cached: Option<Ip>)
    requires s != [] && forall ip :: ip in s <==> ip in usable
    requires 0 !in usable
    ensures var ds := Ordered(Canonical(s), 0, cached);
            ds != [] && Picked(usable, cached, if cached.Some? && cached.value in ds then cached.value else ds[0])
  {
    hide Ordered, Canonical;
    CanonicalShape(s);
    OrderedKeeps(Canonical(s), 0, cached);
    OrderedRanks(Canonical(s), 0, cached);
    var ds := Ordered(Canonical(s), 0, cached);
    assert Canonical(s)[0] in ds;
    assert ds[0] in ds;
    if cached.Some? && cached.value in ds {
      assert cached.value in s;
    } else {
      forall x | x in usable ensures ds[0] <= x {
        if x in ds {
          var j :| 0 <= j < |ds| && ds[j] == x;
          if j > 0 { assert Preferred(ds[0], ds[j], 0, cached); }
        } else {
          CanonicalLowest(s, ds[0], x);
        }
      }
      if cached.Some? && cached.value in usable { MoreThanEight(s, usable, cached.value); }
    }
  }

  lemma MoreThanEight(s: seq<Ip>, usable: set<Ip>, x: Ip)
    requires (forall ip :: ip in s <==> ip in usable) && x in usable && x !in Canonical(s) && s != []
    ensures |usable| > 8
  {
    hide Canonical;
    CanonicalShape(s);
    var t := Canonical(s);
    assert t[0] in t;
    CanonicalLowest(s, t[0], x);
    var m := Members(t);
    MembersSize(t);
    SubsetSize(m, usable - {x});
  }
}
