/** An attended cutover always leaves a way back. */
module EndpointCutover {
  import opened Machine
  import opened Relay
  import opened Candidates
  import opened Endpoint
  import opened EndpointRuns

  const GRACE_MS: nat := 2 * TIMER_INTERVAL_MS

  ghost predicate NoneAuthenticates(es: seq<Event>) {
    forall i :: 0 <= i < |es| ==> !es[i].Authenticated?
  }

  ghost predicate NoneCommits(es: seq<Event>) {
    forall i :: 0 <= i < |es| ==> !es[i].Authenticated? && !es[i].PromoteCommand?
  }

  lemma HomeStep(c: Controller, e: Event)
    requires Inv(c) && !e.Authenticated? && !e.PromoteCommand?
    requires !(c.authenticated && c.AtHome())
    ensures var c' := Apply(c, e).c; c'.home == c.home && !(c'.authenticated && c'.AtHome())
    ensures !c.authenticated ==> !Apply(c, e).c.authenticated
  {
    hide Usable, Same, OnCycle, Refreshed, HealthDeadline, Ordered;
    if e.Cycle? {
      CycleSelected(c, e.reason, e.x);
    }
  }

  lemma IdlePromotion(c: Controller, e: Event)
    requires e.PromoteCommand? && !c.authenticated
    ensures Apply(c, e).c == c
  {
  }

  /** Away from committed-good, its freshness proofs are frozen until something commits. */
  lemma {:induction false} HomeFrozen(c: Controller, es: seq<Event>)
    requires Inv(c) && !(c.authenticated && c.AtHome())
    requires NoneCommits(es) || (!c.authenticated && NoneAuthenticates(es))
    ensures var d := Run(c, es);
            && d.home == c.home && !(d.authenticated && d.AtHome())
            && (!c.authenticated ==> !d.authenticated)
  {
    hide Apply, Inv;
    if es != [] {
      var n := |es| - 1;
      HomeFrozen(c, es[..n]);
      RunKeeps(c, es[..n]);
      var d := Run(c, es[..n]);
      if es[n].PromoteCommand? {
        IdlePromotion(d, es[n]);
      } else {
        HomeStep(d, es[n]);
      }
    }
  }

  /** What a Forced cycle that leaves committed-good has checked. */
  lemma CutoverChecked(c: Controller, x: Inputs)
    requires Inv(c) && c.AtHome() && c.cfg.policy.enabled && OnCycle(c, Forced, x).switch.Some?
    ensures var d := OnCycle(c, Forced, x).c;
            && d.round.deadline.Some? && d.home == c.home && !d.authenticated && !d.AtHome()
            && exists now :: HealthDeadline(c.home, c.cfg.policy, now).Some?
                 && HealthDeadline(c.home, c.cfg.policy, now).value >= RequiredThrough(d.round, c.cfg.policy, 0)
  {
    hide Usable, Same, Refresh, HealthDeadline, Ordered;
    CycleSelected(c, Forced, x);
    RefreshKeeps(MarkLost(c, Forced), x, Forced);
    var now := if Due(c.dns, x.now) then x.afterNow else x.now;
    var r := Refreshed(c, Forced, x);
    assert OnCycle(c, Forced, x).c.round == Begin(r, now).round;
    assert !NoWayBack(Begin(r, now), now);
    assert HealthDeadline(c.home, c.cfg.policy, now).Some?;
  }

  /** A deadline that covered the far end covers every instant before it. */
  lemma HealthCovers(h: Home, p: Policy, now: U64, t: U64)
    requires HealthDeadline(h, p, now).Some? && t <= HealthDeadline(h, p, now).value
    ensures HealthDeadline(h, p, t).Some? && HealthDeadline(h, p, t).value >= HealthDeadline(h, p, now).value
  {
  }

  lemma InstantScheduled(h: Home, p: Policy, now: U64, t: U64)
    requires p.Validated() && HealthDeadline(h, p, now).Some?
    requires SatAdd(SatAdd(t, p.probationMs), GRACE_MS) <= HealthDeadline(h, p, now).value
    ensures var at := RollbackInstant(h, p, t);
            && at.Some? && Min(t + p.probationMs, U64_MAX - GRACE_MS) <= at.value
            && forall u: U64 :: u <= at.value + GRACE_MS ==> HealthDeadline(h, p, u).Some?
  {
    HealthCovers(h, p, now, t);
    var at := RollbackInstant(h, p, t);
    forall u: U64 | u <= at.value + GRACE_MS ensures HealthDeadline(h, p, u).Some? {
      HealthCovers(h, p, t, u);
    }
  }

  /** A Forced cycle leaves committed-good and, after events that authenticate nothing, another
      address authenticates no later than the round deadline plus one handshake. */
  ghost predicate Attended(c: Controller, x: Inputs, es: seq<Event>, t: U64) {
    && Inv(c) && c.AtHome() && c.cfg.policy.enabled && c.cfg.policy.Validated()
    && OnCycle(c, Forced, x).switch.Some? && NoneAuthenticates(es)
    && var d := OnCycle(c, Forced, x).c;
       && (d.round.deadline.Some? ==> t <= d.round.deadline.value + CLIENT_HANDSHAKE_TIMEOUT_MS)
       && Run(d, es).current != c.current
  }

  /** The controller just after that authentication. */
  ghost function CutOver(c: Controller, x: Inputs, es: seq<Event>, t: U64): Controller {
    OnAuthenticated(Run(OnCycle(c, Forced, x).c, es), t)
  }

  /** With a validated policy, after a cutover as above, a rollback instant is scheduled, no earlier
      than the end of the probation (or the last instant the clock can express), and through any
      further events that commit nothing committed-good stays eligible until two timer intervals
      after that instant. */
  lemma WayBack(c: Controller, x: Inputs, es: seq<Event>, t: U64, fs: seq<Event>, u: U64)
    requires Attended(c, x, es, t) && NoneCommits(fs)
    ensures var a := CutOver(c, x, es, t);
            && a.probation.Some? && a.probation.value.rollback == c.current
            && a.probation.value.rollbackAt.Some?
            && Min(t + c.cfg.policy.probationMs, U64_MAX - GRACE_MS) <= a.probation.value.rollbackAt.value
            && (u <= a.probation.value.rollbackAt.value + GRACE_MS && !Run(a, fs).AtHome() ==>
                  CommittedFresh(Run(a, fs), u) == Some(c.current))
  {
    hide Apply, OnCycle, HealthDeadline, Usable, Ordered, Inv;
    var p := c.cfg.policy;
    var d := OnCycle(c, Forced, x).c;
    CycleSelected(c, Forced, x);
    CutoverChecked(c, x);
    assert Inv(d) && d.cfg == c.cfg by { SelectedInv(c, x); }
    HomeFrozen(d, es);
    RunKeeps(d, es);
    var b := Run(d, es);
    var now :| HealthDeadline(c.home, p, now).Some?
      && HealthDeadline(c.home, p, now).value >= RequiredThrough(d.round, p, 0);
    InstantScheduled(c.home, p, now, t);
    AuthenticatedStep(b, t);
    var a := OnAuthenticated(b, t);
    HomeFrozen(a, fs);
    RunKeeps(a, fs);
  }

  lemma SelectedInv(c: Controller, x: Inputs)
    requires Inv(c)
    ensures Inv(OnCycle(c, Forced, x).c) && OnCycle(c, Forced, x).c.cfg == c.cfg
  {
    CycleStep(c, Forced, x);
  }

  // ------------------------------------------------------------------ taking the way back

  ghost predicate NoneCycles(es: seq<Event>) {
    forall i :: 0 <= i < |es| ==> !es[i].Cycle?
  }

  ghost predicate NoneCommands(es: seq<Event>) {
    forall i :: 0 <= i < |es| ==> !es[i].ReconnectCommand?
  }

  /** `q` is `p` with more evidence, or authorised. */
  predicate Continues(p: Probation, q: Probation) {
    q == p.(authorized := q.authorized, firstData := q.firstData, lastData := q.lastData, packets := q.packets)
  }

  /** The probation `p` is still in progress on its candidate. */
  predicate OnProbation(c: Controller, p: Probation) {
    c.probation.Some? && Continues(p, c.probation.value) && c.current == p.candidate
  }

  lemma ProbationStep(c: Controller, e: Event)
    requires Inv(c) && !e.Authenticated? && !e.PromoteCommand?
    ensures var d := Apply(c, e).c;
            && (d.probation.Some? ==> c.probation.Some? && Continues(c.probation.value, d.probation.value))
            && (!e.Cycle? && c.probation.Some? ==> d.probation.Some?)
            && (!e.Cycle? ==> d.current == c.current)
            && (!e.Cycle? && !e.ReconnectCommand? ==> d.attended == c.attended)
  {
    hide Usable, Same, OnCycle, Refreshed, HealthDeadline, Charge, Ordered, Moves, Covered, Requests;
    if e.Cycle? {
      CycleSelected(c, e.reason, e.x);
    }
  }

  /** A probation that survives commits nothing new: it keeps its candidate, its rollback and its
      instant; and only a reconnect cycle ends it. */
  lemma {:induction false} ProbationRun(c: Controller, es: seq<Event>)
    requires Inv(c) && NoneCommits(es)
    ensures var d := Run(c, es);
            && (d.probation.Some? ==> c.probation.Some? && Continues(c.probation.value, d.probation.value))
            && (NoneCycles(es) && c.probation.Some? ==> d.probation.Some?)
            && (NoneCycles(es) ==> d.current == c.current)
            && (NoneCycles(es) && NoneCommands(es) ==> d.attended == c.attended)
  {
    hide Apply, Inv;
    if es != [] {
      var n := |es| - 1;
      ProbationRun(c, es[..n]);
      RunKeeps(c, es[..n]);
      ProbationStep(Run(c, es[..n]), es[n]);
    }
  }

  /** What the expired cycle does with an authorised rollback, whatever the resolver says. */
  lemma ExpiredSwitches(c: Controller, y: Inputs)
    requires Inv(c) && c.probation.Some? && c.probation.value.authorized && !c.AtHome()
    ensures OnCycle(c, ProbationExpired, y).switch == c.home.good
  {
    hide Usable, Refresh, Reorder, Due, Asks;
    RefreshKeeps(MarkLost(c, ProbationExpired), y, ProbationExpired);
  }

  /** At any instant in the grace interval the timer authorises the return of an attended probation
      without asking the ledger, and the cycle that follows makes it. */
  lemma DirectReturn(z: Controller, p: Probation, u: U64, wall: U64, v: Verdict, y: Inputs)
    requires Inv(z) && OnProbation(z, p) && p.direct && p.rollbackAt.Some? && p.rollbackAt.value <= u
    requires CommittedFresh(z, u) == Some(p.rollback)
    ensures var r := ProbationRollbackDue(z, u, wall, v);
            r.answer && r.asked == [] && OnCycle(r.c, ProbationExpired, y).switch == Some(p.rollback)
  {
    hide Usable, OnCycle, HealthDeadline, Inv;
    AuthorizeStep(z, u, wall, v);
    ExpiredSwitches(ProbationRollbackDue(z, u, wall, v).c, y);
  }

  lemma CutoverKeepsAttended(c: Controller, x: Inputs)
    requires Inv(c) && OnCycle(c, Forced, x).switch.Some?
    ensures OnCycle(c, Forced, x).c.attended == c.attended
  {
    hide Usable, Refresh, Ordered, Due, Asks, NoWayBack;
    RefreshKeeps(MarkLost(c, Forced), x, Forced);
  }

  /** The whole attended cutover. The probation is direct exactly when the operator's authority is
      still there at the authentication, which it is if the first handshake succeeds without another
      command. As long as no reconnect cycle ends it, the probation goes on; and whenever it does, at
      every instant from the rollback instant to two timer intervals later, the timer authorises the
      return without asking the ledger and the next cycle is back on the address that was left. */
  lemma AttendedRollback(c: Controller, x: Inputs, es: seq<Event>, t: U64, fs: seq<Event>, u: U64, wall: U64, v: Verdict, y: Inputs)
    requires Attended(c, x, es, t) && NoneCommits(fs)
    ensures var a, z := CutOver(c, x, es, t), Run(CutOver(c, x, es, t), fs);
            && a.probation.Some? && a.probation.value.rollbackAt.Some?
            && var p := a.probation.value;
               && p.direct == Run(OnCycle(c, Forced, x).c, es).attended
               && (NoneCommits(es) && NoneCycles(es) && NoneCommands(es) ==> p.direct == c.attended)
               && (NoneCycles(fs) ==> OnProbation(z, p))
               && (OnProbation(z, p) && p.direct && p.rollbackAt.value <= u <= p.rollbackAt.value + GRACE_MS ==>
                     var r := ProbationRollbackDue(z, u, wall, v);
                     r.answer && r.asked == [] && OnCycle(r.c, ProbationExpired, y).switch == Some(c.current))
  {
    hide Apply, OnCycle, HealthDeadline, Ordered, Inv, ProbationRollbackDue, RollbackInstant;
    var d := OnCycle(c, Forced, x).c;
    WayBack(c, x, es, t, fs, u);
    SelectedInv(c, x);
    CutoverKeepsAttended(c, x);
    RunKeeps(d, es);
    if NoneCommits(es) { ProbationRun(d, es); }
    AuthenticatedStep(Run(d, es), t);
    var a := CutOver(c, x, es, t);
    RunKeeps(a, fs);
    ProbationRun(a, fs);
    var z := Run(a, fs);
    var p := a.probation.value;
    if OnProbation(z, p) && p.direct && p.rollbackAt.value <= u <= p.rollbackAt.value + GRACE_MS {
      ProbationAway(z);
      DirectReturn(z, p, u, wall, v, y);
    }
  }

  lemma ProbationAway(z: Controller)
    requires Inv(z) && z.probation.Some? && z.current == z.probation.value.candidate
    ensures !z.AtHome()
  {
    hide Usable;
  }
}
