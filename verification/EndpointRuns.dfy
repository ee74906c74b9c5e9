/** Every run of one controller: its invariant, and what each switch is covered by. */
module EndpointRuns {
  import opened Machine
  import opened Relay
  import opened Candidates
  import opened Ledger
  import opened Endpoint

  datatype Event =
    | Cycle(reason: Reason, x: Inputs)
    | Authenticated(now: U64)
    | Activity(now: U64, isData: bool)
    | PromoteCommand(expected: Ip, now: U64, saved: bool)
    | RollbackTimer(now: U64, wall: U64, v: Verdict)
    | RollbackCommand(expected: Ip, now: U64, wall: U64, v: Verdict)
    | ReconnectCommand
    | Ended

  function Apply(c: Controller, e: Event): Outcome {
    match e
    case Cycle(reason, x) => OnCycle(c, reason, x)
    case Authenticated(now) => Stay(OnAuthenticated(c, now), [])
    case Activity(now, isData) => Stay(OnActivity(c, now, isData), [])
    case PromoteCommand(expected, now, saved) => Stay(Promote(c, expected, now, saved), [])
    case RollbackTimer(now, wall, v) => ProbationRollbackDue(c, now, wall, v)
    case RollbackCommand(expected, now, wall, v) => AuthorizeOperatorRollback(c, expected, now, wall, v)
    case ReconnectCommand => Stay(RequestRefresh(c), [])
    case Ended => Stay(SessionEnded(c), [])
  }

  ghost function Run(c: Controller, es: seq<Event>): Controller {
    if es == [] then c else Apply(Run(c, es[..|es| - 1]), es[|es| - 1]).c
  }

  // ------------------------------------------------------------------ the controller invariant

  /** Distinct, at most eight, and every one of them a safe relay address. */
  ghost predicate Usable(s: seq<Ip>, safe: set<Ip>) {
    WellFormed(s) && forall ip :: ip in s ==> ip in safe
  }

  ghost predicate Same(s: seq<Ip>, t: seq<Ip>) {
    forall ip :: ip in s <==> ip in t
  }

  ghost predicate ProbationOk(c: Controller) {
    c.probation.Some? ==>
      && c.cfg.policy.enabled
      && c.home.good == Some(c.probation.value.rollback)
      && c.probation.value.candidate != c.probation.value.rollback
      && !c.attended
      && !(c.authenticated && c.AtHome())
  }

  ghost predicate Inv(c: Controller) {
    && Usable(c.dns.candidates, c.cfg.safe)
    && c.current in c.cfg.safe
    && (c.home.good.Some? ==> c.home.good.value in c.cfg.safe)
    && (c.home.good.Some? && !c.AtHome() ==> c.dns.candidates != [])
    && ProbationOk(c)
    && (c.attended ==> c.home.good.Some?)
    && 1 <= c.dns.backoff.minMs <= c.dns.backoff.maxMs
  }

  /** Attended authority: the operator interrupted the committed endpoint, which may be taken back. */
  predicate Direct(c: Controller) {
    c.attended || (c.probation.Some? && c.probation.value.direct)
  }

  /** A switch that leaves the DNS answer on attended authority, without a charge. */
  predicate IsDirect(c: Controller, r: Outcome) {
    r.switch.Some? && r.switch.value !in r.c.dns.candidates && Direct(c) && Grants(r.asked) == []
  }

  /** Any other switch that leaves the DNS answer. */
  predicate IsBlind(c: Controller, r: Outcome) {
    r.switch.Some? && r.switch.value !in r.c.dns.candidates && !IsDirect(c, r)
  }

  /** Attended authorities not used yet. */
  function Held(c: Controller): nat {
    Count(c.attended) + Count(c.probation.Some? && c.probation.value.direct)
  }

  /** A charged rollback authorisation that has not been used yet. */
  predicate HoldsUnused(c: Controller) {
    c.probation.Some? && c.probation.value.authorized && !c.probation.value.direct
  }

  function Count(b: bool): nat {
    if b then 1 else 0
  }

  /** The one key a controller may ask for: committed-good under the canonical current answer. */
  predicate AsksFor(c: Controller, k: Key) {
    c.home.good == Some(k.candidate) && k.dnsSet == Canonical(c.dns.candidates)
  }

  /** The ledger is asked only by a controller that may still probe, is away from committed-good and
      has the fallback policy on; whatever the verdict the key is the one above; a refusal may be
      followed by another request, a grant or an error ends them; an error ends probing for good. */
  predicate Requests(c: Controller, asked: seq<Ask>, usable: bool) {
    && (asked != [] ==> c.usable && c.cfg.stateFile && c.cfg.policy.enabled && !c.AtHome())
    && (forall i :: 0 <= i < |asked| ==> AsksFor(c, asked[i].record.key))
    && (forall i :: 0 <= i < |asked| - 1 ==> asked[i].verdict.Denied?)
    && usable == (c.usable && (asked == [] || !asked[|asked| - 1].verdict.Broken?))
  }

  /** A switch is a real move, into the DNS answer or back to committed-good. */
  predicate Moves(c: Controller, r: Outcome) {
    && r.c.current == (if r.switch.Some? then r.switch.value else c.current)
    && (r.switch.Some? ==>
          && r.switch.value != c.current
          && !r.c.authenticated
          && (r.switch.value in r.c.dns.candidates || c.home.good == r.switch))
  }

  /** Blind returns and unused authorisations never outgrow what was paid. */
  predicate Covered(c: Controller, r: Outcome) {
    Count(IsBlind(c, r)) + Count(HoldsUnused(r.c)) <= Count(HoldsUnused(c)) + |Grants(r.asked)|
  }

  /** What selection promises about the state it starts from. */
  ghost predicate Selected(c: Controller, r: Outcome) {
    && Inv(r.c)
    && r.c.cfg == c.cfg && r.c.home == c.home
    && r.c.dns == c.dns.(candidates := r.c.dns.candidates)
    && Same(r.c.dns.candidates, c.dns.candidates)
    && Moves(c, r)
    && Covered(c, r)
    && Count(IsDirect(c, r)) + Held(r.c) <= Held(c)
    && Requests(c, r.asked, r.c.usable)
    && (r.c.authenticated ==> c.authenticated)
    && (r.c.probation == c.probation || (r.c.probation.None? && !r.c.authenticated))
    && (r.c.attended ==> c.attended)
  }

  lemma SwitchKeeps(c: Controller, target: Ip, asked: seq<Ask>)
    requires Inv(c)
    requires target != c.current
    requires target in c.dns.candidates || c.home.good == Some(target)
    ensures var r := SwitchTo(c, target, asked);
            && Inv(r.c) && Moves(c, r) && r.asked == asked && r.switch == Some(target)
            && r.c == c.(current := target, authenticated := false, dns := c.dns.(candidates := r.c.dns.candidates))
            && Same(r.c.dns.candidates, c.dns.candidates)
            && (target in r.c.dns.candidates <==> target in c.dns.candidates)
  {
    OrderedKeeps(c.dns.candidates, target, c.home.good);
  }

  lemma SwitchSelected(c: Controller, c1: Controller, target: Ip, asked: seq<Ask>)
    requires Inv(c) && Inv(c1) && target != c.current
    requires c1 == c.(round := c1.round, attended := c1.attended, probation := c1.probation, usable := c1.usable)
    requires c1.probation.None? || c1.probation == c.probation
    requires c1.attended ==> c.attended
    requires target in c.dns.candidates || c.home.good == Some(target)
    requires target in c.dns.candidates || Held(c1) < Held(c) || Grants(asked) != [] || (HoldsUnused(c) && c1.probation.None?)
    requires Requests(c, asked, c1.usable)
    ensures Selected(c, SwitchTo(c1, target, asked))
  {
    hide SwitchTo, Usable, Same;
    SwitchKeeps(c1, target, asked);
  }

  lemma StaySelected(c: Controller, c1: Controller, asked: seq<Ask>)
    requires Inv(c) && Requests(c, asked, c1.usable)
    requires c1 == c.(round := c1.round, attended := c1.attended, probation := c1.probation, usable := c1.usable)
    requires c1.probation == c.probation || (c1.probation.None? && !c.authenticated)
    requires c1.attended ==> c.attended
    ensures Inv(c1) && Selected(c, Stay(c1, asked))
  {
  }

  lemma RollbackSelected(c: Controller)
    requires Inv(c)
    ensures Selected(c, SelectRollback(c))
  {
    hide Reorder, Usable, Same, Selected;
    var c1 := c.(probation := None, attended := false);
    StaySelected(c, c, []);
    if c.probation.Some? && c.probation.value.authorized {
      if c.AtHome() {
        StaySelected(c, c1, []);
      } else {
        SwitchSelected(c, c1, c.probation.value.rollback, []);
      }
    }
  }

  lemma ForcedSelected(c: Controller, now: U64, answered: bool)
    requires Inv(c)
    ensures Selected(c, SelectForced(c, now, answered))
  {
    hide SwitchTo, Usable, Same, Selected, NoWayBack;
    var r := SelectForced(c, now, answered);
    if RoundExpired(c.round, now) || !answered || c.dns.candidates == [] || c.dns.candidates[0] == c.current
       || NoWayBack(Begin(c, now), now) {
      StaySelected(c, r.c, []);
    } else {
      SwitchSelected(c, Begin(c, now), c.dns.candidates[0], []);
    }
  }

  lemma ReturnSelected(c: Controller, now: U64, wall: U64, v: Verdict)
    requires Inv(c)
    ensures var (usable, back, asked) := ProbationReturn(c, now, wall, v);
            if back then Selected(c, SwitchTo(c.(usable := usable, probation := None), c.probation.value.rollback, asked))
            else Requests(c, asked, usable) && |asked| <= 1 && Grants(asked) == []
  {
    hide SwitchTo, Usable, Same, Selected, HealthDeadline;
    var (usable, back, asked) := ProbationReturn(c, now, wall, v);
    if back {
      SwitchSelected(c, c.(usable := usable, probation := None), c.probation.value.rollback, asked);
    }
  }

  /** A refused or failed request before a selection. */
  lemma PrefixSelected(c: Controller, c1: Controller, asked: seq<Ask>, r: Outcome)
    requires Inv(c) && c1 == c.(usable := c1.usable)
    requires Requests(c, asked, c1.usable) && |asked| <= 1 && Grants(asked) == []
    requires Selected(c1, r)
    ensures Selected(c, After(asked, r))
  {
    hide Usable, Same, Inv, Requests, Grants;
    GrantsAfter(asked, r.asked);
    RequestsAfter(c, c1, asked, r.asked, r.c.usable);
  }

  lemma GrantsAfter(asked: seq<Ask>, more: seq<Ask>)
    requires |asked| <= 1 && Grants(asked) == []
    ensures Grants(asked + more) == Grants(more)
  {
    var all := asked + more;
    if asked != [] {
      assert all[1..] == more;
    } else {
      assert all == more;
    }
  }

  lemma RequestsAfter(c: Controller, c1: Controller, asked: seq<Ask>, more: seq<Ask>, usable: bool)
    requires c1 == c.(usable := c1.usable)
    requires Requests(c, asked, c1.usable) && |asked| <= 1 && Grants(asked) == []
    requires Requests(c1, more, usable)
    ensures Requests(c, asked + more, usable)
  {
    hide Canonical;
    var all := asked + more;
    forall i | 0 <= i < |all| ensures AsksFor(c, all[i].record.key) {
      assert all[i] == if i < |asked| then asked[i] else more[i - |asked|];
    }
    if more == [] { assert all == asked; }
  }

  lemma CandidateIn(candidates: seq<Ip>, cur: Ip)
    ensures NextCandidate(candidates, cur).Some? ==> NextCandidate(candidates, cur).value in candidates
    ensures Canonical(candidates) != [] ==> Canonical(candidates)[0] in candidates
  {
    hide NextCandidate;
    CanonicalShape(candidates);
    if Canonical(candidates) != [] { assert Canonical(candidates)[0] in Canonical(candidates); }
  }

  lemma CommittedSelected(c: Controller, now: U64)
    requires Inv(c)
    ensures Selected(c, RetryCommitted(c, now))
  {
    hide SwitchTo, Usable, Same, Selected, NextCandidate;
    var r := RetryCommitted(c, now);
    var next := NextCandidate(c.dns.candidates, c.current);
    CandidateIn(c.dns.candidates, c.current);
    if RoundExpired(c.round, now) || next.None? {
      StaySelected(c, r.c, []);
    } else {
      SwitchSelected(c, Begin(c, now), next.value, []);
    }
  }

  /** One request by a controller that is away from committed-good. */
  lemma ChargeRequests(c: Controller, wall: U64, target: Ip, v: Verdict)
    ensures var (usable, granted, asked) := Charge(c, wall, target, v);
            && (c.cfg.policy.enabled && !c.AtHome() && c.home.good == Some(target) ==> Requests(c, asked, usable))
            && |asked| <= 1 && |Grants(asked)| == Count(granted) && (granted || asked == [] ==> usable == c.usable)
  {
    hide Canonical;
  }

  lemma NoGrants()
    ensures Grants([]) == []
  {
  }

  lemma FreshAway(c: Controller, now: U64)
    ensures CommittedFresh(c, now).Some? ==> !c.AtHome()
  {
  }

  lemma PreferredSelected(c: Controller, now: U64, wall: U64, v: Verdict)
    requires Inv(c)
    ensures Selected(c, RetryPreferred(c, now, wall, v))
  {
    hide SwitchTo, Usable, Same, Selected, NextCandidate, CommittedFresh, FallbackDue, Charge, Canonical, Grants;
    NoGrants();
    var r := RetryPreferred(c, now, wall, v);
    var c1 := CountFailure(c, now);
    var (usable, granted, asked) := FallbackProbe(c1, now, wall, v);
    var c2 := c1.(usable := usable);
    FreshAway(c1, now);
    if CommittedFresh(c1, now).Some? { ChargeRequests(c1, wall, CommittedFresh(c1, now).value, v); }
    var next := NextCandidate(c.dns.candidates, c.current);
    CandidateIn(c.dns.candidates, c.current);
    StaySelected(c, c2, asked);
    if granted {
      SwitchSelected(c, c2.(round := c2.round.(deadline := None)), CommittedFresh(c1, now).value, asked);
    } else if RoundExpired(c2.round, now) || next.None? {
      StaySelected(c, r.c, asked);
    } else {
      SwitchSelected(c, c2, next.value, asked);
    }
  }

  lemma AttemptFailedSelected(c: Controller, now: U64, wall: U64, v1: Verdict, v2: Verdict)
    requires Inv(c)
    ensures Selected(c, SelectAttemptFailed(c, now, wall, v1, v2))
  {
    hide SwitchTo, Usable, Same, ProbationReturn, RetryCommitted, RetryPreferred;
    var (usable, back, asked) := ProbationReturn(c, now, wall, v1);
    var c1 := c.(usable := usable);
    ReturnSelected(c, now, wall, v1);
    if !back {
      var r := if c1.attended && c1.home.good.Some? && !c1.AtHome()
               then SwitchTo(c1.(attended := false), c1.home.good.value, [])
               else if c1.AtHome() then RetryCommitted(c1, now)
               else RetryPreferred(c1, now, wall, v2);
      if c1.attended && c1.home.good.Some? && !c1.AtHome() {
        SwitchSelected(c1, c1.(attended := false), c1.home.good.value, []);
      } else if c1.AtHome() {
        CommittedSelected(c1, now);
      } else {
        PreferredSelected(c1, now, wall, v2);
      }
      PrefixSelected(c, c1, asked, r);
    }
  }

  lemma SessionLostSelected(c: Controller, now: U64, wall: U64, v1: Verdict)
    requires Inv(c)
    ensures Selected(c, SelectSessionLost(c, now, wall, v1))
  {
    hide SwitchTo, Usable, Same, Selected, ProbationReturn, Canonical;
    var (usable, back, asked) := ProbationReturn(c, now, wall, v1);
    var c1 := c.(usable := usable);
    ReturnSelected(c, now, wall, v1);
    if !back {
      var s := Canonical(c.dns.candidates);
      CandidateIn(c.dns.candidates, c.current);
      StaySelected(c, c1, asked);
      StaySelected(c, Begin(c1, now), asked);
      if c1.AtHome() && c1.current !in c1.dns.candidates && s != [] {
        SwitchSelected(c, Begin(c1, now), s[0], asked);
      }
    }
  }

  lemma SelectIsSelected(c: Controller, now: U64, wall: U64, reason: Reason, answered: bool, v1: Verdict, v2: Verdict)
    requires Inv(c)
    ensures Selected(c, Select(c, now, wall, reason, answered, v1, v2))
  {
    hide Selected, SelectRollback, SelectForced, SelectAttemptFailed, SelectSessionLost;
    match reason
    case ProbationExpired | OperatorRollback => RollbackSelected(c);
    case Forced => ForcedSelected(c, now, answered);
    case AttemptFailed => AttemptFailedSelected(c, now, wall, v1, v2);
    case SessionLost => SessionLostSelected(c, now, wall, v1);
    case Startup => StaySelected(c, c, []);
  }

  lemma QueryKeeps(c: Controller, now: U64, dns: Dns, rnd: U32)
    requires Usable(c.dns.candidates, c.cfg.safe) && 1 <= c.dns.backoff.minMs <= c.dns.backoff.maxMs
    ensures var (c1, answered) := Query(c, now, dns, rnd);
            && Usable(c1.dns.candidates, c1.cfg.safe)
            && c1.dns.backoff.minMs == c.dns.backoff.minMs && c1.dns.backoff.maxMs == c.dns.backoff.maxMs
            && c1 == c.(dns := c1.dns, round := c1.round) && c1.dns.pending == c.dns.pending
            && (answered || c.dns.candidates != [] ==> c1.dns.candidates != [])
            && (answered ==> dns.Answer? && Canonical(c1.dns.candidates) == Canonical(SafeOnly(dns.addrs, c.cfg.safe)))
  {
    if dns.Answer? && SafeOnly(dns.addrs, c.cfg.safe) != [] {
      var s := SafeOnly(dns.addrs, c.cfg.safe);
      CanonicalShape(s);
      OrderedKeeps(Canonical(s), c.current, c.home.good);
      CanonicalIdempotent(s);
    }
  }

  lemma RefreshKeeps(c: Controller, x: Inputs, reason: Reason)
    requires Inv(c)
    ensures var c1 := Refresh(c, x, reason).0;
            && Inv(c1)
            && c1 == c.(dns := c1.dns, round := c1.round)
            && c1.dns.pending == c.dns.pending
  {
    hide Query, Usable;
    var c1 := if OpensRound(reason) then Begin(c, x.now) else c;
    var c2 := c1.(dns := c1.dns.(force := false));
    QueryKeeps(c2, x.now, x.dns, x.rnd);
  }

  /** The controller that selection works on. */
  ghost function Refreshed(c: Controller, reason: Reason, x: Inputs): Controller {
    Refresh(MarkLost(c, reason), x, reason).0
  }

  lemma MarkLostKeeps(c: Controller, reason: Reason)
    requires Inv(c)
    ensures Inv(MarkLost(c, reason))
  {
    hide Usable;
  }

  lemma QueriedSelected(c: Controller, r: Outcome, queried: bool)
    requires Selected(c, r)
    ensures Selected(c, r.(queried := queried))
  {
    hide Usable, Same, Inv, Requests, Canonical;
  }

  lemma CycleSelected(c: Controller, reason: Reason, x: Inputs)
    requires Inv(c)
    ensures var d := Refreshed(c, reason, x);
            && Inv(d) && d == c.(dns := d.dns, round := d.round)
            && Selected(d, OnCycle(c, reason, x))
  {
    hide Selected, Select, Refresh, Inv, Due, Asks;
    MarkLostKeeps(c, reason);
    var c0 := MarkLost(c, reason);
    RefreshKeeps(c0, x, reason);
    var (c1, answered) := Refresh(c0, x, reason);
    var (now, wall) := if Due(c0.dns, x.now) then (x.afterNow, x.afterWall) else (x.now, x.wall);
    SelectIsSelected(c1, now, wall, reason, answered, x.v1, x.v2);
    QueriedSelected(c1, Select(c1, now, wall, reason, answered, x.v1, x.v2), Asks(c0.dns, x.now));
  }

  /** What every operation promises: the invariant is kept, switches go only where they may and
      are covered, charges are keyed by the state in which they were made. */
  ghost predicate Step(c: Controller, r: Outcome) {
    && Inv(r.c) && r.c.cfg == c.cfg
    && Moves(c, r) && Covered(c, r)
    && (if r.asked == [] then r.c.usable == c.usable else exists d :: AskedIn(c, d, r))
  }

  /** The charge was made in `d`: the state after a possible refresh, with the answer kept by `r`. */
  ghost predicate AskedIn(c: Controller, d: Controller, r: Outcome) {
    && Inv(d) && d == c.(dns := d.dns, round := d.round)
    && Requests(d, r.asked, r.c.usable) && Same(r.c.dns.candidates, d.dns.candidates)
  }

  lemma CycleStep(c: Controller, reason: Reason, x: Inputs)
    requires Inv(c)
    ensures Step(c, OnCycle(c, reason, x))
  {
    hide Usable, Same, OnCycle, Refreshed, Inv;
    CycleSelected(c, reason, x);
    assert AskedIn(c, Refreshed(c, reason, x), OnCycle(c, reason, x));
  }

  lemma ProbationHome(c: Controller)
    requires Inv(c) && c.probation.Some?
    ensures c.probation.value.rollback in c.cfg.safe && c.home.good == Some(c.probation.value.rollback)
  {
    hide Usable;
  }

  lemma AuthorizedKeeps(c: Controller, d: Controller)
    requires Inv(c) && c.probation.Some? && d.probation.Some?
    requires d == c.(usable := d.usable, probation := d.probation)
    requires d.probation.value == c.probation.value.(authorized := d.probation.value.authorized)
    ensures Inv(d) && Same(d.dns.candidates, c.dns.candidates)
    ensures c.cfg.policy.enabled && !(c.authenticated && c.AtHome()) && !c.attended
  {
    hide Usable;
  }

  lemma AuthorizeStep(c: Controller, now: U64, wall: U64, v: Verdict)
    requires Inv(c) && c.probation.Some?
    ensures var r := Authorize(c, now, wall, v);
            && Step(c, r) && r.switch.None?
            && (r.answer ==> r.c.probation.Some? && r.c.probation.value.authorized)
            && r.c == c.(usable := r.c.usable, probation := r.c.probation)
  {
    hide Same, HealthDeadline, Charge, Requests, Inv, Grants, IsDirect, CommittedFresh;
    var r := Authorize(c, now, wall, v);
    ProbationHome(c);
    NoGrants();
    if CommittedFresh(c, now) == Some(c.probation.value.rollback) { FreshAway(c, now); }
    ChargeRequests(c, wall, c.probation.value.rollback, v);
    AuthorizedKeeps(c, r.c);
    if r.asked != [] { assert AskedIn(c, c, r); }
  }

  lemma AuthenticatedStep(c: Controller, now: U64)
    requires Inv(c)
    ensures Step(c, Stay(OnAuthenticated(c, now), []))
  {
    hide HealthDeadline, Ordered;
    OrderedKeeps(c.dns.candidates, c.current, Some(c.current));
    OrderedKeeps(c.dns.candidates, c.current, c.home.good);
  }

  lemma PromoteStep(c: Controller, expected: Ip, now: U64, saved: bool)
    requires Inv(c)
    ensures Step(c, Stay(Promote(c, expected, now, saved), []))
  {
    hide HealthDeadline, Ordered;
    OrderedKeeps(c.dns.candidates, c.current, Some(expected));
  }

  lemma QuietSteps(c: Controller, now: U64, isData: bool)
    requires Inv(c)
    ensures Step(c, Stay(OnActivity(c, now, isData), []))
    ensures Step(c, Stay(RequestRefresh(c), []))
    ensures Step(c, Stay(SessionEnded(c), []))
    ensures Step(c, Stay(c, []))
  {
    hide Usable;
  }

  lemma ApplyStep(c: Controller, e: Event)
    requires Inv(c)
    ensures Step(c, Apply(c, e))
  {
    hide Step, OnCycle, OnAuthenticated, OnActivity, Promote, Authorize, Inv;
    QuietSteps(c, 0, false);
    match e
    case Cycle(reason, x) => CycleStep(c, reason, x);
    case Authenticated(now) => AuthenticatedStep(c, now);
    case Activity(now, isData) => QuietSteps(c, now, isData);
    case PromoteCommand(expected, now, saved) => PromoteStep(c, expected, now, saved);
    case RollbackTimer(now, wall, v) => if c.probation.Some? { AuthorizeStep(c, now, wall, v); }
    case RollbackCommand(expected, now, wall, v) => if c.probation.Some? { AuthorizeStep(c, now, wall, v); }
    case ReconnectCommand =>
    case Ended =>
  }

  /** Every operation of every run keeps the invariant. */
  lemma {:induction false} RunKeeps(c: Controller, es: seq<Event>)
    requires Inv(c)
    ensures Inv(Run(c, es)) && Run(c, es).cfg == c.cfg
  {
    hide Apply, Inv, Moves, Covered;
    if es != [] {
      RunKeeps(c, es[..|es| - 1]);
      ApplyStep(Run(c, es[..|es| - 1]), es[|es| - 1]);
    }
  }

  /** Start-up establishes the invariant whichever source supplied the first address. */
  lemma BootstrapKeeps(cfg: Config, b: Boot)
    requires b.cached.Some? ==> b.cached.value in cfg.safe
    ensures Bootstrap(cfg, b).Some? ==>
              Inv(Bootstrap(cfg, b).value) && Bootstrap(cfg, b).value.cfg == cfg && Bootstrap(cfg, b).value.probation.None?
  {
    hide Query, Ordered, CachedFreshUntil;
    var c0 := BeforeFirstQuery(cfg, b);
    QueryKeeps(c0, b.now, b.dns, b.rnd);
    var c := Query(c0, b.now, b.dns, b.rnd).0;
    var r := Bootstrap(cfg, b);
    if r.Some? {
      var d := r.value;
      assert c.dns.candidates != [] ==> c.dns.candidates[0] in c.dns.candidates;
      assert d == c.(current := d.current, dns := c.dns.(candidates := Ordered(c.dns.candidates, d.current, c.home.good)));
      OrderedKeeps(c.dns.candidates, d.current, c.home.good);
      assert d.current in cfg.safe;
    }
  }

  // ------------------------------------------------------------------ every blind return is paid for

  ghost function Paid(c: Controller, es: seq<Event>): seq<Record> {
    if es == [] then []
    else Paid(c, es[..|es| - 1]) + Grants(Apply(Run(c, es[..|es| - 1]), es[|es| - 1]).asked)
  }

  /** How many blind returns a run made. */
  ghost function BlindReturns(c: Controller, es: seq<Event>): nat {
    if es == [] then 0
    else
      var d := Run(c, es[..|es| - 1]);
      BlindReturns(c, es[..|es| - 1]) + Count(IsBlind(d, Apply(d, es[|es| - 1])))
  }

  /** In every run each blind return has its own granted charge, and the charge held by an unused
      authorisation is not spent twice. */
  lemma {:induction false} BlindReturnsArePaid(c: Controller, es: seq<Event>)
    requires Inv(c) && !HoldsUnused(c)
    ensures BlindReturns(c, es) + Count(HoldsUnused(Run(c, es))) <= |Paid(c, es)|
  {
    hide Apply, Inv, Moves, IsBlind, HoldsUnused, AskedIn;
    if es != [] {
      var n := |es| - 1;
      BlindReturnsArePaid(c, es[..n]);
      RunKeeps(c, es[..n]);
      ApplyStep(Run(c, es[..n]), es[n]);
    }
  }

  /** How many free returns a run made. */
  ghost function DirectReturns(c: Controller, es: seq<Event>): nat {
    if es == [] then 0
    else
      var d := Run(c, es[..|es| - 1]);
      DirectReturns(c, es[..|es| - 1]) + Count(IsDirect(d, Apply(d, es[|es| - 1])))
  }

  /** An operator command that interrupts committed-good while it is authenticated. */
  predicate Interrupts(c: Controller, e: Event) {
    e.ReconnectCommand? && c.authenticated && c.AtHome()
  }

  ghost function Interruptions(c: Controller, es: seq<Event>): nat {
    if es == [] then 0
    else Interruptions(c, es[..|es| - 1]) + Count(Interrupts(Run(c, es[..|es| - 1]), es[|es| - 1]))
  }

  lemma DirectStep(c: Controller, e: Event)
    requires Inv(c)
    ensures Count(IsDirect(c, Apply(c, e))) + Held(Apply(c, e).c) <= Held(c) + Count(Interrupts(c, e))
  {
    hide Usable, Same, OnCycle, Refreshed, Ordered, HealthDeadline, Canonical, Moves, Covered, Requests, Charge;
    if e.Cycle? {
      CycleSelected(c, e.reason, e.x);
    }
  }

  /** In every run each free return, and each attended authority still held, has its own operator
      command that interrupted the authenticated committed-good. */
  lemma {:induction false} DirectReturnsAreCommanded(c: Controller, es: seq<Event>)
    requires Inv(c) && !Direct(c)
    ensures DirectReturns(c, es) + Held(Run(c, es)) <= Interruptions(c, es)
  {
    hide Apply, Inv, IsDirect, Interrupts;
    if es != [] {
      var n := |es| - 1;
      DirectReturnsAreCommanded(c, es[..n]);
      RunKeeps(c, es[..n]);
      DirectStep(Run(c, es[..n]), es[n]);
    }
  }

  /** A switch out of the DNS answer goes only to committed-good, and never replaces it. */
  lemma BlindGoesHome(c: Controller, es: seq<Event>, e: Event)
    requires Inv(c)
    ensures var d, r := Run(c, es), Apply(Run(c, es), e);
            r.switch.Some? && r.switch.value !in r.c.dns.candidates ==> r.switch == d.home.good && r.c.home == d.home
  {
    hide OnCycle, Usable, Same, Refresh;
    RunKeeps(c, es);
    ApplyStep(Run(c, es), e);
    if e.Cycle? {
      CycleSelected(Run(c, es), e.reason, e.x);
    }
  }

  lemma KeyIsLoadable(d: Controller, k: Key)
    requires Inv(d) && !d.AtHome() && AsksFor(d, k)
    ensures Loadable(k, d.cfg.safe)
  {
    CanonicalShape(d.dns.candidates);
  }

  /** What an operation asks of the ledger: only a controller that may still probe asks, whatever the
      verdict the key passes the ledger's own load checks, only the last request can be granted or
      fail, and probing ends exactly when it fails. */
  ghost predicate AsksSafely(c: Controller, r: Outcome) {
    && (r.asked != [] ==> c.usable && c.cfg.stateFile && c.cfg.policy.enabled)
    && (forall i :: 0 <= i < |r.asked| ==> Loadable(r.asked[i].record.key, c.cfg.safe))
    && (forall i :: 0 <= i < |r.asked| - 1 ==> r.asked[i].verdict.Denied?)
    && r.c.usable == (c.usable && (r.asked == [] || !r.asked[|r.asked| - 1].verdict.Broken?))
  }

  lemma StepAsksSafely(c: Controller, r: Outcome)
    requires Step(c, r)
    ensures AsksSafely(c, r)
  {
    hide Inv, AsksFor, Loadable, Moves, Covered, Same;
    if r.asked != [] {
      var d :| AskedIn(c, d, r);
      forall i | 0 <= i < |r.asked| ensures Loadable(r.asked[i].record.key, c.cfg.safe) {
        KeyIsLoadable(d, r.asked[i].record.key);
      }
    }
  }

  /** Every request of every run, granted, refused or lost in an error, asks for a key that a later
      load accepts. */
  lemma RequestsAreLoadable(c: Controller, es: seq<Event>, e: Event)
    requires Inv(c)
    ensures AsksSafely(Run(c, es), Apply(Run(c, es), e)) && Run(c, es).cfg == c.cfg
  {
    hide Apply, Step, Inv, AsksSafely;
    RunKeeps(c, es);
    ApplyStep(Run(c, es), e);
    StepAsksSafely(Run(c, es), Apply(Run(c, es), e));
  }
}
