/**
 The relay endpoint controller: which address is in use, when to re-resolve, when to switch,
 when a new address becomes committed-good and when the old one may be tried again.
 */
module Endpoint {
  import opened Machine
  import opened Relay
  import opened Candidates
  import opened Ledger

  // ------------------------------------------------------------------ query backoff

  datatype Backoff = Backoff(failures: U32, notBefore: U64, minMs: U64, maxMs: U64)

  function NewBackoff(minMs: U64, maxMs: U64): Backoff {
    Backoff(0, 0, Max(minMs, 1), Max(maxMs, Max(minMs, 1)))
  }

  function Pow2(n: nat): nat {
    if n == 0 then 1 else 2 * Pow2(n - 1)
  }

  function Clamp(x: int, lo: int, hi: int): int {
    Max(lo, Min(x, hi))
  }

  /** The delay after a failed query; `rnd` is the random word behind the ±25 % jitter. */
  function FailureDelay(b: Backoff, rnd: U32): (d: nat)
    ensures d >= Min(b.minMs, b.maxMs)
  {
    var scaled := Min(b.minMs * Pow2(Min(b.failures, 20)), U64_MAX);
    var base := Min(scaled, b.maxMs);
    var jitter := if base / 2 == 0 then 0 else rnd % (base / 2 + 1);
    Clamp(base - base / 4 + jitter, Min(b.minMs, b.maxMs), SatAdd(b.maxMs, b.maxMs / 4))
  }

  function OnFailure(b: Backoff, now: U64, rnd: U32): Backoff {
    b.(failures := SatInc(b.failures), notBefore := SatAdd(now, FailureDelay(b, rnd)))
  }

  function OnSuccess(b: Backoff): Backoff {
    b.(failures := 0, notBefore := 0)
  }

  function OnPendingSuccess(b: Backoff, now: U64): Backoff {
    b.(failures := 0, notBefore := SatAdd(now, b.minMs))
  }

  // ------------------------------------------------------------------ controller state

  datatype Probation = Probation(
    candidate: Ip,
    rollback: Ip,
    authenticatedAt: U64,
    direct: bool,
    rollbackAt: Option<U64>,
    authorized: bool,
    firstData: Option<U64>,
    lastData: Option<U64>,
    packets: U32)

  datatype Config = Config(policy: Policy, safe: set<Ip>, stateFile: bool)

  /** Committed-good and the two independent proofs that it is fresh. */
  datatype Home = Home(good: Option<Ip>, cacheUntil: Option<U64>, activity: Option<U64>)

  /** The last usable answer and when the resolver may be asked again. */
  datatype Lookup = Lookup(candidates: seq<Ip>, expiresAt: Option<U64>, backoff: Backoff, force: bool, pending: bool)

  /** The bounded round of DNS-preferred attempts. */
  datatype Round = Round(failures: U32, deadline: Option<U64>, attempts: U32)

  /** A controller for a hostname endpoint. */
  datatype Controller = Controller(
    cfg: Config,
    home: Home,
    dns: Lookup,
    round: Round,
    current: Ip,
    authenticated: bool,
    attended: bool,
    probation: Option<Probation>,
    usable: bool)
  {
    /** The current address is committed-good. */
    predicate AtHome() {
      home.good == Some(current)
    }
  }

  datatype Reason = Startup | AttemptFailed | SessionLost | Forced | ProbationExpired | OperatorRollback

  /** What the resolver returned. Every usable TTL has been raised to at least ten seconds. */
  datatype Dns = Failed | Answer(addrs: seq<Ip>, ttl: Ttl)
  type Ttl = x: nat | 10 <= x <= 3600 witness 10

  /** What the locked durable pre-charge answered. */
  datatype Verdict = Granted | Denied | Broken

  /** One entry into the locked section: the charge asked for and what came of it. */
  datatype Ask = Ask(record: Record, verdict: Verdict)

  /** The charges that were granted. */
  function Grants(asked: seq<Ask>): seq<Record> {
    if asked == [] then []
    else (if asked[0].verdict.Granted? then [asked[0].record] else []) + Grants(asked[1..])
  }

  /** The controller after an operation, the address it switched to, what it asked of the ledger on
      the way, whether it asked the resolver, and the Boolean the operation returned. */
  datatype Outcome = Outcome(c: Controller, switch: Option<Ip>, asked: seq<Ask>, queried: bool, answer: bool)

  function Stay(c: Controller, asked: seq<Ask>): Outcome {
    Outcome(c, None, asked, false, false)
  }

  /** An outcome reached after the ledger had already been asked. */
  function After(asked: seq<Ask>, r: Outcome): Outcome {
    r.(asked := asked + r.asked)
  }

  // ------------------------------------------------------------------ freshness of committed-good

  function NotExpired(t: Option<U64>, now: U64): Option<U64> {
    if t.Some? && now <= t.value then t else None
  }

  function MaxOption(a: Option<U64>, b: Option<U64>): Option<U64> {
    if a.None? then b else if b.None? then a else Some(Max(a.value, b.value))
  }

  /** `committed_health_deadline`: how long committed-good remains a rollback target. */
  function HealthDeadline(h: Home, p: Policy, now: U64): Option<U64> {
    if !p.enabled || h.good.None? then None
    else
      var runtime := if h.activity.Some? then Some(SatAdd(h.activity.value, p.rollbackWindowMs)) else None;
      MaxOption(NotExpired(runtime, now), NotExpired(h.cacheUntil, now))
  }

  /** `committed_fresh`: committed-good, when it is fresh and not the address in use. */
  function CommittedFresh(c: Controller, now: U64): (r: Option<Ip>)
    ensures r.Some? ==> c.cfg.policy.enabled && r == c.home.good && r.value != c.current
  {
    if HealthDeadline(c.home, c.cfg.policy, now).Some? && !c.AtHome() then c.home.good else None
  }

  function CachedFreshUntil(p: Policy, saved: Option<U64>, now: U64, wall: U64): Option<U64> {
    if saved.None? || !p.enabled || saved.value > SatAdd(wall, CLOCK_SKEW_SECS) then None
    else
      var age := Min(SatSub(wall, saved.value) * 1000, U64_MAX);
      if age < p.maxAgeMs then Some(SatAdd(now, p.maxAgeMs - age)) else None
  }

  // ------------------------------------------------------------------ preferred rounds

  function StartRound(r: Round, p: Policy, now: U64): Round {
    if p.enabled && r.deadline.None?
    then Round(r.failures, Some(SatAdd(now, p.roundTimeoutMs)), 0) else r
  }

  predicate RoundExpired(r: Round, now: U64) {
    r.deadline.Some? && now >= r.deadline.value
  }

  function Begin(c: Controller, now: U64): Controller {
    c.(round := StartRound(c.round, c.cfg.policy, now))
  }

  function IndexOf(s: seq<Ip>, x: Ip): (r: Option<nat>)
    ensures r.Some? ==> r.value < |s| && s[r.value] == x
    ensures r.None? ==> x !in s
  {
    if s == [] then None
    else if s[0] == x then Some(0)
    else match IndexOf(s[1..], x) case None => None case Some(i) => Some(i + 1)
  }

  /** `next_dns_candidate`, dropped when it is the current address. */
  function NextCandidate(candidates: seq<Ip>, cur: Ip): (r: Option<Ip>)
    ensures r.Some? ==> r.value in Canonical(candidates) && r.value != cur
  {
    var s := Canonical(candidates);
    if s == [] then None
    else
      var i := match IndexOf(s, cur) case None => 0 case Some(i) => (i + 1) % |s|;
      if s[i] != cur then Some(s[i]) else None
  }

  // ------------------------------------------------------------------ charging, querying, switching

  /** `charge_fallback`: ask the durable ledger for one probe of `target`. The result is whether
      probes remain possible, whether this one was granted, and what was asked. */
  function Charge(c: Controller, wall: U64, target: Ip, v: Verdict): (r: (bool, bool, seq<Ask>))
    ensures |Grants(r.2)| == if r.1 then 1 else 0
  {
    if !c.usable || !c.cfg.stateFile then (c.usable, false, [])
    else (!v.Broken?, v.Granted?, [Ask(Record(wall, Key(target, Canonical(c.dns.candidates))), v)])
  }

  /** The lookup after one resolver round trip, and whether a usable answer arrived. */
  function Answered(l: Lookup, safe: set<Ip>, cur: Ip, good: Option<Ip>, now: U64, dns: Dns, rnd: U32): (Lookup, bool) {
    if dns.Failed? || SafeOnly(dns.addrs, safe) == [] then
      (l.(backoff := OnFailure(l.backoff, now, rnd)), false)
    else
      (l.(backoff := if l.pending then OnPendingSuccess(l.backoff, now) else OnSuccess(l.backoff),
          expiresAt := Some(SatAdd(now, dns.ttl * 1000)),
          candidates := Ordered(Canonical(SafeOnly(dns.addrs, safe)), cur, good)), true)
  }

  function Query(c: Controller, now: U64, dns: Dns, rnd: U32): (Controller, bool) {
    var (l, answered) := Answered(c.dns, c.cfg.safe, c.current, c.home.good, now, dns, rnd);
    var changed := answered && dns.Answer? && Canonical(SafeOnly(dns.addrs, c.cfg.safe)) != Canonical(c.dns.candidates);
    (c.(dns := l, round := if changed then c.round.(failures := 0, attempts := 0) else c.round), answered)
  }

  function Reorder(c: Controller): Controller {
    c.(dns := c.dns.(candidates := Ordered(c.dns.candidates, c.current, c.home.good)))
  }

  function SwitchTo(c: Controller, target: Ip, asked: seq<Ask>): Outcome {
    if target == c.current then Stay(c, asked)
    else Outcome(Reorder(c.(current := target, authenticated := false)), Some(target), asked, false, false)
  }

  // ------------------------------------------------------------------ selection at a reconnect boundary

  function SelectRollback(c: Controller): Outcome {
    if c.probation.None? || !c.probation.value.authorized then Stay(c, [])
    else SwitchTo(c.(probation := None, attended := false), c.probation.value.rollback, [])
  }

  /** How long committed-good must stay eligible before an attended cutover may leave it. */
  function RequiredThrough(r: Round, p: Policy, now: U64): U64 {
    var deadline := if r.deadline.Some? then r.deadline.value else now;
    SatAdd(SatAdd(SatAdd(deadline, CLIENT_HANDSHAKE_TIMEOUT_MS), p.probationMs), 2 * TIMER_INTERVAL_MS)
  }

  /** An attended cutover would leave committed-good without a way back. */
  predicate NoWayBack(c: Controller, now: U64) {
    && c.cfg.policy.enabled && c.AtHome()
    && var health := HealthDeadline(c.home, c.cfg.policy, now);
       health.None? || health.value < RequiredThrough(c.round, c.cfg.policy, now)
  }

  function SelectForced(c: Controller, now: U64, answered: bool): Outcome {
    if RoundExpired(c.round, now) then Stay(c.(round := c.round.(deadline := None), attended := false), [])
    else if !answered || c.dns.candidates == [] || c.dns.candidates[0] == c.current then Stay(c.(attended := false), [])
    else if NoWayBack(Begin(c, now), now) then Stay(Begin(c, now).(attended := false), [])
    else SwitchTo(Begin(c, now), c.dns.candidates[0], [])
  }

  /** The return from a failed probationary candidate, shared by two reasons: whether probes
      remain possible, whether it is allowed, and what was asked. */
  function ProbationReturn(c: Controller, now: U64, wall: U64, v: Verdict): (r: (bool, bool, seq<Ask>))
    ensures r.1 ==> c.probation.Some? && CommittedFresh(c, now) == Some(c.probation.value.rollback)
  {
    if c.probation.Some? && c.probation.value.candidate == c.current
       && CommittedFresh(c, now) == Some(c.probation.value.rollback)
    then
      if c.probation.value.direct then (c.usable, true, []) else Charge(c, wall, c.probation.value.rollback, v)
    else (c.usable, false, [])
  }

  /** A failed attempt on committed-good itself: move on inside the round. */
  function RetryCommitted(c: Controller, now: U64): Outcome {
    if RoundExpired(c.round, now) then Stay(c.(round := c.round.(deadline := None, attempts := 0)), [])
    else match NextCandidate(c.dns.candidates, c.current)
      case None => Stay(Begin(c, now), [])
      case Some(next) => SwitchTo(Begin(c, now), next, [])
  }

  /** Count one failed DNS-preferred attempt. */
  function CountFailure(c: Controller, now: U64): Controller {
    var r := StartRound(c.round, c.cfg.policy, now);
    c.(round := r.(failures := SatInc(r.failures), attempts := SatInc(r.attempts)))
  }

  predicate FallbackDue(r: Round, p: Policy, candidates: seq<Ip>, now: U64) {
    RoundExpired(r, now) || (r.failures >= p.afterFailures && r.attempts >= Max(1, |Canonical(candidates)|))
  }

  /** The paid probe of committed-good that ends a failed round, if one is due and granted. */
  function FallbackProbe(c: Controller, now: U64, wall: U64, v: Verdict): (r: (bool, bool, seq<Ask>))
    ensures r.1 ==> CommittedFresh(c, now).Some?
    ensures |Grants(r.2)| == if r.1 then 1 else 0
  {
    if FallbackDue(c.round, c.cfg.policy, c.dns.candidates, now) && CommittedFresh(c, now).Some?
    then Charge(c, wall, CommittedFresh(c, now).value, v) else (c.usable, false, [])
  }

  /** A failed attempt on a DNS candidate: a paid probe of committed-good, or the next candidate. */
  function RetryPreferred(c: Controller, now: U64, wall: U64, v: Verdict): Outcome {
    var c1 := CountFailure(c, now);
    var (usable, granted, asked) := FallbackProbe(c1, now, wall, v);
    var c2 := c1.(usable := usable);
    if granted then SwitchTo(c2.(round := c2.round.(deadline := None)), CommittedFresh(c1, now).value, asked)
    else if RoundExpired(c2.round, now) then Stay(c2.(round := c2.round.(deadline := None, attempts := 0)), asked)
    else match NextCandidate(c2.dns.candidates, c2.current)
      case None => Stay(c2, asked)
      case Some(next) => SwitchTo(c2, next, asked)
  }

  function SelectAttemptFailed(c: Controller, now: U64, wall: U64, v1: Verdict, v2: Verdict): Outcome {
    var (usable, back, asked) := ProbationReturn(c, now, wall, v1);
    var c1 := c.(usable := usable);
    if back then SwitchTo(c1.(probation := None), c.probation.value.rollback, asked)
    else After(asked,
      if c1.attended && c1.home.good.Some? && !c1.AtHome()
      then SwitchTo(c1.(attended := false), c1.home.good.value, [])
      else if c1.AtHome() then RetryCommitted(c1, now)
      else RetryPreferred(c1, now, wall, v2))
  }

  function SelectSessionLost(c: Controller, now: U64, wall: U64, v1: Verdict): Outcome {
    var (usable, back, asked) := ProbationReturn(c, now, wall, v1);
    var c1 := c.(usable := usable);
    if back then SwitchTo(c1.(probation := None), c.probation.value.rollback, asked)
    else if c1.AtHome() && c1.current !in c1.dns.candidates then
      var s := Canonical(c1.dns.candidates);
      if s == [] then Stay(Begin(c1, now), asked) else SwitchTo(Begin(c1, now), s[0], asked)
    else Stay(c1, asked)
  }

  function Select(c: Controller, now: U64, wall: U64, reason: Reason, answered: bool, v1: Verdict, v2: Verdict): Outcome {
    match reason
    case ProbationExpired | OperatorRollback => SelectRollback(c)
    case Forced => SelectForced(c, now, answered)
    case AttemptFailed => SelectAttemptFailed(c, now, wall, v1, v2)
    case SessionLost => SelectSessionLost(c, now, wall, v1)
    case Startup => Stay(c, [])
  }

  // ------------------------------------------------------------------ operations

  /** Everything one reconnect cycle reads from outside: clocks before and after the resolver,
      its answer, the jitter word, and the ledger's verdicts. */
  datatype Inputs = Inputs(now: U64, wall: U64, afterNow: U64, afterWall: U64, dns: Dns, rnd: U32, v1: Verdict, v2: Verdict)

  predicate Due(l: Lookup, now: U64) {
    l.force || l.pending || l.candidates == [] || l.expiresAt.None? || now >= l.expiresAt.value
  }

  predicate Asks(l: Lookup, now: U64) {
    Due(l, now) && now >= l.backoff.notBefore
  }

  function MarkLost(c: Controller, reason: Reason): Controller {
    if reason.SessionLost? then c.(dns := c.dns.(pending := true)) else c
  }

  predicate OpensRound(reason: Reason) {
    reason.Forced? || reason.SessionLost? || reason.AttemptFailed?
  }

  /** The refresh half of a cycle: the controller when selection starts, and whether a usable
      answer arrived. */
  function Refresh(c: Controller, x: Inputs, reason: Reason): (Controller, bool) {
    if !Due(c.dns, x.now) then (c, false)
    else
      var c1 := if OpensRound(reason) then Begin(c, x.now) else c;
      if Asks(c.dns, x.now) then Query(c1.(dns := c1.dns.(force := false)), x.now, x.dns, x.rnd) else (c1, false)
  }

  function OnCycle(c: Controller, reason: Reason, x: Inputs): Outcome {
    var c0 := MarkLost(c, reason);
    var (c1, answered) := Refresh(c0, x, reason);
    var (now, wall) := if Due(c0.dns, x.now) then (x.afterNow, x.afterWall) else (x.now, x.wall);
    Select(c1, now, wall, reason, answered, x.v1, x.v2).(queried := Asks(c0.dns, x.now))
  }

  /** When a probation that starts now must roll back, if committed-good stays fresh long enough. */
  function RollbackInstant(h: Home, p: Policy, now: U64): Option<U64> {
    var health := HealthDeadline(h, p, now);
    var horizon := SatAdd(SatAdd(now, p.probationMs), 2 * TIMER_INTERVAL_MS);
    if health.None? then None
    else
      var until := Min(health.value, SatAdd(now, p.rollbackWindowMs));
      if until >= horizon then Some(SatSub(until, 2 * TIMER_INTERVAL_MS)) else None
  }

  /** Authentication commits the address outright, or puts it on probation. */
  predicate Commits(c: Controller) {
    !c.cfg.policy.enabled || c.home.good.None? || c.AtHome()
  }

  function OnAuthenticated(c: Controller, now: U64): Controller {
    var c1 := c.(authenticated := true, attended := false, round := Round(0, None, 0),
                 dns := c.dns.(pending := false, backoff := OnSuccess(c.dns.backoff)));
    Reorder(
      if Commits(c)
      then c1.(home := Home(Some(c.current), None, Some(now)), probation := None)
      else c1.(probation := Some(Probation(c.current, c.home.good.value, now, c.attended,
                                           RollbackInstant(c.home, c.cfg.policy, now), false, None, None, 0))))
  }

  function MaxGap(p: Policy): (g: nat)
    ensures 1 <= g <= 5_000
  {
    Clamp(p.probationMs, 1, 5_000)
  }

  /** One accepted DATA packet of the probationary session. */
  function NoteData(p: Probation, now: U64, gap: nat): Probation {
    var restart := p.lastData.Some? && SatSub(now, p.lastData.value) > gap;
    var first := if restart then None else p.firstData;
    var packets := if restart then 0 else p.packets;
    p.(firstData := if first.Some? then first else Some(now), lastData := Some(now), packets := SatInc(packets))
  }

  function OnActivity(c: Controller, now: U64, isData: bool): Controller {
    c.(home := if c.authenticated && c.AtHome() then c.home.(activity := Some(now)) else c.home,
       probation := if isData && c.probation.Some? && c.probation.value.candidate == c.current
                    then Some(NoteData(c.probation.value, now, MaxGap(c.cfg.policy))) else c.probation)
  }

  datatype Promotion = Promoted(previous: Ip) | NotProbationary | WrongCandidate | NotActive
                     | RollbackPassed | StaleEvidence | InsufficientEvidence | PersistenceFailed

  function Span(p: Probation): nat {
    if p.lastData.Some? && p.firstData.Some? then SatSub(p.lastData.value, p.firstData.value) else 0
  }

  function PromotionVerdict(c: Controller, expected: Ip, now: U64, saved: bool): Promotion {
    if c.probation.None? then NotProbationary
    else
      var p := c.probation.value;
      if p.candidate != expected then WrongCandidate
      else if c.current != expected || !c.authenticated then NotActive
      else if p.rollbackAt.Some? && (now >= p.rollbackAt.value || CommittedFresh(c, now) != Some(p.rollback)) then RollbackPassed
      else if p.packets < MIN_PROMOTION_DATA_PACKETS || Span(p) < c.cfg.policy.probationMs then InsufficientEvidence
      else if p.lastData.None? || SatSub(now, p.lastData.value) > MaxGap(c.cfg.policy) then StaleEvidence
      else if !saved then PersistenceFailed
      else Promoted(p.rollback)
  }

  function Promote(c: Controller, expected: Ip, now: U64, saved: bool): Controller {
    if PromotionVerdict(c, expected, now, saved).Promoted?
    then Reorder(c.(home := Home(Some(expected), None, Some(now)), probation := None, attended := false))
    else c
  }

  /** Authorise the rollback of the active probation, charging it unless it is a direct return. */
  function Authorize(c: Controller, now: U64, wall: U64, v: Verdict): Outcome
    requires c.probation.Some?
  {
    var p := c.probation.value;
    if CommittedFresh(c, now) != Some(p.rollback) then Stay(c, [])
    else if p.authorized then Stay(c, []).(answer := true)
    else
      var (usable, granted, asked) := if p.direct then (c.usable, true, []) else Charge(c, wall, p.rollback, v);
      if granted then Stay(c.(usable := usable, probation := Some(p.(authorized := true))), asked).(answer := true)
      else Stay(c.(usable := usable), asked)
  }

  function ProbationRollbackDue(c: Controller, now: U64, wall: U64, v: Verdict): Outcome {
    if c.probation.Some? && c.probation.value.candidate == c.current
       && c.probation.value.rollbackAt.Some? && now >= c.probation.value.rollbackAt.value
    then Authorize(c, now, wall, v) else Stay(c, [])
  }

  function AuthorizeOperatorRollback(c: Controller, expected: Ip, now: U64, wall: U64, v: Verdict): Outcome {
    if c.probation.Some? && c.current == expected && c.probation.value.candidate == expected
    then Authorize(c, now, wall, v) else Stay(c, [])
  }

  function RequestRefresh(c: Controller): Controller {
    c.(attended := c.authenticated && c.AtHome(), dns := c.dns.(force := true, backoff := OnSuccess(c.dns.backoff)))
  }

  function SessionEnded(c: Controller): Controller {
    c.(authenticated := false)
  }

  /** What start-up reads: the cached address with its saved time, the configured literal, whether
      the ledger loaded, the clocks and the first answer. */
  datatype Boot = Boot(minMs: U64, maxMs: U64, cached: Option<Ip>, saved: Option<U64>, literal: Option<Ip>,
                       loaded: bool, now: U64, wall: U64, dns: Dns, rnd: U32)

  function BeforeFirstQuery(cfg: Config, b: Boot): Controller {
    var until := if b.cached.Some? then CachedFreshUntil(cfg.policy, b.saved, b.now, b.wall) else None;
    Controller(cfg, Home(b.cached, until, None), Lookup([], None, NewBackoff(b.minMs, b.maxMs), false, false),
               StartRound(Round(0, None, 0), cfg.policy, b.now), 0, false, false, None,
               !cfg.policy.enabled || !cfg.stateFile || b.loaded)
  }

  /** `bootstrap`: DNS first, then the cached address, then the configured literal. */
  function Bootstrap(cfg: Config, b: Boot): (r: Option<Controller>) {
    var (c, answered) := Query(BeforeFirstQuery(cfg, b), b.now, b.dns, b.rnd);
    var ds := c.dns.candidates;
    if b.literal.Some? && b.literal.value !in cfg.safe then None
    else if answered && ds != [] then
      Some(Reorder(c.(current := if b.cached.Some? && b.cached.value in ds then b.cached.value else ds[0])))
    else if b.cached.Some? then Some(Reorder(c.(current := b.cached.value)))
    else if b.literal.Some? then Some(Reorder(c.(current := b.literal.value)))
    else None
  }
}
