/**
 The controller as the client holds it: an object whose methods update its fields in place, with
 early returns, in the order the program does. Each method is proved to compute the operation of
 the same name in `Endpoint`, about which everything else is proved.
 */
module EndpointObject {
  import opened Machine
  import opened Relay
  import opened Candidates
  import opened Ledger
  import Endpoint

  type Verdict = Endpoint.Verdict
  type Reason = Endpoint.Reason

  class EndpointController {
    const cfg: Endpoint.Config
    var home: Endpoint.Home
    var dns: Endpoint.Lookup
    var round: Endpoint.Round
    var current: Ip
    var authenticated: bool
    var attended: bool
    var probation: Option<Endpoint.Probation>
    var usable: bool
    /** What the operation in progress has asked of the ledger. */
    var asked: seq<Endpoint.Ask>

    function Value(): Endpoint.Controller
      reads this
    {
      Endpoint.Controller(cfg, home, dns, round, current, authenticated, attended, probation, usable)
    }

    /** What an operation did, as a value. */
    function Done(switch: Option<Ip>, queried: bool, answer: bool): Endpoint.Outcome
      reads this
    {
      Endpoint.Outcome(Value(), switch, asked, queried, answer)
    }

    constructor (c: Endpoint.Controller)
      ensures Value() == c && asked == []
    {
      cfg, home, dns, round := c.cfg, c.home, c.dns, c.round;
      current, authenticated, attended := c.current, c.authenticated, c.attended;
      probation, usable, asked := c.probation, c.usable, [];
    }

    method StartPreferredRound(now: U64)
      modifies this`round
      ensures Value() == Endpoint.Begin(old(Value()), now)
    {
      if cfg.policy.enabled && round.deadline.None? {
        round := Endpoint.Round(round.failures, Some(SatAdd(now, cfg.policy.roundTimeoutMs)), 0);
      }
    }

    method ChargeFallback(wall: U64, target: Ip, v: Verdict) returns (granted: bool)
      modifies this`usable, this`asked
      ensures var (u, g, a) := Endpoint.Charge(old(Value()), wall, target, v);
              Value() == old(Value()).(usable := u) && granted == g && asked == old(asked) + a
    {
      if !usable || !cfg.stateFile {
        return false;
      }
      asked := asked + [Endpoint.Ask(Record(wall, Key(target, Canonical(dns.candidates))), v)];
      match v {
        case Granted =>
          return true;
        case Denied =>
          return false;
        case Broken =>
          usable := false;
          return false;
      }
    }

    method OrderCandidates()
      modifies this`dns
      ensures Value() == Endpoint.Reorder(old(Value()))
    {
      dns := dns.(candidates := Ordered(dns.candidates, current, home.good));
    }

    method SwitchTo(target: Ip) returns (switch: Option<Ip>)
      modifies this`current, this`authenticated, this`dns
      ensures Done(switch, false, false) == Endpoint.SwitchTo(old(Value()), target, asked)
    {
      if target == current {
        return None;
      }
      current := target;
      authenticated := false;
      OrderCandidates();
      return Some(target);
    }

    method Query(now: U64, answer: Endpoint.Dns, rnd: U32) returns (usableAnswer: bool)
      modifies this`dns, this`round
      ensures (Value(), usableAnswer) == Endpoint.Query(old(Value()), now, answer, rnd)
    {
      match answer {
        case Failed =>
          dns := dns.(backoff := Endpoint.OnFailure(dns.backoff, now, rnd));
          return false;
        case Answer(addrs, ttl) =>
          var safe := SafeOnly(addrs, cfg.safe);
          if safe == [] {
            dns := dns.(backoff := Endpoint.OnFailure(dns.backoff, now, rnd));
            return false;
          }
          var backoff := if dns.pending then Endpoint.OnPendingSuccess(dns.backoff, now) else Endpoint.OnSuccess(dns.backoff);
          dns := dns.(backoff := backoff, expiresAt := Some(SatAdd(now, ttl * 1000)));
          safe := Canonical(safe);
          if safe != Canonical(dns.candidates) {
            round := round.(failures := 0, attempts := 0);
          }
          dns := dns.(candidates := safe);
          OrderCandidates();
          return true;
      }
    }

    /** The first half shared by a failed attempt and a lost session. */
    method ReturnFromProbation(now: U64, wall: U64, v: Verdict) returns (back: bool)
      requires asked == []
      modifies this`usable, this`asked
      ensures var (u, b, a) := Endpoint.ProbationReturn(old(Value()), now, wall, v);
              Value() == old(Value()).(usable := u) && back == b && asked == a
    {
      if probation.Some? && probation.value.candidate == current
         && Endpoint.CommittedFresh(Value(), now) == Some(probation.value.rollback) {
        if probation.value.direct {
          return true;
        }
        back := ChargeFallback(wall, probation.value.rollback, v);
        return;
      }
      return false;
    }

    method SelectForced(now: U64, answered: bool) returns (switch: Option<Ip>)
      requires asked == []
      modifies this`round, this`attended, this`current, this`authenticated, this`dns
      ensures Done(switch, false, false) == Endpoint.SelectForced(old(Value()), now, answered)
    {
      hide Endpoint.HealthDeadline, Ordered;
      if Endpoint.RoundExpired(round, now) {
        round := round.(deadline := None);
        attended := false;
        return None;
      }
      if !answered || dns.candidates == [] {
        attended := false;
        return None;
      }
      var target := dns.candidates[0];
      if target != current {
        StartPreferredRound(now);
        if cfg.policy.enabled && home.good == Some(current) {
          var through := Endpoint.RequiredThrough(round, cfg.policy, now);
          var health := Endpoint.HealthDeadline(home, cfg.policy, now);
          if health.None? || health.value < through {
            attended := false;
            return None;
          }
        }
        switch := SwitchTo(target);
        return;
      }
      attended := false;
      return None;
    }

    method RetryCommitted(now: U64) returns (switch: Option<Ip>)
      modifies this`round, this`current, this`authenticated, this`dns
      ensures Done(switch, false, false) == Endpoint.After(asked, Endpoint.RetryCommitted(old(Value()), now))
    {
      hide Endpoint.NextCandidate, Ordered;
      if Endpoint.RoundExpired(round, now) {
        round := round.(deadline := None, attempts := 0);
        return None;
      }
      StartPreferredRound(now);
      var next := Endpoint.NextCandidate(dns.candidates, current);
      if next.Some? {
        switch := SwitchTo(next.value);
        return;
      }
      return None;
    }

    method CountFailure(now: U64)
      modifies this`round
      ensures Value() == Endpoint.CountFailure(old(Value()), now)
    {
      StartPreferredRound(now);
      round := round.(failures := SatInc(round.failures), attempts := SatInc(round.attempts));
    }

    /** The paid probe of committed-good that ends a failed round. */
    method ProbeFallback(now: U64, wall: U64, v: Verdict) returns (granted: bool)
      modifies this`usable, this`asked
      ensures var (u, g, a) := Endpoint.FallbackProbe(old(Value()), now, wall, v);
              Value() == old(Value()).(usable := u) && granted == g && asked == old(asked) + a
    {
      hide Endpoint.FallbackDue, Endpoint.CommittedFresh;
      if Endpoint.FallbackDue(round, cfg.policy, dns.candidates, now) {
        var good := Endpoint.CommittedFresh(Value(), now);
        if good.Some? {
          granted := ChargeFallback(wall, good.value, v);
          return;
        }
      }
      return false;
    }

    method RetryPreferred(now: U64, wall: U64, v: Verdict) returns (switch: Option<Ip>)
      modifies this`round, this`usable, this`asked, this`current, this`authenticated, this`dns
      ensures Done(switch, false, false) == Endpoint.After(old(asked), Endpoint.RetryPreferred(old(Value()), now, wall, v))
    {
      hide Endpoint.NextCandidate, Endpoint.CommittedFresh, Endpoint.FallbackProbe, Endpoint.CountFailure, Ordered;
      CountFailure(now);
      var good := Endpoint.CommittedFresh(Value(), now);
      var granted := ProbeFallback(now, wall, v);
      if granted {
        round := round.(deadline := None);
        switch := SwitchTo(good.value);
        return;
      }
      if Endpoint.RoundExpired(round, now) {
        round := round.(deadline := None, attempts := 0);
        return None;
      }
      var next := Endpoint.NextCandidate(dns.candidates, current);
      if next.Some? {
        switch := SwitchTo(next.value);
        return;
      }
      return None;
    }

    method SelectAttemptFailed(now: U64, wall: U64, v1: Verdict, v2: Verdict) returns (switch: Option<Ip>)
      requires asked == []
      modifies this
      ensures Done(switch, false, false) == Endpoint.SelectAttemptFailed(old(Value()), now, wall, v1, v2)
    {
      hide Endpoint.ProbationReturn, Endpoint.RetryCommitted, Endpoint.RetryPreferred, Ordered;
      var back := ReturnFromProbation(now, wall, v1);
      if back {
        var rollback := probation.value.rollback;
        probation := None;
        switch := SwitchTo(rollback);
        return;
      }
      if attended && home.good.Some? && home.good.value != current {
        attended := false;
        switch := SwitchTo(home.good.value);
        return;
      }
      if home.good == Some(current) {
        switch := RetryCommitted(now);
        return;
      }
      switch := RetryPreferred(now, wall, v2);
    }

    method SelectSessionLost(now: U64, wall: U64, v1: Verdict) returns (switch: Option<Ip>)
      requires asked == []
      modifies this
      ensures Done(switch, false, false) == Endpoint.SelectSessionLost(old(Value()), now, wall, v1)
    {
      hide Endpoint.ProbationReturn, Ordered, Canonical;
      var back := ReturnFromProbation(now, wall, v1);
      if back {
        var rollback := probation.value.rollback;
        probation := None;
        switch := SwitchTo(rollback);
        return;
      }
      if home.good == Some(current) && current !in dns.candidates {
        StartPreferredRound(now);
        var canonical := Canonical(dns.candidates);
        if canonical != [] {
          switch := SwitchTo(canonical[0]);
          return;
        }
      }
      return None;
    }

    method Select(now: U64, wall: U64, reason: Reason, answered: bool, v1: Verdict, v2: Verdict) returns (switch: Option<Ip>)
      requires asked == []
      modifies this
      ensures Done(switch, false, false) == Endpoint.Select(old(Value()), now, wall, reason, answered, v1, v2)
    {
      hide Endpoint.SelectForced, Endpoint.SelectAttemptFailed, Endpoint.SelectSessionLost, Ordered;
      match reason {
        case ProbationExpired | OperatorRollback =>
          if probation.None? || !probation.value.authorized {
            return None;
          }
          var rollback := probation.value.rollback;
          probation := None;
          attended := false;
          switch := SwitchTo(rollback);
        case Forced =>
          switch := SelectForced(now, answered);
        case AttemptFailed =>
          switch := SelectAttemptFailed(now, wall, v1, v2);
        case SessionLost =>
          switch := SelectSessionLost(now, wall, v1);
        case Startup =>
          return None;
      }
    }

    /** The refresh half of a cycle. */
    method Refresh(reason: Reason, x: Endpoint.Inputs) returns (answered: bool, queried: bool)
      modifies this`dns, this`round
      ensures (Value(), answered) == Endpoint.Refresh(old(Value()), x, reason)
      ensures queried == Endpoint.Asks(old(dns), x.now)
    {
      hide Endpoint.Query, Endpoint.Begin;
      answered, queried := false, false;
      if Endpoint.Due(dns, x.now) {
        if Endpoint.OpensRound(reason) {
          StartPreferredRound(x.now);
        }
        if x.now >= dns.backoff.notBefore {
          dns := dns.(force := false);
          queried := true;
          answered := Query(x.now, x.dns, x.rnd);
        }
      }
    }

    /** Refresh when due, then decide with the clocks read after the resolver. */
    method OnCycle(reason: Reason, x: Endpoint.Inputs) returns (switch: Option<Ip>, queried: bool)
      modifies this
      ensures Done(switch, queried, false) == Endpoint.OnCycle(old(Value()), reason, x)
    {
      hide Endpoint.Refresh, Endpoint.Select, Endpoint.Due, Endpoint.Asks;
      asked := [];
      if reason.SessionLost? {
        dns := dns.(pending := true);
      }
      var (now, wall) := if Endpoint.Due(dns, x.now) then (x.afterNow, x.afterWall) else (x.now, x.wall);
      var answered;
      answered, queried := Refresh(reason, x);
      switch := Select(now, wall, reason, answered, x.v1, x.v2);
    }

    method OnAuthenticated(now: U64)
      modifies this
      ensures Value() == Endpoint.OnAuthenticated(old(Value()), now)
    {
      hide Ordered, Endpoint.HealthDeadline;
      authenticated := true;
      dns := dns.(pending := false, backoff := Endpoint.OnSuccess(dns.backoff));
      round := Endpoint.Round(0, None, 0);
      var previous := home.good;
      if !cfg.policy.enabled || previous.None? || previous == Some(current) {
        home := Endpoint.Home(Some(current), None, Some(now));
        probation := None;
        attended := false;
        OrderCandidates();
        return;
      }
      probation := Some(Endpoint.Probation(current, previous.value, now, attended,
                                           Endpoint.RollbackInstant(home, cfg.policy, now), false, None, None, 0));
      attended := false;
      OrderCandidates();
    }

    method OnAuthenticatedActivity(now: U64, isData: bool)
      modifies this`home, this`probation
      ensures Value() == Endpoint.OnActivity(old(Value()), now, isData)
    {
      if authenticated && home.good == Some(current) {
        home := home.(activity := Some(now));
      }
      if !isData || probation.None? || probation.value.candidate != current {
        return;
      }
      var p := probation.value;
      if p.lastData.Some? && SatSub(now, p.lastData.value) > Endpoint.MaxGap(cfg.policy) {
        p := p.(firstData := None, packets := 0);
      }
      if p.firstData.None? {
        p := p.(firstData := Some(now));
      }
      probation := Some(p.(lastData := Some(now), packets := SatInc(p.packets)));
    }

    method PromoteCandidate(expected: Ip, now: U64, saved: bool) returns (r: Endpoint.Promotion)
      modifies this
      ensures r == Endpoint.PromotionVerdict(old(Value()), expected, now, saved)
      ensures Value() == Endpoint.Promote(old(Value()), expected, now, saved)
    {
      hide Ordered, Endpoint.HealthDeadline;
      if probation.None? {
        return Endpoint.NotProbationary;
      }
      var p := probation.value;
      if p.candidate != expected {
        return Endpoint.WrongCandidate;
      }
      if current != expected || !authenticated {
        return Endpoint.NotActive;
      }
      if p.rollbackAt.Some? {
        if now >= p.rollbackAt.value || Endpoint.CommittedFresh(Value(), now) != Some(p.rollback) {
          return Endpoint.RollbackPassed;
        }
      }
      var span := 0;
      if p.firstData.Some? && p.lastData.Some? {
        span := SatSub(p.lastData.value, p.firstData.value);
      }
      if p.packets < MIN_PROMOTION_DATA_PACKETS || span < cfg.policy.probationMs {
        return Endpoint.InsufficientEvidence;
      }
      if p.lastData.None? || SatSub(now, p.lastData.value) > Endpoint.MaxGap(cfg.policy) {
        return Endpoint.StaleEvidence;
      }
      if !saved {
        return Endpoint.PersistenceFailed;
      }
      r := Endpoint.Promoted(p.rollback);
      home := Endpoint.Home(Some(expected), None, Some(now));
      probation := None;
      attended := false;
      OrderCandidates();
    }

    method ProbationRollbackDue(now: U64, wall: U64, v: Verdict) returns (due: bool)
      modifies this
      ensures Done(None, false, due) == Endpoint.ProbationRollbackDue(old(Value()), now, wall, v)
    {
      asked := [];
      if probation.None? || probation.value.candidate != current
         || probation.value.rollbackAt.None? || now < probation.value.rollbackAt.value {
        return false;
      }
      due := Authorize(now, wall, v);
    }

    method AuthorizeOperatorRollback(expected: Ip, now: U64, wall: U64, v: Verdict) returns (ok: bool)
      modifies this
      ensures Done(None, false, ok) == Endpoint.AuthorizeOperatorRollback(old(Value()), expected, now, wall, v)
    {
      asked := [];
      if probation.None? || current != expected || probation.value.candidate != expected {
        return false;
      }
      ok := Authorize(now, wall, v);
    }

    method Authorize(now: U64, wall: U64, v: Verdict) returns (ok: bool)
      requires probation.Some? && asked == []
      modifies this`usable, this`asked, this`probation
      ensures Done(None, false, ok) == Endpoint.Authorize(old(Value()), now, wall, v)
    {
      hide Endpoint.HealthDeadline, Canonical;
      var p := probation.value;
      if Endpoint.CommittedFresh(Value(), now) != Some(p.rollback) {
        return false;
      }
      if p.authorized {
        return true;
      }
      if !p.direct {
        var granted := ChargeFallback(wall, p.rollback, v);
        if !granted {
          return false;
        }
      }
      probation := Some(p.(authorized := true));
      return true;
    }

    method RequestRefresh()
      modifies this`attended, this`dns
      ensures Value() == Endpoint.RequestRefresh(old(Value()))
    {
      attended := authenticated && home.good == Some(current);
      dns := dns.(force := true, backoff := Endpoint.OnSuccess(dns.backoff));
    }

    method OnSessionEnded()
      modifies this`authenticated
      ensures Value() == Endpoint.SessionEnded(old(Value()))
    {
      authenticated := false;
    }
  }
}
