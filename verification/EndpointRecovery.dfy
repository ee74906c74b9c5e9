/** What failed attempts lead to while the resolver is silent: every candidate, or committed-good in time. */
module EndpointRecovery {
  import opened Machine
  import opened Arith
  import opened Relay
  import opened Candidates
  import opened Endpoint
  import opened EndpointRuns

  /** The controller after attempts that all failed. */
  ghost function Failures(c: Controller, xs: seq<Inputs>): Controller {
    if xs == [] then c else OnCycle(Failures(c, xs[..|xs| - 1]), AttemptFailed, xs[|xs| - 1]).c
  }

  /** The resolver answers none of the queries. */
  ghost predicate Outage(xs: seq<Inputs>) {
    forall i :: 0 <= i < |xs| ==> xs[i].dns.Failed?
  }

  /** The instant at which a cycle selects. */
  function Instant(c: Controller, x: Inputs): U64 {
    if Due(c.dns, x.now) then x.afterNow else x.now
  }

  function WallInstant(c: Controller, x: Inputs): U64 {
    if Due(c.dns, x.now) then x.afterWall else x.wall
  }

  /** A refresh during an outage changes no candidate and at most opens a round. */
  lemma RefreshSilent(c: Controller, x: Inputs)
    requires x.dns.Failed?
    ensures var (d, answered) := Refresh(c, x, AttemptFailed);
            && d == c.(dns := d.dns, round := d.round) && d.dns.candidates == c.dns.candidates
            && (d.round == c.round || d.round == StartRound(c.round, c.cfg.policy, x.now))
  {
    hide OnFailure, Canonical;
  }

  lemma CycleIs(c: Controller, x: Inputs)
    ensures var d := Refresh(c, x, AttemptFailed).0;
            var r := SelectAttemptFailed(d, Instant(c, x), WallInstant(c, x), x.v1, x.v2);
            var o := OnCycle(c, AttemptFailed, x);
            o.c == r.c && o.switch == r.switch && o.asked == r.asked
  {
    hide Refresh, SelectAttemptFailed, Due;
  }

  // ------------------------------------------------------------------ rotation

  /** The candidate after `cur` in canonical order. */
  function Successor(s: seq<Ip>, cur: Ip): Ip {
    if s == [] then cur else match IndexOf(s, cur) case None => s[0] case Some(i) => s[(i + 1) % |s|]
  }

  lemma NextIsSuccessor(candidates: seq<Ip>, cur: Ip)
    ensures var n := NextCandidate(candidates, cur);
            Successor(Canonical(candidates), cur) == if n.Some? then n.value else cur
  {
    hide Canonical;
  }

  /** Without the fallback policy nothing bounds a round and nothing is probed. */
  ghost predicate Rotating(c: Controller) {
    Inv(c) && !c.cfg.policy.enabled && c.probation.None? && !c.attended && c.round.deadline.None?
  }

  lemma CandidatesOk(c: Controller)
    requires Inv(c)
    ensures WellFormed(c.dns.candidates)
  {
  }

  /** What a rotation leaves: the next candidate, the same set, nothing else that matters. */
  ghost predicate MovedOn(c: Controller, r: Outcome) {
    && r.c.current == Successor(Canonical(c.dns.candidates), c.current)
    && r.c.round.deadline.None? && r.c.probation.None? && !r.c.attended && r.c.cfg == c.cfg
    && Canonical(r.c.dns.candidates) == Canonical(c.dns.candidates)
  }

  lemma SwitchMovesOn(c: Controller, d: Controller)
    requires Rotating(c) && d == c.(round := d.round, usable := d.usable) && d.round.deadline.None?
    ensures var n := NextCandidate(c.dns.candidates, c.current);
            MovedOn(c, if n.Some? then SwitchTo(d, n.value, []) else Stay(d, []))
  {
    hide Canonical, Ordered, NextCandidate, Inv;
    CandidatesOk(c);
    var next := NextCandidate(c.dns.candidates, c.current);
    NextIsSuccessor(c.dns.candidates, c.current);
    if next.Some? { OrderedKeeps(c.dns.candidates, next.value, c.home.good); }
  }

  lemma CommittedRotates(c: Controller, now: U64)
    requires Rotating(c)
    ensures MovedOn(c, RetryCommitted(c, now))
  {
    hide MovedOn, NextCandidate, Inv, SwitchTo;
    SwitchMovesOn(c, Begin(c, now));
  }

  lemma PreferredRotates(c: Controller, now: U64, wall: U64, v: Verdict)
    requires Rotating(c)
    ensures MovedOn(c, RetryPreferred(c, now, wall, v))
  {
    hide MovedOn, NextCandidate, Inv, SwitchTo, FallbackDue;
    SwitchMovesOn(c, CountFailure(c, now));
  }

  lemma SelectRotates(c: Controller, now: U64, wall: U64, v1: Verdict, v2: Verdict)
    requires Rotating(c)
    ensures MovedOn(c, SelectAttemptFailed(c, now, wall, v1, v2))
  {
    hide MovedOn, Inv, RetryCommitted, RetryPreferred, After;
    CommittedRotates(c, now);
    PreferredRotates(c, now, wall, v2);
    AfterNothing(SelectAttemptFailed(c, now, wall, v1, v2));
    AfterNothing(RetryCommitted(c, now));
    AfterNothing(RetryPreferred(c, now, wall, v2));
  }

  lemma AfterNothing(r: Outcome)
    ensures After([], r) == r
  {
    assert [] + r.asked == r.asked;
  }

  lemma Rotates(c: Controller, x: Inputs)
    requires Rotating(c) && x.dns.Failed?
    ensures var d := OnCycle(c, AttemptFailed, x).c;
            Rotating(d) && Canonical(d.dns.candidates) == Canonical(c.dns.candidates)
            && d.current == Successor(Canonical(c.dns.candidates), c.current)
  {
    hide OnCycle, Refresh, SelectAttemptFailed, Canonical, Usable, Successor, Due;
    RefreshSilent(c, x);
    RefreshKeeps(c, x, AttemptFailed);
    CycleIs(c, x);
    SelectRotates(Refresh(c, x, AttemptFailed).0, Instant(c, x), WallInstant(c, x), x.v1, x.v2);
    CycleStep(c, AttemptFailed, x);
  }

  lemma IndexFound(s: seq<Ip>, i: nat)
    requires Increasing(s) && i < |s|
    ensures IndexOf(s, s[i]) == Some(i)
  {
  }

  /** Position `i` turned `k` times around `n` places. */
  function Turned(n: nat, i: nat, k: nat): (r: nat)
    requires n > 0
    ensures r < n
  {
    (i + k) % n
  }

  lemma Turning(n: nat, i: nat, k: nat)
    requires i < n
    ensures Turned(n, i, 0) == i && Turned(n, i, k + 1) == (Turned(n, i, k) + 1) % n
  {
    ModUnique(0, i, n);
    ModNext(i + k, n);
  }

  /** How often to turn from `i` to `j`. */
  function Distance(n: nat, i: nat, j: nat): (k: nat)
    requires i < n && j < n
    ensures k < n
  {
    if j >= i then j - i else j + n - i
  }

  lemma Turns(n: nat, i: nat, j: nat)
    requires i < n && j < n
    ensures Turned(n, i, Distance(n, i, j)) == j
  {
    if j >= i { ModUnique(0, j, n); } else { ModUnique(1, j, n); }
  }

  lemma {:induction false} RotatedBy(c: Controller, xs: seq<Inputs>, i: nat)
    requires Rotating(c) && Outage(xs) && i < |Canonical(c.dns.candidates)| && c.current == Canonical(c.dns.candidates)[i]
    ensures var s, d := Canonical(c.dns.candidates), Failures(c, xs);
            Rotating(d) && Canonical(d.dns.candidates) == s && d.current == s[Turned(|s|, i, |xs|)]
    decreases |xs|
  {
    hide OnCycle, Canonical, Rotating, Turned;
    var s := Canonical(c.dns.candidates);
    CanonicalShape(c.dns.candidates);
    Turning(|s|, i, 0);
    if xs != [] {
      var k := |xs| - 1;
      RotatedBy(c, xs[..k], i);
      Rotates(Failures(c, xs[..k]), xs[k]);
      IndexFound(s, Turned(|s|, i, k));
      Turning(|s|, i, k);
    }
  }

  /** From a candidate, fewer than `n` failures lead to any other. */
  lemma ReachesFrom(c: Controller, xs: seq<Inputs>, i: nat, j: nat)
    requires Rotating(c) && Outage(xs) && i < |Canonical(c.dns.candidates)| && c.current == Canonical(c.dns.candidates)[i]
    requires j < |Canonical(c.dns.candidates)| <= |xs| + 1
    ensures var s := Canonical(c.dns.candidates); Failures(c, xs[..Distance(|s|, i, j)]).current == s[j]
  {
    hide OnCycle, Canonical, Rotating, Turned;
    var n := |Canonical(c.dns.candidates)|;
    RotatedBy(c, xs[..Distance(n, i, j)], i);
    Turns(n, i, j);
  }

  /** Without the fallback policy, during a resolver outage, `n` failed attempts try each of the `n` candidates,
      wherever the rotation stands and also when the current address is no candidate any more. */
  lemma EveryCandidateIsTried(c: Controller, xs: seq<Inputs>, j: nat)
    requires Rotating(c) && Outage(xs) && j < |Canonical(c.dns.candidates)| <= |xs|
    ensures exists k :: 0 <= k <= |xs| && Failures(c, xs[..k]).current == Canonical(c.dns.candidates)[j]
  {
    hide OnCycle, Canonical, Rotating, Failures, Successor, IndexOf, Distance;
    var s := Canonical(c.dns.candidates);
    var n := |s|;
    var start := IndexOf(s, c.current);
    if start.Some? {
      ReachesFrom(c, xs, start.value, j);
      assert Failures(c, xs[..Distance(n, start.value, j)]).current == s[j];
    } else {
      Rotates(c, xs[0]);
      FailuresOne(c, xs);
      SuccessorOutside(s, c.current);
      ReachesFrom(Failures(c, xs[..1]), xs[1..], 0, j);
      FailuresFrom(c, xs, 1, Distance(n, 0, j));
      assert Failures(c, xs[..1 + Distance(n, 0, j)]).current == s[j];
    }
  }

  lemma FailuresOne(c: Controller, xs: seq<Inputs>)
    requires xs != []
    ensures Failures(c, xs[..1]) == OnCycle(c, AttemptFailed, xs[0]).c
  {
    hide OnCycle;
    assert xs[..1][..0] == [];
  }

  lemma SuccessorOutside(s: seq<Ip>, cur: Ip)
    requires s != [] && IndexOf(s, cur).None?
    ensures Successor(s, cur) == s[0]
  {
  }

  lemma {:induction false} FailuresFrom(c: Controller, xs: seq<Inputs>, m: nat, k: nat)
    requires m + k <= |xs|
    ensures Failures(c, xs[..m + k]) == Failures(Failures(c, xs[..m]), xs[m..][..k])
    decreases k
  {
    hide OnCycle;
    if k > 0 {
      FailuresFrom(c, xs, m, k - 1);
      assert xs[..m + k][..m + k - 1] == xs[..m + k - 1] && xs[m..][..k][..k - 1] == xs[m..][..k - 1];
    } else {
      assert xs[m..][..0] == [];
    }
  }

  // ------------------------------------------------------------------ never pinned

  /** No resolver call takes as long as a round may. */
  predicate Prompt(p: Policy, x: Inputs) {
    Max(x.now, x.afterNow) < SatAdd(x.now, p.roundTimeoutMs)
  }

  /** A failed attempt that is not answered by a paid return: on to the next candidate, or a round
      that had run out is ended where it stands. */
  ghost predicate GoesOn(c: Controller, r: Outcome) {
    && Canonical(r.c.dns.candidates) == Canonical(c.dns.candidates)
    && (|| r.c.current == Successor(Canonical(c.dns.candidates), c.current)
        || (r.c.current == c.current && r.c.round.deadline.None?))
  }

  lemma NextGoesOn(c: Controller, d: Controller, asked: seq<Ask>)
    requires WellFormed(c.dns.candidates) && d.dns == c.dns && d.current == c.current
    ensures var n := NextCandidate(c.dns.candidates, c.current);
            GoesOn(c, if n.Some? then SwitchTo(d, n.value, asked) else Stay(d, asked))
  {
    hide Canonical, Ordered, NextCandidate;
    var next := NextCandidate(c.dns.candidates, c.current);
    NextIsSuccessor(c.dns.candidates, c.current);
    if next.Some? { OrderedKeeps(c.dns.candidates, next.value, d.home.good); }
  }

  lemma CommittedGoesOn(c: Controller, now: U64)
    requires WellFormed(c.dns.candidates)
    ensures GoesOn(c, RetryCommitted(c, now))
    ensures !RoundExpired(c.round, now) ==> RetryCommitted(c, now).c.current == Successor(Canonical(c.dns.candidates), c.current)
  {
    hide Canonical, NextCandidate, Ordered, Successor;
    NextGoesOn(c, Begin(c, now), []);
    NextIsSuccessor(c.dns.candidates, c.current);
  }

  lemma PreferredGoesOn(c: Controller, now: U64, wall: U64, v: Verdict)
    requires WellFormed(c.dns.candidates)
    ensures var r := RetryPreferred(c, now, wall, v);
            Grants(r.asked) != [] ||
            (GoesOn(c, r) && (!RoundExpired(StartRound(c.round, c.cfg.policy, now), now) ==>
                                r.c.current == Successor(Canonical(c.dns.candidates), c.current)))
  {
    hide Canonical, NextCandidate, Ordered, FallbackDue, Successor, CommittedFresh, Charge;
    var c1 := CountFailure(c, now);
    var (usable, granted, asked) := FallbackProbe(c1, now, wall, v);
    NextGoesOn(c, c1.(usable := usable), asked);
    NextIsSuccessor(c.dns.candidates, c.current);
  }

  lemma ReturnIsPaid(c: Controller, now: U64, wall: U64, v: Verdict)
    requires !Direct(c)
    ensures var (usable, back, asked) := ProbationReturn(c, now, wall, v);
            |asked| <= 1 && (back <==> Grants(asked) != [])
  {
    hide HealthDeadline, Canonical;
  }

  lemma AttemptGoesOn(c: Controller, now: U64, wall: U64, v1: Verdict, v2: Verdict)
    requires WellFormed(c.dns.candidates) && !Direct(c)
    ensures var r := SelectAttemptFailed(c, now, wall, v1, v2);
            Grants(r.asked) != [] ||
            (GoesOn(c, r) && (!RoundExpired(StartRound(c.round, c.cfg.policy, now), now) ==>
                                r.c.current == Successor(Canonical(c.dns.candidates), c.current)))
  {
    hide Canonical, ProbationReturn, RetryCommitted, RetryPreferred, Successor, SwitchTo;
    ReturnIsPaid(c, now, wall, v1);
    var (usable, back, asked) := ProbationReturn(c, now, wall, v1);
    if back {
      SwitchAsks(c.(usable := usable, probation := None), c.probation.value.rollback, asked);
    } else {
      var c1 := c.(usable := usable);
      CommittedGoesOn(c1, now);
      PreferredGoesOn(c1, now, wall, v2);
      GrantsAfter(asked, RetryPreferred(c1, now, wall, v2).asked);
    }
  }

  lemma SwitchAsks(c: Controller, target: Ip, asked: seq<Ask>)
    ensures SwitchTo(c, target, asked).asked == asked
  {
  }

  /** A controller without attended authority, in any round, on probation or not. */
  ghost predicate Trying(c: Controller) {
    Inv(c) && !Direct(c)
  }

  lemma FailureGoesOn(c: Controller, x: Inputs)
    requires Trying(c) && x.dns.Failed? && Prompt(c.cfg.policy, x)
    ensures var r := OnCycle(c, AttemptFailed, x);
            Grants(r.asked) != [] ||
            (&& Trying(r.c) && r.c.cfg == c.cfg && GoesOn(c, r)
             && (c.round.deadline.None? ==> r.c.current == Successor(Canonical(c.dns.candidates), c.current)))
  {
    hide OnCycle, Refresh, SelectAttemptFailed, Canonical, Usable, Successor, Due, Moves, Covered, Requests, Same, Step;
    RefreshSilent(c, x);
    RefreshKeeps(c, x, AttemptFailed);
    CycleIs(c, x);
    CycleSelected(c, AttemptFailed, x);
    CandidatesOk(c);
    if c.round.deadline.None? { OpensAt(c, x); }
    var d := Refresh(c, x, AttemptFailed).0;
    AttemptGoesOn(d, Instant(c, x), WallInstant(c, x), x.v1, x.v2);
  }

  /** A round opened by a prompt cycle has not run out when the cycle selects. */
  lemma OpensAt(c: Controller, x: Inputs)
    requires Prompt(c.cfg.policy, x) && c.round.deadline.None? && x.dns.Failed?
    ensures var d := Refresh(c, x, AttemptFailed).0;
            !RoundExpired(StartRound(d.round, d.cfg.policy, Instant(c, x)), Instant(c, x))
  {
    hide OnFailure, Canonical;
  }

  /** Some attempt put the controller on `ip`. */
  ghost predicate Tries(c: Controller, xs: seq<Inputs>, ip: Ip) {
    exists k :: 0 <= k <= |xs| && Failures(c, xs[..k]).current == ip
  }

  ghost predicate PaidAt(c: Controller, xs: seq<Inputs>, k: nat)
    requires k < |xs|
  {
    Grants(OnCycle(Failures(c, xs[..k]), AttemptFailed, xs[k]).asked) != []
  }

  /** Some attempt was answered by a return to committed-good that the ledger granted. */
  ghost predicate Pays(c: Controller, xs: seq<Inputs>) {
    exists k :: 0 <= k < |xs| && PaidAt(c, xs, k)
  }

  lemma Later(c: Controller, xs: seq<Inputs>, m: nat, ip: Ip)
    requires m <= |xs|
    ensures Tries(Failures(c, xs[..m]), xs[m..], ip) ==> Tries(c, xs, ip)
    ensures Pays(Failures(c, xs[..m]), xs[m..]) ==> Pays(c, xs)
  {
    hide OnCycle, Failures;
    var d := Failures(c, xs[..m]);
    if Tries(d, xs[m..], ip) {
      var k :| 0 <= k <= |xs[m..]| && Failures(d, xs[m..][..k]).current == ip;
      FailuresFrom(c, xs, m, k);
      assert Failures(c, xs[..m + k]).current == ip;
    }
    if Pays(d, xs[m..]) {
      var k :| 0 <= k < |xs[m..]| && PaidAt(d, xs[m..], k);
      FailuresFrom(c, xs, m, k);
      assert PaidAt(c, xs, m + k);
    }
  }

  ghost predicate Allowed(c: Controller, xs: seq<Inputs>) {
    Trying(c) && Outage(xs) && forall i :: 0 <= i < |xs| ==> Prompt(c.cfg.policy, xs[i])
  }

  /** Of two failed attempts one moves on, unless one is answered by a paid return. */
  lemma TwoAttempts(c: Controller, xs: seq<Inputs>) returns (m: nat)
    requires Allowed(c, xs) && |xs| >= 2
    ensures 1 <= m <= 2
    ensures Pays(c, xs) ||
            (var d := Failures(c, xs[..m]);
             && Allowed(d, xs[m..]) && Canonical(d.dns.candidates) == Canonical(c.dns.candidates)
             && d.current == Successor(Canonical(c.dns.candidates), c.current))
  {
    hide OnCycle, Failures, Canonical, Trying, Successor, Prompt;
    m := 1;
    FailuresOne(c, xs);
    FailureGoesOn(c, xs[0]);
    FailuresNone(c, xs);
    var r := OnCycle(c, AttemptFailed, xs[0]);
    if Grants(r.asked) != [] {
      assert PaidAt(c, xs, 0);
    } else if r.c.current != Successor(Canonical(c.dns.candidates), c.current) {
      m := 2;
      FailureGoesOn(r.c, xs[1]);
      FailuresFrom(c, xs, 1, 1);
      FailuresOne(r.c, xs[1..]);
      if Grants(OnCycle(r.c, AttemptFailed, xs[1]).asked) != [] {
        assert PaidAt(c, xs, 1);
      }
    }
  }

  lemma FailuresNone(c: Controller, xs: seq<Inputs>)
    ensures Failures(c, xs[..0]) == c
  {
  }

  lemma SuccessorAt(s: seq<Ip>, i: nat)
    requires Increasing(s) && i < |s|
    ensures Successor(s, s[i]) == s[if i + 1 == |s| then 0 else i + 1]
  {
    hide IndexOf, Increasing;
    IndexFound(s, i);
    AroundOnce(|s|, i);
  }

  lemma AroundOnce(n: nat, i: nat)
    requires i < n
    ensures (i + 1) % n == if i + 1 == n then 0 else i + 1
  {
    if i + 1 < n { ModUnique(0, i + 1, n); } else { ModUnique(1, 0, n); }
  }

  lemma {:induction false} PinnedNowhere(c: Controller, xs: seq<Inputs>, i: nat, j: nat)
    requires var s := Canonical(c.dns.candidates); i < |s| && j < |s| && c.current == s[i]
    requires Allowed(c, xs) && |xs| >= 2 * Distance(|Canonical(c.dns.candidates)|, i, j)
    ensures Pays(c, xs) || Tries(c, xs, Canonical(c.dns.candidates)[j])
    decreases Distance(|Canonical(c.dns.candidates)|, i, j)
  {
    hide Canonical, Allowed, Failures, Pays, Successor, Increasing;
    var s := Canonical(c.dns.candidates);
    if i == j {
      FailuresNone(c, xs);
      assert Failures(c, xs[..0]).current == s[j];
    } else {
      var m := TwoAttempts(c, xs);
      CanonicalShape(c.dns.candidates);
      SuccessorAt(s, i);
      Later(c, xs, m, s[j]);
      if !Pays(c, xs) {
        PinnedNowhere(Failures(c, xs[..m]), xs[m..], if i + 1 == |s| then 0 else i + 1, j);
      }
    }
  }

  /** Whatever the policy, the round, the probation and the verdicts of the ledger: during a resolver
      outage, `2 n` failed attempts try each of the `n` candidates, unless one of them is answered by
      a return to committed-good that the ledger grants. A refused probe never pins the controller to
      one candidate. */
  lemma NeverPinned(c: Controller, xs: seq<Inputs>, j: nat)
    requires Allowed(c, xs) && j < |Canonical(c.dns.candidates)| && |xs| >= 2 * |Canonical(c.dns.candidates)|
    ensures Pays(c, xs) || Tries(c, xs, Canonical(c.dns.candidates)[j])
  {
    hide Canonical, Allowed, Failures, Pays, Tries;
    var s := Canonical(c.dns.candidates);
    var start := IndexOf(s, c.current);
    if start.Some? {
      PinnedNowhere(c, xs, start.value, j);
    } else {
      var m := TwoAttempts(c, xs);
      Later(c, xs, m, s[j]);
      if !Pays(c, xs) {
        PinnedNowhere(Failures(c, xs[..m]), xs[m..], 0, j);
      }
    }
  }

  // ------------------------------------------------------------------ bounded recovery

  /** On a DNS candidate, with a committed-good to fall back on and a working ledger. */
  ghost predicate Away(c: Controller, g: Ip) {
    && Inv(c) && c.cfg.policy.enabled && c.cfg.stateFile && c.usable
    && c.probation.None? && !c.attended && c.home.good == Some(g) && c.current != g
  }

  /** Attempts counted in the running round. */
  function Tried(r: Round): U32 {
    if r.deadline.Some? then r.attempts else 0
  }

  /** Failures that make the probe of committed-good due. */
  function Needed(c: Controller): nat {
    Max(c.cfg.policy.afterFailures, Max(1, |Canonical(c.dns.candidates)|))
  }

  /** One failed attempt: back at committed-good, or one more counted on both counters. */
  ghost predicate Counted(c: Controller, g: Ip, r: Outcome) {
    r.switch == Some(g) ||
    (&& r.c.cfg == c.cfg && r.c.home == c.home && r.c.usable && r.c.probation.None? && !r.c.attended && r.c.current != g
     && Canonical(r.c.dns.candidates) == Canonical(c.dns.candidates)
     && r.c.round.failures == SatInc(c.round.failures) && Tried(r.c.round) == SatInc(Tried(c.round)))
  }

  lemma CountFailureCounts(c: Controller, now: U64)
    requires c.cfg.policy.enabled
    ensures var r := CountFailure(c, now).round;
            r.deadline.Some? && r.failures == SatInc(c.round.failures) && r.attempts == SatInc(Tried(c.round))
  {
  }

  lemma PreferredCounts(c: Controller, g: Ip, now: U64, wall: U64)
    requires Away(c, g) && HealthDeadline(c.home, c.cfg.policy, now).Some?
    ensures var r := RetryPreferred(c, now, wall, Granted);
            && Counted(c, g, r)
            && (FallbackDue(CountFailure(c, now).round, c.cfg.policy, c.dns.candidates, now) ==> r.switch == Some(g) && |Grants(r.asked)| == 1)
  {
    hide Canonical, Ordered, NextCandidate, Inv, HealthDeadline, FallbackDue, CountFailure;
    CandidatesOk(c);
    CountFailureCounts(c, now);
    CountFailureKeeps(c, now);
    NotDue(CountFailure(c, now).round, c.cfg.policy, c.dns.candidates, now);
    var next := NextCandidate(c.dns.candidates, c.current);
    if next.Some? { OrderedKeeps(c.dns.candidates, next.value, c.home.good); }
  }

  lemma CountFailureKeeps(c: Controller, now: U64)
    ensures CountFailure(c, now) == c.(round := CountFailure(c, now).round)
  {
  }

  lemma NotDue(r: Round, p: Policy, candidates: seq<Ip>, now: U64)
    ensures !FallbackDue(r, p, candidates, now) ==> !RoundExpired(r, now)
    ensures r.failures >= p.afterFailures && r.attempts >= Max(1, |Canonical(candidates)|) ==> FallbackDue(r, p, candidates, now)
  {
  }

  lemma FailureCounts(c: Controller, g: Ip, x: Inputs)
    requires Away(c, g) && x.dns.Failed? && x.v2.Granted? && HealthDeadline(c.home, c.cfg.policy, Instant(c, x)).Some?
    ensures var r := OnCycle(c, AttemptFailed, x);
            && Counted(c, g, r) && (r.switch != Some(g) ==> Away(r.c, g))
            && (SatInc(c.round.failures) >= c.cfg.policy.afterFailures && SatInc(Tried(c.round)) >= Max(1, |Canonical(c.dns.candidates)|) ==>
                  r.switch == Some(g) && |Grants(r.asked)| == 1)
  {
    hide OnCycle, Refresh, RetryPreferred, Canonical, HealthDeadline, Due, FallbackDue, Inv, CountFailure;
    RefreshSilent(c, x);
    RefreshKeeps(c, x, AttemptFailed);
    CycleIs(c, x);
    var d := Refresh(c, x, AttemptFailed).0;
    PreferredCounts(d, g, Instant(c, x), WallInstant(c, x));
    AfterNothing(RetryPreferred(d, Instant(c, x), WallInstant(c, x), Granted));
    CountFailureCounts(d, Instant(c, x));
    NotDue(CountFailure(d, Instant(c, x)).round, c.cfg.policy, d.dns.candidates, Instant(c, x));
    CycleInv(c, x);
  }

  lemma CycleInv(c: Controller, x: Inputs)
    requires Inv(c)
    ensures Inv(OnCycle(c, AttemptFailed, x).c)
  {
    hide OnCycle, Inv, Moves, Covered, AskedIn;
    CycleStep(c, AttemptFailed, x);
  }

  ghost predicate Fresh(c: Controller, xs: seq<Inputs>) {
    forall i :: 0 <= i < |xs| ==>
      HealthDeadline(c.home, c.cfg.policy, xs[i].now).Some? && HealthDeadline(c.home, c.cfg.policy, xs[i].afterNow).Some?
  }

  ghost predicate Returned(c: Controller, g: Ip, xs: seq<Inputs>, k: nat)
    requires k < |xs|
  {
    OnCycle(Failures(c, xs[..k]), AttemptFailed, xs[k]).switch == Some(g)
  }

  /** As long as no attempt has led back, every one of them is counted. */
  lemma {:induction false} StillAway(c: Controller, g: Ip, xs: seq<Inputs>, k: nat)
    requires Away(c, g) && Outage(xs) && Fresh(c, xs) && (forall i :: 0 <= i < |xs| ==> xs[i].v2.Granted?)
    requires k <= |xs| && forall i :: 0 <= i < k ==> !Returned(c, g, xs, i)
    ensures var d := Failures(c, xs[..k]);
            && Away(d, g) && d.cfg == c.cfg && d.home == c.home && Canonical(d.dns.candidates) == Canonical(c.dns.candidates)
            && d.round.failures >= Min(k, U32_MAX) && Tried(d.round) >= Min(k, U32_MAX)
    decreases k
  {
    hide OnCycle, Canonical, HealthDeadline, Away, Due;
    if k > 0 {
      StillAway(c, g, xs, k - 1);
      assert xs[..k][..k - 1] == xs[..k - 1];
      assert !Returned(c, g, xs, k - 1);
      FailureCounts(Failures(c, xs[..k - 1]), g, xs[k - 1]);
    }
  }

  /** With the fallback policy on, a fresh committed-good and a ledger that grants: during a resolver outage the
      controller is back at committed-good after at most max(after_failures, number of candidates, 1) failed attempts. */
  lemma RecoveryIsBounded(c: Controller, g: Ip, xs: seq<Inputs>)
    requires Away(c, g) && Outage(xs) && Fresh(c, xs) && (forall i :: 0 <= i < |xs| ==> xs[i].v2.Granted?)
    requires |xs| >= Needed(c)
    ensures exists k :: 0 <= k < |xs| && Returned(c, g, xs, k)
  {
    hide OnCycle, Canonical, HealthDeadline, Away, Due, Failures;
    var k := Needed(c) - 1;
    if forall i :: 0 <= i < k ==> !Returned(c, g, xs, i) {
      StillAway(c, g, xs, k);
      CanonicalShape(c.dns.candidates);
      FailureCounts(Failures(c, xs[..k]), g, xs[k]);
      assert Returned(c, g, xs, k);
    }
  }
}
