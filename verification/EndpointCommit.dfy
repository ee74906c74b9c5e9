/** Committed-good changes only by promotion, and promotion only on sustained recent traffic. */
module EndpointCommit {
  import opened Machine
  import opened Relay
  import opened Candidates
  import opened Endpoint
  import opened EndpointRuns

  /** When the DATA packets accepted since the latest authentication arrived. */
  ghost function Trail(es: seq<Event>): seq<U64> {
    if es == [] then []
    else
      var e := es[|es| - 1];
      if e.Authenticated? then []
      else if e.Activity? && e.isData then Trail(es[..|es| - 1]) + [e.now]
      else Trail(es[..|es| - 1])
  }

  ghost predicate Unbroken(ts: seq<U64>, gap: nat) {
    forall i :: 0 <= i < |ts| - 1 ==> SatSub(ts[i + 1], ts[i]) <= gap
  }

  /** The packets since the last gap: the longest unbroken stretch at the end. */
  ghost function Stretch(ts: seq<U64>, gap: nat): (r: seq<U64>)
    ensures |r| <= |ts|
    ensures ts != [] ==> r != [] && r[|r| - 1] == ts[|ts| - 1] && r[0] == ts[|ts| - |r|]
  {
    if |ts| <= 1 then ts
    else
      var n := |ts| - 1;
      if SatSub(ts[n], ts[n - 1]) <= gap then Stretch(ts[..n], gap) + [ts[n]] else [ts[n]]
  }

  lemma StretchMore(ts: seq<U64>, now: U64, gap: nat)
    ensures Stretch(ts + [now], gap) ==
              if ts != [] && SatSub(now, ts[|ts| - 1]) <= gap then Stretch(ts, gap) + [now] else [now]
  {
    assert (ts + [now])[..|ts|] == ts;
  }

  lemma {:induction false} StretchIsSuffix(ts: seq<U64>, gap: nat)
    ensures Stretch(ts, gap) == ts[|ts| - |Stretch(ts, gap)|..]
  {
    hide Stretch;
    if ts == [] {
      StretchOfNone(gap);
    } else {
      var n := |ts| - 1;
      var front := ts[..n];
      StretchIsSuffix(front, gap);
      assert ts == front + [ts[n]];
      StretchMore(front, ts[n], gap);
    }
  }

  lemma {:induction false} StretchUnbroken(ts: seq<U64>, gap: nat)
    ensures Unbroken(Stretch(ts, gap), gap)
  {
    hide Stretch, Unbroken;
    if ts == [] {
      StretchOfNone(gap);
      NoneUnbroken(gap);
    } else {
      var n := |ts| - 1;
      var front := ts[..n];
      assert ts == front + [ts[n]];
      StretchMore(front, ts[n], gap);
      OneUnbroken(ts[n], gap);
      StretchUnbroken(front, gap);
      if n > 0 && SatSub(ts[n], front[n - 1]) <= gap { UnbrokenExtends(Stretch(front, gap), ts[n], gap); }
    }
  }

  lemma NoneUnbroken(gap: nat)
    ensures Unbroken([], gap)
  {
  }

  lemma OneUnbroken(now: U64, gap: nat)
    ensures Unbroken([now], gap)
  {
  }

  lemma StretchOfNone(gap: nat)
    ensures Stretch([], gap) == []
  {
  }

  ghost predicate UnbrokenFrom(ts: seq<U64>, gap: nat, i: nat) {
    forall k :: i <= k < |ts| - 1 ==> SatSub(ts[k + 1], ts[k]) <= gap
  }

  /** Every unbroken suffix lies within it. */
  lemma {:induction false} StretchLongest(ts: seq<U64>, gap: nat, i: nat)
    requires i < |ts| && UnbrokenFrom(ts, gap, i)
    ensures |Stretch(ts, gap)| >= |ts| - i
  {
    var n := |ts| - 1;
    if i < n {
      assert SatSub(ts[n - 1 + 1], ts[n - 1]) <= gap;
      FromPrefix(ts, gap, i);
      StretchLongest(ts[..n], gap, i);
    }
  }

  lemma FromPrefix(ts: seq<U64>, gap: nat, i: nat)
    requires i < |ts| && UnbrokenFrom(ts, gap, i)
    ensures UnbrokenFrom(ts[..|ts| - 1], gap, i)
  {
    var u := ts[..|ts| - 1];
    forall k | i <= k < |u| - 1 ensures SatSub(u[k + 1], u[k]) <= gap {
      assert u[k + 1] == ts[k + 1] && u[k] == ts[k];
    }
  }

  lemma SuffixUnbroken(ts: seq<U64>, gap: nat, i: nat)
    requires i < |ts| && Unbroken(ts[i..], gap)
    ensures UnbrokenFrom(ts, gap, i)
  {
    forall k | i <= k < |ts| - 1 ensures SatSub(ts[k + 1], ts[k]) <= gap {
      assert ts[i..][k - i + 1] == ts[k + 1] && ts[i..][k - i] == ts[k];
      assert SatSub(ts[i..][k - i + 1], ts[i..][k - i]) <= gap;
    }
  }

  /** The counters of a probation summarise the last unbroken stretch of the trail. */
  ghost predicate Evidence(p: Probation, trail: seq<U64>, gap: nat) {
    if trail == [] then p.firstData.None? && p.lastData.None? && p.packets == 0
    else
      var s := Stretch(trail, gap);
      p.packets == Min(|s|, U32_MAX) && p.firstData == Some(s[0]) && p.lastData == Some(s[|s| - 1])
  }

  lemma UnbrokenExtends(ts: seq<U64>, now: U64, gap: nat)
    requires ts != [] && Unbroken(ts, gap) && SatSub(now, ts[|ts| - 1]) <= gap
    ensures Unbroken(ts + [now], gap)
  {
  }

  lemma NoteDataEvidence(p: Probation, trail: seq<U64>, now: U64, gap: nat)
    requires Evidence(p, trail, gap)
    ensures Evidence(NoteData(p, now, gap), trail + [now], gap)
  {
    hide Unbroken, Stretch;
    StretchMore(trail, now, gap);
  }

  /** While the session that started a probation is up, its counters tell the truth. */
  ghost predicate Truthful(c: Controller, trail: seq<U64>) {
    c.authenticated && c.probation.Some? ==>
      && c.probation.value.candidate == c.current
      && Evidence(c.probation.value, trail, MaxGap(c.cfg.policy))
  }

  /** A step that is neither an authentication nor DATA keeps a live probation as it was. */
  lemma OtherStep(c: Controller, e: Event)
    requires Inv(c) && !e.Authenticated? && !e.Activity?
    ensures var c' := Apply(c, e).c;
            c'.authenticated && c'.probation.Some? ==>
              && c.authenticated && c.probation.Some? && c'.current == c.current && c'.cfg == c.cfg
              && c'.probation.value == c.probation.value.(authorized := c'.probation.value.authorized)
  {
    hide Usable, Same, OnCycle, Refreshed, HealthDeadline, Ordered;
    if e.Cycle? {
      CycleSelected(c, e.reason, e.x);
    }
  }

  lemma TruthStep(c: Controller, trail: seq<U64>, es: seq<Event>)
    requires Inv(c) && Truthful(c, trail) && es != [] && Trail(es[..|es| - 1]) == trail
    ensures Truthful(Apply(c, es[|es| - 1]).c, Trail(es))
  {
    hide Evidence, Usable, Inv, OnCycle, HealthDeadline, Ordered;
    var e := es[|es| - 1];
    match e
    case Authenticated(now) =>
      FreshProbation(c, now);
    case Activity(now, isData) =>
      if isData && c.authenticated && c.probation.Some? {
        NoteDataEvidence(c.probation.value, trail, now, MaxGap(c.cfg.policy));
      }
    case _ =>
      OtherStep(c, e);
      var c' := Apply(c, e).c;
      if c'.authenticated && c'.probation.Some? {
        AuthorizedIrrelevant(c.probation.value, c'.probation.value.authorized, trail, MaxGap(c.cfg.policy));
      }
  }

  lemma FreshProbation(c: Controller, now: U64)
    ensures Truthful(OnAuthenticated(c, now), [])
  {
  }

  lemma AuthorizedIrrelevant(p: Probation, b: bool, trail: seq<U64>, gap: nat)
    requires Evidence(p, trail, gap)
    ensures Evidence(p.(authorized := b), trail, gap)
  {
  }

  lemma {:induction false} TruthRun(c: Controller, es: seq<Event>)
    requires Inv(c) && !c.authenticated
    ensures Truthful(Run(c, es), Trail(es))
  {
    hide Apply, Inv, Truthful;
    if es == [] {
      NotUp(c);
    } else {
      var n := |es| - 1;
      RunKeeps(c, es[..n]);
      TruthRun(c, es[..n]);
      TruthStep(Run(c, es[..n]), Trail(es[..n]), es);
    }
  }

  lemma NotUp(c: Controller)
    requires !c.authenticated
    ensures Truthful(c, [])
  {
  }

  /** At least three DATA packets in an unbroken, long enough and still recent stretch. */
  ghost predicate Sustained(ts: seq<U64>, now: U64, p: Policy) {
    && |ts| >= MIN_PROMOTION_DATA_PACKETS
    && Unbroken(ts, MaxGap(p))
    && SatSub(ts[|ts| - 1], ts[0]) >= p.probationMs
    && SatSub(now, ts[|ts| - 1]) <= MaxGap(p)
  }

  /** A step that changes committed-good, once it is set, is a promotion. */
  lemma OnlyPromotionCommits(c: Controller, e: Event)
    requires Inv(c) && c.cfg.policy.enabled && c.home.good.Some?
    requires Apply(c, e).c.home.good != c.home.good
    ensures e.PromoteCommand? && PromotionVerdict(c, e.expected, e.now, e.saved) == Promoted(c.home.good.value)
    ensures e.expected == c.current && c.authenticated && Apply(c, e).c.home.good == Some(c.current)
  {
    hide Usable, Same, OnCycle, Refreshed, HealthDeadline, Ordered;
    if e.Cycle? {
      CycleSelected(c, e.reason, e.x);
    }
  }

  // ------------------------------------------------------------------ exactly when a promotion succeeds

  /** An authenticated session away from committed-good is on probation. */
  ghost predicate OnTrial(c: Controller) {
    c.authenticated && c.cfg.policy.enabled && c.home.good.Some? && !c.AtHome() ==>
      c.probation.Some? && c.probation.value.candidate == c.current
  }

  lemma TrialStep(c: Controller, e: Event)
    requires Inv(c) && OnTrial(c)
    ensures OnTrial(Apply(c, e).c)
  {
    hide Usable, Same, OnCycle, Refreshed, HealthDeadline, Ordered, Charge, Covered, Requests;
    if e.Cycle? {
      CycleSelected(c, e.reason, e.x);
    }
  }

  lemma {:induction false} TrialRun(c: Controller, es: seq<Event>)
    requires Inv(c) && !c.authenticated
    ensures OnTrial(Run(c, es))
  {
    hide Apply, Inv;
    if es != [] {
      var n := |es| - 1;
      TrialRun(c, es[..n]);
      RunKeeps(c, es[..n]);
      TrialStep(Run(c, es[..n]), es[n]);
    }
  }

  /** A rollback is scheduled and its instant has come, or committed-good is not fresh any more. */
  predicate TooLate(c: Controller, now: U64) {
    && c.probation.Some? && c.probation.value.rollbackAt.Some?
    && (now >= c.probation.value.rollbackAt.value || HealthDeadline(c.home, c.cfg.policy, now).None?)
  }

  /** What a promotion command must find: a saved cache, the authenticated candidate in use, an unbroken
      stretch of traffic that is numerous, long enough and recent, and a rollback that has not come due. */
  ghost predicate MayPromote(c: Controller, trail: seq<U64>, expected: Ip, now: U64, saved: bool) {
    && saved && c.authenticated && c.current == expected && c.home.good.Some? && !c.AtHome()
    && Sustained(Stretch(trail, MaxGap(c.cfg.policy)), now, c.cfg.policy)
    && !TooLate(c, now)
  }

  lemma TrialFacts(c: Controller)
    requires Inv(c) && c.probation.Some?
    ensures c.home.good == Some(c.probation.value.rollback) && c.probation.value.candidate != c.probation.value.rollback
  {
    hide Usable;
  }

  /** What the counters say is what the stretch is. */
  lemma EvidenceSustains(p: Probation, trail: seq<U64>, now: U64, policy: Policy)
    requires Evidence(p, trail, MaxGap(policy))
    ensures Sustained(Stretch(trail, MaxGap(policy)), now, policy) <==>
              && p.packets >= MIN_PROMOTION_DATA_PACKETS && Span(p) >= policy.probationMs
              && p.lastData.Some? && SatSub(now, p.lastData.value) <= MaxGap(policy)
  {
    hide Unbroken, Stretch, MaxGap;
    StretchUnbroken(trail, MaxGap(policy));
    if trail == [] { StretchOfNone(MaxGap(policy)); }
  }

  lemma VerdictExact(c: Controller, trail: seq<U64>, expected: Ip, now: U64, saved: bool)
    requires Inv(c) && c.cfg.policy.enabled && Truthful(c, trail) && OnTrial(c)
    ensures PromotionVerdict(c, expected, now, saved).Promoted? <==> MayPromote(c, trail, expected, now, saved)
  {
    hide Inv, HealthDeadline, Evidence, Sustained, Stretch, MaxGap, Span, Unbroken;
    if c.probation.Some? {
      TrialFacts(c);
      if c.authenticated { EvidenceSustains(c.probation.value, trail, now, c.cfg.policy); }
    }
  }

  /** Over every run, a promotion command commits the candidate if and only if it may, and then it is
      fresh from now on; otherwise it changes nothing at all. */
  lemma PromotionExact(c0: Controller, es: seq<Event>, expected: Ip, now: U64, saved: bool)
    requires Inv(c0) && !c0.authenticated && c0.cfg.policy.enabled
    ensures var d := Run(c0, es);
            var d' := Apply(d, PromoteCommand(expected, now, saved)).c;
            if MayPromote(d, Trail(es), expected, now, saved)
            then d'.home == Home(Some(expected), None, Some(now)) && d'.probation.None? && d'.current == d.current && d'.authenticated
            else d' == d
  {
    hide Inv, Run, Trail, MayPromote, Truthful, OnTrial, PromotionVerdict, Ordered, Stretch;
    RunKeeps(c0, es);
    TruthRun(c0, es);
    TrialRun(c0, es);
    VerdictExact(Run(c0, es), Trail(es), expected, now, saved);
    if MayPromote(Run(c0, es), Trail(es), expected, now, saved) { MayPromoteIs(Run(c0, es), Trail(es), expected, now, saved); }
  }

  lemma MayPromoteIs(c: Controller, trail: seq<U64>, expected: Ip, now: U64, saved: bool)
    requires MayPromote(c, trail, expected, now, saved)
    ensures c.authenticated && c.current == expected
  {
  }

  /** With a clock that does not go back, any sustained unbroken suffix of the traffic will do. */
  lemma AnySustainedStretch(trail: seq<U64>, i: nat, now: U64, p: Policy)
    requires i < |trail| && Sustained(trail[i..], now, p)
    requires forall a, b :: 0 <= a < b < |trail| ==> trail[a] <= trail[b]
    ensures Sustained(Stretch(trail, MaxGap(p)), now, p)
  {
    hide Unbroken, UnbrokenFrom, Stretch;
    var s, n := Stretch(trail, MaxGap(p)), |trail|;
    SuffixUnbroken(trail, MaxGap(p), i);
    StretchLongest(trail, MaxGap(p), i);
    StretchUnbroken(trail, MaxGap(p));
    var a := n - |s|;
    SuffixEnds(trail, a);
    SuffixEnds(trail, i);
    assert a == i || trail[a] <= trail[i];
  }

  lemma SuffixEnds(ts: seq<U64>, i: nat)
    requires i < |ts|
    ensures ts[i..][0] == ts[i] && ts[i..][|ts[i..]| - 1] == ts[|ts| - 1]
  {
  }

  // ------------------------------------------------------------------ commit safety

  /** Commit safety over every run: with fallback enabled, a set committed-good is replaced only by
      the active authenticated candidate, on operator command, after DATA traffic since its latest
      authentication that is numerous, unbroken, as long as the probation, and still recent. */
  lemma CommitSafety(c0: Controller, es: seq<Event>, e: Event)
    requires Inv(c0) && !c0.authenticated && c0.cfg.policy.enabled
    requires Run(c0, es).home.good.Some?
    requires Apply(Run(c0, es), e).c.home.good != Run(c0, es).home.good
    ensures e.PromoteCommand? && e.saved
    ensures Run(c0, es).authenticated && Run(c0, es).current == e.expected
    ensures Apply(Run(c0, es), e).c.home.good == Some(e.expected)
    ensures exists i :: 0 <= i < |Trail(es)| && Sustained(Trail(es)[i..], e.now, c0.cfg.policy)
  {
    hide Apply, Inv, HealthDeadline, Unbroken, Usable;
    var d := Run(c0, es);
    RunKeeps(c0, es);
    OnlyPromotionCommits(d, e);
    TruthRun(c0, es);
    var s := Stretch(Trail(es), MaxGap(d.cfg.policy));
    assert Trail(es) != [];
    StretchUnbroken(Trail(es), MaxGap(d.cfg.policy));
    StretchIsSuffix(Trail(es), MaxGap(d.cfg.policy));
    assert Sustained(Trail(es)[|Trail(es)| - |s|..], e.now, c0.cfg.policy);
  }
}
