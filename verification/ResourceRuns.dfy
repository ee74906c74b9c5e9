/** The client's kernel resources along every run of its endpoint controller. */
module ResourceRuns {
  import opened Machine
  import opened Relay
  import Candidates
  import opened Endpoint
  import E = EndpointRuns
  import opened Resources

  /** The controller, the kernel bookkeeping, the address packets go to, and whether a session is up. */
  datatype Client = Client(c: Controller, n: Node, remote: Ip, idle: bool, closing: bool)

  /** The order in which stale entries are released, and how the kernel answers. */
  datatype Work = Work(stale: seq<Ip>, ls: Lucks, rs: Lucks, again: Luck)

  datatype Event =
    | Controlled(e: E.Event)
    | GoIdle
    | Cycle(reason: Reason, x: Inputs, work: Work)
    | Start
    | Authenticated(now: U64, work: Work)
    | Promote(expected: Ip, now: U64, saved: bool, work: Work)
    | KernelTimer(ls: Lucks, pending: seq<Ip>, ps: Lucks)
    | Close(stale: seq<Ip>, rs: Lucks)

  function WithGood(a: Ip, good: Option<Ip>): seq<Ip> {
    [a] + if good.Some? then [good.value] else []
  }

  /** The addresses the controller wants kept. */
  function RetainedBy(c: Controller): seq<Ip> {
    [c.current] + if c.home.good.Some? && c.home.good.value != c.current then [c.home.good.value] else []
  }

  ghost predicate Fits(n: Node, needs: Needs, keep: seq<Ip>, w: Work) {
    |w.ls| == |keep| && |w.rs| == |w.stale| && Stale(EnsureAll(n, needs, keep, w.ls), keep, w.stale)
  }

  predicate Plain(e: E.Event) {
    e.Activity? || e.RollbackTimer? || e.RollbackCommand? || e.ReconnectCommand?
  }

  ghost predicate Enabled(s: Client, needs: Needs, e: Event) {
    !s.closing &&
    match e
    case Controlled(e) => Plain(e)
    case GoIdle => true
    case Cycle(reason, x, w) =>
      var r := OnCycle(s.c, reason, x);
      s.idle && (r.switch.Some? ==> Fits(s.n, needs, WithGood(r.switch.value, r.c.home.good), w))
    case Start => s.idle && s.remote in s.n.table && Ready(s.n.table[s.remote])
    case Authenticated(now, w) => Fits(s.n, needs, RetainedBy(OnAuthenticated(s.c, now)), w)
    case Promote(expected, now, saved, w) => Fits(s.n, needs, RetainedBy(Endpoint.Promote(s.c, expected, now, saved)), w)
    case KernelTimer(ls, pending, ps) => |ls| == |RetainedBy(s.c)| && |ps| == |pending|
    case Close(stale, rs) => |rs| == |stale| && Stale(s.n, [], stale)
  }

  /** Switch the relay address: keep the new one and committed-good, release the rest, then retarget. */
  function Switched(n: Node, needs: Needs, to: Ip, good: Option<Ip>, w: Work): Node
    requires |w.ls| == |WithGood(to, good)| && |w.rs| == |w.stale|
  {
    Ensure(ReleaseExcept(n, needs, WithGood(to, good), w.stale, w.ls, w.rs), needs, to, w.again)
  }

  ghost function Next(s: Client, needs: Needs, e: Event): Client
    requires Enabled(s, needs, e)
  {
    hide OnCycle, OnAuthenticated, Endpoint.Promote, Stale;
    match e
    case Controlled(e) => s.(c := E.Apply(s.c, e).c)
    case GoIdle => s.(c := SessionEnded(s.c), idle := true)
    case Cycle(reason, x, w) =>
      var r := OnCycle(s.c, reason, x);
      if r.switch.None? then s.(c := r.c)
      else s.(c := r.c, n := Switched(s.n, needs, r.switch.value, r.c.home.good, w), remote := r.switch.value)
    case Start => s.(idle := false)
    case Authenticated(now, w) =>
      var c := OnAuthenticated(s.c, now);
      s.(c := c, n := ReleaseExcept(s.n, needs, RetainedBy(c), w.stale, w.ls, w.rs))
    case Promote(expected, now, saved, w) =>
      var c := Endpoint.Promote(s.c, expected, now, saved);
      if PromotionVerdict(s.c, expected, now, saved).Promoted?
      then s.(c := c, n := ReleaseExcept(s.n, needs, RetainedBy(c), w.stale, w.ls, w.rs))
      else s.(c := c)
    case KernelTimer(ls, pending, ps) =>
      s.(n := CleanupAll(EnsureAll(s.n, needs, RetainedBy(s.c), ls), pending, ps))
    case Close(stale, rs) => s.(n := ReleaseAll(s.n, stale, rs), closing := true)
  }

  // ------------------------------------------------------------------ the invariant

  ghost predicate Retention(s: Client) {
    && (s.remote in s.n.table ==> !s.n.table[s.remote].releasing)
    && (s.c.home.good.Some? && s.c.home.good.value in s.n.table ==> !s.n.table[s.c.home.good.value].releasing)
  }

  ghost predicate SystemOk(s: Client, needs: Needs) {
    && E.Inv(s.c) && s.remote == s.c.current
    && Tracks(s.n, needs)
    && (!s.closing ==> Retention(s))
    && (!s.idle && !s.closing ==> s.remote in s.n.table && Ready(s.n.table[s.remote]))
  }

  /** How the controller's two addresses move. */
  lemma ControllerMoves(c: Controller, e: E.Event)
    requires E.Inv(c)
    ensures var r := E.Apply(c, e);
            && E.Inv(r.c)
            && r.c.current == (if r.switch.Some? then r.switch.value else c.current)
            && (r.switch.Some? ==> e.Cycle?)
            && (r.c.home.good == c.home.good || (r.c.home.good == Some(c.current) && (e.Authenticated? || e.PromoteCommand?)))
  {
    hide E.Apply, E.Inv, E.Covered, E.Moves;
    ApplyMoves(c, e);
    GoodMoves(c, e);
  }

  lemma GoodMoves(c: Controller, e: E.Event)
    requires E.Inv(c)
    ensures var r := E.Apply(c, e);
            && (r.switch.Some? ==> e.Cycle?)
            && (r.c.home.good == c.home.good || (r.c.home.good == Some(c.current) && (e.Authenticated? || e.PromoteCommand?)))
  {
    hide E.Usable, E.Same, OnCycle, E.Refreshed, HealthDeadline, Candidates.Ordered;
    if e.Cycle? { E.CycleSelected(c, e.reason, e.x); }
  }

  lemma ApplyMoves(c: Controller, e: E.Event)
    requires E.Inv(c)
    ensures var r := E.Apply(c, e);
            E.Inv(r.c) && r.c.current == (if r.switch.Some? then r.switch.value else c.current)
  {
    hide E.Apply, E.Inv, E.Covered;
    E.ApplyStep(c, e);
  }

  // ------------------------------------------------------------------ steps

  lemma CycleKeeps(s: Client, needs: Needs, e: Event)
    requires SystemOk(s, needs) && Enabled(s, needs, e) && e.Cycle?
    ensures SystemOk(Next(s, needs, e), needs)
  {
    hide OnCycle, E.Inv, Tracks, Ready, EnsureAll, ReleaseExcept, Ensure, Stale;
    var ce := E.Cycle(e.reason, e.x);
    ControllerMoves(s.c, ce);
    var r := OnCycle(s.c, e.reason, e.x);
    assert E.Apply(s.c, ce) == r;
    if r.switch.Some? {
      var to, keep := r.switch.value, WithGood(r.switch.value, r.c.home.good);
      ReleaseExceptTracks(s.n, needs, keep, e.work.stale, e.work.ls, e.work.rs);
      var m := ReleaseExcept(s.n, needs, keep, e.work.stale, e.work.ls, e.work.rs);
      EnsureTracks(m, needs, to, e.work.again);
      var n := Ensure(m, needs, to, e.work.again);
      if r.c.home.good.Some? && r.c.home.good.value != to {
        assert r.c.home.good.value in keep;
        assert SameAt(m, n, r.c.home.good.value);
      }
    }
  }

  /** Releasing all but what the controller retains. */
  lemma ReleaseKeeps(s: Client, needs: Needs, c: Controller, w: Work)
    requires SystemOk(s, needs) && !s.closing && E.Inv(c) && c.current == s.c.current && Fits(s.n, needs, RetainedBy(c), w)
    ensures SystemOk(s.(c := c, n := ReleaseExcept(s.n, needs, RetainedBy(c), w.stale, w.ls, w.rs)), needs)
  {
    hide E.Inv, Tracks, Ready, EnsureAll, ReleaseExcept, Stale;
    var keep := RetainedBy(c);
    ReleaseExceptTracks(s.n, needs, keep, w.stale, w.ls, w.rs);
    assert c.current in keep;
    assert c.home.good.Some? ==> c.home.good.value in keep;
  }

  lemma TimerKeeps(s: Client, needs: Needs, e: Event)
    requires SystemOk(s, needs) && Enabled(s, needs, e) && e.KernelTimer?
    ensures SystemOk(Next(s, needs, e), needs)
  {
    hide E.Inv, Tracks, Ready, EnsureAll, CleanupAll;
    var keep := RetainedBy(s.c);
    EnsureAllTracks(s.n, needs, keep, e.ls);
    var m := EnsureAll(s.n, needs, keep, e.ls);
    CleanupAllTracks(m, needs, e.pending, e.ps);
    var n := CleanupAll(m, e.pending, e.ps);
    assert s.c.current in keep;
    assert SameAt(m, n, s.c.current);
    if s.c.home.good.Some? {
      assert s.c.home.good.value in keep;
      assert SameAt(m, n, s.c.home.good.value);
    }
  }

  lemma QuietKeeps(s: Client, needs: Needs, e: Event)
    requires SystemOk(s, needs) && Enabled(s, needs, e) && (e.Controlled? || e.GoIdle? || e.Start? || e.Close?)
    ensures SystemOk(Next(s, needs, e), needs)
  {
    hide E.Inv, Tracks, Ready, E.Apply, ReleaseAll, Stale;
    if e.Controlled? {
      ControllerMoves(s.c, e.e);
    } else if e.GoIdle? {
      ControllerMoves(s.c, E.Ended);
      EndedIs(s.c);
    } else if e.Close? {
      ReleaseAllTracks(s.n, needs, e.stale, e.rs);
    }
  }

  lemma EndedIs(c: Controller)
    ensures E.Apply(c, E.Ended).c == SessionEnded(c)
  {
  }

  lemma StepKeeps(s: Client, needs: Needs, e: Event)
    requires SystemOk(s, needs) && Enabled(s, needs, e)
    ensures SystemOk(Next(s, needs, e), needs)
  {
    hide SystemOk, OnCycle, E.Inv, ReleaseExcept, Stale, EnsureAll, OnAuthenticated, Endpoint.Promote, PromotionVerdict;
    match e
    case Cycle(reason, x, w) => CycleKeeps(s, needs, e);
    case KernelTimer(ls, pending, ps) => TimerKeeps(s, needs, e);
    case Authenticated(now, w) =>
      Holds(s, needs);
      AuthenticatedMoves(s.c, now);
      ReleaseKeeps(s, needs, OnAuthenticated(s.c, now), w);
    case Promote(expected, now, saved, w) =>
      Holds(s, needs);
      PromoteMoves(s.c, expected, now, saved);
      if PromotionVerdict(s.c, expected, now, saved).Promoted? {
        ReleaseKeeps(s, needs, Endpoint.Promote(s.c, expected, now, saved), w);
      } else {
        PromoteRefused(s.c, expected, now, saved);
      }
    case _ => QuietKeeps(s, needs, e);
  }

  lemma Holds(s: Client, needs: Needs)
    requires SystemOk(s, needs)
    ensures E.Inv(s.c)
  {
  }

  lemma AuthenticatedMoves(c: Controller, now: U64)
    requires E.Inv(c)
    ensures E.Inv(OnAuthenticated(c, now)) && OnAuthenticated(c, now).current == c.current
  {
    hide E.Inv, OnAuthenticated;
    ControllerMoves(c, E.Authenticated(now));
  }

  lemma PromoteMoves(c: Controller, expected: Ip, now: U64, saved: bool)
    requires E.Inv(c)
    ensures E.Inv(Endpoint.Promote(c, expected, now, saved)) && Endpoint.Promote(c, expected, now, saved).current == c.current
  {
    hide E.Inv, Endpoint.Promote;
    ControllerMoves(c, E.PromoteCommand(expected, now, saved));
  }

  lemma PromoteRefused(c: Controller, expected: Ip, now: U64, saved: bool)
    requires !PromotionVerdict(c, expected, now, saved).Promoted?
    ensures Endpoint.Promote(c, expected, now, saved) == c
  {
    hide PromotionVerdict;
  }

  // ------------------------------------------------------------------ runs

  ghost function Run(s: Client, needs: Needs, es: seq<Event>): Client {
    hide Next, Enabled;
    if es == [] then s
    else
      var before := Run(s, needs, es[..|es| - 1]);
      var e := es[|es| - 1];
      if Enabled(before, needs, e) then Next(before, needs, e) else before
  }

  lemma {:induction false} RunKeeps(s: Client, needs: Needs, es: seq<Event>)
    requires SystemOk(s, needs)
    ensures SystemOk(Run(s, needs, es), needs)
    decreases |es|
  {
    hide SystemOk, Next, Enabled;
    if es != [] {
      var before := Run(s, needs, es[..|es| - 1]);
      RunKeeps(s, needs, es[..|es| - 1]);
      if Enabled(before, needs, es[|es| - 1]) { StepKeeps(before, needs, es[|es| - 1]); }
    }
  }

  /** The first address: its rule comes with the firewall set-up, its route is attempted. */
  function InitialNode(needs: Needs, a: Ip, l: Luck): Node {
    var s := Slot(Res(NewManaged(needs.route), if needs.rule then Present else NotNeeded, false), false, needs.rule);
    Ensure(Put(Node(map[], {}, {}), a, s), needs, a, l)
  }

  lemma InitialOk(c: Controller, needs: Needs, l: Luck)
    requires E.Inv(c)
    ensures SystemOk(Client(c, InitialNode(needs, c.current, l), c.current, true, false), needs)
  {
    hide E.Inv, Ensure, Put;
    var s := Slot(Res(NewManaged(needs.route), if needs.rule then Present else NotNeeded, false), false, needs.rule);
    var empty := Node(map[], {}, {});
    PutTracks(empty, needs, c.current, s);
    var n := Put(empty, c.current, s);
    EnsureTracks(n, needs, c.current, l);
    forall x | x != c.current ensures x !in Ensure(n, needs, c.current, l).table {
      assert SameAt(empty, n, x) && SameAt(n, Ensure(n, needs, c.current, l), x);
    }
  }

  /** In every run: while a session is up, packets go to the controller's current address, whose needed route
      and rule really are in the kernel; whatever is in the kernel still has an entry; and neither the current
      nor the committed-good address is being released before shutdown. */
  lemma ResourcesTrackReality(c: Controller, needs: Needs, l: Luck, es: seq<Event>)
    requires E.Inv(c)
    ensures var s := Run(Client(c, InitialNode(needs, c.current, l), c.current, true, false), needs, es);
            && (!s.idle && !s.closing ==>
                  s.remote == s.c.current && (needs.route ==> s.remote in s.n.routes) && (needs.rule ==> s.remote in s.n.rules))
            && (forall a :: a in s.n.routes || a in s.n.rules ==> a in s.n.table)
            && (forall a :: a in s.n.table && s.n.table[a].releasing && !s.closing ==> a != s.c.current && s.c.home.good != Some(a))
  {
    hide E.Inv, InitialNode, Run, SlotOk, Ready;
    InitialOk(c, needs, l);
    RunKeeps(Client(c, InitialNode(needs, c.current, l), c.current, true, false), needs, es);
    var s := Run(Client(c, InitialNode(needs, c.current, l), c.current, true, false), needs, es);
    if !s.idle && !s.closing { SlotSteps(SlotOf(s.n, s.remote), needs, l); }
  }

  /** Shutdown with confirmed deletions leaves nothing behind. */
  lemma CloseLeavesNothing(s: Client, needs: Needs, stale: seq<Ip>, rs: Lucks)
    requires SystemOk(s, needs) && Enabled(s, needs, Close(stale, rs))
    requires forall i :: 0 <= i < |rs| ==> rs[i].routeDel.Confirmed? && rs[i].ruleDel.Confirmed?
    ensures var n := Next(s, needs, Close(stale, rs)).n; n.table == map[] && n.routes == {} && n.rules == {}
  {
    hide E.Inv, ReleaseAll;
    ReleaseCompletes(s.n, needs, stale, rs);
    ReleaseAllTracks(s.n, needs, stale, rs);
    var n := ReleaseAll(s.n, stale, rs);
    forall a ensures a !in n.table {
      assert a !in stale ==> SameAt(s.n, n, a);
    }
  }
}
