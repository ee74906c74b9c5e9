/**
 Any number of controllers sharing one durable ledger: processes start, run, charge, crash and
 restart in any order, and the ledger alone bounds what all of them ever do.
 */
module Fleet {
  import opened Machine
  import Arith
  import opened Relay
  import Ledger
  import LedgerRuns
  import LedgerText
  import LedgerDocuments
  import Endpoint
  import opened EndpointRuns

  /** An operation in progress, and what it has still to ask of the ledger. */
  datatype Job = Job(event: Event, left: seq<Endpoint.Ask>)

  datatype Process = Process(c: Endpoint.Controller, job: Option<Job>)

  /** `sections` are the locked ledger sections entered so far, by any process; `blind` counts the
      blind returns made so far, by any process. */
  datatype State = State(procs: map<nat, Process>, sections: seq<LedgerRuns.Event>, blind: nat)

  datatype Setup = Setup(cfg: Endpoint.Config, ledger: LedgerRuns.World) {
    /** The processes use a ledger at all. */
    predicate Ledgered() {
      cfg.policy.enabled && cfg.stateFile
    }
  }

  /** An operation runs from `Begin` to `Finish`; in between it enters the locked section once for
      every charge it asks for, and other processes take any steps. The verdicts in the event are the
      ones the process is going to hear, so a section that answers otherwise is no step of this
      operation. A process may stop anywhere, also inside the locked section. */
  datatype Action =
    | Start(proc: nat, boot: Endpoint.Boot, readable: bool)
    | Begin(proc: nat, event: Event)
    | Enter(proc: nat, outcome: LedgerRuns.Outcome)
    | Finish(proc: nat)
    | Stop(proc: nat)

  ghost function Shared(s: Setup, f: State): LedgerRuns.World {
    LedgerRuns.Run(s.cfg.policy, s.cfg.safe, s.ledger, f.sections)
  }

  /** What the process hears when it leaves the locked section. */
  ghost function Told(w: LedgerRuns.World, w': LedgerRuns.World, proc: nat): Endpoint.Verdict {
    if proc in w'.disabled then Endpoint.Broken
    else if |w'.grants| > |w.grants| then Endpoint.Granted
    else Endpoint.Denied
  }

  ghost function Reads(s: Setup, a: Action): seq<LedgerRuns.Event>
    requires a.Start?
  {
    if s.Ledgered() then [LedgerRuns.Restart(a.proc, a.boot.wall, a.readable)] else []
  }

  /** The section a process enters is the next one its operation asks for, whatever comes of it. */
  ghost function Section(f: State, a: Action): LedgerRuns.Event
    requires a.Enter? && Asking(f, a.proc)
  {
    var r := f.procs[a.proc].job.value.left[0].record;
    LedgerRuns.Charge(a.proc, r.now, r.key, a.outcome)
  }

  ghost predicate Asking(f: State, proc: nat) {
    proc in f.procs && f.procs[proc].job.Some? && f.procs[proc].job.value.left != []
  }

  predicate Stops(o: LedgerRuns.Outcome) {
    o.CrashBefore? || o.CrashAfter?
  }

  ghost predicate Starts(s: Setup, f: State, a: Action, f': State)
    requires a.Start?
  {
    && a.proc !in f.procs
    && Endpoint.Bootstrap(s.cfg, a.boot).Some?
    && (a.boot.cached.Some? ==> a.boot.cached.value in s.cfg.safe)
    && f' == f.(procs := f.procs[a.proc := Process(Endpoint.Bootstrap(s.cfg, a.boot).value, None)],
                sections := f.sections + Reads(s, a))
    && a.boot.loaded == (a.proc !in Shared(s, f').disabled)
  }

  ghost predicate Begins(f: State, proc: nat, event: Event, f': State) {
    && proc in f.procs && f.procs[proc].job.None?
    && f' == f.(procs := f.procs[proc := f.procs[proc].(job := Some(Job(event, Apply(f.procs[proc].c, event).asked)))])
  }

  ghost predicate Enters(s: Setup, f: State, a: Action, f': State)
    requires a.Enter?
  {
    && Asking(f, a.proc)
    && f'.sections == f.sections + [Section(f, a)] && f'.blind == f.blind
    && var pr := f.procs[a.proc];
       if Stops(a.outcome) then f'.procs == f.procs - {a.proc}
       else
         && Told(Shared(s, f), Shared(s, f'), a.proc) == pr.job.value.left[0].verdict
         && f'.procs == f.procs[a.proc := pr.(job := Some(Job(pr.job.value.event, pr.job.value.left[1..])))]
  }

  ghost predicate Finishes(f: State, proc: nat, f': State) {
    && proc in f.procs && f.procs[proc].job.Some? && f.procs[proc].job.value.left == []
    && var c, r := f.procs[proc].c, Apply(f.procs[proc].c, f.procs[proc].job.value.event);
       f' == State(f.procs[proc := Process(r.c, None)], f.sections, f.blind + Count(IsBlind(c, r)))
  }

  ghost predicate Next(s: Setup, f: State, a: Action, f': State) {
    match a
    case Start(_, _, _) => Starts(s, f, a, f')
    case Begin(proc, event) => Begins(f, proc, event, f')
    case Enter(_, _) => Enters(s, f, a, f')
    case Finish(proc) => Finishes(f, proc, f')
    case Stop(proc) => f' == f.(procs := f.procs - {proc})
  }

  ghost predicate Behaviour(s: Setup, fs: seq<State>, acts: seq<Action>) {
    && |fs| == |acts| + 1
    && fs[0] == State(map[], [], 0)
    && forall i :: 0 <= i < |acts| ==> Next(s, fs[i], acts[i], fs[i + 1])
  }

  // ------------------------------------------------------------------ one process

  /** What the operation in progress has asked so far. */
  ghost function Done(c: Endpoint.Controller, j: Job): seq<Endpoint.Ask> {
    var asked := Apply(c, j.event).asked;
    if |j.left| <= |asked| then asked[..|asked| - |j.left|] else []
  }

  ghost predicate JobOk(c: Endpoint.Controller, j: Job) {
    Apply(c, j.event).asked == Done(c, j) + j.left
  }

  /** The process may probe exactly when the ledger has not disabled it. */
  ghost predicate InStep(pr: Process, disabled: bool) {
    match pr.job
    case None => pr.c.usable == !disabled
    case Some(j) => if j.left == [] then Apply(pr.c, j.event).c.usable == !disabled else !disabled
  }

  ghost predicate ProcessOk(s: Setup, pr: Process, disabled: bool) {
    && Inv(pr.c) && pr.c.cfg == s.cfg
    && (pr.job.Some? ==> JobOk(pr.c, pr.job.value))
    && (s.Ledgered() ==> InStep(pr, disabled))
  }

  /** A charged authorisation not used yet. */
  ghost predicate Holds(pr: Process) {
    HoldsUnused(pr.c)
  }

  /** A charge granted to the operation in progress. */
  ghost predicate Credited(pr: Process) {
    pr.job.Some? && Endpoint.Grants(Done(pr.c, pr.job.value)) != []
  }

  lemma BeginOk(s: Setup, pr: Process, event: Event, disabled: bool)
    requires ProcessOk(s, pr, disabled) && pr.job.None?
    ensures var q := pr.(job := Some(Job(event, Apply(pr.c, event).asked)));
            ProcessOk(s, q, disabled) && Holds(q) == Holds(pr) && !Credited(q)
  {
    hide Apply, Inv, HoldsUnused, AsksSafely;
    ApplyStep(pr.c, event);
    StepAsksSafely(pr.c, Apply(pr.c, event));
    Usability(pr.c, Apply(pr.c, event));
  }

  lemma Usability(c: Endpoint.Controller, r: Endpoint.Outcome)
    requires AsksSafely(c, r)
    ensures if r.asked == [] then r.c.usable == c.usable
            else c.usable && (r.c.usable <==> !r.asked[|r.asked| - 1].verdict.Broken?)
    ensures forall i :: 0 <= i < |r.asked| - 1 ==> r.asked[i].verdict.Denied?
  {
    hide Ledger.Loadable;
  }

  lemma {:induction false} GrantsDenied(asked: seq<Endpoint.Ask>)
    requires forall i :: 0 <= i < |asked| ==> asked[i].verdict.Denied?
    ensures Endpoint.Grants(asked) == []
  {
    if asked != [] { GrantsDenied(asked[1..]); }
  }

  lemma {:induction false} GrantsLast(asked: seq<Endpoint.Ask>, a: Endpoint.Ask)
    requires forall i :: 0 <= i < |asked| ==> asked[i].verdict.Denied?
    ensures |Endpoint.Grants(asked + [a])| == Count(a.verdict.Granted?)
  {
    if asked == [] {
      assert asked + [a] == [a];
    } else {
      GrantsLast(asked[1..], a);
      assert (asked + [a])[1..] == asked[1..] + [a];
    }
  }

  lemma OneGrant(asked: seq<Endpoint.Ask>)
    requires forall i :: 0 <= i < |asked| - 1 ==> asked[i].verdict.Denied?
    ensures |Endpoint.Grants(asked)| <= 1
  {
    if asked != [] {
      var n := |asked| - 1;
      assert asked == asked[..n] + [asked[n]];
      GrantsLast(asked[..n], asked[n]);
    }
  }

  lemma EnterOk(s: Setup, pr: Process, before: bool, disabled: bool)
    requires s.Ledgered() && ProcessOk(s, pr, before) && pr.job.Some? && pr.job.value.left != []
    requires disabled == pr.job.value.left[0].verdict.Broken?
    ensures var j := pr.job.value;
            var q := pr.(job := Some(Job(j.event, j.left[1..])));
            ProcessOk(s, q, disabled) && Holds(q) == Holds(pr) && !Credited(pr)
            && (Credited(q) <==> j.left[0].verdict.Granted?)
  {
    hide Apply, Inv, HoldsUnused, AsksSafely, Done, Endpoint.Grants, EndpointRuns.Step;
    var j := pr.job.value;
    var r := Apply(pr.c, j.event);
    var done := Done(pr.c, j);
    ApplyStep(pr.c, j.event);
    StepAsksSafely(pr.c, r);
    Usability(pr.c, r);
    DoneMore(pr.c, j);
    assert forall i :: 0 <= i < |done| ==> done[i] == r.asked[i];
    assert r.asked[|done|] == j.left[0] && |r.asked| == |done| + |j.left|;
    GrantsDenied(done);
    GrantsLast(done, j.left[0]);
  }

  lemma DoneMore(c: Endpoint.Controller, j: Job)
    requires JobOk(c, j) && j.left != []
    ensures var k := Job(j.event, j.left[1..]); JobOk(c, k) && Done(c, k) == Done(c, j) + [j.left[0]]
  {
    hide Apply;
    var asked, done := Apply(c, j.event).asked, Done(c, j);
    assert asked == done + [j.left[0]] + j.left[1..];
  }

  lemma FinishOk(s: Setup, pr: Process, disabled: bool)
    requires ProcessOk(s, pr, disabled) && pr.job.Some? && pr.job.value.left == []
    ensures var r := Apply(pr.c, pr.job.value.event);
            var q := Process(r.c, None);
            && ProcessOk(s, q, disabled) && !Credited(q)
            && Count(IsBlind(pr.c, r)) + Count(Holds(q)) <= Count(Holds(pr)) + Count(Credited(pr))
  {
    hide Apply, Inv, HoldsUnused, IsBlind, AsksSafely;
    var r := Apply(pr.c, pr.job.value.event);
    ApplyStep(pr.c, pr.job.value.event);
    StepAsksSafely(pr.c, r);
    Usability(pr.c, r);
    OneGrant(r.asked);
    assert Done(pr.c, pr.job.value) == r.asked;
  }

  // ------------------------------------------------------------------ the whole fleet

  ghost function Having(procs: map<nat, Process>, has: Process -> bool): set<nat> {
    set p | p in procs && has(procs[p])
  }

  lemma HavingAfter(procs: map<nat, Process>, p: nat, pr: Process, has: Process -> bool)
    ensures |Having(procs[p := pr], has)| + Count(p in procs && has(procs[p])) == |Having(procs, has)| + Count(has(pr))
  {
    var rest := Having(procs, has) - {p};
    forall q ensures q in Having(procs[p := pr], has) <==> q in rest || (q == p && has(pr)) {
    }
    assert Having(procs[p := pr], has) == if has(pr) then rest + {p} else rest;
    assert Having(procs, has) == if p in procs && has(procs[p]) then rest + {p} else rest;
  }

  lemma HavingShrinks(procs: map<nat, Process>, p: nat, has: Process -> bool)
    ensures |Having(procs - {p}, has)| <= |Having(procs, has)|
  {
    assert Having(procs - {p}, has) == Having(procs, has) - {p};
    Arith.SubsetSize(Having(procs - {p}, has), Having(procs, has));
  }

  /** Charges granted and not used yet. */
  ghost function Unspent(procs: map<nat, Process>): nat {
    |Having(procs, Holds)| + |Having(procs, Credited)|
  }

  lemma UnspentAfter(procs: map<nat, Process>, p: nat, pr: Process)
    ensures Unspent(procs[p := pr]) + (if p in procs then Count(Holds(procs[p])) + Count(Credited(procs[p])) else 0)
            == Unspent(procs) + Count(Holds(pr)) + Count(Credited(pr))
  {
    hide Holds, Credited;
    HavingAfter(procs, p, pr, Holds);
    HavingAfter(procs, p, pr, Credited);
  }

  lemma UnspentShrinks(procs: map<nat, Process>, p: nat)
    ensures Unspent(procs - {p}) <= Unspent(procs)
  {
    HavingShrinks(procs, p, Holds);
    HavingShrinks(procs, p, Credited);
  }

  ghost predicate FleetInv(s: Setup, f: State) {
    && (forall p :: p in f.procs ==> ProcessOk(s, f.procs[p], p in Shared(s, f).disabled))
    && f.blind + Unspent(f.procs) <= |Shared(s, f).grants|
    && LedgerDocuments.AllLoadable(f.sections, s.cfg.safe)
  }

  /** A section concerns the process that enters it alone, and takes no grant back. */
  lemma SectionIsLocal(s: Setup, f: State, e: LedgerRuns.Event, f': State)
    requires f'.sections == f.sections + [e]
    ensures |Shared(s, f).grants| <= |Shared(s, f').grants|
    ensures forall q :: q != e.proc ==> (q in Shared(s, f').disabled <==> q in Shared(s, f).disabled)
  {
    hide Ledger.Precharge, Ledger.Accepted;
    assert f'.sections[..|f'.sections| - 1] == f.sections;
  }

  lemma LoadableAfter(s: Setup, f: State, e: LedgerRuns.Event)
    requires LedgerDocuments.AllLoadable(f.sections, s.cfg.safe) && (e.Charge? ==> Ledger.Loadable(e.key, s.cfg.safe))
    ensures LedgerDocuments.AllLoadable(f.sections + [e], s.cfg.safe)
  {
    hide Ledger.Loadable;
  }

  lemma StartKeeps(s: Setup, f: State, a: Action, f': State)
    requires FleetInv(s, f) && a.Start? && Starts(s, f, a, f')
    ensures FleetInv(s, f')
  {
    hide Endpoint.Bootstrap, Inv, Shared;
    BootstrapKeeps(s.cfg, a.boot);
    StartOk(s, a.boot);
    UnspentAfter(f.procs, a.proc, f'.procs[a.proc]);
    if s.Ledgered() {
      var e := LedgerRuns.Restart(a.proc, a.boot.wall, a.readable);
      SectionIsLocal(s, f, e, f');
      LoadableAfter(s, f, e);
    } else {
      assert f'.sections == f.sections;
      SameShared(s, f, f');
    }
  }

  lemma SameShared(s: Setup, f: State, f': State)
    requires f'.sections == f.sections
    ensures Shared(s, f') == Shared(s, f)
  {
  }

  lemma StartOk(s: Setup, boot: Endpoint.Boot)
    requires boot.cached.Some? ==> boot.cached.value in s.cfg.safe
    requires Endpoint.Bootstrap(s.cfg, boot).Some?
    ensures var pr := Process(Endpoint.Bootstrap(s.cfg, boot).value, None);
            ProcessOk(s, pr, !boot.loaded) && !Holds(pr) && !Credited(pr)
  {
    hide Endpoint.Query, Inv;
    BootstrapKeeps(s.cfg, boot);
    QueryUsable(Endpoint.BeforeFirstQuery(s.cfg, boot), boot);
  }

  lemma QueryUsable(c: Endpoint.Controller, b: Endpoint.Boot)
    ensures Endpoint.Query(c, b.now, b.dns, b.rnd).0.usable == c.usable
  {
  }

  lemma BeginKeeps(s: Setup, f: State, proc: nat, event: Event, f': State)
    requires FleetInv(s, f) && Begins(f, proc, event, f')
    ensures FleetInv(s, f')
  {
    hide Apply, ProcessOk, Holds, Credited, Shared, LedgerDocuments.AllLoadable;
    SameShared(s, f, f');
    BeginOk(s, f.procs[proc], event, proc in Shared(s, f).disabled);
    UnspentAfter(f.procs, proc, f'.procs[proc]);
  }

  lemma FinishKeeps(s: Setup, f: State, proc: nat, f': State)
    requires FleetInv(s, f) && Finishes(f, proc, f')
    ensures FleetInv(s, f')
  {
    hide Apply, ProcessOk, Holds, Credited, Shared, LedgerDocuments.AllLoadable, IsBlind;
    SameShared(s, f, f');
    FinishOk(s, f.procs[proc], proc in Shared(s, f).disabled);
    UnspentAfter(f.procs, proc, f'.procs[proc]);
  }

  /** What a process asks for is loadable, and only processes with a ledger ask. */
  lemma AskingOk(s: Setup, pr: Process, disabled: bool)
    requires ProcessOk(s, pr, disabled) && pr.job.Some? && pr.job.value.left != []
    ensures s.Ledgered() && Ledger.Loadable(pr.job.value.left[0].record.key, s.cfg.safe)
  {
    hide Apply, Inv, Ledger.Loadable;
    var r := Apply(pr.c, pr.job.value.event);
    ApplyStep(pr.c, pr.job.value.event);
    StepAsksSafely(pr.c, r);
    assert r.asked[|Done(pr.c, pr.job.value)|] == pr.job.value.left[0];
  }

  lemma EnterKeeps(s: Setup, f: State, a: Action, f': State)
    requires FleetInv(s, f) && a.Enter? && Enters(s, f, a, f')
    ensures FleetInv(s, f')
  {
    hide ProcessOk, Holds, Credited, Shared, LedgerDocuments.AllLoadable;
    var pr := f.procs[a.proc];
    AskingOk(s, pr, a.proc in Shared(s, f).disabled);
    SectionIsLocal(s, f, Section(f, a), f');
    LoadableAfter(s, f, Section(f, a));
    if Stops(a.outcome) {
      UnspentShrinks(f.procs, a.proc);
    } else {
      EnterOk(s, pr, a.proc in Shared(s, f).disabled, a.proc in Shared(s, f').disabled);
      UnspentAfter(f.procs, a.proc, f'.procs[a.proc]);
    }
  }

  lemma NextKeeps(s: Setup, f: State, a: Action, f': State)
    requires FleetInv(s, f) && Next(s, f, a, f')
    ensures FleetInv(s, f')
  {
    hide Starts, Begins, Enters, Finishes, ProcessOk, Shared, Unspent, LedgerDocuments.AllLoadable;
    match a
    case Start(_, _, _) => StartKeeps(s, f, a, f');
    case Begin(proc, event) => BeginKeeps(s, f, proc, event, f');
    case Enter(_, _) => EnterKeeps(s, f, a, f');
    case Finish(proc) => FinishKeeps(s, f, proc, f');
    case Stop(proc) =>
      SameShared(s, f, f');
      UnspentShrinks(f.procs, proc);
  }

  lemma {:induction false} BehaviourKeeps(s: Setup, fs: seq<State>, acts: seq<Action>, i: nat)
    requires LedgerRuns.Initial(s.ledger) && Behaviour(s, fs, acts) && i < |fs|
    ensures FleetInv(s, fs[i])
  {
    hide ProcessOk, Next;
    if i == 0 {
      assert Having(map[], Holds) == {} && Having(map[], Credited) == {};
    } else {
      BehaviourKeeps(s, fs, acts, i - 1);
      NextKeeps(s, fs[i - 1], acts[i - 1], fs[i]);
    }
  }

  /** Over every behaviour of every fleet, all blind returns together, plus the charges granted and
      not used yet, stay within the durable charges; hence within the initial tokens plus one per
      refill interval, and from an empty ledger within sixteen keys at their cap for ever. */
  lemma FleetBudget(s: Setup, fs: seq<State>, acts: seq<Action>, i: nat)
    requires LedgerRuns.Initial(s.ledger) && Behaviour(s, fs, acts) && i < |fs|
    ensures var f, w := fs[i], Shared(s, fs[i]);
            && f.blind + Unspent(f.procs) <= |w.log|
            && (w.log != [] ==>
                  f.blind <= LedgerRuns.Tokens0(s.cfg.policy, s.ledger.cell)
                    + (if s.cfg.policy.RefillSecs() == 0 then 0
                       else SatSub(LedgerRuns.Latest(f.sections), LedgerRuns.Updated0(s.ledger.cell, w.log))
                            / s.cfg.policy.RefillSecs()))
            && (LedgerRuns.Entries(s.ledger.cell) == [] ==>
                  f.blind <= MAX_BUDGET_ENTRIES * LedgerRuns.Cap(s.cfg.policy))
  {
    hide ProcessOk, Next;
    var p, safe, evs := s.cfg.policy, s.cfg.safe, fs[i].sections;
    BehaviourKeeps(s, fs, acts, i);
    LedgerRuns.GrantsAreDurable(p, safe, s.ledger, evs);
    LedgerRuns.BucketRun(p, safe, s.ledger, evs);
    LedgerRuns.ProbeBudget(p, safe, s.ledger, evs);
    if LedgerRuns.Entries(s.ledger.cell) == [] {
      LedgerRuns.LifetimeBudget(p, safe, s.ledger, evs);
    }
  }

  /** Over every behaviour of every fleet that starts from an absent document, or from a sound one
      with stamps up to `upto`: whatever was granted, refused, lost in an error or cut short by a
      crash, the document on disk fits the file limit and reloads to itself for every process whose
      clock is no more than 300 s behind. */
  lemma FleetDocuments(s: Setup, fs: seq<State>, acts: seq<Action>, i: nat, upto: nat, host: string, port: LedgerText.Port, now: U64)
    requires LedgerDocuments.StartsSound(s.cfg.policy, s.cfg.safe, s.ledger, upto) && LedgerText.HostOk(host)
    requires Behaviour(s, fs, acts) && i < |fs|
    requires Max(upto, LedgerRuns.Latest(fs[i].sections)) <= SatAdd(now, CLOCK_SKEW_SECS)
    ensures var cell := Shared(s, fs[i]).cell;
            cell.Some? ==> LedgerDocuments.Reloads(cell.value, s.cfg.policy, s.cfg.safe, host, port, now)
  {
    hide ProcessOk, Next, LedgerDocuments.Sound, LedgerDocuments.Reloads;
    BehaviourKeeps(s, fs, acts, i);
    LedgerDocuments.DocumentsReload(s.cfg.policy, s.cfg.safe, s.ledger, upto, fs[i].sections, host, port, now);
  }

  /** A process loses its probes only through a failed lock, read or write, or a clock more than
      300 s behind: without those every process between two operations may still probe. */
  lemma FleetStaysUsable(s: Setup, fs: seq<State>, acts: seq<Action>, i: nat, upto: nat, p: nat)
    requires LedgerDocuments.StartsSound(s.cfg.policy, s.cfg.safe, s.ledger, upto) && s.ledger.disabled == {}
    requires s.Ledgered() && Behaviour(s, fs, acts) && i < |fs|
    requires LedgerDocuments.Orderly(fs[i].sections, upto)
    requires p in fs[i].procs && fs[i].procs[p].job.None?
    ensures fs[i].procs[p].c.usable
  {
    hide Next, Inv, LedgerDocuments.Sound, LedgerDocuments.Orderly;
    BehaviourKeeps(s, fs, acts, i);
    LedgerDocuments.NoneDisabled(s.cfg.policy, s.cfg.safe, s.ledger, upto, fs[i].sections);
    assert ProcessOk(s, fs[i].procs[p], false);
  }
}
