/**
 The ordered crypto pipeline: the I/O thread hands batches to workers round-robin over bounded
 queues and collects results round-robin. Every interleaving of its steps with the workers' is a
 run of this state machine, for every worker count.
 */
module Pipeline {
  import opened Machine
  import opened Arith

  datatype JobKey = JobKey(slot: nat, generation: nat)

  datatype Job =
    | Encrypt(key: JobKey, plain: seq<bv8>)
    | Decrypt(key: JobKey, wire: seq<bv8>, meta: nat)

  datatype Done =
    | Encrypted(key: JobKey, out: Option<seq<bv8>>)
    | Decrypted(key: JobKey, plains: seq<seq<bv8>>, meta: nat)

  /** The pure work on one job, fixed by the keys of the role. */
  type Process = Job -> Done

  const BATCH_JOBS: nat := 16
  const QUEUE_DEPTH: nat := 64

  /** One worker thread: its bounded input queue, the batch it is working on, its bounded output
      queue, and whether the thread still lives. */
  datatype Worker = Worker(jobs: seq<seq<Job>>, hand: Option<seq<Job>>, done: seq<seq<Done>>, alive: bool)

  /** The fields of the I/O thread's object, its workers, and ghost history: every batch handed over
      (`sent`), how many came back (`collected`), what was delivered, and the jobs submitted,
      dropped because a queue was full, or lost to a dead worker. */
  datatype State = State(
    workers: seq<Worker>,
    nextDispatch: nat,
    nextCollect: nat,
    inFlight: nat,
    batch: seq<Job>,
    inlineDone: seq<Done>,
    dropped: nat,
    history: History)

  /** A batch that left the I/O thread's buffer, and whether a worker accepted it. */
  datatype Closed = Closed(jobs: seq<Job>, accepted: bool)

  datatype History = History(closed: seq<Closed>, sent: seq<seq<Job>>, collected: nat, delivered: seq<Done>,
                             submitted: seq<Job>, lost: nat)

  function Close(h: History, b: seq<Job>, accepted: bool): History {
    h.(closed := h.closed + [Closed(b, accepted)], sent := if accepted then h.sent + [b] else h.sent)
  }

  function ProcessAll(f: Process, jobs: seq<Job>): (r: seq<Done>)
    ensures |r| == |jobs| && forall i :: 0 <= i < |r| ==> r[i] == f(jobs[i])
  {
    seq(|jobs|, i requires 0 <= i < |jobs| => f(jobs[i]))
  }

  // ------------------------------------------------------------------ steps of the I/O thread

  function Flush(s: State): State {
    if s.batch == [] || s.workers == [] || s.nextDispatch >= |s.workers| then s
    else
      var w := s.workers[s.nextDispatch];
      if !w.alive then s.(batch := [], history := Close(s.history, s.batch, false).(lost := s.history.lost + |s.batch|))
      else if |w.jobs| >= QUEUE_DEPTH then s.(batch := [], dropped := s.dropped + |s.batch|, history := Close(s.history, s.batch, false))
      else
        s.(workers := s.workers[s.nextDispatch := w.(jobs := w.jobs + [s.batch])],
           nextDispatch := (s.nextDispatch + 1) % |s.workers|,
           inFlight := s.inFlight + 1,
           batch := [],
           history := Close(s.history, s.batch, true))
  }

  function Submit(f: Process, s: State, job: Job): State {
    var h := s.history.(submitted := s.history.submitted + [job]);
    if s.workers == [] then s.(inlineDone := s.inlineDone + [f(job)], history := h)
    else
      var s1 := s.(batch := s.batch + [job], history := h);
      if |s1.batch| >= BATCH_JOBS then Flush(s1) else s1
  }

  predicate CanReceive(s: State) {
    s.inFlight > 0 && s.nextCollect < |s.workers| && s.workers[s.nextCollect].done != []
  }

  /** One successful `try_recv` of the collect loop. */
  function Receive(s: State): State
    requires CanReceive(s)
  {
    var w := s.workers[s.nextCollect];
    s.(workers := s.workers[s.nextCollect := w.(done := w.done[1..])],
       nextCollect := (s.nextCollect + 1) % |s.workers|,
       inFlight := s.inFlight - 1,
       history := s.history.(collected := s.history.collected + 1, delivered := s.history.delivered + w.done[0]))
  }

  /** Inline mode: deliver everything. */
  function DrainInline(s: State): State {
    s.(inlineDone := [], history := s.history.(delivered := s.history.delivered + s.inlineDone))
  }

  // ------------------------------------------------------------------ steps of a worker thread

  predicate CanTake(w: Worker) {
    w.alive && w.hand.None? && w.jobs != []
  }

  function Take(w: Worker): Worker
    requires CanTake(w)
  {
    w.(hand := Some(w.jobs[0]), jobs := w.jobs[1..])
  }

  predicate CanFinish(w: Worker) {
    w.alive && w.hand.Some? && |w.done| < QUEUE_DEPTH
  }

  function Finish(f: Process, w: Worker): Worker
    requires CanFinish(w)
  {
    w.(hand := None, done := w.done + [ProcessAll(f, w.hand.value)])
  }

  /** A worker that dies takes what it had not finished with it; finished batches can still be read. */
  function Die(w: Worker): Worker {
    w.(jobs := [], hand := None, alive := false)
  }

  datatype Step =
    | SubmitStep(job: Job)
    | FlushStep
    | ReceiveStep
    | DrainStep
    | TakeStep(worker: nat)
    | FinishStep(worker: nat)
    | DieStep(worker: nat)

  /** A step that is not enabled does nothing. */
  function Next(f: Process, s: State, e: Step): State {
    match e
    case SubmitStep(job) => Submit(f, s, job)
    case FlushStep => Flush(s)
    case ReceiveStep => if CanReceive(s) then Receive(s) else s
    case DrainStep => if s.workers == [] then DrainInline(s) else s
    case TakeStep(w) =>
      if w < |s.workers| && CanTake(s.workers[w]) then s.(workers := s.workers[w := Take(s.workers[w])]) else s
    case FinishStep(w) =>
      if w < |s.workers| && CanFinish(s.workers[w]) then s.(workers := s.workers[w := Finish(f, s.workers[w])]) else s
    case DieStep(w) =>
      if w < |s.workers| then s.(workers := s.workers[w := Die(s.workers[w])]) else s
  }

  function Start(threads: nat): State {
    State(seq(threads, i => Worker([], None, [], true)), 0, 0, 0, [], [], 0, History([], [], 0, [], [], 0))
  }

  ghost function Run(f: Process, s: State, es: seq<Step>): State {
    if es == [] then s else Next(f, Run(f, s, es[..|es| - 1]), es[|es| - 1])
  }

  // ------------------------------------------------------------------ what each worker holds

  /** What a worker still owes, oldest first: finished, in hand, queued. */
  ghost function Owes(f: Process, w: Worker): (r: seq<seq<Done>>)
    ensures |r| == |w.done| + (if w.hand.Some? then 1 else 0) + |w.jobs|
  {
    w.done + (if w.hand.Some? then [ProcessAll(f, w.hand.value)] else [])
      + seq(|w.jobs|, i requires 0 <= i < |w.jobs| => ProcessAll(f, w.jobs[i]))
  }

  /** The first batch not collected yet that went to worker `w` of `n`. */
  ghost function First(collected: nat, w: nat, n: nat): nat
    requires w < n
  {
    if w >= collected % n then collected + (w - collected % n) else collected + (n + w - collected % n)
  }

  /** The `j`-th batch of a worker whose first one is `k`. */
  ghost function Nth(k: nat, n: nat, j: nat): nat {
    k + j * n
  }

  lemma NthNext(k: nat, n: nat, j: nat)
    ensures Nth(k, n, j + 1) == Nth(k, n, j) + n == Nth(k + n, n, j)
    ensures Nth(k, n, 0) == k
  {
    assert (j + 1) * n == j * n + n;
  }

  /** Worker `w` holds exactly every `n`-th batch from its first one on (a dead one, a prefix). */
  ghost predicate Holds(f: Process, h: History, n: nat, w: nat, worker: Worker)
    requires w < n
  {
    h.collected <= |h.sent| && HoldsFrom(f, h.sent, n, First(h.collected, w, n), Owes(f, worker), worker.alive)
  }

  /** `o` is the outcome of the batches `k`, `k + n`, ... that were sent, all of them if still `alive`. */
  ghost predicate HoldsFrom(f: Process, sent: seq<seq<Job>>, n: nat, k: nat, o: seq<seq<Done>>, alive: bool) {
    && (forall j :: 0 <= j < |o| ==> Nth(k, n, j) < |sent| && o[j] == ProcessAll(f, sent[Nth(k, n, j)]))
    && (alive ==> Nth(k, n, |o|) >= |sent|)
  }

  ghost function Flatten<T>(bs: seq<seq<T>>): seq<T> {
    if bs == [] then [] else Flatten(bs[..|bs| - 1]) + bs[|bs| - 1]
  }

  /** All jobs of the closed batches, in submission order. */
  ghost function JobsOf(cs: seq<Closed>): seq<Job> {
    if cs == [] then [] else JobsOf(cs[..|cs| - 1]) + cs[|cs| - 1].jobs
  }

  /** The batches that were accepted, in submission order. */
  ghost function Kept(cs: seq<Closed>): seq<seq<Job>> {
    if cs == [] then []
    else Kept(cs[..|cs| - 1]) + if cs[|cs| - 1].accepted then [cs[|cs| - 1].jobs] else []
  }

  /** Submission order is kept: what was submitted is the closed batches, then the pending one. */
  ghost predicate Ordered(s: State) {
    var h := s.history;
    && h.submitted == JobsOf(h.closed) + s.batch
    && h.sent == Kept(h.closed)
    && |h.submitted| == |Flatten(h.sent)| + |s.batch| + s.dropped + h.lost
  }

  ghost predicate RoundRobin(s: State) {
    var h, n := s.history, |s.workers|;
    && h.collected + s.inFlight == |h.sent|
    && n > 0 && s.nextCollect == h.collected % n && s.nextDispatch == |h.sent| % n
  }

  ghost predicate Inv(f: Process, s: State) {
    var h, n := s.history, |s.workers|;
    if n == 0 then
      h.sent == [] && s.inFlight == 0 && h.delivered + s.inlineDone == ProcessAll(f, h.submitted)
    else
      && RoundRobin(s)
      && Ordered(s)
      && s.inlineDone == []
      && Delivered(f, h)
      && AllHold(f, h, s.workers)
  }

  ghost predicate Delivered(f: Process, h: History) {
    h.collected <= |h.sent| && h.delivered == ProcessAll(f, Flatten(h.sent[..h.collected]))
  }

  ghost predicate AllHold(f: Process, h: History, ws: seq<Worker>) {
    forall w :: 0 <= w < |ws| ==> Holds(f, h, |ws|, w, ws[w])
  }

  // ------------------------------------------------------------------ what each step does to a worker

  lemma OwesTake(f: Process, w: Worker)
    requires CanTake(w)
    ensures Owes(f, Take(w)) == Owes(f, w)
  {
  }

  lemma OwesFinish(f: Process, w: Worker)
    requires CanFinish(w)
    ensures Owes(f, Finish(f, w)) == Owes(f, w)
  {
  }

  lemma OwesDie(f: Process, w: Worker)
    ensures Owes(f, Die(w)) <= Owes(f, w)
  {
  }

  lemma OwesQueued(f: Process, w: Worker, b: seq<Job>)
    ensures Owes(f, w.(jobs := w.jobs + [b])) == Owes(f, w) + [ProcessAll(f, b)]
  {
    var a, c := Owes(f, w.(jobs := w.jobs + [b])), Owes(f, w) + [ProcessAll(f, b)];
    assert |a| == |c|;
    forall i | 0 <= i < |a| ensures a[i] == c[i] {}
  }

  lemma OwesTaken(f: Process, w: Worker)
    requires w.done != []
    ensures Owes(f, w) == [w.done[0]] + Owes(f, w.(done := w.done[1..]))
  {
  }

  // ------------------------------------------------------------------ round-robin arithmetic

  lemma FirstMod(c: nat, w: nat, n: nat)
    requires w < n
    ensures First(c, w, n) % n == w && c <= First(c, w, n) < c + n
    ensures w == c % n <==> First(c, w, n) == c
  {
    var q, r := c / n, c % n;
    assert c == q * n + r;
    if w >= r {
      ModUnique(q, w, n);
    } else {
      assert First(c, w, n) == (q + 1) * n + w;
      ModUnique(q + 1, w, n);
    }
  }

  lemma FirstNext(c: nat, w: nat, n: nat)
    requires w < n
    ensures First(c + 1, w, n) == if w == c % n then First(c, w, n) + n else First(c, w, n)
  {
    NextMod(c, n);
  }

  // ------------------------------------------------------------------ every step keeps the invariant

  /** A worker step that does not change what it owes. */
  lemma HoldsSame(f: Process, h: History, n: nat, w: nat, a: Worker, b: Worker)
    requires w < n && Holds(f, h, n, w, a) && Owes(f, a) == Owes(f, b) && (b.alive ==> a.alive)
    ensures Holds(f, h, n, w, b)
  {
  }

  lemma HoldsDead(f: Process, h: History, n: nat, w: nat, a: Worker)
    requires w < n && Holds(f, h, n, w, a)
    ensures Holds(f, h, n, w, Die(a))
  {
    OwesDie(f, a);
    var o, p := Owes(f, a), Owes(f, Die(a));
    assert forall j :: 0 <= j < |p| ==> p[j] == o[j];
  }

  /** The next batch to hand over is the one after the last that its worker holds. */
  lemma NextIndex(c: nat, w: nat, n: nat, k: nat, l: nat)
    requires w < n && c <= l && w == l % n
    requires Nth(First(c, w, n), n, k) >= l && (k > 0 ==> Nth(First(c, w, n), n, k - 1) < l)
    ensures Nth(First(c, w, n), n, k) == l
  {
    var x := First(c, w, n);
    FirstMod(c, w, n);
    AddMultiple(x, k, n);
    NthNext(x, n, 0);
    if k > 0 { NthNext(x, n, k - 1); }
    ResidueUnique(Nth(x, n, k), l, n);
  }

  lemma OtherIndex(c: nat, w: nat, n: nat, k: nat, l: nat)
    requires w < n && w != l % n
    ensures Nth(First(c, w, n), n, k) != l
  {
    FirstMod(c, w, n);
    AddMultiple(First(c, w, n), k, n);
  }

  /** Handing batch number `|sent|` over keeps what every worker holds. */
  lemma HoldsSent(f: Process, h: History, n: nat, w: nat, a: Worker, b: seq<Job>)
    requires w < n && Holds(f, h, n, w, a)
    ensures w != |h.sent| % n ==> Holds(f, Close(h, b, true), n, w, a)
    ensures w == |h.sent| % n && a.alive ==> Holds(f, Close(h, b, true), n, w, a.(jobs := a.jobs + [b]))
  {
    hide Nth, First, Owes, HoldsFrom;
    var h', l, o := Close(h, b, true), |h.sent|, Owes(f, a);
    var k := First(h.collected, w, n);
    if w != l % n {
      OtherIndex(h.collected, w, n, |o|, l);
      HoldsLonger(f, h.sent, n, k, o, a.alive, b);
    } else if a.alive {
      OwesQueued(f, a, b);
      EndsAt(f, h.sent, n, k, o);
      NextIndex(h.collected, w, n, |o|, l);
      HoldsExtended(f, h.sent, n, k, o, b);
      assert Owes(f, a.(jobs := a.jobs + [b])) == o + [ProcessAll(f, b)];
    }
  }

  lemma EndsAt(f: Process, sent: seq<seq<Job>>, n: nat, k: nat, o: seq<seq<Done>>)
    requires HoldsFrom(f, sent, n, k, o, true)
    ensures Nth(k, n, |o|) >= |sent| && (|o| > 0 ==> Nth(k, n, |o| - 1) < |sent|)
  {
    hide Nth, ProcessAll;
  }

  /** A batch with another worker's number changes nothing here. */
  lemma HoldsLonger(f: Process, sent: seq<seq<Job>>, n: nat, k: nat, o: seq<seq<Done>>, alive: bool, b: seq<Job>)
    requires HoldsFrom(f, sent, n, k, o, alive) && Nth(k, n, |o|) != |sent|
    ensures HoldsFrom(f, sent + [b], n, k, o, alive)
  {
    hide Nth, ProcessAll;
  }

  lemma HoldsExtended(f: Process, sent: seq<seq<Job>>, n: nat, k: nat, o: seq<seq<Done>>, b: seq<Job>)
    requires HoldsFrom(f, sent, n, k, o, true) && Nth(k, n, |o|) == |sent| && n > 0
    ensures HoldsFrom(f, sent + [b], n, k, o + [ProcessAll(f, b)], true)
  {
    hide Nth, ProcessAll;
    NthNext(k, n, |o|);
  }

  /** Collecting batch number `collected` keeps what every worker holds. */
  lemma HoldsReceived(f: Process, h: History, n: nat, w: nat, a: Worker, d: seq<Done>)
    requires w < n && Holds(f, h, n, w, a) && h.collected < |h.sent|
    ensures var h' := h.(collected := h.collected + 1, delivered := d);
            && (w != h.collected % n ==> Holds(f, h', n, w, a))
            && (w == h.collected % n && a.done != [] ==> Holds(f, h', n, w, a.(done := a.done[1..])))
  {
    hide Nth, First, Owes, HoldsFrom;
    FirstNext(h.collected, w, n);
    if w == h.collected % n && a.done != [] {
      OwesTaken(f, a);
      HoldsShifted(f, h.sent, n, First(h.collected, w, n), First(h.collected + 1, w, n), a.done[0], Owes(f, a.(done := a.done[1..])), a.alive);
    }
  }

  /** What is owed from number `k` on, less its first batch, is what is owed from `k + n` on. */
  lemma HoldsShifted(f: Process, sent: seq<seq<Job>>, n: nat, k: nat, m: nat, d: seq<Done>, o: seq<seq<Done>>, alive: bool)
    requires HoldsFrom(f, sent, n, k, [d] + o, alive) && m == k + n
    ensures HoldsFrom(f, sent, n, m, o, alive)
  {
    hide Nth, ProcessAll;
    var p := [d] + o;
    NthNext(k, n, |o|);
    assert alive ==> Nth(k, n, |p|) >= |sent|;
    forall j | 0 <= j < |o| ensures Nth(m, n, j) < |sent| && o[j] == ProcessAll(f, sent[Nth(m, n, j)]) {
      NthNext(k, n, j);
      assert o[j] == p[j + 1];
      assert Nth(k, n, j + 1) < |sent|;
    }
  }

  lemma FlattenAppend<T>(bs: seq<seq<T>>, b: seq<T>)
    ensures Flatten(bs + [b]) == Flatten(bs) + b
  {
    assert (bs + [b])[..|bs|] == bs;
  }

  lemma ProcessConcat(f: Process, a: seq<Job>, b: seq<Job>)
    ensures ProcessAll(f, a + b) == ProcessAll(f, a) + ProcessAll(f, b)
  {
  }

  lemma OrderedClose(s: State, b: seq<Job>, accepted: bool, dropped: nat, lost: nat)
    requires Ordered(s) && b == s.batch && (accepted || dropped + lost == |b|) && (accepted ==> dropped + lost == 0)
    ensures Ordered(s.(batch := [], dropped := s.dropped + dropped,
                       history := Close(s.history, b, accepted).(lost := s.history.lost + lost)))
  {
    var h := s.history;
    var c := Closed(b, accepted);
    assert (h.closed + [c])[..|h.closed|] == h.closed;
    FlattenAppend(h.sent, b);
  }

  lemma RoundRobinSent(s: State)
    requires RoundRobin(s) && s.batch != [] && CanSend(s)
    ensures RoundRobin(Flush(s))
  {
    ModNext(|s.history.sent|, |s.workers|);
  }

  predicate CanSend(s: State) {
    s.nextDispatch < |s.workers| && s.workers[s.nextDispatch].alive && |s.workers[s.nextDispatch].jobs| < QUEUE_DEPTH
  }

  lemma AllHoldSent(f: Process, s: State)
    requires AllHold(f, s.history, s.workers) && RoundRobin(s) && s.batch != [] && CanSend(s)
    ensures AllHold(f, Flush(s).history, Flush(s).workers)
  {
    hide Holds;
    var n, s' := |s.workers|, Flush(s);
    forall i | 0 <= i < n ensures Holds(f, s'.history, n, i, s'.workers[i]) {
      assert Holds(f, s.history, n, i, s.workers[i]);
      HoldsSent(f, s.history, n, i, s.workers[i], s.batch);
    }
  }

  lemma DeliveredSent(f: Process, h: History, b: seq<Job>)
    requires Delivered(f, h)
    ensures Delivered(f, Close(h, b, true))
  {
    assert (h.sent + [b])[..h.collected] == h.sent[..h.collected];
  }

  lemma DispatchInRange(s: State)
    requires RoundRobin(s)
    ensures s.nextDispatch < |s.workers| && s.nextCollect < |s.workers|
  {
  }

  lemma FlushKeeps(f: Process, s: State)
    requires Inv(f, s)
    ensures Inv(f, Flush(s)) && |Flush(s).workers| == |s.workers|
  {
    hide RoundRobin, Ordered, Delivered, AllHold;
    if s.batch != [] && |s.workers| > 0 {
      DispatchInRange(s);
      var w, s' := s.workers[s.nextDispatch], Flush(s);
      if !w.alive || |w.jobs| >= QUEUE_DEPTH {
        OrderedClose(s, s.batch, false, s'.dropped - s.dropped, s'.history.lost - s.history.lost);
        Refused(f, s, s');
      } else {
        OrderedClose(s, s.batch, true, 0, 0);
        OrderedOnly(s.(batch := [], history := s'.history), s');
        RoundRobinSent(s);
        AllHoldSent(f, s);
        DeliveredSent(f, s.history, s.batch);
      }
    }
  }

  lemma OrderedOnly(s: State, t: State)
    requires Ordered(s) && t.batch == s.batch && t.dropped == s.dropped && t.history == s.history
    ensures Ordered(t)
  {
  }

  /** What concerns the workers depends only on the batches sent and collected. */
  lemma Refused(f: Process, s: State, t: State)
    requires RoundRobin(s) && Delivered(f, s.history) && AllHold(f, s.history, s.workers)
    requires t.workers == s.workers && t.nextCollect == s.nextCollect && t.nextDispatch == s.nextDispatch && t.inFlight == s.inFlight
    requires t.history.sent == s.history.sent && t.history.collected == s.history.collected
    requires t.history.delivered == s.history.delivered
    ensures RoundRobin(t) && Delivered(f, t.history) && AllHold(f, t.history, t.workers)
  {
    forall w | 0 <= w < |s.workers| ensures Holds(f, t.history, |s.workers|, w, s.workers[w]) {
      assert Holds(f, s.history, |s.workers|, w, s.workers[w]);
    }
  }

  lemma SubmittedInv(f: Process, s: State, job: Job)
    requires Inv(f, s) && s.workers != []
    ensures Inv(f, s.(batch := s.batch + [job], history := s.history.(submitted := s.history.submitted + [job])))
  {
    hide RoundRobin, Delivered, AllHold, JobsOf, Kept, Flatten;
    Refused(f, s, s.(batch := s.batch + [job], history := s.history.(submitted := s.history.submitted + [job])));
  }

  lemma SubmitKeeps(f: Process, s: State, job: Job)
    requires Inv(f, s)
    ensures Inv(f, Submit(f, s, job)) && |Submit(f, s, job).workers| == |s.workers|
  {
    hide RoundRobin, Delivered, AllHold, Flush, JobsOf, Kept, Flatten;
    var h := s.history.(submitted := s.history.submitted + [job]);
    if s.workers == [] {
      ProcessConcat(f, s.history.submitted, [job]);
      assert ProcessAll(f, [job]) == [f(job)];
    } else {
      var s1 := s.(batch := s.batch + [job], history := h);
      Refused(f, s, s1);
      FlushKeeps(f, s1);
    }
  }

  lemma RoundRobinReceived(s: State)
    requires RoundRobin(s) && CanReceive(s)
    ensures RoundRobin(Receive(s))
  {
    ModNext(s.history.collected, |s.workers|);
  }

  lemma DeliveredReceived(f: Process, s: State)
    requires RoundRobin(s) && Delivered(f, s.history) && AllHold(f, s.history, s.workers) && CanReceive(s)
    ensures Delivered(f, Receive(s).history)
  {
    hide Holds, Flatten;
    var h, k := s.history, s.nextCollect;
    assert Holds(f, h, |s.workers|, k, s.workers[k]);
    FirstIsOwed(f, h, |s.workers|, k, s.workers[k]);
    assert h.sent[..h.collected + 1] == h.sent[..h.collected] + [h.sent[h.collected]];
    FlattenAppend(h.sent[..h.collected], h.sent[h.collected]);
    ProcessConcat(f, Flatten(h.sent[..h.collected]), h.sent[h.collected]);
  }

  lemma AllHoldReceived(f: Process, s: State)
    requires RoundRobin(s) && AllHold(f, s.history, s.workers) && CanReceive(s)
    ensures AllHold(f, Receive(s).history, Receive(s).workers)
  {
    hide Holds;
    var n, s' := |s.workers|, Receive(s);
    forall w | 0 <= w < n ensures Holds(f, s'.history, n, w, s'.workers[w]) {
      assert Holds(f, s.history, n, w, s.workers[w]);
      HoldsReceived(f, s.history, n, w, s.workers[w], s'.history.delivered);
    }
  }

  lemma ReceiveKeeps(f: Process, s: State)
    requires Inv(f, s) && CanReceive(s)
    ensures Inv(f, Receive(s))
  {
    hide RoundRobin, Delivered, AllHold, JobsOf, Kept, Flatten;
    RoundRobinReceived(s);
    DeliveredReceived(f, s);
    AllHoldReceived(f, s);
  }

  /** The batch at the head of the next worker's output queue is the oldest outstanding one. */
  lemma FirstIsOwed(f: Process, h: History, n: nat, k: nat, w: Worker)
    requires n > 0 && k == h.collected % n && Holds(f, h, n, k, w) && w.done != []
    ensures h.collected < |h.sent| && w.done[0] == ProcessAll(f, h.sent[h.collected])
  {
    FirstMod(h.collected, k, n);
    assert Owes(f, w)[0] == w.done[0];
    NthNext(h.collected, n, 0);
  }

  lemma WorkerKeeps(f: Process, s: State, w: nat, b: Worker)
    requires Inv(f, s) && w < |s.workers| && Holds(f, s.history, |s.workers|, w, b)
    ensures Inv(f, s.(workers := s.workers[w := b]))
  {
    hide Holds, Flatten, JobsOf, Kept;
  }

  lemma NextKeeps(f: Process, s: State, e: Step)
    requires Inv(f, s)
    ensures Inv(f, Next(f, s, e)) && |Next(f, s, e).workers| == |s.workers|
  {
    hide RoundRobin, Ordered, Delivered, Submit, Flush, Holds;
    match e
    case SubmitStep(job) => SubmitKeeps(f, s, job);
    case FlushStep => FlushKeeps(f, s);
    case ReceiveStep => if CanReceive(s) { ReceiveKeeps(f, s); }
    case DrainStep =>
    case TakeStep(w) =>
      if w < |s.workers| && CanTake(s.workers[w]) {
        OwesTake(f, s.workers[w]);
        HoldsSame(f, s.history, |s.workers|, w, s.workers[w], Take(s.workers[w]));
        WorkerKeeps(f, s, w, Take(s.workers[w]));
      }
    case FinishStep(w) =>
      if w < |s.workers| && CanFinish(s.workers[w]) {
        OwesFinish(f, s.workers[w]);
        HoldsSame(f, s.history, |s.workers|, w, s.workers[w], Finish(f, s.workers[w]));
        WorkerKeeps(f, s, w, Finish(f, s.workers[w]));
      }
    case DieStep(w) =>
      if w < |s.workers| {
        HoldsDead(f, s.history, |s.workers|, w, s.workers[w]);
        WorkerKeeps(f, s, w, Die(s.workers[w]));
      }
  }

  lemma StartHolds(f: Process, threads: nat)
    ensures Inv(f, Start(threads))
  {
    var s := Start(threads);
    forall w | 0 <= w < threads ensures Holds(f, s.history, threads, w, s.workers[w]) {
      FirstMod(0, w, threads);
      NthNext(First(0, w, threads), threads, 0);
    }
    if threads > 0 { ModUnique(0, 0, threads); }
  }

  lemma {:induction false} RunKeeps(f: Process, threads: nat, es: seq<Step>)
    ensures Inv(f, Run(f, Start(threads), es)) && |Run(f, Start(threads), es).workers| == threads
  {
    hide Inv, Next;
    if es == [] {
      StartHolds(f, threads);
    } else {
      RunKeeps(f, threads, es[..|es| - 1]);
      NextKeeps(f, Run(f, Start(threads), es[..|es| - 1]), es[|es| - 1]);
    }
  }

  // ------------------------------------------------------------------ order

  lemma {:induction false} FlattenPrefix<T>(bs: seq<seq<T>>, k: nat)
    requires k <= |bs|
    ensures Flatten(bs[..k]) <= Flatten(bs)
    decreases |bs| - k
  {
    if k == |bs| {
      assert bs[..k] == bs;
    } else {
      FlattenPrefix(bs, k + 1);
      assert bs[..k + 1] == bs[..k] + [bs[k]];
      FlattenAppend(bs[..k], bs[k]);
    }
  }

  lemma {:induction false} NothingRefused(cs: seq<Closed>)
    ensures |Flatten(Kept(cs))| <= |JobsOf(cs)|
    ensures |Flatten(Kept(cs))| == |JobsOf(cs)| ==> Flatten(Kept(cs)) == JobsOf(cs)
  {
    if cs != [] {
      var n := |cs| - 1;
      NothingRefused(cs[..n]);
      FlattenAppend(Kept(cs[..n]), cs[n].jobs);
      assert Kept(cs[..n]) + [] == Kept(cs[..n]);
    }
  }

  /** For every worker count and every interleaving, worker deaths included: what was delivered is a
      prefix of the results of the accepted batches in submission order, without a reorder buffer. */
  lemma DeliveryOrder(f: Process, threads: nat, es: seq<Step>)
    requires threads > 0
    ensures var s := Run(f, Start(threads), es);
            && s.history.delivered <= ProcessAll(f, Flatten(Kept(s.history.closed)))
            && s.history.submitted == JobsOf(s.history.closed) + s.batch
            && s.nextDispatch == (s.nextCollect + s.inFlight) % threads
  {
    hide Run, JobsOf, Kept, Flatten, AllHold;
    RunKeeps(f, threads, es);
    var s := Run(f, Start(threads), es);
    var h := s.history;
    FlattenPrefix(h.sent, h.collected);
    DispatchAhead(h.collected, s.inFlight, threads);
  }

  lemma DispatchAhead(c: nat, k: nat, n: nat)
    requires n > 0
    ensures (c % n + k) % n == (c + k) % n
  {
    assert c + k == c % n + k + (c / n) * n;
    AddMultiple(c % n + k, c / n, n);
  }

  lemma {:induction false} SubmittedSame(f: Process, m: nat, n: nat, es: seq<Step>)
    ensures Run(f, Start(m), es).history.submitted == Run(f, Start(n), es).history.submitted
  {
    if es != [] {
      SubmittedSame(f, m, n, es[..|es| - 1]);
      SubmittedNext(f, Run(f, Start(m), es[..|es| - 1]), es[|es| - 1]);
      SubmittedNext(f, Run(f, Start(n), es[..|es| - 1]), es[|es| - 1]);
    }
  }

  lemma SubmittedNext(f: Process, s: State, e: Step)
    ensures Next(f, s, e).history.submitted == s.history.submitted + if e.SubmitStep? then [e.job] else []
  {
  }

  /** With no overload and no dead worker, the workers deliver a prefix of exactly what inline mode
      yields for the same submissions. */
  lemma SameAsInline(f: Process, threads: nat, es: seq<Step>)
    requires threads > 0
    requires Run(f, Start(threads), es).dropped == 0 && Run(f, Start(threads), es).history.lost == 0
    ensures var s, inline := Run(f, Start(threads), es), Run(f, Start(0), es);
            s.history.delivered <= inline.history.delivered + inline.inlineDone
  {
    hide Run, JobsOf, Kept, Flatten, AllHold;
    RunKeeps(f, threads, es);
    RunKeeps(f, 0, es);
    SubmittedSame(f, threads, 0, es);
    var h := Run(f, Start(threads), es).history;
    FlattenPrefix(h.sent, h.collected);
    NothingRefused(h.closed);
    assert Flatten(h.sent) <= h.submitted;
  }

  lemma {:induction false} FlattenSplit<T>(bs: seq<seq<T>>, k: nat)
    requires k <= |bs|
    ensures Flatten(bs) == Flatten(bs[..k]) + Flatten(bs[k..])
    decreases |bs|
  {
    if k == |bs| {
      assert bs[..k] == bs && bs[k..] == [];
    } else {
      var n := |bs| - 1;
      FlattenSplit(bs[..n], k);
      assert bs[..n][..k] == bs[..k] && bs[..n][k..] == bs[k..][..n - k];
      assert bs[k..][n - k] == bs[n];
    }
  }

  /** No job disappears unaccounted: submitted = delivered + in flight + pending + dropped, and only a
      dead worker makes a fifth term. */
  lemma Conservation(f: Process, threads: nat, es: seq<Step>)
    requires threads > 0
    ensures var s := Run(f, Start(threads), es);
            && s.history.collected <= |s.history.sent|
            && s.inFlight == |s.history.sent[s.history.collected..]|
            && |s.history.submitted| == |s.history.delivered| + |Flatten(s.history.sent[s.history.collected..])|
                                        + |s.batch| + s.dropped + s.history.lost
  {
    hide Run, JobsOf, Kept, Flatten, AllHold;
    RunKeeps(f, threads, es);
    var h := Run(f, Start(threads), es).history;
    FlattenSplit(h.sent, h.collected);
  }

  // ------------------------------------------------------------------ progress

  ghost function Weight(w: Worker): nat {
    3 * |w.jobs| + (if w.hand.Some? then 2 else 0) + |w.done|
  }

  ghost function Measure(ws: seq<Worker>): nat {
    if ws == [] then 0 else Weight(ws[0]) + Measure(ws[1..])
  }

  lemma {:induction false} MeasureUpdate(ws: seq<Worker>, i: nat, w: Worker)
    requires i < |ws|
    ensures Measure(ws[i := w]) + Weight(ws[i]) == Measure(ws) + Weight(w)
  {
    if i == 0 {
      assert ws[i := w][1..] == ws[1..];
    } else {
      MeasureUpdate(ws[1..], i - 1, w);
      assert ws[i := w][1..] == ws[1..][i - 1 := w];
    }
  }

  predicate IsWork(e: Step) {
    e.ReceiveStep? || e.TakeStep? || e.FinishStep?
  }

  /** Every enabled worker or collect step lowers the measure. */
  lemma WorkDescends(f: Process, s: State, e: Step)
    requires IsWork(e)
    ensures Next(f, s, e) == s || Measure(Next(f, s, e).workers) < Measure(s.workers)
  {
    match e
    case ReceiveStep =>
      if CanReceive(s) {
        MeasureUpdate(s.workers, s.nextCollect, s.workers[s.nextCollect].(done := s.workers[s.nextCollect].done[1..]));
      }
    case TakeStep(w) =>
      if w < |s.workers| && CanTake(s.workers[w]) { MeasureUpdate(s.workers, w, Take(s.workers[w])); }
    case FinishStep(w) =>
      if w < |s.workers| && CanFinish(s.workers[w]) { MeasureUpdate(s.workers, w, Finish(f, s.workers[w])); }
  }

  /** The step that is always possible while something is in flight. */
  ghost function Useful(s: State): Step
    requires s.nextCollect < |s.workers|
  {
    var w := s.workers[s.nextCollect];
    if w.done != [] then ReceiveStep
    else if w.hand.Some? then FinishStep(s.nextCollect)
    else TakeStep(s.nextCollect)
  }

  /** While anything is in flight and the next worker lives, some worker or collect step is enabled
      and lowers the measure: the pipeline cannot deadlock behind full queues. */
  lemma Progress(f: Process, s: State)
    requires Inv(f, s) && s.workers != [] && s.inFlight > 0
    requires s.nextCollect < |s.workers| ==> s.workers[s.nextCollect].alive
    ensures s.nextCollect < |s.workers| && IsWork(Useful(s)) && Measure(Next(f, s, Useful(s)).workers) < Measure(s.workers)
  {
    hide Ordered, Delivered, Measure;
    DispatchInRange(s);
    var k, w := s.nextCollect, s.workers[s.nextCollect];
    assert Holds(f, s.history, |s.workers|, k, w);
    FirstMod(s.history.collected, k, |s.workers|);
    NthNext(s.history.collected, |s.workers|, 0);
    assert Owes(f, w) != [];
    WorkDescends(f, s, Useful(s));
    MeasureUpdate(s.workers, k, w);
  }

  ghost predicate AllAlive(s: State) {
    forall w :: 0 <= w < |s.workers| ==> s.workers[w].alive
  }

  /** Hence everything in flight drains within as many steps as the measure, without any I/O. */
  lemma {:induction false} Drains(f: Process, s: State) returns (es: seq<Step>)
    requires Inv(f, s) && s.workers != [] && AllAlive(s)
    ensures |es| <= Measure(s.workers) && (forall e :: e in es ==> IsWork(e))
    ensures Run(f, s, es).inFlight == 0
    decreases Measure(s.workers)
  {
    hide Inv, Measure, Owes;
    if s.inFlight == 0 {
      es := [];
    } else {
      assert s.nextCollect < |s.workers| by { InRange(f, s); }
      Progress(f, s);
      var e := Useful(s);
      var s1 := Next(f, s, e);
      NextKeeps(f, s, e);
      var rest := Drains(f, s1);
      es := [e] + rest;
      RunCons(f, s, e, rest);
    }
  }

  lemma InRange(f: Process, s: State)
    requires Inv(f, s) && s.workers != []
    ensures s.nextCollect < |s.workers|
  {
    DispatchInRange(s);
  }

  lemma {:induction false} RunCons(f: Process, s: State, e: Step, es: seq<Step>)
    ensures Run(f, s, [e] + es) == Run(f, Next(f, s, e), es)
  {
    hide Next;
    if es == [] {
      assert [e] + es == [e];
      assert [e][..0] == [];
    } else {
      var n := |es| - 1;
      RunCons(f, s, e, es[..n]);
      assert ([e] + es)[..|es|] == [e] + es[..n];
    }
  }
}
