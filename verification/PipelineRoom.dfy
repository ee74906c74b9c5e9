/** What the pipeline must take: nothing is refused while there is room, and everything taken comes out. */
module PipelineRoom {
  import opened Machine
  import opened Arith
  import opened Pipeline

  // ------------------------------------------------------------------ one hand-over

  /** Only the worker in turn changes, and only its queue: the batch is behind all that waited. */
  ghost predicate Queued(before: seq<Worker>, after: seq<Worker>, i: nat, b: seq<Job>) {
    && |after| == |before| && i < |before|
    && after[i].jobs == before[i].jobs + [b]
    && after[i].hand == before[i].hand && after[i].done == before[i].done && after[i].alive == before[i].alive
    && forall j :: 0 <= j < |before| && j != i ==> after[j] == before[j]
  }

  /** A pending batch goes to the worker in turn while fewer than 64 batches wait there; with 64 it is
      dropped and counted; a dead worker loses it. */
  lemma FlushHandsOver(f: Process, s: State)
    requires Inv(f, s) && s.workers != [] && s.batch != []
    ensures var i := |s.history.sent| % |s.workers|;
            var w, t := s.workers[i], Flush(s);
            && t.batch == []
            && (w.alive && |w.jobs| < 64 ==>
                  Queued(s.workers, t.workers, i, s.batch) && t.dropped == s.dropped && t.history.lost == s.history.lost
                  && t.inFlight == s.inFlight + 1)
            && (w.alive && |w.jobs| >= 64 ==>
                  t.workers == s.workers && t.dropped == s.dropped + |s.batch| && t.history.lost == s.history.lost
                  && t.inFlight == s.inFlight)
            && (!w.alive ==>
                  t.workers == s.workers && t.dropped == s.dropped && t.history.lost == s.history.lost + |s.batch|
                  && t.inFlight == s.inFlight)
  {
    hide Ordered, Delivered, AllHold;
    DispatchInRange(s);
  }

  /** A job joins the pending batch, which is handed over exactly when it is the sixteenth. */
  lemma SubmitBatches(f: Process, s: State, job: Job)
    requires s.workers != []
    ensures var with' := s.(batch := s.batch + [job], history := s.history.(submitted := s.history.submitted + [job]));
            Submit(f, s, job) == if |s.batch| < 15 then with' else Flush(with')
  {
  }

  // ------------------------------------------------------------------ how much room there is

  /** The worker in turn holds its share of what is in flight and no more. */
  lemma ShareOfTurn(f: Process, s: State)
    requires Inv(f, s) && s.workers != []
    ensures var n := |s.workers|;
            var w := s.workers[|s.history.sent| % n];
            w.alive ==> |Owes(f, w)| * n <= s.inFlight
  {
    hide Ordered, Delivered, Nth, First, Owes, HoldsFrom;
    var n, h := |s.workers|, s.history;
    var i := |h.sent| % n;
    assert Holds(f, h, n, i, s.workers[i]);
    var o, k := Owes(f, s.workers[i]), First(h.collected, i, n);
    if s.workers[i].alive {
      EndsAt(f, h.sent, n, k, o);
      NextIndex(h.collected, i, n, |o|, |h.sent|);
      FirstMod(h.collected, i, n);
      NthIs(k, n, |o|);
    }
  }

  lemma NthIs(k: nat, n: nat, j: nat)
    ensures Nth(k, n, j) == k + j * n
  {
  }

  /** Fewer than 64 batches in flight per worker leave room in the queue in turn. */
  lemma RoomInTurn(f: Process, s: State)
    requires Inv(f, s) && s.workers != [] && s.inFlight < 64 * |s.workers|
    ensures var w := s.workers[|s.history.sent| % |s.workers|]; w.alive ==> |w.jobs| < 64
  {
    hide Inv;
    var n := |s.workers|;
    var w := s.workers[|s.history.sent| % n];
    ShareOfTurn(f, s);
    if w.alive && |w.jobs| >= 64 { MulMonotone(64, |Owes(f, w)|, n); }
  }

  lemma NextRefuses(f: Process, s: State, e: Step)
    requires Inv(f, s) && s.workers != [] && AllAlive(s) && s.inFlight < 64 * |s.workers|
    ensures var t := Next(f, s, e); t.dropped == s.dropped && t.history.lost == s.history.lost
  {
    hide Inv, Flush;
    match e
    case SubmitStep(job) =>
      var s1 := s.(batch := s.batch + [job], history := s.history.(submitted := s.history.submitted + [job]));
      SubmittedInv(f, s, job);
      FlushTakes(f, s1);
    case FlushStep => FlushTakes(f, s);
    case _ =>
  }

  lemma FlushTakes(f: Process, s: State)
    requires Inv(f, s) && s.workers != [] && AllAlive(s) && s.inFlight < 64 * |s.workers|
    ensures Flush(s).dropped == s.dropped && Flush(s).history.lost == s.history.lost
  {
    hide Inv, Queued;
    if s.batch != [] {
      RoomInTurn(f, s);
      FlushHandsOver(f, s);
    }
  }

  /** At every point of the run fewer than 64 batches per worker are in flight and every worker lives. */
  ghost predicate Roomy(f: Process, threads: nat, es: seq<Step>) {
    forall k :: 0 <= k <= |es| ==>
      var s := Run(f, Start(threads), es[..k]); s.inFlight < 64 * threads && AllAlive(s)
  }

  /** A new pipeline has as many living workers as threads, and room. */
  lemma StartsRoomy(f: Process, threads: nat)
    requires threads > 0
    ensures Roomy(f, threads, []) && |Start(threads).workers| == threads && AllAlive(Start(threads))
  {
    var none: seq<Step> := [];
    assert none[..0] == none;
  }

  /** Then nothing was dropped and nothing was lost. */
  lemma {:induction false} NothingDropped(f: Process, threads: nat, es: seq<Step>)
    requires threads > 0 && Roomy(f, threads, es)
    ensures var s := Run(f, Start(threads), es); s.dropped == 0 && s.history.lost == 0
  {
    hide Next, Inv, AllAlive;
    if es != [] {
      var n := |es| - 1;
      RoomyPrefix(f, threads, es);
      NothingDropped(f, threads, es[..n]);
      RunKeeps(f, threads, es[..n]);
      NextRefuses(f, Run(f, Start(threads), es[..n]), es[n]);
    }
  }

  lemma RoomyPrefix(f: Process, threads: nat, es: seq<Step>)
    requires Roomy(f, threads, es) && es != []
    ensures var n := |es| - 1;
            && Roomy(f, threads, es[..n])
            && Run(f, Start(threads), es[..n]).inFlight < 64 * threads && AllAlive(Run(f, Start(threads), es[..n]))
  {
    hide Run, AllAlive;
    var n := |es| - 1;
    forall k | 0 <= k <= n ensures es[..n][..k] == es[..k] {
    }
  }

  /** With room and living workers the threads deliver a prefix of what inline mode yields. */
  lemma RoomySameAsInline(f: Process, threads: nat, es: seq<Step>)
    requires threads > 0 && Roomy(f, threads, es)
    ensures var s, inline := Run(f, Start(threads), es), Run(f, Start(0), es);
            s.history.delivered <= inline.history.delivered + inline.inlineDone
  {
    hide Run, Roomy;
    NothingDropped(f, threads, es);
    SameAsInline(f, threads, es);
  }

  // ------------------------------------------------------------------ everything comes out

  lemma {:induction false} WorkKeeps(f: Process, s: State, es: seq<Step>)
    requires Inv(f, s) && s.workers != [] && forall e :: e in es ==> IsWork(e)
    ensures var t := Run(f, s, es);
            && Inv(f, t) && t.workers != [] && t.batch == s.batch && t.dropped == s.dropped
            && t.history == s.history.(collected := t.history.collected, delivered := t.history.delivered)
  {
    hide Inv;
    if es != [] {
      var n := |es| - 1;
      WorkKeeps(f, s, es[..n]);
      NextKeeps(f, Run(f, s, es[..n]), es[n]);
      assert IsWork(es[n]);
    }
  }

  /** Nothing pending, in flight, dropped or lost: all submitted jobs were processed and delivered in order. */
  lemma AllOut(f: Process, s: State)
    requires Inv(f, s) && s.workers != [] && s.batch == [] && s.inFlight == 0 && s.dropped == 0 && s.history.lost == 0
    ensures s.history.delivered == ProcessAll(f, s.history.submitted)
  {
    hide Flatten, JobsOf, Kept, AllHold;
    var h := s.history;
    NothingRefused(h.closed);
    assert h.sent[..h.collected] == h.sent;
    assert JobsOf(h.closed) + [] == JobsOf(h.closed);
  }

  /** After a roomy run: flush, let workers and collector work, and every job ever submitted has been
      delivered, processed, in submission order. */
  lemma EverythingComesOut(f: Process, threads: nat, es: seq<Step>) returns (more: seq<Step>)
    requires threads > 0 && Roomy(f, threads, es)
    ensures forall e :: e in more ==> IsWork(e)
    ensures var t := Run(f, Flush(Run(f, Start(threads), es)), more);
            t.history.delivered == ProcessAll(f, Run(f, Start(threads), es).history.submitted)
  {
    hide Inv, Flush, Next, AllAlive;
    var s := Run(f, Start(threads), es);
    RunKeeps(f, threads, es);
    NothingDropped(f, threads, es);
    assert es[..|es|] == es;
    FlushTakes(f, s);
    FlushKeeps(f, s);
    FlushLeaves(f, s);
    more := Drains(f, Flush(s));
    WorkKeeps(f, Flush(s), more);
    AllOut(f, Run(f, Flush(s), more));
  }

  lemma FlushLeaves(f: Process, s: State)
    requires Inv(f, s) && s.workers != [] && AllAlive(s)
    ensures Flush(s).batch == [] && AllAlive(Flush(s)) && Flush(s).history.submitted == s.history.submitted
  {
    hide Ordered, Delivered, AllHold;
    DispatchInRange(s);
  }

  // ------------------------------------------------------------------ bounds

  ghost predicate Small(s: State) {
    && |s.batch| <= 15
    && (forall i :: 0 <= i < |s.history.closed| ==> 1 <= |s.history.closed[i].jobs| <= 16)
    && forall w :: 0 <= w < |s.workers| ==> |s.workers[w].jobs| <= 64 && |s.workers[w].done| <= 64
  }

  lemma FlushSmall(s: State)
    requires |s.batch| <= 16 && Small(s.(batch := []))
    ensures |Flush(s).batch| <= 15 || (s.workers == [] || s.nextDispatch >= |s.workers|)
    ensures Small(Flush(s).(batch := []))
  {
  }

  /** No batch ever exceeds sixteen jobs, no queue sixty-four batches. */
  lemma {:induction false} StaysSmall(f: Process, threads: nat, es: seq<Step>)
    requires threads > 0
    ensures Small(Run(f, Start(threads), es))
  {
    hide Inv, Flush;
    if es != [] {
      var n := |es| - 1;
      var s := Run(f, Start(threads), es[..n]);
      StaysSmall(f, threads, es[..n]);
      RunKeeps(f, threads, es[..n]);
      NextSmall(f, s, es[n]);
    }
  }

  lemma NextSmall(f: Process, s: State, e: Step)
    requires Small(s) && Inv(f, s) && s.workers != []
    ensures Small(Next(f, s, e))
  {
    hide Inv, Flush;
    TurnInRange(f, s);
    match e
    case SubmitStep(job) =>
      FlushSmall(s.(batch := s.batch + [job], history := s.history.(submitted := s.history.submitted + [job])));
    case FlushStep => FlushSmall(s);
    case _ =>
  }

  lemma TurnInRange(f: Process, s: State)
    requires Inv(f, s) && s.workers != []
    ensures s.nextDispatch < |s.workers|
  {
    hide Ordered, Delivered, AllHold;
    DispatchInRange(s);
  }
}
