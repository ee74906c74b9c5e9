/** The pipeline as the I/O thread holds it, its fields updated in place. */
module PipelineObject {
  import opened Machine
  import P = Pipeline

  /** Only worker steps. */
  predicate WorkersOnly(es: seq<P.Step>) {
    forall i :: 0 <= i < |es| ==> es[i].TakeStep? || es[i].FinishStep? || es[i].DieStep?
  }

  /** What the workers do in the order they are scheduled. */
  function WorkerSteps(f: P.Process, s: P.State, es: seq<P.Step>): (r: P.State)
    requires WorkersOnly(es)
    ensures r == s.(workers := r.workers) && |r.workers| == |s.workers|
  {
    if es == [] then s else P.Next(f, WorkerSteps(f, s, es[..|es| - 1]), es[|es| - 1])
  }

  /** The collect loop after its flush: before the `i`-th `try_recv`, the workers run `schedule[i]`. */
  function CollectLoop(f: P.Process, s: P.State, schedule: seq<seq<P.Step>>): P.State
    requires forall i :: 0 <= i < |schedule| ==> WorkersOnly(schedule[i])
    decreases s.inFlight
  {
    if s.inFlight == 0 then s
    else
      var s1 := WorkerSteps(f, s, if schedule == [] then [] else schedule[0]);
      if !P.CanReceive(s1) then s1
      else CollectLoop(f, P.Receive(s1), if schedule == [] then [] else schedule[1..])
  }

  class Pipeline {
    const process: P.Process
    var workers: seq<P.Worker>
    var nextDispatch: nat
    var nextCollect: nat
    var inFlight: nat
    var batch: seq<P.Job>
    var inlineDone: seq<P.Done>
    var dropped: nat
    ghost var history: P.History

    ghost function Value(): P.State
      reads this
    {
      P.State(workers, nextDispatch, nextCollect, inFlight, batch, inlineDone, dropped, history)
    }

    ghost predicate Valid()
      reads this
    {
      P.Inv(process, Value())
    }

    constructor (threads: nat, process: P.Process)
      ensures Valid() && Value() == P.Start(threads) && this.process == process
    {
      this.process := process;
      workers := seq(threads, i => P.Worker([], None, [], true));
      nextDispatch, nextCollect, inFlight, batch, inlineDone, dropped := 0, 0, 0, [], [], 0;
      history := P.History([], [], 0, [], [], 0);
      new;
      P.StartHolds(process, threads);
      assert Value() == P.Start(threads);
    }

    /** Hand the pending batch to the next worker; false when it had to be given up. */
    method Flush() returns (ok: bool)
      requires Valid()
      modifies this
      ensures Valid() && Value() == P.Flush(old(Value()))
      ensures ok == (old(batch) == [] || old(workers) == [] || inFlight == old(inFlight) + 1)
      ensures ok == (dropped == old(dropped) && history.lost == old(history.lost))
    {
      hide P.Inv;
      P.FlushKeeps(process, Value());
      if batch == [] || workers == [] {
        return true;
      }
      assert nextDispatch < |workers| by { InRange(process, Value()); }
      var full := batch;
      batch := [];
      var w := workers[nextDispatch];
      if !w.alive {
        history := P.Close(history, full, false).(lost := history.lost + |full|);
        return false;
      }
      if |w.jobs| >= P.QUEUE_DEPTH {
        dropped := dropped + |full|;
        history := P.Close(history, full, false);
        return false;
      }
      workers := workers[nextDispatch := w.(jobs := w.jobs + [full])];
      nextDispatch := (nextDispatch + 1) % |workers|;
      inFlight := inFlight + 1;
      history := P.Close(history, full, true);
      return true;
    }

    /** Take one job; false exactly when it filled a batch that had to be given up. */
    method Submit(job: P.Job) returns (ok: bool)
      requires Valid()
      modifies this
      ensures Valid() && Value() == P.Submit(process, old(Value()), job)
      ensures ok == (old(workers) == [] || |old(batch)| + 1 < P.BATCH_JOBS || inFlight == old(inFlight) + 1)
      ensures ok == (dropped == old(dropped) && history.lost == old(history.lost))
    {
      hide P.Inv, P.Flush;
      P.SubmitKeeps(process, Value(), job);
      history := history.(submitted := history.submitted + [job]);
      if workers == [] {
        inlineDone := inlineDone + [process(job)];
        return true;
      }
      batch := batch + [job];
      assert P.Inv(process, Value()) by { P.SubmittedInv(process, old(Value()), job); }
      if |batch| >= P.BATCH_JOBS {
        ok := Flush();
        return;
      }
      return true;
    }

    /** Inline mode: everything was processed on submission. */
    method DrainInline() returns (out: seq<P.Done>)
      requires Valid() && workers == []
      modifies this`inlineDone, this`history
      ensures Valid() && Value() == P.DrainInline(old(Value())) && out == old(inlineDone)
    {
      hide P.Inv;
      out := [];
      while inlineDone != []
        invariant Valid()
        invariant history == old(history).(delivered := old(history.delivered) + out)
        invariant out + inlineDone == old(inlineDone)
        decreases |inlineDone|
      {
        InlineDelivers(process, Value());
        history := history.(delivered := history.delivered + [inlineDone[0]]);
        out := out + [inlineDone[0]];
        inlineDone := inlineDone[1..];
      }
    }

    /** One `try_recv` on the worker whose turn it is. */
    method TryReceive() returns (dones: Option<seq<P.Done>>)
      requires Valid() && inFlight > 0
      modifies this
      ensures Valid()
      ensures dones.Some? == P.CanReceive(old(Value()))
      ensures Value() == if dones.Some? then P.Receive(old(Value())) else old(Value())
      ensures dones.Some? ==> history.delivered == old(history.delivered) + dones.value
    {
      hide P.Inv;
      if nextCollect >= |workers| || workers[nextCollect].done == [] {
        return None;
      }
      P.ReceiveKeeps(process, Value());
      var w := workers[nextCollect];
      workers := workers[nextCollect := w.(done := w.done[1..])];
      nextCollect := (nextCollect + 1) % |workers|;
      inFlight := inFlight - 1;
      history := history.(collected := history.collected + 1, delivered := history.delivered + w.done[0]);
      return Some(w.done[0]);
    }

    /** Flush, then deliver finished batches round-robin until the next worker has none. */
    method Collect(schedule: seq<seq<P.Step>>) returns (out: seq<P.Done>)
      requires Valid() && forall i :: 0 <= i < |schedule| ==> WorkersOnly(schedule[i])
      modifies this
      ensures Valid()
      ensures history.delivered == old(history.delivered) + out
      ensures old(workers) == [] ==> Value() == P.DrainInline(old(Value()))
      ensures old(workers) != [] ==> Value() == CollectLoop(process, P.Flush(old(Value())), schedule)
      ensures !P.CanReceive(Value())
    {
      hide P.Inv, P.Flush, CollectLoop, WorkerSteps, P.Receive, P.CanReceive;
      if workers == [] {
        out := DrainInline();
        NoneToReceive(Value());
        return;
      }
      out := [];
      var _ := Flush();
      ghost var s0 := Value();
      assert s0.history.delivered == old(history.delivered) by { FlushDelivers(old(Value())); }
      var rest := schedule;
      while inFlight > 0
        invariant Valid()
        invariant forall i :: 0 <= i < |rest| ==> WorkersOnly(rest[i])
        invariant history.delivered == old(history.delivered) + out
        invariant CollectLoop(process, s0, schedule) == CollectLoop(process, Value(), rest)
        decreases inFlight
      {
        var steps := if rest == [] then [] else rest[0];
        WorkersKeep(process, Value(), steps);
        Unrolled(process, Value(), rest);
        RunWorkers(steps);
        rest := if rest == [] then [] else rest[1..];
        assert P.CanReceive(Value()) ==> P.Receive(Value()).inFlight < inFlight by { Shrinks(Value()); }
        var dones := TryReceive();
        if dones.None? {
          return;
        }
        out := out + dones.value;
      }
      Finished(process, Value(), rest);
      NoneToReceive(Value());
    }

    /** The worker threads run between two receives. */
    method RunWorkers(steps: seq<P.Step>)
      requires WorkersOnly(steps)
      modifies this`workers
      ensures Value() == WorkerSteps(process, old(Value()), steps)
    {
      hide P.Inv;
      var i := 0;
      while i < |steps|
        invariant 0 <= i <= |steps|
        invariant Value() == WorkerSteps(process, old(Value()), steps[..i])
      {
        assert steps[..i + 1][..i] == steps[..i];
        var k := steps[i].worker;
        if k < |workers| {
          var w := workers[k];
          match steps[i] {
            case TakeStep(_) =>
              if P.CanTake(w) { workers := workers[k := P.Take(w)]; }
            case FinishStep(_) =>
              if P.CanFinish(w) { workers := workers[k := P.Finish(process, w)]; }
            case DieStep(_) =>
              workers := workers[k := P.Die(w)];
          }
        }
        i := i + 1;
      }
      assert steps[..i] == steps;
    }
  }

  // ------------------------------------------------------------------ small facts about the steps

  lemma InRange(f: P.Process, s: P.State)
    requires P.Inv(f, s) && s.workers != []
    ensures s.nextDispatch < |s.workers|
  {
    P.DispatchInRange(s);
  }

  lemma NoneToReceive(s: P.State)
    ensures s.inFlight == 0 || s.workers == [] ==> !P.CanReceive(s)
  {
  }

  lemma Shrinks(s: P.State)
    ensures P.CanReceive(s) ==> P.Receive(s).inFlight < s.inFlight
  {
  }

  lemma FlushDelivers(s: P.State)
    ensures P.Flush(s).history.delivered == s.history.delivered
  {
  }

  lemma InlineDelivers(f: P.Process, s: P.State)
    requires P.Inv(f, s) && s.workers == [] && s.inlineDone != []
    ensures P.Inv(f, s.(inlineDone := s.inlineDone[1..],
                        history := s.history.(delivered := s.history.delivered + [s.inlineDone[0]])))
  {
    assert s.history.delivered + [s.inlineDone[0]] + s.inlineDone[1..] == s.history.delivered + s.inlineDone;
  }

  lemma {:induction false} WorkersKeep(f: P.Process, s: P.State, es: seq<P.Step>)
    requires P.Inv(f, s) && WorkersOnly(es)
    ensures P.Inv(f, WorkerSteps(f, s, es))
  {
    hide P.Inv, P.Next;
    if es != [] {
      WorkersKeep(f, s, es[..|es| - 1]);
      P.NextKeeps(f, WorkerSteps(f, s, es[..|es| - 1]), es[|es| - 1]);
    }
  }

  lemma Unrolled(f: P.Process, s: P.State, schedule: seq<seq<P.Step>>)
    requires forall i :: 0 <= i < |schedule| ==> WorkersOnly(schedule[i])
    requires s.inFlight > 0
    ensures var s1 := WorkerSteps(f, s, if schedule == [] then [] else schedule[0]);
            CollectLoop(f, s, schedule) ==
              if !P.CanReceive(s1) then s1
              else CollectLoop(f, P.Receive(s1), if schedule == [] then [] else schedule[1..])
  {
  }

  lemma Finished(f: P.Process, s: P.State, schedule: seq<seq<P.Step>>)
    requires forall i :: 0 <= i < |schedule| ==> WorkersOnly(schedule[i])
    requires s.inFlight == 0
    ensures CollectLoop(f, s, schedule) == s
  {
  }
}
