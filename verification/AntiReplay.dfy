/**
 The sliding anti-replay window. `ReInit` resets the maximum and leaves the old bits in place; the
 window still decides exactly as a set of seen numbers would.
 */
module AntiReplay {
  import opened Machine
  import opened Arith

  const WINDOW: nat := 4000

  /** The receive side: the largest number accepted, and one slot per residue. */
  datatype Window = Window(max: U64, bits: seq<nat>)

  function Slot(q: nat): (j: nat)
    ensures j < WINDOW
  {
    q % WINDOW
  }

  /** Reset the slots of the numbers `lo..hi`. */
  function Clear(bits: seq<nat>, lo: nat, hi: nat): (r: seq<nat>)
    requires |bits| == WINDOW
    ensures |r| == WINDOW
    decreases hi - lo
  {
    if lo >= hi then bits else Clear(bits[Slot(lo) := 0], lo + 1, hi)
  }

  function Zeros(): (r: seq<nat>)
    ensures |r| == WINDOW && forall j :: 0 <= j < WINDOW ==> r[j] == 0
  {
    seq(WINDOW, i => 0)
  }

  function Check(w: Window, q: U64): (r: (Window, bool))
    requires |w.bits| == WINDOW
    ensures |r.0.bits| == WINDOW
  {
    if q == w.max then (w, false)
    else if q > w.max then
      var bits := if q - w.max >= WINDOW then Zeros() else Clear(w.bits, w.max + 1, q);
      (Window(q, bits[Slot(q) := 1]), true)
    else if w.max - q >= WINDOW || w.bits[Slot(q)] == 1 then (w, false)
    else (w.(bits := w.bits[Slot(q) := 1]), true)
  }

  function ReInit(w: Window): Window {
    w.(max := 0)
  }

  // ------------------------------------------------------------------ the reference: a set of numbers

  /** What a set of seen numbers would decide about `q >= 1`. */
  predicate Admits(seen: set<nat>, max: nat, q: nat) {
    q !in seen && (q > max || max - q < WINDOW)
  }

  /** The window agrees with the numbers seen since the last reset, whatever was in it before. */
  ghost predicate Agrees(w: Window, seen: set<nat>) {
    && |w.bits| == WINDOW
    && (forall q :: q in seen ==> q <= w.max)
    && (w.max >= 1 ==> w.max in seen)
    && (w.max == 0 ==> seen == {})
    && (forall q: nat :: InWindow(w, q) ==> (w.bits[Slot(q)] == 1 <==> q in seen))
    && (0 in seen && w.max < WINDOW ==> w.bits[0] == 1)
  }

  predicate InWindow(w: Window, q: nat) {
    1 <= q <= w.max && w.max - q < WINDOW
  }

  lemma SlotsDiffer(a: nat, b: nat)
    requires a != b && a < b + WINDOW && b < a + WINDOW
    ensures Slot(a) != Slot(b)
  {
    if Slot(a) == Slot(b) { ResidueUnique(a, b, WINDOW); }
  }

  lemma {:induction false} ClearKeeps(bits: seq<nat>, lo: nat, hi: nat, j: nat)
    requires |bits| == WINDOW && j < WINDOW
    requires forall i: nat :: lo <= i < hi ==> Slot(i) != j
    ensures Clear(bits, lo, hi)[j] == bits[j]
    decreases hi - lo
  {
    hide Slot;
    if lo < hi {
      ClearKeeps(bits[Slot(lo) := 0], lo + 1, hi, j);
    }
  }

  lemma {:induction false} ClearClears(bits: seq<nat>, lo: nat, hi: nat, q: nat)
    requires |bits| == WINDOW && lo <= q < hi && hi - lo < WINDOW
    ensures Clear(bits, lo, hi)[Slot(q)] == 0
    decreases hi - lo
  {
    hide Slot;
    if lo == q {
      forall i: nat | lo + 1 <= i < hi ensures Slot(i) != Slot(q) { SlotsDiffer(i, q); }
      ClearKeeps(bits[Slot(lo) := 0], lo + 1, hi, Slot(q));
    } else {
      ClearClears(bits[Slot(lo) := 0], lo + 1, hi, q);
    }
  }

  lemma SlotZero(q: nat)
    requires q < WINDOW
    ensures Slot(q) == q
  {
    ModUnique(0, q, WINDOW);
  }

  /** Accepting a larger number within reach of the window. */
  lemma Advance(w: Window, seen: set<nat>, q: U64)
    requires Agrees(w, seen) && q > w.max && q - w.max < WINDOW
    ensures Agrees(Check(w, q).0, seen + {q})
  {
    hide Slot, Clear;
    var bits := Clear(w.bits, w.max + 1, q);
    var w' := Window(q, bits[Slot(q) := 1]);
    forall p: nat | InWindow(w', p) ensures w'.bits[Slot(p)] == 1 <==> p in seen + {q} {
      if p != q {
        SlotsDiffer(p, q);
        if p > w.max {
          ClearClears(w.bits, w.max + 1, q, p);
        } else {
          forall i: nat | w.max + 1 <= i < q ensures Slot(i) != Slot(p) { SlotsDiffer(i, p); }
          ClearKeeps(w.bits, w.max + 1, q, Slot(p));
          assert InWindow(w, p);
        }
      }
    }
    if q < WINDOW {
      SlotZero(q);
      SlotZero(0);
      forall i: nat | w.max + 1 <= i < q ensures Slot(i) != 0 { SlotZero(i); }
      ClearKeeps(w.bits, w.max + 1, q, 0);
    }
  }

  /** Accepting a number beyond the window clears it. */
  lemma Jump(w: Window, seen: set<nat>, q: U64)
    requires Agrees(w, seen) && q > w.max && q - w.max >= WINDOW
    ensures Agrees(Check(w, q).0, seen + {q})
  {
    hide Slot;
    var w' := Check(w, q).0;
    forall p: nat | InWindow(w', p) ensures w'.bits[Slot(p)] == 1 <==> p in seen + {q} {
      if p != q { SlotsDiffer(p, q); }
    }
  }

  /** Accepting a number inside the window. */
  lemma Fill(w: Window, seen: set<nat>, q: U64)
    requires Agrees(w, seen) && q < w.max && w.max - q < WINDOW && w.bits[Slot(q)] != 1
    ensures Agrees(Check(w, q).0, seen + {q})
  {
    hide Slot;
    var w' := Check(w, q).0;
    forall p: nat | InWindow(w', p) ensures w'.bits[Slot(p)] == 1 <==> p in seen + {q} {
      if p != q { SlotsDiffer(p, q); }
      assert InWindow(w, p);
    }
    SlotZero(0);
  }

  /** One decision: exactly the set's decision for every number from 1 on, and never a second
      acceptance of any number, 0 included. */
  lemma CheckRefinesSet(w: Window, seen: set<nat>, q: U64)
    requires Agrees(w, seen)
    ensures var (w', ok) := Check(w, q);
            && Agrees(w', if ok then seen + {q} else seen)
            && (ok ==> q !in seen)
            && (q >= 1 ==> (ok <==> Admits(seen, w.max, q)))
  {
    hide Slot, Clear;
    if q > w.max {
      if q - w.max < WINDOW { Advance(w, seen, q); } else { Jump(w, seen, q); }
    } else if q < w.max && w.max - q < WINDOW {
      SlotZero(0);
      assert q >= 1 ==> InWindow(w, q);
      if w.bits[Slot(q)] != 1 { Fill(w, seen, q); }
    }
  }

  // ------------------------------------------------------------------ whole epochs

  ghost function After(w: Window, qs: seq<U64>): (r: Window)
    requires |w.bits| == WINDOW
    ensures |r.bits| == WINDOW
  {
    if qs == [] then w else Check(After(w, qs[..|qs| - 1]), qs[|qs| - 1]).0
  }

  /** The numbers accepted among `qs`, in order of acceptance. */
  ghost function Accepted(w: Window, qs: seq<U64>): seq<U64>
    requires |w.bits| == WINDOW
  {
    if qs == [] then []
    else
      var n := |qs| - 1;
      Accepted(w, qs[..n]) + if Check(After(w, qs[..n]), qs[n]).1 then [qs[n]] else []
  }

  ghost predicate Distinct(s: seq<U64>) {
    forall i, j :: 0 <= i < j < |s| ==> s[i] != s[j]
  }

  ghost function Elements(s: seq<U64>): set<nat> {
    set x | x in s
  }

  /** After a reset that leaves arbitrary stale bits, over any received sequence: no number is
      accepted twice, and the window agrees with the set of accepted numbers. */
  lemma {:induction false} EpochAcceptsOnce(stale: Window, qs: seq<U64>)
    requires |stale.bits| == WINDOW
    ensures var w := ReInit(stale);
            Distinct(Accepted(w, qs)) && Agrees(After(w, qs), Elements(Accepted(w, qs)))
  {
    hide Check, Agrees;
    var w := ReInit(stale);
    if qs == [] {
      ResetAgrees(stale);
      assert Elements(Accepted(w, qs)) == {};
    } else {
      var n := |qs| - 1;
      EpochAcceptsOnce(stale, qs[..n]);
      var acc := Accepted(w, qs[..n]);
      CheckRefinesSet(After(w, qs[..n]), Elements(acc), qs[n]);
      if Check(After(w, qs[..n]), qs[n]).1 {
        assert Elements(acc + [qs[n]]) == Elements(acc) + {qs[n]};
      } else {
        assert Accepted(w, qs) == acc;
      }
    }
  }

  lemma ResetAgrees(stale: Window)
    requires |stale.bits| == WINDOW
    ensures Agrees(ReInit(stale), {})
  {
  }

  // ------------------------------------------------------------------ the object

  class AntiReplay {
    var maxPacketReceived: U64
    const window: array<nat>
    var nextSendSeq: U64
    const disabled: bool

    ghost predicate Valid()
      reads this
    {
      window.Length == WINDOW
    }

    ghost function Value(): Window
      requires Valid()
      reads this, window
    {
      Window(maxPacketReceived, window[..])
    }

    /** `seed` is the random first sequence number before division. */
    constructor (disabled: bool, seed: U64)
      ensures Valid() && fresh(window) && this.disabled == disabled
      ensures Value() == Window(0, Zeros()) && nextSendSeq == seed / 10
    {
      maxPacketReceived := 0;
      window := new nat[WINDOW](i => 0);
      nextSendSeq := seed / 10;
      this.disabled := disabled;
      new;
      assert window[..] == Zeros();
    }

    method ReInitialise()
      requires Valid()
      modifies this`maxPacketReceived
      ensures Valid() && Value() == ReInit(old(Value())) && window[..] == old(window[..])
    {
      maxPacketReceived := 0;
    }

    /** Numbers go out in order, wrapping at 2^64. */
    method NextSeqForSend() returns (q: U64)
      requires Valid()
      modifies this`nextSendSeq
      ensures q == old(nextSendSeq)
      ensures nextSendSeq == (q + 1) % (U64_MAX + 1)
    {
      q := nextSendSeq;
      nextSendSeq := if nextSendSeq == U64_MAX then 0 else nextSendSeq + 1;
    }

    method IsValid(q: U64) returns (ok: bool)
      requires Valid()
      modifies this`maxPacketReceived, window
      ensures Valid()
      ensures disabled ==> ok && Value() == old(Value())
      ensures !disabled ==> (Value(), ok) == Check(old(Value()), q)
    {
      hide Slot, Clear;
      if disabled {
        return true;
      }
      if q == maxPacketReceived {
        return false;
      }
      if q > maxPacketReceived {
        if q - maxPacketReceived >= WINDOW {
          ClearAll();
        } else {
          ClearRange(maxPacketReceived + 1, q);
        }
        window[Slot(q)] := 1;
        maxPacketReceived := q;
        return true;
      }
      if maxPacketReceived - q >= WINDOW {
        return false;
      }
      var slot := Slot(q);
      if window[slot] == 1 {
        return false;
      }
      window[slot] := 1;
      return true;
    }

    method ClearAll()
      requires Valid()
      modifies window
      ensures window[..] == Zeros()
    {
      for i := 0 to WINDOW
        invariant forall j :: 0 <= j < i ==> window[j] == 0
      {
        window[i] := 0;
      }
      assert window[..] == Zeros();
    }

    method ClearRange(lo: U64, hi: U64)
      requires Valid() && lo <= hi
      modifies window
      ensures window[..] == Clear(old(window[..]), lo, hi)
    {
      hide Slot;
      var i := lo;
      while i < hi
        invariant lo <= i <= hi
        invariant Clear(window[..], i, hi) == Clear(old(window[..]), lo, hi)
      {
        window[Slot(i)] := 0;
        i := i + 1;
      }
    }
  }
}
