/** The conversation index as its owner holds it, updated in place. */
module ConvObject {
  import opened Machine
  import C = Conv

  class ConvManager<T(!new, ==)> {
    var dataToConv: map<T, U32>
    var convToData: map<U32, T>
    var lastActive: map<U32, U64>
    var lru: set<C.Stamp>
    var lastClearTime: U64

    ghost function Value(): C.Index<T>
      reads this
    {
      C.Index(dataToConv, convToData, lastActive, lru, lastClearTime)
    }

    constructor ()
      ensures Value() == C.New() && C.Consistent(Value())
    {
      dataToConv, convToData, lastActive, lru, lastClearTime := map[], map[], map[], {}, 0;
    }

    method Insert(conv: U32, data: T, now: U64)
      modifies this
      ensures Value() == C.Insert(old(Value()), conv, data, now)
    {
      dataToConv := dataToConv[data := conv];
      convToData := convToData[conv := data];
      lastActive := lastActive[conv := now];
      lru := lru + {(now, conv)};
    }

    method UpdateActiveTime(conv: U32, now: U64)
      modifies this
      ensures Value() == C.Touch(old(Value()), conv, now)
    {
      if conv in lastActive {
        var was := lastActive[conv];
        if was == now { return; }
        lru := lru - {(was, conv)};
        lastActive := lastActive[conv := now];
        lru := lru + {(now, conv)};
      }
    }

    method Erase(conv: U32) returns (data: Option<T>)
      modifies this
      ensures (Value(), data) == C.Erase(old(Value()), conv)
    {
      if conv !in convToData { return None; }
      data := Some(convToData[conv]);
      convToData := convToData - {conv};
      dataToConv := dataToConv - {data.value};
      if conv in lastActive {
        var time := lastActive[conv];
        lastActive := lastActive - {conv};
        lru := lru - {(time, conv)};
      }
      assert lastActive == old(lastActive) - {conv};
    }

    /** Drain everything; the data of all conversations, in the order the map yields them. */
    method Clear() returns (all: seq<T>)
      requires C.Consistent(Value())
      modifies this
      ensures Value() == C.Clear(old(Value()))
      ensures |all| == |old(convToData)| && (forall d :: d in all <==> d in old(dataToConv))
    {
      all := [];
      var left := convToData.Keys;
      while left != {}
        invariant left <= convToData.Keys && Value() == old(Value())
        invariant |all| + |left| == |convToData|
        invariant forall d :: d in all <==> d in dataToConv && dataToConv[d] !in left
        decreases |left|
      {
        var c :| c in left;
        all := all + [convToData[c]];
        left := left - {c};
      }
      dataToConv, convToData, lastActive, lru := map[], map[], map[], {};
    }

    method ClearInactive(now: U64) returns (out: seq<(U32, T)>)
      modifies this
      ensures (Value(), out) == C.ClearInactive(old(Value()), now)
    {
      out := [];
      if SatSub(now, lastClearTime) <= C.CONV_CLEAR_INTERVAL_MS { return; }
      lastClearTime := now;
      var numToClean := Min(|lru| / C.CONV_CLEAR_RATIO + C.CONV_CLEAR_MIN, |lru|);
      ghost var whole := C.Evict(Value(), now, numToClean);
      var i := 0;
      while i < numToClean
        invariant 0 <= i <= numToClean
        invariant whole.0 == C.Evict(Value(), now, numToClean - i).0
        invariant whole.1 == out + C.Evict(Value(), now, numToClean - i).1
      {
        if lru == {} { break; }
        var (time, conv) := C.First(lru);
        if SatSub(now, time) < C.CONV_TIMEOUT_MS { break; }
        var data := Erase(conv);
        if data.Some? { out := out + [(conv, data.value)]; }
        i := i + 1;
      }
      assert out + [] == out;
    }
  }
}
