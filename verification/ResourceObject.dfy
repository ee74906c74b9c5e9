/** The client's list of installed resources, updated in place. */
module ResourceObject {
  import opened Machine
  import opened Relay
  import R = Resources

  /** A relay address and what of it this process has put into the kernel. */
  datatype Installed = Installed(addr: Ip, res: R.Res)

  predicate Distinct(s: seq<Installed>) {
    forall i, j :: 0 <= i < j < |s| ==> s[i].addr != s[j].addr
  }

  function TableOf(s: seq<Installed>): map<Ip, R.Res> {
    if s == [] then map[] else TableOf(s[..|s| - 1])[s[|s| - 1].addr := s[|s| - 1].res]
  }

  predicate HasAddr(s: seq<Installed>, a: Ip) {
    exists i :: 0 <= i < |s| && s[i].addr == a
  }

  lemma {:induction false} TableKeys(s: seq<Installed>, a: Ip)
    ensures a in TableOf(s) <==> HasAddr(s, a)
    decreases |s|
  {
    if s != [] {
      var front := s[..|s| - 1];
      TableKeys(front, a);
      if HasAddr(front, a) {
        var i :| 0 <= i < |front| && front[i].addr == a;
        assert s[i].addr == a;
      }
      if HasAddr(s, a) && a != s[|s| - 1].addr {
        var i :| 0 <= i < |s| && s[i].addr == a;
        assert front[i].addr == a;
      }
    }
  }

  lemma {:induction false} TableAt(s: seq<Installed>, i: nat)
    requires Distinct(s) && i < |s|
    ensures s[i].addr in TableOf(s) && TableOf(s)[s[i].addr] == s[i].res
    decreases |s|
  {
    var front := s[..|s| - 1];
    if i < |front| {
      TableAt(front, i);
      assert front[i].addr != s[|s| - 1].addr;
    }
  }

  /** A list with one entry changed. */
  lemma TableUpdated(s: seq<Installed>, i: nat, res: R.Res)
    requires Distinct(s) && i < |s|
    ensures Distinct(s[i := s[i].(res := res)])
    ensures TableOf(s[i := s[i].(res := res)]) == TableOf(s)[s[i].addr := res]
  {
    var t := s[i := s[i].(res := res)];
    forall a ensures a in TableOf(t) <==> a in TableOf(s) || a == s[i].addr {
      Same(s, t, a);
      TableKeys(s, a);
      TableKeys(t, a);
      TableKeys(s, s[i].addr);
    }
    forall a | a in TableOf(t) ensures TableOf(t)[a] == TableOf(s)[s[i].addr := res][a] {
      TableKeys(t, a);
      var k :| 0 <= k < |t| && t[k].addr == a;
      TableAt(t, k);
      TableAt(s, k);
    }
  }

  lemma Same(s: seq<Installed>, t: seq<Installed>, a: Ip)
    requires |s| == |t| && forall i :: 0 <= i < |s| ==> s[i].addr == t[i].addr
    ensures HasAddr(s, a) <==> HasAddr(t, a)
  {
  }

  lemma TableRemoved(s: seq<Installed>, i: nat)
    requires Distinct(s) && i < |s|
    ensures Distinct(s[..i] + s[i + 1..]) && TableOf(s[..i] + s[i + 1..]) == TableOf(s) - {s[i].addr}
  {
    hide TableOf, HasAddr;
    var t := s[..i] + s[i + 1..];
    StaysDistinct(s, i);
    forall a ensures a in TableOf(t) <==> a in TableOf(s) && a != s[i].addr {
      TableKeys(s, a);
      TableKeys(t, a);
      Removed(s, t, i, a);
    }
    forall a | a in TableOf(t) ensures TableOf(t)[a] == TableOf(s)[a] {
      TableKeys(t, a);
      var k := Where(t, a);
      TableAt(t, k);
      TableAt(s, if k < i then k else k + 1);
    }
  }

  lemma Where(s: seq<Installed>, a: Ip) returns (k: nat)
    requires HasAddr(s, a)
    ensures k < |s| && s[k].addr == a
  {
    k :| 0 <= k < |s| && s[k].addr == a;
  }

  lemma StaysDistinct(s: seq<Installed>, i: nat)
    requires Distinct(s) && i < |s|
    ensures Distinct(s[..i] + s[i + 1..])
  {
  }

  lemma Removed(s: seq<Installed>, t: seq<Installed>, i: nat, a: Ip)
    requires Distinct(s) && i < |s| && t == s[..i] + s[i + 1..]
    ensures HasAddr(t, a) <==> HasAddr(s, a) && a != s[i].addr
  {
    if HasAddr(t, a) {
      var k :| 0 <= k < |t| && t[k].addr == a;
      var j := if k < i then k else k + 1;
      assert s[j].addr == a && j != i;
    }
    if HasAddr(s, a) && a != s[i].addr {
      var j :| 0 <= j < |s| && s[j].addr == a;
      var k := if j < i then j else j - 1;
      assert t[k].addr == a;
    }
  }

  function Fresh(needs: R.Needs): R.Res {
    R.Res(R.NewManaged(needs.route), R.NewManaged(needs.rule), false)
  }

  /** Cancel a release, settle uncertain deletions, then add what is missing; each kind on its own. */
  method Settle(was: R.Slot, l: R.Luck) returns (s: R.Slot)
    ensures s == R.Retained(was, l)
  {
    s := was.(res := was.res.(releasing := false));
    s := s.(res := s.res.(route := R.Reconciled(s.res.route, s.route, l.routeKnown)));
    s := s.(res := s.res.(rule := R.Reconciled(s.res.rule, s.rule, l.ruleKnown)));
    var (route, actualRoute) := R.Added(s.res.route, s.route, l.routeAdd);
    s := R.Slot(s.res.(route := route), actualRoute, s.rule);
    var (rule, actualRule) := R.Added(s.res.rule, s.rule, l.ruleAdd);
    s := R.Slot(s.res.(rule := rule), s.route, actualRule);
  }

  class Client {
    const needs: R.Needs
    var installed: seq<Installed>
    var routes: set<Ip>
    var rules: set<Ip>
    var remote: Ip

    ghost predicate Valid()
      reads this
    {
      Distinct(installed)
    }

    ghost function Value(): R.Node
      reads this
    {
      R.Node(TableOf(installed), routes, rules)
    }

    method Position(a: Ip) returns (pos: Option<nat>)
      requires Valid()
      ensures pos.Some? ==> pos.value < |installed| && installed[pos.value].addr == a
      ensures pos.Some? <==> a in Value().table
    {
      TableKeys(installed, a);
      for i := 0 to |installed|
        invariant forall j :: 0 <= j < i ==> installed[j].addr != a
      {
        if installed[i].addr == a { return Some(i); }
      }
      return None;
    }

    /** Record what an operation on entry `pos` left behind, in the list and in the kernel. */
    method Record(pos: nat, s: R.Slot)
      requires Valid() && pos < |installed|
      modifies this
      ensures Valid() && |installed| == old(|installed|) && installed[pos] == Installed(old(installed[pos].addr), s.res)
      ensures Value() == R.Put(old(Value()), old(installed[pos].addr), s) && remote == old(remote)
    {
      TableUpdated(installed, pos, s.res);
      installed := installed[pos := installed[pos].(res := s.res)];
      routes := R.SetTo(routes, installed[pos].addr, s.route);
      rules := R.SetTo(rules, installed[pos].addr, s.rule);
    }

    /** The entry for `a`, appended if there is none. */
    method FindOrAdd(a: Ip) returns (pos: nat)
      requires Valid()
      modifies this
      ensures Valid() && remote == old(remote) && routes == old(routes) && rules == old(rules)
      ensures pos < |installed| && installed[pos].addr == a
      ensures Value().table == if a in old(Value().table) then old(Value().table) else old(Value().table)[a := Fresh(needs)]
    {
      var p := Position(a);
      if p.Some? { return p.value; }
      TableKeys(installed, a);
      installed := installed + [Installed(a, Fresh(needs))];
      pos := |installed| - 1;
    }

    method EnsureInstalled(a: Ip, l: R.Luck) returns (ready: bool)
      requires Valid()
      modifies this
      ensures Valid() && remote == old(remote)
      ensures Value() == R.Ensure(old(Value()), needs, a, l)
      ensures ready == R.Ready(Value().table[a])
    {
      hide TableOf, R.Retained, R.Ready, Distinct;
      var pos := FindOrAdd(a);
      TableAt(installed, pos);
      var s := Settle(R.Slot(installed[pos].res, a in routes, a in rules), l);
      ghost var mid := Value();
      Record(pos, s);
      ready := R.Ready(installed[pos].res);
      assert Value().table == mid.table[a := s.res];
    }

    method RetryCleanupAddr(a: Ip, l: R.Luck)
      requires Valid()
      modifies this
      ensures Valid() && remote == old(remote)
      ensures Value() == R.Cleanup(old(Value()), a, l)
    {
      var p := Position(a);
      if p.None? { return; }
      var pos := p.value;
      TableAt(installed, pos);
      if !installed[pos].res.releasing { return; }
      var s := R.Cleaned(R.Slot(installed[pos].res, a in routes, a in rules), l);
      Record(pos, s);
      if R.CleanupComplete(installed[pos].res) {
        TableRemoved(installed, pos);
        installed := installed[..pos] + installed[pos + 1..];
      }
    }

    method Release(a: Ip, l: R.Luck)
      requires Valid()
      modifies this
      ensures Valid() && remote == old(remote)
      ensures Value() == R.Release(old(Value()), a, l)
    {
      var p := Position(a);
      if p.None? { return; }
      TableAt(installed, p.value);
      Record(p.value, R.ReleaseBegun(R.Slot(installed[p.value].res, a in routes, a in rules)));
      RetryCleanupAddr(a, l);
    }

    method RetryCleanup(rs: nat -> R.Luck) returns (ghost pending: seq<Ip>, ghost used: R.Lucks)
      requires Valid()
      modifies this
      ensures Valid() && remote == old(remote) && |used| == |pending|
      ensures R.Pending(old(Value()), pending)
      ensures Value() == R.CleanupAll(old(Value()), pending, used)
    {
      hide R.Cleanup, R.Pending;
      var all := PendingAddresses();
      pending := all;
      used := seq(|all|, i requires 0 <= i < |all| => rs(i));
      for i := 0 to |all|
        invariant Valid() && remote == old(remote)
        invariant Value() == R.CleanupAll(old(Value()), pending[..i], used[..i])
      {
        assert pending[..i + 1][..i] == pending[..i] && used[..i + 1][..i] == used[..i];
        RetryCleanupAddr(all[i], rs(i));
      }
      assert pending[..|all|] == pending && used[..|all|] == used;
    }

    method PendingAddresses() returns (pending: seq<Ip>)
      requires Valid()
      ensures R.Pending(Value(), pending)
    {
      pending := [];
      for i := 0 to |installed|
        invariant forall a :: a in pending <==> exists j :: 0 <= j < i && installed[j].addr == a && installed[j].res.releasing
      {
        if installed[i].res.releasing { pending := pending + [installed[i].addr]; }
      }
      forall a ensures a in pending <==> a in Value().table && Value().table[a].releasing {
        TableKeys(installed, a);
        if HasAddr(installed, a) {
          var k := Where(installed, a);
          TableAt(installed, k);
        }
      }
    }

    /** The addresses with an entry that are not in `keep`, in list order. */
    method StaleAddresses(keep: seq<Ip>) returns (stale: seq<Ip>)
      requires Valid()
      ensures R.Stale(Value(), keep, stale)
    {
      stale := [];
      for i := 0 to |installed|
        invariant forall a :: a in stale <==> a !in keep && exists j :: 0 <= j < i && installed[j].addr == a
      {
        if installed[i].addr !in keep { stale := stale + [installed[i].addr]; }
      }
      forall a ensures a in Value().table <==> HasAddr(installed, a) { TableKeys(installed, a); }
    }

    /** Keep exactly these addresses; `rs` answers the deletions, in list order. */
    method ReleaseExcept(keep: seq<Ip>, ls: R.Lucks, rs: nat -> R.Luck) returns (ghost stale: seq<Ip>, ghost used: R.Lucks)
      requires Valid() && |ls| == |keep|
      modifies this
      ensures Valid() && remote == old(remote) && |used| == |stale|
      ensures R.Stale(R.EnsureAll(old(Value()), needs, keep, ls), keep, stale)
      ensures Value() == R.ReleaseExcept(old(Value()), needs, keep, stale, ls, used)
    {
      hide R.Ensure, R.Release, R.Stale;
      for i := 0 to |keep|
        invariant Valid() && remote == old(remote)
        invariant Value() == R.EnsureAll(old(Value()), needs, keep[..i], ls[..i])
      {
        assert keep[..i + 1][..i] == keep[..i] && ls[..i + 1][..i] == ls[..i];
        var _ := EnsureInstalled(keep[i], ls[i]);
      }
      assert keep[..|keep|] == keep && ls[..|keep|] == ls;
      var all := StaleAddresses(keep);
      stale := all;
      used := seq(|all|, i requires 0 <= i < |all| => rs(i));
      ghost var ensured := Value();
      for i := 0 to |all|
        invariant Valid() && remote == old(remote)
        invariant Value() == R.ReleaseAll(ensured, stale[..i], used[..i])
      {
        assert stale[..i + 1][..i] == stale[..i] && used[..i + 1][..i] == used[..i];
        Release(all[i], rs(i));
      }
      assert stale[..|all|] == stale && used[..|all|] == used;
    }

    /** Switch the relay address at a reconnect boundary. */
    method ApplySwitch(to: Ip, good: Option<Ip>, ls: R.Lucks, rs: nat -> R.Luck, again: R.Luck)
      returns (ghost stale: seq<Ip>, ghost used: R.Lucks)
      requires Valid() && |ls| == |[to] + if good.Some? then [good.value] else []|
      modifies this
      ensures Valid() && remote == to && |used| == |stale|
      ensures var keep := [to] + if good.Some? then [good.value] else [];
              && R.Stale(R.EnsureAll(old(Value()), needs, keep, ls), keep, stale)
              && Value() == R.Ensure(R.ReleaseExcept(old(Value()), needs, keep, stale, ls, used), needs, to, again)
    {
      hide R.Ensure, R.ReleaseExcept, R.EnsureAll, R.Stale;
      var keep := [to] + if good.Some? then [good.value] else [];
      stale, used := ReleaseExcept(keep, ls, rs);
      var _ := EnsureInstalled(to, again);
      remote := to;
    }
  }
}
