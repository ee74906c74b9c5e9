/**
 Kernel routes and firewall rules a client owns for relay addresses: what it believes about each, and
 what the kernel really holds. A failed add installs nothing; a failed delete may or may not have worked.
 */
module Resources {
  import opened Machine
  import opened Relay

  datatype Managed = NotNeeded | Missing | Present | Removing

  datatype Res = Res(route: Managed, rule: Managed, releasing: bool)

  /** Which kinds of resource the configuration manages. */
  datatype Needs = Needs(route: bool, rule: bool)

  /** How a delete ends: confirmed, or failed after having taken effect or not. */
  datatype Deletion = Confirmed | FailedGone | FailedKept

  /** What the kernel answers to the operations on one address. */
  datatype Luck = Luck(routeAdd: bool, ruleAdd: bool, routeKnown: bool, ruleKnown: bool, routeDel: Deletion, ruleDel: Deletion)

  // ------------------------------------------------------------------ one kind of resource

  function NewManaged(needed: bool): Managed {
    if needed then Missing else NotNeeded
  }

  /** Belief and truth after an attempted add. */
  function Added(m: Managed, actual: bool, ok: bool): (Managed, bool) {
    if m.Missing? && ok then (Present, true) else (m, actual)
  }

  /** A query settles an uncertain deletion, if it answers. */
  function Reconciled(m: Managed, actual: bool, known: bool): Managed {
    if m.Removing? && known then (if actual then Present else Missing) else m
  }

  function Deleted(m: Managed, actual: bool, d: Deletion): (Managed, bool) {
    if !m.Removing? then (m, actual)
    else match d
         case Confirmed => (Missing, false)
         case FailedGone => (Removing, false)
         case FailedKept => (Removing, actual)
  }

  function Begun(m: Managed): Managed {
    if m.Present? then Removing else m
  }

  /** Present resources exist, missing and unmanaged ones do not; only a pending removal is uncertain. */
  predicate Honest(m: Managed, actual: bool) {
    (m.Present? ==> actual) && (m.Missing? || m.NotNeeded? ==> !actual)
  }

  // ------------------------------------------------------------------ one address

  /** The bookkeeping for an address and the truth about its route and rule. */
  datatype Slot = Slot(res: Res, route: bool, rule: bool)

  predicate SlotOk(s: Slot, needs: Needs) {
    && Honest(s.res.route, s.route) && Honest(s.res.rule, s.rule)
    && s.res.route.NotNeeded? == !needs.route && s.res.rule.NotNeeded? == !needs.rule
  }

  predicate Ready(r: Res) {
    !r.releasing && (r.route.Present? || r.route.NotNeeded?) && (r.rule.Present? || r.rule.NotNeeded?)
  }

  predicate CleanupComplete(r: Res) {
    r.releasing && (r.route.Missing? || r.route.NotNeeded?) && (r.rule.Missing? || r.rule.NotNeeded?)
  }

  /** Retain the address: stop releasing it, settle what is uncertain, add what is missing. */
  function Retained(s: Slot, l: Luck): Slot {
    var (route, actualRoute) := Added(Reconciled(s.res.route, s.route, l.routeKnown), s.route, l.routeAdd);
    var (rule, actualRule) := Added(Reconciled(s.res.rule, s.rule, l.ruleKnown), s.rule, l.ruleAdd);
    Slot(Res(route, rule, false), actualRoute, actualRule)
  }

  function ReleaseBegun(s: Slot): Slot {
    s.(res := Res(Begun(s.res.route), Begun(s.res.rule), true))
  }

  /** One attempt to delete both. */
  function Cleaned(s: Slot, l: Luck): Slot {
    var (route, actualRoute) := Deleted(s.res.route, s.route, l.routeDel);
    var (rule, actualRule) := Deleted(s.res.rule, s.rule, l.ruleDel);
    Slot(Res(route, rule, s.res.releasing), actualRoute, actualRule)
  }

  lemma SlotSteps(s: Slot, needs: Needs, l: Luck)
    requires SlotOk(s, needs)
    ensures SlotOk(Retained(s, l), needs) && !Retained(s, l).res.releasing
    ensures SlotOk(ReleaseBegun(s), needs) && SlotOk(Cleaned(s, l), needs)
    ensures Ready(s.res) ==> Ready(Retained(s, l).res)
    ensures Ready(s.res) ==> (needs.route ==> s.route) && (needs.rule ==> s.rule)
    ensures CleanupComplete(s.res) ==> !s.route && !s.rule
  {
  }

  // ------------------------------------------------------------------ all addresses

  /** The entries of the client, and the routes and rules of the kernel. */
  datatype Node = Node(table: map<Ip, Res>, routes: set<Ip>, rules: set<Ip>)

  function SetTo(s: set<Ip>, a: Ip, b: bool): (r: set<Ip>)
    ensures a in r <==> b
    ensures forall x :: x != a ==> (x in r <==> x in s)
  {
    if b then s + {a} else s - {a}
  }

  function SlotOf(n: Node, a: Ip): Slot
    requires a in n.table
  {
    Slot(n.table[a], a in n.routes, a in n.rules)
  }

  function Put(n: Node, a: Ip, s: Slot): (r: Node)
    ensures r.table.Keys == n.table.Keys + {a} && SlotOf(r, a) == s
    ensures forall x :: x != a ==> SameAt(n, r, x)
  {
    Node(n.table[a := s.res], SetTo(n.routes, a, s.route), SetTo(n.rules, a, s.rule))
  }

  /** Nothing about address `x` differs between two states. */
  predicate SameAt(n: Node, r: Node, x: Ip) {
    && (x in n.table <==> x in r.table) && (x in n.table ==> n.table[x] == r.table[x])
    && (x in n.routes <==> x in r.routes) && (x in n.rules <==> x in r.rules)
  }

  function Ensure(n: Node, needs: Needs, a: Ip, l: Luck): Node {
    var s := if a in n.table then SlotOf(n, a)
             else Slot(Res(NewManaged(needs.route), NewManaged(needs.rule), false), a in n.routes, a in n.rules);
    Put(n, a, Retained(s, l))
  }

  /** One cleanup attempt; the entry goes when both deletions are confirmed. */
  function Cleanup(n: Node, a: Ip, l: Luck): Node {
    if a !in n.table || !n.table[a].releasing then n
    else
      var s := Cleaned(SlotOf(n, a), l);
      var m := Put(n, a, s);
      if CleanupComplete(s.res) then m.(table := m.table - {a}) else m
  }

  function Release(n: Node, a: Ip, l: Luck): Node {
    if a !in n.table then n else Cleanup(Put(n, a, ReleaseBegun(SlotOf(n, a))), a, l)
  }

  type Lucks = seq<Luck>

  function EnsureAll(n: Node, needs: Needs, keep: seq<Ip>, ls: Lucks): Node
    requires |ls| == |keep|
  {
    if keep == [] then n
    else Ensure(EnsureAll(n, needs, keep[..|keep| - 1], ls[..|keep| - 1]), needs, keep[|keep| - 1], ls[|keep| - 1])
  }

  function ReleaseAll(n: Node, stale: seq<Ip>, ls: Lucks): Node
    requires |ls| == |stale|
  {
    if stale == [] then n
    else Release(ReleaseAll(n, stale[..|stale| - 1], ls[..|stale| - 1]), stale[|stale| - 1], ls[|stale| - 1])
  }

  function CleanupAll(n: Node, pending: seq<Ip>, ls: Lucks): Node
    requires |ls| == |pending|
  {
    if pending == [] then n
    else Cleanup(CleanupAll(n, pending[..|pending| - 1], ls[..|pending| - 1]), pending[|pending| - 1], ls[|pending| - 1])
  }

  /** `stale` lists the addresses with an entry that are not kept, in some order. */
  ghost predicate Stale(n: Node, keep: seq<Ip>, stale: seq<Ip>) {
    forall a :: a in stale <==> a in n.table && a !in keep
  }

  ghost predicate Pending(n: Node, pending: seq<Ip>) {
    forall a :: a in pending <==> a in n.table && n.table[a].releasing
  }

  // ------------------------------------------------------------------ what every operation keeps

  /** The bookkeeping of every entry is honest, and without an entry nothing is left in the kernel. */
  ghost predicate Tracks(n: Node, needs: Needs) {
    && (forall a :: a in n.table ==> SlotOk(SlotOf(n, a), needs))
    && (forall a :: a !in n.table ==> a !in n.routes && a !in n.rules)
  }

  lemma PutTracks(n: Node, needs: Needs, a: Ip, s: Slot)
    requires Tracks(n, needs) && SlotOk(s, needs)
    ensures Tracks(Put(n, a, s), needs)
  {
    hide Put;
    var r := Put(n, a, s);
    forall x | x in r.table ensures SlotOk(SlotOf(r, x), needs) {
      if x != a { assert SameAt(n, r, x); }
    }
    forall x | x !in r.table ensures x !in r.routes && x !in r.rules {
      assert SameAt(n, r, x);
    }
  }

  lemma EnsureTracks(n: Node, needs: Needs, a: Ip, l: Luck)
    requires Tracks(n, needs)
    ensures var r := Ensure(n, needs, a, l);
            && Tracks(r, needs) && a in r.table && !r.table[a].releasing
            && (a in n.table && Ready(n.table[a]) ==> Ready(r.table[a]))
            && (forall x :: x != a ==> SameAt(n, r, x))
  {
    hide Put, SlotOk, Retained, Ready;
    var s := if a in n.table then SlotOf(n, a)
             else Slot(Res(NewManaged(needs.route), NewManaged(needs.rule), false), a in n.routes, a in n.rules);
    FreshSlot(needs);
    SlotSteps(s, needs, l);
    PutTracks(n, needs, a, Retained(s, l));
  }

  /** When the kernel confirms the deletions, a released address is gone: no entry, no route, no rule. */
  lemma ReleaseSucceeds(n: Node, needs: Needs, a: Ip, l: Luck)
    requires Tracks(n, needs) && a in n.table && l.routeDel.Confirmed? && l.ruleDel.Confirmed?
    ensures var r := Release(n, a, l); a !in r.table && a !in r.routes && a !in r.rules && forall x :: x != a ==> SameAt(n, r, x)
  {
    hide Put;
    assert SlotOk(SlotOf(n, a), needs);
    var m := Put(n, a, ReleaseBegun(SlotOf(n, a)));
    var s := Cleaned(SlotOf(m, a), l);
    var p := Put(m, a, s);
    assert CleanupComplete(s.res) && !s.route && !s.rule;
    assert SlotOf(p, a) == s;
    forall x | x != a ensures SameAt(n, p.(table := p.table - {a}), x) {
      assert SameAt(n, m, x) && SameAt(m, p, x);
    }
  }

  /** When the kernel answers queries and accepts additions, retaining an address makes it ready, whatever
      state a cancelled release left it in. */
  lemma EnsureSucceeds(n: Node, needs: Needs, a: Ip, l: Luck)
    requires Tracks(n, needs) && l.routeKnown && l.ruleKnown && l.routeAdd && l.ruleAdd
    ensures var r := Ensure(n, needs, a, l);
            Ready(r.table[a]) && (needs.route ==> a in r.routes) && (needs.rule ==> a in r.rules)
  {
    hide Put, Ready, SlotOk;
    EnsureTracks(n, needs, a, l);
    var s := if a in n.table then SlotOf(n, a)
             else Slot(Res(NewManaged(needs.route), NewManaged(needs.rule), false), false, false);
    FreshSlot(needs);
    RetainedReady(s, needs, l);
    SlotSteps(SlotOf(Ensure(n, needs, a, l), a), needs, l);
  }

  lemma RetainedReady(s: Slot, needs: Needs, l: Luck)
    requires SlotOk(s, needs) && l.routeKnown && l.ruleKnown && l.routeAdd && l.ruleAdd
    ensures Ready(Retained(s, l).res)
  {
  }

  lemma FreshSlot(needs: Needs)
    ensures SlotOk(Slot(Res(NewManaged(needs.route), NewManaged(needs.rule), false), false, false), needs)
  {
  }

  lemma CleanupTracks(n: Node, needs: Needs, a: Ip, l: Luck)
    requires Tracks(n, needs)
    ensures var r := Cleanup(n, a, l);
            && Tracks(r, needs)
            && (forall x :: x != a ==> SameAt(n, r, x))
            && (a in n.table && !n.table[a].releasing ==> r == n)
            && (a in r.table ==> a in n.table && r.table[a].releasing == n.table[a].releasing)
  {
    hide Put, SlotOk, Cleaned, CleanupComplete;
    if a in n.table && n.table[a].releasing {
      var s := Cleaned(SlotOf(n, a), l);
      SlotSteps(SlotOf(n, a), needs, l);
      CleanedKeepsFlag(SlotOf(n, a), l);
      PutTracks(n, needs, a, s);
      var m := Put(n, a, s);
      SlotSteps(s, needs, l);
      forall x | x != a ensures SameAt(n, Cleanup(n, a, l), x) { assert SameAt(n, m, x); }
    }
  }

  lemma CleanedKeepsFlag(s: Slot, l: Luck)
    ensures Cleaned(s, l).res.releasing == s.res.releasing
  {
  }

  lemma ReleaseTracks(n: Node, needs: Needs, a: Ip, l: Luck)
    requires Tracks(n, needs)
    ensures var r := Release(n, a, l);
            && Tracks(r, needs)
            && (forall x :: x != a ==> SameAt(n, r, x))
            && (a in r.table ==> a in n.table && r.table[a].releasing)
  {
    hide Put, SlotOk, Cleanup, ReleaseBegun;
    if a in n.table {
      SlotSteps(SlotOf(n, a), needs, l);
      BegunReleases(SlotOf(n, a));
      PutTracks(n, needs, a, ReleaseBegun(SlotOf(n, a)));
      var m := Put(n, a, ReleaseBegun(SlotOf(n, a)));
      CleanupTracks(m, needs, a, l);
      forall x | x != a ensures SameAt(n, Release(n, a, l), x) { assert SameAt(n, m, x) && SameAt(m, Cleanup(m, a, l), x); }
    }
  }

  lemma BegunReleases(s: Slot)
    ensures ReleaseBegun(s).res.releasing
  {
  }

  lemma SameTrans(n: Node, m: Node, r: Node, x: Ip)
    requires SameAt(n, m, x) && SameAt(m, r, x)
    ensures SameAt(n, r, x)
  {
  }

  lemma {:induction false} EnsureAllTracks(n: Node, needs: Needs, keep: seq<Ip>, ls: Lucks)
    requires Tracks(n, needs) && |ls| == |keep|
    ensures var r := EnsureAll(n, needs, keep, ls);
            && Tracks(r, needs)
            && (forall a :: a in keep ==> a in r.table && !r.table[a].releasing)
            && (forall a :: a in n.table && Ready(n.table[a]) ==> a in r.table && Ready(r.table[a]))
            && (forall x :: x !in keep ==> SameAt(n, r, x))
    decreases |keep|
  {
    hide Ready, Ensure, Tracks;
    if keep != [] {
      var k := |keep| - 1;
      var m, a := EnsureAll(n, needs, keep[..k], ls[..k]), keep[k];
      EnsureAllTracks(n, needs, keep[..k], ls[..k]);
      EnsureTracks(m, needs, a, ls[k]);
      var r := Ensure(m, needs, a, ls[k]);
      forall x | x in keep ensures x in r.table && !r.table[x].releasing {
        if x != a { assert x in keep[..k] && SameAt(m, r, x); }
      }
      forall x | x in n.table && Ready(n.table[x]) ensures x in r.table && Ready(r.table[x]) {
        if x != a { assert SameAt(m, r, x); }
      }
      forall x | x !in keep ensures SameAt(n, r, x) {
        assert x !in keep[..k];
        SameTrans(n, m, r, x);
      }
    }
  }

  lemma {:induction false} ReleaseAllTracks(n: Node, needs: Needs, stale: seq<Ip>, ls: Lucks)
    requires Tracks(n, needs) && |ls| == |stale|
    ensures var r := ReleaseAll(n, stale, ls);
            && Tracks(r, needs)
            && (forall a :: a in stale && a in r.table ==> r.table[a].releasing)
            && (forall x :: x !in stale ==> SameAt(n, r, x))
    decreases |stale|
  {
    hide Release, Tracks;
    if stale != [] {
      var k := |stale| - 1;
      var m, a := ReleaseAll(n, stale[..k], ls[..k]), stale[k];
      ReleaseAllTracks(n, needs, stale[..k], ls[..k]);
      ReleaseTracks(m, needs, a, ls[k]);
      var r := Release(m, a, ls[k]);
      forall x | x in stale && x in r.table ensures r.table[x].releasing {
        if x != a { assert x in stale[..k] && SameAt(m, r, x); }
      }
      forall x | x !in stale ensures SameAt(n, r, x) {
        assert x !in stale[..k];
        SameTrans(n, m, r, x);
      }
    }
  }

  /** Retrying cleanups touches only entries that are being released. */
  lemma {:induction false} CleanupAllTracks(n: Node, needs: Needs, pending: seq<Ip>, ls: Lucks)
    requires Tracks(n, needs) && |ls| == |pending|
    ensures var r := CleanupAll(n, pending, ls);
            && Tracks(r, needs)
            && (forall a :: a in r.table ==> a in n.table && r.table[a].releasing == n.table[a].releasing)
            && (forall x :: x in n.table && !n.table[x].releasing ==> SameAt(n, r, x))
    decreases |pending|
  {
    hide Cleanup, Tracks;
    if pending != [] {
      var k := |pending| - 1;
      var m, a := CleanupAll(n, pending[..k], ls[..k]), pending[k];
      CleanupAllTracks(n, needs, pending[..k], ls[..k]);
      CleanupTracks(m, needs, a, ls[k]);
      var r := Cleanup(m, a, ls[k]);
      forall x | x in r.table ensures x in n.table && r.table[x].releasing == n.table[x].releasing {
        if x != a { assert SameAt(m, r, x); }
      }
      forall x | x in n.table && !n.table[x].releasing ensures SameAt(n, r, x) {
        if x == a { assert r == m; } else { assert SameAt(m, r, x); }
        SameTrans(n, m, r, x);
      }
    }
  }

  // ------------------------------------------------------------------ keeping a set of addresses

  /** Make the kept addresses ready, then release all the others. */
  function ReleaseExcept(n: Node, needs: Needs, keep: seq<Ip>, stale: seq<Ip>, ls: Lucks, rs: Lucks): Node
    requires |ls| == |keep| && |rs| == |stale|
  {
    ReleaseAll(EnsureAll(n, needs, keep, ls), stale, rs)
  }

  /** Afterwards exactly the kept addresses have an entry that is not being released. */
  lemma ReleaseExceptTracks(n: Node, needs: Needs, keep: seq<Ip>, stale: seq<Ip>, ls: Lucks, rs: Lucks)
    requires Tracks(n, needs) && |ls| == |keep| && |rs| == |stale| && Stale(EnsureAll(n, needs, keep, ls), keep, stale)
    ensures var r := ReleaseExcept(n, needs, keep, stale, ls, rs);
            && Tracks(r, needs)
            && (forall a :: a in keep ==> a in r.table)
            && (forall a :: a in r.table ==> (r.table[a].releasing <==> a !in keep))
            && (forall a :: a in keep && a in n.table && Ready(n.table[a]) ==> Ready(r.table[a]))
  {
    hide Ready, Tracks, EnsureAll, ReleaseAll;
    var m := EnsureAll(n, needs, keep, ls);
    EnsureAllTracks(n, needs, keep, ls);
    ReleaseAllTracks(m, needs, stale, rs);
    var r := ReleaseAll(m, stale, rs);
    forall a | a in keep ensures a in r.table && r.table[a] == m.table[a] && !r.table[a].releasing {
      assert a !in stale;
      assert SameAt(m, r, a);
    }
    forall a | a in r.table ensures r.table[a].releasing <==> a !in keep {
      if a !in stale { assert SameAt(m, r, a); }
    }
  }

  /** When every deletion is confirmed, releasing everything leaves no entry and nothing in the kernel. */
  lemma {:induction false} ReleaseCompletes(n: Node, needs: Needs, stale: seq<Ip>, rs: Lucks)
    requires Tracks(n, needs) && |rs| == |stale|
    requires forall i :: 0 <= i < |rs| ==> rs[i].routeDel.Confirmed? && rs[i].ruleDel.Confirmed?
    ensures forall a :: a in stale ==> a !in ReleaseAll(n, stale, rs).table
    decreases |stale|
  {
    hide Release, Tracks;
    if stale != [] {
      var k := |stale| - 1;
      var m, a := ReleaseAll(n, stale[..k], rs[..k]), stale[k];
      ReleaseCompletes(n, needs, stale[..k], rs[..k]);
      ReleaseAllTracks(n, needs, stale[..k], rs[..k]);
      ReleaseTracks(m, needs, a, rs[k]);
      ReleaseGone(m, a, rs[k]);
      forall x | x in stale && x != a ensures x !in ReleaseAll(n, stale, rs).table {
        assert x in stale[..k] && SameAt(m, Release(m, a, rs[k]), x);
      }
    }
  }

  lemma ReleaseGone(n: Node, a: Ip, l: Luck)
    requires l.routeDel.Confirmed? && l.ruleDel.Confirmed?
    ensures a !in Release(n, a, l).table
  {
  }
}
