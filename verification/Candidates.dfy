/** Candidate lists: the canonical (numeric) form of an answer and the preference order. */
module Candidates {
  import opened Machine
  import opened Relay

  function InsertIp(x: Ip, s: seq<Ip>): (r: seq<Ip>) {
    if s == [] || x < s[0] then [x] + s
    else if x == s[0] then s
    else [s[0]] + InsertIp(x, s[1..])
  }

  function SortDedup(s: seq<Ip>): (r: seq<Ip>) {
    if s == [] then [] else InsertIp(s[0], SortDedup(s[1..]))
  }

  function Truncate(s: seq<Ip>): seq<Ip> {
    if |s| > MAX_ENDPOINT_CANDIDATES then s[..MAX_ENDPOINT_CANDIDATES] else s
  }

  /** `canonical_candidates`: sorted, deduplicated, at most eight. */
  function Canonical(s: seq<Ip>): seq<Ip> {
    Truncate(SortDedup(s))
  }

  function Without(s: seq<Ip>, a: Ip, b: Option<Ip>): (r: seq<Ip>)
    ensures forall x :: x in r <==> x in s && x != a && Some(x) != b
  {
    if s == [] then []
    else if s[0] != a && Some(s[0]) != b then [s[0]] + Without(s[1..], a, b)
    else Without(s[1..], a, b)
  }

  /** `order_candidates`: current first, then committed-good, then the rest in numeric order. */
  function Ordered(s: seq<Ip>, cur: Ip, good: Option<Ip>): seq<Ip> {
    var first := if cur in s then [cur] else [];
    var second := if good.Some? && good.value in s && good.value != cur then [good.value] else [];
    Truncate(first + second + SortDedup(Without(s, cur, good)))
  }

  /** The safe addresses of an answer, first occurrence kept. */
  function SafeOnly(addrs: seq<Ip>, safe: set<Ip>): (r: seq<Ip>)
    ensures forall x :: x in r ==> x in addrs && x in safe
    ensures forall x :: x in addrs && x in safe ==> x in r
    ensures Distinct(r)
  {
    if addrs == [] then []
    else
      var n := |addrs| - 1;
      var r := SafeOnly(addrs[..n], safe);
      assert addrs == addrs[..n] + [addrs[n]];
      if addrs[n] in safe && addrs[n] !in r then r + [addrs[n]] else r
  }

  predicate Distinct(s: seq<Ip>) {
    forall i, j :: 0 <= i < j < |s| ==> s[i] != s[j]
  }

  // ------------------------------------------------------------------ properties

  lemma {:induction false} InsertIpAdds(x: Ip, s: seq<Ip>)
    ensures forall y :: y in InsertIp(x, s) <==> y == x || y in s
    ensures |s| <= |InsertIp(x, s)| <= |s| + 1
    ensures x !in s ==> |InsertIp(x, s)| == |s| + 1
  {
    if s != [] && x > s[0] {
      InsertIpAdds(x, s[1..]);
      assert s == [s[0]] + s[1..];
    }
  }

  lemma {:induction false} InsertIpSorts(x: Ip, s: seq<Ip>)
    requires Increasing(s)
    ensures Increasing(InsertIp(x, s))
  {
    if s != [] && x > s[0] {
      InsertIpSorts(x, s[1..]);
      InsertIpAdds(x, s[1..]);
      var t := InsertIp(x, s[1..]);
      forall j | 0 <= j < |t| ensures s[0] < t[j] {
        assert t[j] in t;
        assert t[j] == x || t[j] in s[1..];
      }
    }
  }

  lemma {:induction false} SortDedupSorts(s: seq<Ip>)
    ensures Increasing(SortDedup(s))
    ensures forall y :: y in SortDedup(s) <==> y in s
    ensures |SortDedup(s)| <= |s|
    ensures Distinct(s) ==> |SortDedup(s)| == |s|
  {
    if s != [] {
      SortDedupSorts(s[1..]);
      InsertIpSorts(s[0], SortDedup(s[1..]));
      InsertIpAdds(s[0], SortDedup(s[1..]));
      assert s == [s[0]] + s[1..];
    }
  }

  /** A strictly increasing sequence is determined by its elements. */
  lemma {:induction false} IncreasingUnique(s: seq<Ip>, t: seq<Ip>)
    requires Increasing(s) && Increasing(t)
    requires forall x :: x in s <==> x in t
    ensures s == t
  {
    assert s != [] ==> s[0] in t;
    assert t != [] ==> t[0] in s;
    if s != [] {
      assert s[0] in t && t[0] in s;
      assert s[0] == t[0];
      forall x ensures x in s[1..] <==> x in t[1..] {
        assert x in s[1..] ==> x in s && x != s[0];
        assert x in t[1..] ==> x in t && x != t[0];
        assert x in s && x != s[0] ==> x in s[1..];
        assert x in t && x != t[0] ==> x in t[1..];
      }
      IncreasingUnique(s[1..], t[1..]);
      assert s == [s[0]] + s[1..] && t == [t[0]] + t[1..];
    }
  }

  /** The canonical form is increasing, bounded, and empty only for an empty answer. */
  lemma CanonicalShape(s: seq<Ip>)
    ensures Increasing(Canonical(s))
    ensures |Canonical(s)| <= MAX_ENDPOINT_CANDIDATES
    ensures forall y :: y in Canonical(s) ==> y in s
    ensures s != [] ==> Canonical(s) != []
    ensures |s| <= MAX_ENDPOINT_CANDIDATES ==> forall y :: y in Canonical(s) <==> y in s
  {
    SortDedupSorts(s);
    if s != [] { assert s[0] in SortDedup(s); }
  }

  /** What the cap leaves out is larger than all that is kept, and nothing is left out below eight. */
  lemma CanonicalLowest(s: seq<Ip>, y: Ip, z: Ip)
    requires y in Canonical(s) && z in s && z !in Canonical(s)
    ensures y < z && |Canonical(s)| == 8
  {
    SortDedupSorts(s);
    var t := SortDedup(s);
    var i :| 0 <= i < |t| && t[i] == z;
    var j :| 0 <= j < |Canonical(s)| && Canonical(s)[j] == y;
    assert t[j] == y;
  }

  /** The canonical form depends only on the set of addresses, never on their order. */
  lemma CanonicalOrderFree(s: seq<Ip>, t: seq<Ip>)
    requires forall x :: x in s <==> x in t
    ensures Canonical(s) == Canonical(t)
  {
    SortDedupSorts(s);
    SortDedupSorts(t);
    IncreasingUnique(SortDedup(s), SortDedup(t));
  }

  lemma CanonicalIdempotent(s: seq<Ip>)
    ensures Canonical(Canonical(s)) == Canonical(s)
  {
    CanonicalShape(s);
    CanonicalShape(Canonical(s));
    IncreasingUnique(Canonical(Canonical(s)), Canonical(s));
  }

  ghost predicate WellFormed(s: seq<Ip>) {
    |s| <= MAX_ENDPOINT_CANDIDATES && Distinct(s)
  }

  lemma {:induction false} WithoutKeeps(s: seq<Ip>, a: Ip, b: Option<Ip>)
    requires Distinct(s)
    ensures Distinct(Without(s, a, b))
    ensures |Without(s, a, b)| + (if a in s then 1 else 0)
            + (if b.Some? && b.value in s && b.value != a then 1 else 0) == |s|
  {
    if s != [] {
      WithoutKeeps(s[1..], a, b);
      assert s == [s[0]] + s[1..];
    }
  }

  /** Reordering by preference keeps exactly the same addresses, hence the same canonical set. */
  lemma OrderedKeeps(s: seq<Ip>, cur: Ip, good: Option<Ip>)
    requires WellFormed(s)
    ensures WellFormed(Ordered(s, cur, good))
    ensures forall x :: x in Ordered(s, cur, good) <==> x in s
    ensures |Ordered(s, cur, good)| == |s|
    ensures Canonical(Ordered(s, cur, good)) == Canonical(s)
    ensures cur in s ==> Ordered(s, cur, good)[0] == cur
  {
    var w := Without(s, cur, good);
    WithoutKeeps(s, cur, good);
    SortDedupSorts(w);
    var first := if cur in s then [cur] else [];
    var second := if good.Some? && good.value in s && good.value != cur then [good.value] else [];
    var r := first + second + SortDedup(w);
    assert |r| == |s|;
    assert r == Ordered(s, cur, good);
    forall x ensures x in r <==> x in s {
      assert x in r <==> x in first || x in second || x in SortDedup(w);
    }
    CanonicalOrderFree(r, s);
  }

  /** `x` is preferred to `y`: the current address, then committed-good, then the smaller number. */
  predicate Preferred(x: Ip, y: Ip, cur: Ip, good: Option<Ip>) {
    y != cur && (x == cur || (Some(y) != good && (Some(x) == good || x < y)))
  }

  lemma OrderedRanks(s: seq<Ip>, cur: Ip, good: Option<Ip>)
    requires WellFormed(s)
    ensures var r := Ordered(s, cur, good); forall i, j :: 0 <= i < j < |r| ==> Preferred(r[i], r[j], cur, good)
  {
    hide Without, SortDedup;
    var w := Without(s, cur, good);
    WithoutKeeps(s, cur, good);
    SortDedupSorts(w);
    var t := SortDedup(w);
    assert forall j :: 0 <= j < |t| ==> t[j] in w;
  }
}
