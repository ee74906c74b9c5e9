/** Decimal numerals, dotted addresses, and splitting and joining of lines and fields. */
module Text {
  import opened Machine
  import Arith
  import opened Relay

  // ------------------------------------------------------------------ split and join

  function Split(s: string, sep: char): (r: seq<string>)
    ensures |r| >= 1
  {
    if s == [] then [[]]
    else
      var r := Split(s[1..], sep);
      if s[0] == sep then [[]] + r else [[s[0]] + r[0]] + r[1..]
  }

  function Join(parts: seq<string>, sep: char): string
    requires |parts| >= 1
  {
    if |parts| == 1 then parts[0] else parts[0] + [sep] + Join(parts[1..], sep)
  }

  ghost predicate Free(parts: seq<string>, sep: char) {
    forall i :: 0 <= i < |parts| ==> sep !in parts[i]
  }

  /** Joining undoes splitting, and no part holds the separator. */
  lemma {:induction false} JoinSplit(s: string, sep: char)
    ensures Join(Split(s, sep), sep) == s && Free(Split(s, sep), sep)
  {
    if s != [] {
      JoinSplit(s[1..], sep);
      var r := Split(s[1..], sep);
      assert s == [s[0]] + s[1..];
      if s[0] == sep {
        assert ([[]] + r)[1..] == r;
      } else {
        var q := [[s[0]] + r[0]] + r[1..];
        assert q[1..] == r[1..];
        if |r| == 1 {
          assert Join(q, sep) == [s[0]] + r[0];
        } else {
          assert Join(q, sep) == ([s[0]] + r[0]) + [sep] + Join(r[1..], sep);
        }
      }
    }
  }

  lemma {:induction false} SplitPrefix(a: string, b: string, sep: char)
    requires sep !in a
    ensures Split(a + b, sep) == [a + Split(b, sep)[0]] + Split(b, sep)[1..]
  {
    if a == [] {
      assert a + b == b;
      assert a + Split(b, sep)[0] == Split(b, sep)[0];
      assert Split(b, sep) == [Split(b, sep)[0]] + Split(b, sep)[1..];
    } else {
      SplitPrefix(a[1..], b, sep);
      assert (a + b)[1..] == a[1..] + b;
      var r := Split(b, sep);
      assert a == [a[0]] + a[1..];
      assert [a[0]] + (a[1..] + r[0]) == a + r[0];
    }
  }

  /** Splitting undoes joining of parts that do not hold the separator. */
  lemma {:induction false} SplitJoin(parts: seq<string>, sep: char)
    requires |parts| >= 1 && Free(parts, sep)
    ensures Split(Join(parts, sep), sep) == parts
  {
    if |parts| == 1 {
      SplitPrefix(parts[0], [], sep);
      assert parts[0] + [] == parts[0];
      assert parts == [parts[0]];
    } else {
      SplitJoin(parts[1..], sep);
      var rest := [sep] + Join(parts[1..], sep);
      assert rest[1..] == Join(parts[1..], sep);
      SplitPrefix(parts[0], rest, sep);
      assert parts[0] + [sep] + Join(parts[1..], sep) == parts[0] + rest;
      assert Split(rest, sep) == [[]] + parts[1..];
      assert parts[0] + [] == parts[0];
      assert parts == [parts[0]] + parts[1..];
    }
  }

  lemma {:induction false} JoinChars(parts: seq<string>, sep: char, c: char)
    requires |parts| >= 1 && c != sep && Free(parts, c)
    ensures c !in Join(parts, sep)
  {
    if |parts| > 1 {
      JoinChars(parts[1..], sep, c);
    }
  }

  lemma {:induction false} JoinLength(parts: seq<string>, sep: char, each: nat)
    requires |parts| >= 1 && forall i :: 0 <= i < |parts| ==> |parts[i]| <= each
    ensures |Join(parts, sep)| + 1 <= |parts| * (each + 1)
  {
    if |parts| > 1 {
      JoinLength(parts[1..], sep, each);
      assert |parts| * (each + 1) == |parts[1..]| * (each + 1) + (each + 1);
    }
  }

  // ------------------------------------------------------------------ decimal numerals

  function Digit(d: nat): char
    requires d < 10
  {
    '0' + d as char
  }

  predicate IsDigit(c: char) {
    '0' <= c <= '9'
  }

  function DigitValue(c: char): (d: nat)
    requires IsDigit(c)
    ensures d < 10 && Digit(d) == c
  {
    (c - '0') as nat
  }

  /** `to_string` of an unsigned integer. */
  function Dec(n: nat): (r: string)
    ensures |r| >= 1 && forall i :: 0 <= i < |r| ==> IsDigit(r[i])
  {
    if n < 10 then [Digit(n)] else Dec(n / 10) + [Digit(n % 10)]
  }

  function Value(s: string): nat
    requires forall i :: 0 <= i < |s| ==> IsDigit(s[i])
  {
    if s == [] then 0 else Value(s[..|s| - 1]) * 10 + DigitValue(s[|s| - 1])
  }

  lemma {:induction false} ValueOfDec(n: nat)
    ensures Value(Dec(n)) == n
  {
    if n < 10 {
      assert Dec(n)[..0] == [];
    } else {
      ValueOfDec(n / 10);
      assert Dec(n)[..|Dec(n)| - 1] == Dec(n / 10);
    }
  }

  /** Parse and insist on the canonical spelling, as every numeric field of the state does. */
  function ParseDec(s: string, max: nat): (r: Option<nat>)
    ensures r.Some? ==> r.value <= max && Dec(r.value) == s
  {
    if s == [] || !(forall i :: 0 <= i < |s| ==> IsDigit(s[i])) then None
    else if Value(s) <= max && Dec(Value(s)) == s then Some(Value(s)) else None
  }

  /** The canonical spellings are exactly what parses. */
  lemma ParseOfDec(n: nat, max: nat)
    requires n <= max
    ensures ParseDec(Dec(n), max) == Some(n)
  {
    ValueOfDec(n);
  }

  function Pow10(k: nat): nat {
    if k == 0 then 1 else 10 * Pow10(k - 1)
  }

  lemma {:induction false} DecLength(n: nat, k: nat)
    requires k >= 1 && n < Pow10(k)
    ensures |Dec(n)| <= k
  {
    if n >= 10 {
      assert k > 1 by { assert Pow10(1) == 10; }
      DecLength(n / 10, k - 1);
    }
  }

  lemma {:induction false} Pow10Split(a: nat, b: nat)
    ensures Pow10(a + b) == Pow10(a) * Pow10(b)
  {
    if a > 0 {
      Pow10Split(a - 1, b);
      Arith.Regroup(10, Pow10(a - 1), Pow10(b));
    }
  }

  lemma NumeralLengths(n: nat)
    ensures n <= 0xFF ==> |Dec(n)| <= 3
    ensures n <= 0xFFFF ==> |Dec(n)| <= 5
    ensures n <= U32_MAX ==> |Dec(n)| <= 10
    ensures n <= U64_MAX ==> |Dec(n)| <= 20
  {
    assert Pow10(5) == 100_000 && Pow10(3) == 1_000;
    Pow10Split(5, 5);
    assert Pow10(10) == 10_000_000_000;
    Pow10Split(10, 10);
    assert Pow10(20) == 100_000_000_000_000_000_000;
    if n <= 0xFF { DecLength(n, 3); }
    if n <= 0xFFFF { DecLength(n, 5); }
    if n <= U32_MAX { DecLength(n, 10); }
    if n <= U64_MAX { DecLength(n, 20); }
  }

  // ------------------------------------------------------------------ dotted addresses

  function Octets(ip: Ip): (r: seq<nat>)
    ensures |r| == 4 && forall i :: 0 <= i < 4 ==> r[i] <= 255
  {
    [ip / 256 / 256 / 256, ip / 256 / 256 % 256, ip / 256 % 256, ip % 256]
  }

  function FromOctets(a: nat, b: nat, c: nat, d: nat): Ip
    requires a <= 255 && b <= 255 && c <= 255 && d <= 255
  {
    ((a * 256 + b) * 256 + c) * 256 + d
  }

  function Quad(o: seq<nat>): (r: seq<string>)
    requires |o| == 4
    ensures |r| == 4
  {
    [Dec(o[0]), Dec(o[1]), Dec(o[2]), Dec(o[3])]
  }

  function Dotted(ip: Ip): string {
    Join(Quad(Octets(ip)), '.')
  }

  function ParseIp(s: string): (r: Option<Ip>) {
    var f := Split(s, '.');
    if |f| != 4 then None
    else
      var a, b, c, d := ParseDec(f[0], 255), ParseDec(f[1], 255), ParseDec(f[2], 255), ParseDec(f[3], 255);
      if a.Some? && b.Some? && c.Some? && d.Some? then Some(FromOctets(a.value, b.value, c.value, d.value)) else None
  }

  lemma OctetsOfFrom(a: nat, b: nat, c: nat, d: nat)
    requires a <= 255 && b <= 255 && c <= 255 && d <= 255
    ensures Octets(FromOctets(a, b, c, d)) == [a, b, c, d]
  {
    var x := a * 256 + b;
    var y := x * 256 + c;
    assert (y * 256 + d) / 256 == y;
    assert y / 256 == x;
    assert x / 256 == a;
  }

  lemma FromOfOctets(ip: Ip)
    ensures var o := Octets(ip); FromOctets(o[0], o[1], o[2], o[3]) == ip
  {
  }

  /** The canonical dotted spellings are exactly what parses as an address. */
  lemma ParseIpExact(s: string, ip: Ip)
    ensures ParseIp(s) == Some(ip) <==> s == Dotted(ip)
  {
    var o := Octets(ip);
    if s == Dotted(ip) {
      SplitJoin(Quad(o), '.');
      ParseOfDec(o[0], 255);
      ParseOfDec(o[1], 255);
      ParseOfDec(o[2], 255);
      ParseOfDec(o[3], 255);
      FromOfOctets(ip);
    }
    if ParseIp(s) == Some(ip) {
      var f := Split(s, '.');
      JoinSplit(s, '.');
      OctetsOfFrom(ParseDec(f[0], 255).value, ParseDec(f[1], 255).value, ParseDec(f[2], 255).value, ParseDec(f[3], 255).value);
      assert f == Quad(o);
    }
  }

  // ------------------------------------------------------------------ tokens

  predicate TokenChar(c: char) {
    IsDigit(c) || 'a' <= c <= 'z' || c == '-' || c == '.'
  }

  /** Nothing but lower-case letters, digits, hyphens and dots. */
  predicate Token(s: string) {
    s != [] && forall i :: 0 <= i < |s| ==> TokenChar(s[i])
  }

  lemma DecIsToken(n: nat)
    ensures Token(Dec(n))
  {
  }

  lemma DottedIsToken(ip: Ip)
    ensures Token(Dotted(ip)) && |Dotted(ip)| <= 15
  {
    var q := Quad(Octets(ip));
    NumeralLengths(Octets(ip)[0]);
    NumeralLengths(Octets(ip)[1]);
    NumeralLengths(Octets(ip)[2]);
    NumeralLengths(Octets(ip)[3]);
    JoinFour(q[0], q[1], q[2], q[3], '.');
  }

  lemma JoinFour(a: string, b: string, c: string, d: string, sep: char)
    ensures Join([a, b, c, d], sep) == a + [sep] + (b + [sep] + (c + [sep] + d))
  {
    assert [a, b, c, d][1..] == [b, c, d] && [b, c, d][1..] == [c, d] && [c, d][1..] == [d];
    assert Join([c, d], sep) == c + [sep] + d;
    assert Join([b, c, d], sep) == b + [sep] + Join([c, d], sep);
  }
}
