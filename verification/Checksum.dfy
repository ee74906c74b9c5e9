/** The Internet checksum over big-endian 16-bit words. */
module Checksum {
  import opened Machine
  import Arith

  type U8 = x: nat | x < 256
  type U16 = x: nat | x < 65536
  type Bytes = seq<U8>

  // ------------------------------------------------------------------ sums of words

  function WordOf(high: U8, low: U8): (r: U16)
    ensures r / 256 == high && r % 256 == low
  {
    var h: int := high;
    h * 256 + low
  }

  /** The sum of the words; an odd last byte is the high half of a word. */
  function Sum(data: Bytes): nat {
    if |data| == 0 then 0
    else if |data| == 1 then WordOf(data[0], 0)
    else WordOf(data[0], data[1]) + Sum(data[2..])
  }

  /** The 32-bit sum wraps around. */
  function Wrap(x: nat): U32 {
    x % 0x1_0000_0000
  }

  lemma WrapAdd(a: nat, b: nat)
    ensures Wrap(Wrap(a) + b) == Wrap(a + b)
  {
    var q := a / 0x1_0000_0000;
    assert a + b == Wrap(a) + b + q * 0x1_0000_0000;
    Arith.AddMultiple(Wrap(a) + b, q, 0x1_0000_0000);
  }

  lemma WrapSmall(a: nat)
    requires a <= U32_MAX
    ensures Wrap(a) == a
  {
  }

  lemma {:induction false} SumBound(data: Bytes)
    ensures Sum(data) <= 65535 * ((|data| + 1) / 2)
    decreases |data|
  {
    if |data| > 1 {
      SumBound(data[2..]);
      assert (|data| + 1) / 2 == (|data[2..]| + 1) / 2 + 1;
    }
  }

  lemma {:induction false} SumConcat(a: Bytes, b: Bytes)
    requires |a| % 2 == 0
    ensures Sum(a + b) == Sum(a) + Sum(b)
    decreases |a|
  {
    if a == [] {
      assert a + b == b;
    } else {
      assert (a + b)[2..] == a[2..] + b;
      SumConcat(a[2..], b);
    }
  }

  // ------------------------------------------------------------------ folding

  /** Carries added back into sixteen bits, twice. */
  function Folded(acc: nat): U16 {
    var a := acc / 65536 + acc % 65536;
    (a + a / 65536) % 65536
  }

  /** The one's-complement sum: the residue modulo 65535, with 65535 standing for a non-zero multiple. */
  lemma FoldedIs(acc: nat)
    requires acc <= U32_MAX
    ensures Folded(acc) == if acc == 0 then 0 else (acc - 1) % 65535 + 1
  {
    if acc > 0 {
      var h, l := acc / 65536, acc % 65536;
      var a := h + l;
      assert acc - 1 == 65535 * h + (a - 1);
      if a < 65536 {
        Arith.ModUnique(h, a - 1, 65535);
        assert h * 65535 + (a - 1) == acc - 1;
      } else {
        Arith.ModUnique(h + 1, a - 65536, 65535);
        assert (h + 1) * 65535 + (a - 65536) == acc - 1;
      }
    }
  }

  function Complement(x: U16): U16 {
    65535 - x
  }

  function Total(pseudo: Bytes, data: Bytes): U32 {
    Wrap(Sum(pseudo) + Sum(data))
  }

  function Csum(pseudo: Bytes, data: Bytes): U16 {
    Complement(Folded(Total(pseudo, data)))
  }

  /** Buffers whose words cannot overflow a 32-bit sum. */
  predicate Fits(pseudo: Bytes, data: Bytes) {
    |pseudo| % 2 == 0 && |pseudo| + |data| <= 131070
  }

  lemma SumFits(pseudo: Bytes, data: Bytes)
    requires Fits(pseudo, data)
    ensures Sum(pseudo) + Sum(data) <= U32_MAX
  {
    SumBound(pseudo);
    SumBound(data);
    Arith.MulMonotone((|pseudo| + 1) / 2 + (|data| + 1) / 2, 65535, 65535);
  }

  /** How often the 32-bit sum wraps around: never for buffers that fit. */
  function Wraps(pseudo: Bytes, data: Bytes): nat {
    (Sum(pseudo) + Sum(data)) / 0x1_0000_0000
  }

  lemma TotalIs(pseudo: Bytes, data: Bytes)
    ensures Sum(pseudo) + Sum(data) == Wraps(pseudo, data) * 0x1_0000_0000 + Total(pseudo, data)
    ensures Fits(pseudo, data) ==> Wraps(pseudo, data) == 0
  {
    hide Sum;
    if Fits(pseudo, data) { SumFits(pseudo, data); }
  }

  /** A buffer of any length verifies exactly when its 32-bit sum is a non-zero multiple of 65535. */
  lemma VerifiesIff(pseudo: Bytes, data: Bytes)
    ensures Csum(pseudo, data) == 0 <==> Total(pseudo, data) > 0 && Total(pseudo, data) % 65535 == 0
  {
    hide Total;
    var s := Total(pseudo, data);
    FoldedIs(s);
    if s > 0 { Arith.NextMod(s - 1, 65535); }
  }

  // ------------------------------------------------------------------ writing the checksum

  function Be16(x: U16): Bytes {
    [x / 256, x % 256]
  }

  /** `b` written over `s` at `i`. */
  function Overwrite(s: Bytes, i: nat, b: Bytes): (r: Bytes)
    requires i + |b| <= |s|
    ensures |r| == |s|
    ensures forall j :: 0 <= j < |s| ==> r[j] == if i <= j < i + |b| then b[j - i] else s[j]
  {
    s[..i] + b + s[i + |b|..]
  }

  lemma SumSpliced(a: Bytes, p: Bytes, b: Bytes)
    requires |a| % 2 == 0 && |p| == 2
    ensures Sum(a + p + b) == Sum(a) + WordOf(p[0], p[1]) + Sum(b)
  {
    hide Sum;
    SumConcat(a + p, b);
    SumConcat(a, p);
    SumPair(p);
  }

  lemma SumOverwrite(s: Bytes, k: nat, x: U16)
    requires k % 2 == 0 && k + 2 <= |s|
    ensures Sum(Overwrite(s, k, Be16(x))) == Sum(s) - WordOf(s[k], s[k + 1]) + x
  {
    hide Sum, WordOf;
    assert s == s[..k] + s[k..k + 2] + s[k + 2..];
    SumSpliced(s[..k], s[k..k + 2], s[k + 2..]);
    SumSpliced(s[..k], Be16(x), s[k + 2..]);
    WordParts(x);
  }

  lemma WordParts(x: U16)
    ensures WordOf(x / 256, x % 256) == x
  {
  }

  lemma SumPair(p: Bytes)
    requires |p| == 2
    ensures Sum(p) == WordOf(p[0], p[1])
  {
    assert p[2..] == [];
  }

  /** A zero field replaced by the checksum makes a buffer of any length verify. */
  lemma WrittenVerifies(pseudo: Bytes, data: Bytes, k: nat)
    requires k % 2 == 0 && k + 2 <= |data| && data[k] == 0 && data[k + 1] == 0
    ensures Csum(pseudo, Overwrite(data, k, Be16(Csum(pseudo, data)))) == 0
  {
    hide Sum, Folded, Overwrite, Wrap, WordOf;
    var s := Sum(pseudo) + Sum(data);
    var c := Csum(pseudo, data);
    FoldedIs(Wrap(s));
    SumOverwrite(data, k, c);
    ZeroWord();
    var w: Bytes := Overwrite(data, k, Be16(c));
    VerifiesIff(pseudo, w);
    Complements(Wrap(s), c);
    WrapAdd(s, c);
    WrapSmall(Wrap(s) + c);
  }

  lemma ZeroWord()
    ensures WordOf(0, 0) == 0
  {
  }

  /** Adding the checksum never carries out of thirty-two bits: the largest multiple of 65535 is the
      largest 32-bit number. */
  lemma Complements(s: U32, c: U16)
    requires c == 65535 - if s == 0 then 0 else (s - 1) % 65535 + 1
    ensures 0 < s + c <= U32_MAX && (s + c) % 65535 == 0
  {
    if s > 0 {
      var q := (s - 1) / 65535;
      assert s + c == (q + 1) * 65535 + 0;
      Arith.ModUnique(q + 1, 0, 65535);
      assert q * 65535 <= s - 1 < 65535 * 65537;
      assert q < 65537;
    }
  }

  /** Two verifying buffers that differ in one word differ there only between 0 and 65535, unless the
      difference makes the 32-bit sum wrap around once more or less, which takes over 131070 bytes. */
  lemma DetectsOneWord(pseudo: Bytes, data: Bytes, k: nat, x: U16)
    requires k % 2 == 0 && k + 2 <= |data|
    requires Csum(pseudo, data) == 0 && Csum(pseudo, Overwrite(data, k, Be16(x))) == 0
    ensures var w := WordOf(data[k], data[k + 1]);
            || x == w || (x == 0 && w == 65535) || (x == 65535 && w == 0)
            || (Wraps(pseudo, data) != Wraps(pseudo, Overwrite(data, k, Be16(x))) && !Fits(pseudo, data))
  {
    hide Sum, Csum, Overwrite, Total, Wraps, Fits, WordOf;
    var data' := Overwrite(data, k, Be16(x));
    var w := WordOf(data[k], data[k + 1]);
    SumOverwrite(data, k, x);
    TotalIs(pseudo, data);
    TotalIs(pseudo, data');
    VerifiesIff(pseudo, data);
    VerifiesIff(pseudo, data');
    if Wraps(pseudo, data) == Wraps(pseudo, data') {
      SameResidue(Total(pseudo, data), Total(pseudo, data'), w, x);
    } else {
      LengthFits(pseudo, data, data');
    }
  }

  lemma LengthFits(pseudo: Bytes, data: Bytes, data': Bytes)
    requires |data| == |data'|
    ensures Fits(pseudo, data) == Fits(pseudo, data')
  {
  }

  lemma SameResidue(s: U32, t: U32, w: U16, x: U16)
    requires s % 65535 == 0 && t % 65535 == 0 && s - t == w - x
    ensures x == w || (x == 0 && w == 65535) || (x == 65535 && w == 0)
  {
    var d := s / 65535 - t / 65535;
    assert d * 65535 == w - x;
  }

  // ------------------------------------------------------------------ the loops

  /** The accumulating loop, in wrapping 32-bit arithmetic. */
  method SumWords(start: U32, data: Bytes) returns (acc: U32)
    ensures acc == Wrap(start + Sum(data))
  {
    hide Wrap, WordOf;
    acc := start;
    var i := 0;
    while i + 2 <= |data|
      invariant 0 <= i <= |data|
      invariant Wrap(acc + Sum(data[i..])) == Wrap(start + Sum(data))
    {
      assert data[i..][2..] == data[i + 2..];
      var word := WordOf(data[i], data[i + 1]);
      WrapAdd(acc + word, Sum(data[i + 2..]));
      acc := Wrap(acc + word);
      i := i + 2;
    }
    if i < |data| {
      acc := Wrap(acc + WordOf(data[i], 0));
    } else {
      WrapSmall(acc);
    }
  }

  method Fold(x: U32) returns (r: U16)
    ensures r == Complement(Folded(x))
  {
    var acc := x / 65536 + x % 65536;
    acc := acc + acc / 65536;
    r := 65535 - acc % 65536;
  }

  method CsumWithPseudo(pseudo: Bytes, data: Bytes) returns (r: U16)
    ensures r == Csum(pseudo, data)
  {
    hide Wrap, Folded, Sum;
    var acc := SumWords(0, pseudo);
    WrapAdd(Sum(pseudo), Sum(data));
    acc := SumWords(acc, data);
    r := Fold(acc);
  }
}
