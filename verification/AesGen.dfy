/** The loops that fill the tables on first use. */
module AesGen {
  import opened GaloisField
  import G = Generator
  import opened AesTables

  // ------------------------------------------------------------------ powers and logarithms

  ghost predicate Powers(pow: seq<bv8>, n: nat) {
    n <= |pow| && forall k :: 0 <= k < n ==> pow[k] == G.Pow(k)
  }

  ghost predicate Logs(log: seq<bv8>, n: nat) {
    |log| == 256 && n <= 255 && forall k :: 0 <= k < n ==> log[G.PowAt(k)] == k as bv8
  }

  lemma LogWritten(log: seq<bv8>, n: nat)
    requires Logs(log, n) && n < 255
    ensures Logs(log[G.PowAt(n) := n as bv8], n + 1)
  {
    hide G.PowAt;
    forall k | 0 <= k < n ensures G.PowAt(k) != G.PowAt(n) {
      if G.PowAt(k) == G.PowAt(n) { G.PowAtDistinct(k, n); }
    }
  }

  method PowerTables() returns (pow: array<bv8>, log: array<bv8>)
    ensures fresh(pow) && fresh(log) && pow.Length == 256
    ensures Powers(pow[..], 255) && Logs(log[..], 255)
  {
    hide G.Pow, Triple, Logs;
    pow := new bv8[256](_ => 0);
    log := new bv8[256](_ => 0);
    var x: bv8 := 1;
    G.PowZero();
    NoLogs(log[..]);
    for i := 0 to 255
      invariant x == G.Pow(i)
      invariant Powers(pow[..], i) && Logs(log[..], i)
    {
      pow[i] := x;
      ghost var was := log[..];
      log[x as int] := i as bv8;
      assert log[..] == was[G.PowAt(i) := i as bv8];
      LogWritten(was, i);
      PowNext(i);
      x := Triple(x);
    }
  }

  lemma NoLogs(log: seq<bv8>)
    requires |log| == 256
    ensures Logs(log, 0)
  {
  }

  lemma PowNext(i: nat)
    ensures G.Pow(i + 1) == Triple(G.Pow(i))
  {
  }

  // ------------------------------------------------------------------ the S-box and its inverse

  lemma TableInverse(pow: seq<bv8>, log: seq<bv8>, i: nat)
    requires Powers(pow, 255) && Logs(log, 255) && i < 256
    ensures i > 0 ==> pow[(255 - log[i] as int) % 255] == G.Inverse(i as bv8)
  {
    hide G.Pow, G.Inverse, Mul;
    if i > 0 {
      var x := i as bv8;
      Bytes(i);
      assert x != 0;
      G.PowSurjective(x);
      var k :| 0 <= k < 255 && G.Pow(k) == x;
      Bytes(k);
      assert G.PowAt(k) == i;
      G.PowInverse(k);
      G.InverseUnique(x, G.Pow((255 - k) % 255), G.Inverse(x));
    }
  }

  ghost predicate Boxes(sbox: seq<bv8>, inv: seq<bv8>, n: nat) {
    && |sbox| == |inv| == 256 && n <= 256
    && (forall k :: 0 <= k < n ==> sbox[k] as int == SBoxAt(k) && inv[SBoxAt(k)] == k as bv8)
  }

  lemma BoxWritten(sbox: seq<bv8>, inv: seq<bv8>, n: nat)
    requires Boxes(sbox, inv, n) && n < 256
    ensures Boxes(sbox[n := SBox(n as bv8)], inv[SBoxAt(n) := n as bv8], n + 1)
  {
    hide SBox;
    forall k | 0 <= k < n ensures SBoxAt(k) != SBoxAt(n) {
      if SBoxAt(k) == SBoxAt(n) { SBoxAtDistinct(k, n); }
    }
  }

  method SBoxTables(pow: array<bv8>, log: array<bv8>) returns (sbox: array<bv8>, inv: array<bv8>)
    requires pow.Length == 256 && Powers(pow[..], 255) && Logs(log[..], 255)
    ensures fresh(sbox) && fresh(inv) && Boxes(sbox[..], inv[..], 256)
  {
    hide SBox, Boxes, Powers, Logs;
    sbox := new bv8[256](_ => 0);
    inv := new bv8[256](_ => 0);
    NoBoxes(sbox[..], inv[..]);
    for i := 0 to 256
      invariant Boxes(sbox[..], inv[..], i)
      invariant pow[..] == old(pow[..]) && log[..] == old(log[..])
    {
      LogLength(log[..]);
      G.Below256(log[i], 0);
      TableInverse(pow[..], log[..], i);
      var x: bv8 := 0;
      if i != 0 { x := pow[(255 - log[i] as int) % 255]; }
      var s := SubByte(i, x);
      ghost var was, wasInv := sbox[..], inv[..];
      sbox[i] := s;
      inv[s as int] := i as bv8;
      BoxWritten(was, wasInv, i);
      assert sbox[..] == was[i := s] && inv[..] == wasInv[SBoxAt(i) := i as bv8];
    }
  }

  lemma LogLength(log: seq<bv8>)
    requires Logs(log, 255)
    ensures |log| == 256
  {
  }

  lemma NoBoxes(sbox: seq<bv8>, inv: seq<bv8>)
    requires |sbox| == |inv| == 256
    ensures Boxes(sbox, inv, 0)
  {
  }

  method SubByte(i: nat, inv: bv8) returns (s: bv8)
    requires i < 256 && inv == G.Inverse(i as bv8)
    ensures s == SBox(i as bv8)
  {
    hide Add, Affine, G.Inverse;
    var y := inv;
    s := inv;
    for n := 0 to 4
      invariant (y, s) == Spin(inv, n)
    {
      y := y.RotateLeft(1);
      s := Add(s, y);
    }
    s := Add(s, 0x63);
    SpinIsAffine(inv);
  }

  // ------------------------------------------------------------------ the round tables

  lemma BoxesEverywhere(sbox: seq<bv8>, inv: seq<bv8>, x: bv8)
    requires Boxes(sbox, inv, 256)
    ensures sbox[x as int] == SBox(x) && inv[x as int] == InvSBox(x)
  {
    hide SBox, InvSBox;
    var i := x as int;
    assert i as bv8 == x;
    G.Below256(sbox[i], SBox(x));
    var y := InvSBox(x);
    var j := y as int;
    assert j as bv8 == y;
    assert SBoxAt(j) == i;
  }

  ghost function TeAt(i: nat): Col
    requires i < 256
  {
    TeCol(i as bv8)
  }

  ghost function TdAt(i: nat): Col
    requires i < 256
  {
    TdCol(i as bv8)
  }

  ghost predicate FilledTe(t: seq<seq<bv32>>) {
    Shaped(t) && forall i :: 0 <= i < 256 ==> Holds(t, i, TeAt(i))
  }

  ghost predicate FilledTd(t: seq<seq<bv32>>) {
    Shaped(t) && forall i :: 0 <= i < 256 ==> Holds(t, i, TdAt(i))
  }

  method EncryptionRow(sbox: array<bv8>, ghost inv: seq<bv8>, i: nat) returns (t0: bv32)
    requires Boxes(sbox[..], inv, 256) && i < 256
    ensures t0 == Word(TeAt(i))
  {
    hide XTime, Mul, SBox, Word, Boxes, InvSBox;
    BoxLength(sbox[..], inv);
    Bytes(i);
    BoxesEverywhere(sbox[..], inv, i as bv8);
    var s := sbox[i];
    var s2 := XTime(s);
    var s3 := Add(s2, s);
    SmallFactors(s);
    AddComm(s2, s);
    t0 := Word(Col(s2, s, s, s3));
  }

  method DecryptionRow(ghost sbox: seq<bv8>, inv: array<bv8>, i: nat) returns (d0: bv32)
    requires Boxes(sbox, inv[..], 256) && i < 256
    ensures d0 == Word(TdAt(i))
  {
    hide Mul, InvSBox, Word, Boxes, SBox;
    BoxLength(sbox, inv[..]);
    Bytes(i);
    BoxesEverywhere(sbox, inv[..], i as bv8);
    var si := inv[i];
    var e := GfMul(si, 0x0e);
    var n := GfMul(si, 0x09);
    var d := GfMul(si, 0x0d);
    var b := GfMul(si, 0x0b);
    d0 := Word(Col(e, n, d, b));
  }

  method EncryptionTables(sbox: array<bv8>, ghost inv: seq<bv8>) returns (te: seq<seq<bv32>>)
    requires Boxes(sbox[..], inv, 256)
    ensures FilledTe(te)
  {
    hide Boxes, Word, TeAt, Rotations, Rot8, Rot16, Rot24;
    var te0, te1, te2, te3 := new bv32[256](_ => 0), new bv32[256](_ => 0), new bv32[256](_ => 0), new bv32[256](_ => 0);
    for i := 0 to 256
      invariant forall j :: 0 <= j < i ==> Rotations(te0[j], te1[j], te2[j], te3[j], TeAt(j))
    {
      var t0 := EncryptionRow(sbox, inv, i);
      Rotated(TeAt(i));
      te0[i], te1[i], te2[i], te3[i] := t0, Rot8(t0), Rot16(t0), Rot24(t0);
    }
    te := [te0[..], te1[..], te2[..], te3[..]];
  }

  method DecryptionTables(ghost sbox: seq<bv8>, inv: array<bv8>) returns (td: seq<seq<bv32>>)
    requires Boxes(sbox, inv[..], 256)
    ensures FilledTd(td)
  {
    hide Boxes, Word, TdAt, Rotations, Rot8, Rot16, Rot24;
    var td0, td1, td2, td3 := new bv32[256](_ => 0), new bv32[256](_ => 0), new bv32[256](_ => 0), new bv32[256](_ => 0);
    for i := 0 to 256
      invariant forall j :: 0 <= j < i ==> Rotations(td0[j], td1[j], td2[j], td3[j], TdAt(j))
    {
      var d0 := DecryptionRow(sbox, inv, i);
      Rotated(TdAt(i));
      td0[i], td1[i], td2[i], td3[i] := d0, Rot8(d0), Rot16(d0), Rot24(d0);
    }
    td := [td0[..], td1[..], td2[..], td3[..]];
  }

  lemma BoxLength(sbox: seq<bv8>, inv: seq<bv8>)
    requires Boxes(sbox, inv, 256)
    ensures |sbox| == |inv| == 256
  {
  }

  /** The generated tables are the S-box of FIPS 197, its inverse, and the columns of the round functions. */
  method GenTables() returns (t: Tables)
    ensures Correct(t)
  {
    hide Boxes, Powers, Logs, FilledTe, FilledTd;
    var pow, log := PowerTables();
    var sbox, inv := SBoxTables(pow, log);
    var te := EncryptionTables(sbox, inv[..]);
    var td := DecryptionTables(sbox[..], inv);
    t := Tables(sbox[..], inv[..], te, td);
    AllCorrect(t);
  }

  lemma AllCorrect(t: Tables)
    requires Boxes(t.sbox, t.invSbox, 256) && FilledTe(t.te) && FilledTd(t.td)
    ensures Correct(t)
  {
    hide SBox, InvSBox, TeCol, TdCol, Word, Holds;
    forall x: bv8 ensures t.sbox[x as int] == SBox(x) && t.invSbox[x as int] == InvSBox(x) {
      BoxesEverywhere(t.sbox, t.invSbox, x);
    }
    forall x: bv8 ensures Holds(t.te, x as int, TeCol(x)) && Holds(t.td, x as int, TdCol(x)) {
      assert (x as int) as bv8 == x;
      assert Holds(t.te, x as int, TeAt(x as int)) && Holds(t.td, x as int, TdAt(x as int));
    }
  }
}
