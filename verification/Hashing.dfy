/** The 32-bit FNV-1a hash that routes messages by their id. */
module Hashing {
  import opened Basics
  import opened Bytes

  const OFFSET_BASIS: uint32 := 2166136261
  const PRIME: uint32 := 16777619
  const WIDTH: nat := 0x1_0000_0000

  const INVERSE: nat := 899433627
  const CARRY: nat := 3513497

  // The exclusive or of two unsigned integers, bit by bit.
  function Xor(a: nat, b: nat): nat
    decreases a + b
  {
    if a == 0 && b == 0 then 0 else 2 * Xor(a / 2, b / 2) + (if a % 2 == b % 2 then 0 else 1)
  }

  function Multiply(h: nat): uint32 { h * PRIME % WIDTH }

  function FnvHash(s: seq<byte>): uint32
  {
    if s == [] then OFFSET_BASIS else Multiply(Xor(FnvHash(s[..|s| - 1]), s[|s| - 1]))
  }

  method ComputeFnvHash(s: seq<byte>) returns (hash: uint32)
    ensures hash == FnvHash(s)
  {
    hide Xor;
    hash := 2166136261;
    for i := 0 to |s|
      invariant hash == FnvHash(s[..i])
    {
      assert s[..i + 1][..i] == s[..i];
      var mixed := Xor(hash, s[i]);
      hash := mixed * 16777619 % 0x1_0000_0000;
    }
    assert s[..|s|] == s;
  }

  // PRIME * INVERSE == 1 + CARRY * 2^32: multiplying by the prime loses nothing.
  lemma MultiplyInjective(h: uint32, g: uint32)
    requires Multiply(h) == Multiply(g)
    ensures h == g
  {
    var a, b := h * PRIME / WIDTH, g * PRIME / WIDTH;
    assert (h - g) * PRIME == (a - b) * WIDTH;
    assert h - g == WIDTH * (INVERSE * (a - b) - CARRY * (h - g));
  }

  function Pow2(k: nat): nat { if k == 0 then 1 else 2 * Pow2(k - 1) }

  lemma Width()
    ensures Pow2(32) == WIDTH
  {
    assert Pow2(8) == 0x100;
    assert Pow2(16) == 0x1_0000;
    assert Pow2(24) == 0x100_0000;
  }

  lemma {:induction false} XorFits(a: nat, b: nat, k: nat)
    requires a < Pow2(k) && b < Pow2(k)
    ensures Xor(a, b) < Pow2(k)
  {
    if k > 0 { XorFits(a / 2, b / 2, k - 1); }
  }

  lemma XorHalves(a: nat, b: nat)
    ensures Xor(a, b) / 2 == Xor(a / 2, b / 2)
    ensures Xor(a, b) % 2 == 0 <==> a % 2 == b % 2
  {
  }

  lemma {:induction false} XorInjective(a: nat, b: nat, c: nat, d: nat)
    requires Xor(a, b) == Xor(c, d)
    ensures a == c <==> b == d
    decreases a + b + c + d
  {
    if a + b + c + d > 0 {
      XorHalves(a, b);
      XorHalves(c, d);
      hide Xor;
      XorInjective(a / 2, b / 2, c / 2, d / 2);
    }
  }

  lemma {:induction false} XorZero(a: nat)
    ensures Xor(a, 0) == a
  {
    if a > 0 { XorZero(a / 2); }
  }

  lemma XorOfA()
    ensures Xor(0x811c9dc5, 0x61) == 0x811c9da4
  {
    XorZero(0x102393b);
    assert Xor(0x2047277, 0x1) == 0x2047276;
    assert Xor(0x408e4ee, 0x3) == 0x408e4ed;
    assert Xor(0x811c9dc, 0x6) == 0x811c9da;
    assert Xor(0x102393b8, 0xc) == 0x102393b4;
    assert Xor(0x20472771, 0x18) == 0x20472769;
    assert Xor(0x408e4ee2, 0x30) == 0x408e4ed2;
  }

  /** The hashes of no bytes and of the one byte "a", as the authors of FNV publish them. */
  lemma {:induction false} KnownHashes()
    ensures FnvHash([]) == 0x811c9dc5 && FnvHash([0x61]) == 0xe40c292c
  {
    XorOfA();
    hide Xor;
    var s: seq<byte> := [0x61];
    assert s[..|s| - 1] == [];
    assert FnvHash(s) == Multiply(Xor(FnvHash([]), 0x61));
    assert 0x811c9da4 * PRIME == 0x811d68 * WIDTH + 0xe40c292c;
  }

  /** Two message ids of the same length that differ in exactly one byte never share a hash. */
  lemma {:induction false} OneByteApart(s: seq<byte>, t: seq<byte>, i: nat)
    requires |s| == |t| && i < |s| && s[i] != t[i]
    requires forall j :: 0 <= j < |s| && j != i ==> s[j] == t[j]
    ensures FnvHash(s) != FnvHash(t)
  {
    hide Xor, Multiply, Pow2;
    var n := |s| - 1;
    var h, g := FnvHash(s[..n]), FnvHash(t[..n]);
    if i < n { OneByteApart(s[..n], t[..n], i); } else { assert s[..n] == t[..n]; }
    if Multiply(Xor(h, s[n])) == Multiply(Xor(g, t[n])) {
      Width();
      XorFits(h, s[n], 32);
      XorFits(g, t[n], 32);
      MultiplyInjective(Xor(h, s[n]), Xor(g, t[n]));
      XorInjective(h, s[n], g, t[n]);
      assert false;
    }
  }
}
