/** Big-endian numbers and the parsers that take them off the front of a byte string. */
module Bytes {
  import opened Basics

  type uint32 = x: int | 0 <= x < 0x1_0000_0000
  type uint64 = x: int | 0 <= x < 0x1_0000_0000_0000_0000
  type int64 = x: int | -0x8000_0000_0000_0000 <= x < 0x8000_0000_0000_0000

  function Pow256(k: nat): (p: nat)
    ensures p > 0
  {
    if k == 0 then 1 else 256 * Pow256(k - 1)
  }

  function BigEndian(v: nat, k: nat): (s: seq<byte>)
    ensures |s| == k
  {
    if k == 0 then [] else BigEndian(v / 256, k - 1) + [v % 256]
  }

  function Value(s: seq<byte>): nat
  {
    if s == [] then 0 else 256 * Value(s[..|s| - 1]) + s[|s| - 1]
  }

  lemma {:induction false} ValueOfBigEndian(v: nat, k: nat)
    requires v < Pow256(k)
    ensures Value(BigEndian(v, k)) == v
  {
    if k > 0 {
      ValueOfBigEndian(v / 256, k - 1);
      assert BigEndian(v, k)[..k - 1] == BigEndian(v / 256, k - 1);
    }
  }

  lemma {:induction false} BigEndianOfValue(s: seq<byte>)
    ensures Value(s) < Pow256(|s|) && BigEndian(Value(s), |s|) == s
  {
    if s != [] {
      BigEndianOfValue(s[..|s| - 1]);
      assert s == s[..|s| - 1] + [s[|s| - 1]];
    }
  }

  lemma Widths()
    ensures Pow256(2) == 0x1_0000 && Pow256(4) == 0x1_0000_0000 && Pow256(8) == 0x1_0000_0000_0000_0000
  {
    assert Pow256(3) == 256 * Pow256(2);
    assert Pow256(5) == 256 * Pow256(4);
    assert Pow256(6) == 256 * Pow256(5);
    assert Pow256(7) == 256 * Pow256(6);
  }

  // The conversions uint16(n) and uint32(n), and the two's complement reading of int64.
  function Low16(n: nat): (r: nat) ensures n < 0x1_0000 ==> r == n { n % 0x1_0000 }
  function Low32(n: int): (r: nat) ensures 0 <= n < 0x1_0000_0000 ==> r == n { n % 0x1_0000_0000 }
  function U16(n: nat): (s: seq<byte>) ensures |s| == 2 { BigEndian(Low16(n), 2) }
  function U32(n: int): (s: seq<byte>) ensures |s| == 4 { BigEndian(Low32(n), 4) }
  function U64(n: uint64): (s: seq<byte>) ensures |s| == 8 { BigEndian(n, 8) }
  function I64(n: int64): (s: seq<byte>)
    ensures |s| == 8
  {
    BigEndian(if n < 0 then n + 0x1_0000_0000_0000_0000 else n, 8)
  }

  function Signed(v: uint64): int64 { if v < 0x8000_0000_0000_0000 then v else v - 0x1_0000_0000_0000_0000 }

  // (v / 256) / p and v / (256 * p) are the same digit boundary.
  lemma DivideTwice(v: nat, p: nat)
    requires p > 0
    ensures v / 256 / p == v / (256 * p)
  {
    var q, r := v / 256 / p, v / 256 % p;
    assert v / 256 == q * p + r;
    var low := 256 * r + v % 256;
    assert v == q * (256 * p) + low && 0 <= low < 256 * p;
    UniqueDiv(v, 256 * p, q, low);
  }

  /** Numbers are written most significant byte first. */
  lemma {:induction false} DigitAt(v: nat, k: nat, i: nat)
    requires i < k
    ensures BigEndian(v, k)[i] == v / Pow256(k - 1 - i) % 256
  {
    if i < k - 1 {
      DigitAt(v / 256, k - 1, i);
      DivideTwice(v, Pow256(k - 2 - i));
    } else {
      assert Pow256(0) == 1;
    }
  }

  lemma {:induction false} Digits(v: nat, k: nat)
    ensures BigEndian(v, k) == seq(k, i requires 0 <= i < k => v / Pow256(k - 1 - i) % 256)
  {
    forall i | 0 <= i < k ensures BigEndian(v, k)[i] == v / Pow256(k - 1 - i) % 256 { DigitAt(v, k, i); }
  }

  /** Every number field is big-endian and is cut off at its width; a negative one is in two's complement. */
  lemma {:induction false} Spellings(n: nat, m: nat, u: uint64, i: int64)
    ensures U16(n) == seq(2, k requires 0 <= k < 2 => n % 0x1_0000 / Pow256(1 - k) % 256)
    ensures U32(m) == seq(4, k requires 0 <= k < 4 => m % 0x1_0000_0000 / Pow256(3 - k) % 256)
    ensures U64(u) == seq(8, k requires 0 <= k < 8 => u / Pow256(7 - k) % 256)
    ensures I64(i) == U64(if i < 0 then i + 0x1_0000_0000_0000_0000 else i)
  {
    Digits(Low16(n), 2);
    Digits(Low32(m), 4);
    Digits(u, 8);
    hide BigEndian, Pow256;
  }

  // A string with its 16-bit length in front, and a byte block with its 32-bit length.
  function Str16(s: seq<byte>): seq<byte> { U16(|s|) + s }
  function Blob32(s: seq<byte>): seq<byte> { U32(|s|) + s }

  // ---------- parsers ----------

  function TakeNumber(k: nat, s: seq<byte>): Option<(nat, seq<byte>)>
  {
    if |s| < k then None else Some((Value(s[..k]), s[k..]))
  }

  function TakeBytes(n: nat, s: seq<byte>): Option<(seq<byte>, seq<byte>)>
  {
    if |s| < n then None else Some((s[..n], s[n..]))
  }

  function TakeStr16(s: seq<byte>): Option<(seq<byte>, seq<byte>)>
  {
    var (n, rest) :- TakeNumber(2, s);
    TakeBytes(n, rest)
  }

  function TakeBlob32(s: seq<byte>): Option<(seq<byte>, seq<byte>)>
  {
    var (n, rest) :- TakeNumber(4, s);
    TakeBytes(n, rest)
  }

  function TakeU64(s: seq<byte>): (r: Option<(uint64, seq<byte>)>)
  {
    var (v, rest) :- TakeNumber(8, s);
    assert v < Pow256(8) by { BigEndianOfValue(s[..8]); }
    Widths();
    Some((v, rest))
  }

  function TakeI64(s: seq<byte>): Option<(int64, seq<byte>)>
  {
    var (v, rest) :- TakeU64(s);
    Some((Signed(v), rest))
  }

  function TakeU32(s: seq<byte>): Option<(uint32, seq<byte>)>
  {
    var (v, rest) :- TakeNumber(4, s);
    assert v < Pow256(4) by { BigEndianOfValue(s[..4]); }
    Widths();
    Some((v, rest))
  }

  // ---------- printing and parsing undo each other ----------

  lemma TakePrinted(v: nat, k: nat, rest: seq<byte>)
    requires v < Pow256(k)
    ensures TakeNumber(k, BigEndian(v, k) + rest) == Some((v, rest))
  {
    ValueOfBigEndian(v, k);
    assert (BigEndian(v, k) + rest)[..k] == BigEndian(v, k);
  }

  lemma {:induction false} TakeStr16Printed(s: seq<byte>, rest: seq<byte>)
    requires |s| < 0x1_0000
    ensures TakeStr16(Str16(s) + rest) == Some((s, rest))
  {
    Widths();
    TakePrinted(|s|, 2, s + rest);
    hide BigEndian, Value, Pow256, Low16, Low32;
    assert Str16(s) + rest == BigEndian(|s|, 2) + (s + rest);
  }

  lemma {:induction false} TakeBlob32Printed(s: seq<byte>, rest: seq<byte>)
    requires |s| < 0x1_0000_0000
    ensures TakeBlob32(Blob32(s) + rest) == Some((s, rest))
  {
    Widths();
    TakePrinted(|s|, 4, s + rest);
    hide BigEndian, Value, Pow256, Low16, Low32;
    assert Blob32(s) + rest == BigEndian(|s|, 4) + (s + rest);
  }

  lemma {:induction false} TakeU64Printed(v: uint64, rest: seq<byte>)
    ensures TakeU64(U64(v) + rest) == Some((v, rest))
  {
    Widths();
    TakePrinted(v, 8, rest);
    hide BigEndian, Value, Pow256, Low16, Low32;
  }

  lemma {:induction false} TakeI64Printed(v: int64, rest: seq<byte>)
    ensures TakeI64(I64(v) + rest) == Some((v, rest))
  {
    Widths();
    TakePrinted(if v < 0 then v + 0x1_0000_0000_0000_0000 else v, 8, rest);
  }

  lemma {:induction false} TakeU32Printed(v: uint32, rest: seq<byte>)
    ensures TakeU32(U32(v) + rest) == Some((v, rest))
  {
    hide Low32;
    Widths();
    TakePrinted(v, 4, rest);
    hide BigEndian, Value, Pow256, Low16, Low32;
  }

  lemma NumberTaken(k: nat, s: seq<byte>)
    requires TakeNumber(k, s).Some?
    ensures var (v, rest) := TakeNumber(k, s).value; v < Pow256(k) && s == BigEndian(v, k) + rest
  {
    BigEndianOfValue(s[..k]);
    assert s == s[..k] + s[k..];
  }

  lemma BytesTaken(n: nat, s: seq<byte>)
    requires TakeBytes(n, s).Some?
    ensures var (x, rest) := TakeBytes(n, s).value; |x| == n && s == x + rest
  {
    assert s == s[..n] + s[n..];
  }

  lemma {:induction false} StrTaken(s: seq<byte>)
    requires TakeStr16(s).Some?
    ensures var (x, rest) := TakeStr16(s).value; s == Str16(x) + rest && |x| < 0x1_0000
  {
    Widths();
    NumberTaken(2, s);
    var (n, tail) := TakeNumber(2, s).value;
    BytesTaken(n, tail);
    hide BigEndian, Value, Pow256, Low16, Low32;
    var (x, rest) := TakeStr16(s).value;
    assert BigEndian(n, 2) + (x + rest) == (BigEndian(n, 2) + x) + rest;
  }

  lemma {:induction false} BlobTaken(s: seq<byte>)
    requires TakeBlob32(s).Some?
    ensures var (x, rest) := TakeBlob32(s).value; s == Blob32(x) + rest && |x| < 0x1_0000_0000
  {
    Widths();
    NumberTaken(4, s);
    var (n, tail) := TakeNumber(4, s).value;
    BytesTaken(n, tail);
    hide BigEndian, Value, Pow256, Low16, Low32;
    var (x, rest) := TakeBlob32(s).value;
    assert BigEndian(n, 4) + (x + rest) == (BigEndian(n, 4) + x) + rest;
  }

  lemma {:induction false} U64Taken(s: seq<byte>)
    requires TakeU64(s).Some?
    ensures var (v, rest) := TakeU64(s).value; s == U64(v) + rest
  {
    NumberTaken(8, s);
  }

  lemma {:induction false} I64Taken(s: seq<byte>)
    requires TakeI64(s).Some?
    ensures var (v, rest) := TakeI64(s).value; s == I64(v) + rest
  {
    U64Taken(s);
  }

  lemma {:induction false} U32Taken(s: seq<byte>)
    requires TakeU32(s).Some?
    ensures var (v, rest) := TakeU32(s).value; s == U32(v) + rest
  {
    Widths();
    NumberTaken(4, s);
    hide BigEndian, Value, Pow256, Low16, Low32;
  }
}
