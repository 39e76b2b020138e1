// Bytes, machine words and the bit operations the wire format needs, in
// plain integer arithmetic.

module Bytes {

  type byte = x: int | 0 <= x < 0x100
  type bytes = seq<byte>
  type u32 = x: int | 0 <= x < 0x1_0000_0000

  function Min(a: int, b: int): (m: int) {
    if a <= b then a else b
  }

  function Max(a: int, b: int): (m: int) {
    if a >= b then a else b
  }

  function Pow2(k: nat): (p: nat)
    ensures p >= 1
  {
    if k == 0 then 1 else 2 * Pow2(k - 1)
  }

  // Bitwise exclusive or of two non-negative integers, low bit first.
  function Xor(a: nat, b: nat): (x: nat)
    decreases a + b
  {
    if a == 0 && b == 0 then 0 else 2 * Xor(a / 2, b / 2) + (a % 2 + b % 2) % 2
  }

  lemma {:induction false} XorBelow(a: nat, b: nat, k: nat)
    requires a < Pow2(k) && b < Pow2(k)
    ensures Xor(a, b) < Pow2(k)
    decreases k
  {
    if k > 0 {
      XorBelow(a / 2, b / 2, k - 1);
    }
  }

  lemma BitTwice(a: nat, b: nat)
    ensures ((a % 2 + b % 2) % 2 + b % 2) % 2 == a % 2
  {
  }

  lemma XorHalves(a: nat, b: nat)
    ensures Xor(a, b) / 2 == Xor(a / 2, b / 2)
    ensures Xor(a, b) % 2 == (a % 2 + b % 2) % 2
  {
  }

  lemma {:induction false} XorInvolution(a: nat, b: nat)
    ensures Xor(Xor(a, b), b) == a
    decreases a + b
  {
    if a != 0 || b != 0 {
      XorInvolution(a / 2, b / 2);
      var x := Xor(a, b);
      XorHalves(a, b);
      XorHalves(x, b);
      BitTwice(a, b);
      assert Xor(x, b) / 2 == a / 2 && Xor(x, b) % 2 == a % 2;
    }
  }

  // x shifted left by k bits.
  function Shl(x: nat, k: nat): (y: nat) {
    if k == 0 then x else 2 * Shl(x, k - 1)
  }

  // A doubled summand leaves the low bit alone.
  lemma Halves(s: nat, a: nat, w: nat)
    requires s == a + 2 * w
    ensures s / 2 == a / 2 + w && s % 2 == a % 2
  {
  }

  lemma Unhalved(s: nat, a: nat, w: nat)
    requires s / 2 == a / 2 + w && s % 2 == a % 2
    ensures s == a + 2 * w
  {
  }

  // Exclusive or acts on the low k bits and on the rest independently.
  lemma {:induction false} XorSplit(a: nat, x: nat, b: nat, y: nat, k: nat)
    requires a < Pow2(k) && b < Pow2(k)
    ensures Xor(a + Shl(x, k), b + Shl(y, k)) == Xor(a, b) + Shl(Xor(x, y), k)
    decreases k
  {
    if k > 0 {
      var s, t := a + Shl(x, k), b + Shl(y, k);
      XorHalves(s, t);
      XorHalves(a, b);
      assert Xor(s, t) / 2 == Xor(a, b) / 2 + Shl(Xor(x, y), k - 1) && Xor(s, t) % 2 == Xor(a, b) % 2 by {
        Halves(s, a, Shl(x, k - 1));
        Halves(t, b, Shl(y, k - 1));
        XorSplit(a / 2, x, b / 2, y, k - 1);
      }
      Unhalved(Xor(s, t), Xor(a, b), Shl(Xor(x, y), k - 1));
    }
  }

  lemma ShlByte(x: nat)
    ensures Shl(x, 8) == 256 * x
  {
    assert Shl(x, 1) == 2 * x;
    assert Shl(x, 3) == 4 * Shl(x, 1);
    assert Shl(x, 5) == 4 * Shl(x, 3);
    assert Shl(x, 7) == 4 * Shl(x, 5);
  }

  // One base-256 digit of an exclusive or.
  lemma XorDigit(a: byte, x: nat, b: byte, y: nat)
    ensures Xor(a + 256 * x, b + 256 * y) == Xor(a, b) + 256 * Xor(x, y)
  {
    assert Pow2(8) == 256;
    XorSplit(a, x, b, y, 8);
    ShlByte(x);
    ShlByte(y);
    ShlByte(Xor(x, y));
  }

  function XorByte(a: byte, b: byte): (x: byte) {
    XorBelow(a, b, 8);
    Xor(a, b)
  }

  lemma Pow2Word()
    ensures Pow2(32) == 0x1_0000_0000
  {
    assert Pow2(8) == 0x100;
    assert Pow2(14) == 64 * Pow2(8);
    assert Pow2(20) == 64 * Pow2(14);
    assert Pow2(26) == 64 * Pow2(20);
  }

  function XorU32(a: u32, b: u32): (x: u32) {
    Pow2Word();
    XorBelow(a, b, 32);
    Xor(a, b)
  }

  // Big-endian encodings, most significant byte first.
  function ToBE(n: nat, width: nat): (b: bytes)
    ensures |b| == width
  {
    if width == 0 then [] else ToBE(n / 256, width - 1) + [n % 256]
  }

  function FromBE(b: bytes): (n: nat) {
    if b == [] then 0 else 256 * FromBE(b[..|b| - 1]) + b[|b| - 1]
  }

  function Pow256(k: nat): (p: nat)
    ensures p >= 1
  {
    if k == 0 then 1 else 256 * Pow256(k - 1)
  }

  lemma {:induction false} FromToBE(n: nat, width: nat)
    requires n < Pow256(width)
    ensures FromBE(ToBE(n, width)) == n
  {
    if width > 0 {
      FromToBE(n / 256, width - 1);
      var b := ToBE(n, width);
      assert b[..|b| - 1] == ToBE(n / 256, width - 1);
    }
  }

  lemma {:induction false} ToFromBE(b: bytes)
    ensures FromBE(b) < Pow256(|b|)
    ensures ToBE(FromBE(b), |b|) == b
  {
    if b != [] {
      ToFromBE(b[..|b| - 1]);
      assert b == b[..|b| - 1] + [b[|b| - 1]];
    }
  }

  // A string literal as the bytes Pascal stores for it.
  function Ascii(s: string): (b: bytes)
    ensures |b| == |s|
  {
    seq(|s|, i requires 0 <= i < |s| => (s[i] as int) % 256)
  }

  // Chunks end to end.
  function Concat(chunks: seq<bytes>): (b: bytes) {
    if chunks == [] then [] else chunks[0] + Concat(chunks[1..])
  }

  lemma {:induction false} ConcatSnoc(chunks: seq<bytes>, last: bytes)
    ensures Concat(chunks + [last]) == Concat(chunks) + last
    decreases |chunks|
  {
    if chunks == [] {
      assert [last][1..] == [];
    } else {
      assert (chunks + [last])[1..] == chunks[1..] + [last];
      ConcatSnoc(chunks[1..], last);
    }
  }

  // d written at `at`.
  method Place(a: array<byte>, at: nat, d: bytes)
    requires at + |d| <= a.Length
    modifies a
    ensures a[..at + |d|] == old(a[..at]) + d
  {
    ghost var was := a[..at];
    var i := 0;
    while i < |d|
      invariant i <= |d| && a[..at + i] == was + d[..i]
    {
      a[at + i] := d[i];
      assert a[..at + i + 1] == a[..at + i] + [d[i]];
      i := i + 1;
    }
  }

  // SetLength: a bigger array with the same first keep elements.
  method Resize(a: array<byte>, length: nat, keep: nat) returns (b: array<byte>)
    requires keep <= a.Length && keep <= length
    ensures fresh(b) && b.Length == length && b[..keep] == a[..keep]
  {
    b := new byte[length](_ => 0);
    Place(b, 0, a[..keep]);
  }
}
