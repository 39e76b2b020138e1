// The mask keys of a client (NextMaskKey of source/units/WS.Protocol.pas):
// Marsaglia's xorshift128, bit by bit.

module Xorshift {
  import opened Bytes
  import opened Machine

  // -- bits ----------------------------------------------------------------

  // Bit i of n, 0 or 1.
  function BitAt(n: nat, i: nat): (b: nat)
    ensures b <= 1
  {
    if i == 0 then n % 2 else BitAt(n / 2, i - 1)
  }

  // Bit i of a word of 32 bits; there is none outside it.
  function WordBit(w: u32, i: int): (b: nat)
    ensures b <= 1
  {
    if 0 <= i < 32 then BitAt(w, i) else 0
  }

  lemma {:induction false} XorBit(a: nat, b: nat, i: nat)
    ensures BitAt(Xor(a, b), i) == (BitAt(a, i) + BitAt(b, i)) % 2
  {
    XorHalves(a, b);
    if i > 0 {
      XorBit(a / 2, b / 2, i - 1);
    }
  }

  // Low bits with others shifted in above them.
  lemma {:induction false} SplitBit(low: nat, high: nat, k: nat, i: nat)
    requires low < Pow2(k)
    ensures BitAt(low + Shl(high, k), i) == if i < k then BitAt(low, i) else BitAt(high, i - k)
    decreases k
  {
    if k > 0 {
      Halves(low + Shl(high, k), low, Shl(high, k - 1));
      if i > 0 {
        SplitBit(low / 2, high, k - 1, i - 1);
      }
    }
  }

  lemma {:induction false} ZeroBit(i: nat)
    ensures BitAt(0, i) == 0
  {
    if i > 0 {
      ZeroBit(i - 1);
    }
  }

  // n shifted right by k bits.
  function Shr(n: nat, k: nat): (r: nat) {
    if k == 0 then n else Shr(n, k - 1) / 2
  }

  lemma {:induction false} ShrBit(n: nat, k: nat, i: nat)
    ensures BitAt(Shr(n, k), i) == BitAt(n, i + k)
    decreases k
  {
    if k > 0 {
      ShrBit(n, k - 1, i + 1);
    }
  }

  lemma {:induction false} ShlMore(x: nat, j: nat, k: nat)
    ensures Shl(x, j + k) == Shl(Shl(x, j), k)
    decreases k
  {
    if k > 0 {
      ShlMore(x, j, k - 1);
    }
  }

  lemma {:induction false} ShrMore(n: nat, j: nat, k: nat)
    ensures Shr(n, j + k) == Shr(Shr(n, j), k)
    decreases k
  {
    if k > 0 {
      ShrMore(n, j, k - 1);
    }
  }

  lemma ShrByte(n: nat)
    ensures Shr(n, 8) == n / 0x100
  {
    assert Shr(n, 1) == n / 2;
    assert Shr(n, 3) == Shr(n, 2) / 2 == n / 8;
    assert Shr(n, 5) == Shr(n, 4) / 2 == n / 32;
    assert Shr(n, 7) == Shr(n, 6) / 2 == n / 128;
  }

  lemma Shr19(n: nat)
    ensures Shr(n, 19) == n / 0x8_0000
  {
    ShrByte(n);
    ShrByte(n / 0x100);
    ShrMore(n, 8, 8);
    var m := n / 0x1_0000;
    assert n / 0x100 / 0x100 == m;
    assert Shr(m, 1) == m / 2;
    assert Shr(m, 3) == Shr(m, 2) / 2 == m / 8;
    ShrMore(n, 16, 3);
    assert m / 8 == n / 0x8_0000;
  }

  lemma Shl11(x: nat)
    ensures Shl(x, 11) == x * 0x800
  {
    ShlByte(x);
    ShlMore(x, 8, 3);
    var y := 256 * x;
    assert Shl(y, 1) == 2 * y;
    assert Shl(y, 3) == 2 * Shl(y, 2) == 8 * y;
  }

  lemma Shl32(x: nat)
    ensures Shl(x, 32) == x * 0x1_0000_0000
  {
    ShlByte(x);
    ShlByte(256 * x);
    ShlMore(x, 8, 8);
    var y := 65536 * x;
    ShlByte(y);
    ShlByte(256 * y);
    ShlMore(y, 8, 8);
    ShlMore(x, 16, 16);
  }

  // Truncation to 32 bits.
  lemma LowWord(n: nat, i: nat)
    requires i < 32
    ensures BitAt(n % 0x1_0000_0000, i) == BitAt(n, i)
  {
    Pow2Word();
    Shl32(n / 0x1_0000_0000);
    SplitBit(n % 0x1_0000_0000, n / 0x1_0000_0000, 32, i);
  }

  lemma NoHighBit(w: u32, i: nat)
    requires i >= 32
    ensures BitAt(w, i) == 0
  {
    Pow2Word();
    Shl32(0);
    SplitBit(w, 0, 32, i);
    ZeroBit(i - 32);
  }

  lemma {:induction false} SameBits(a: nat, b: nat, k: nat)
    requires a < Pow2(k) && b < Pow2(k) && forall i :: 0 <= i < k ==> BitAt(a, i) == BitAt(b, i)
    ensures a == b
    decreases k
  {
    if k > 0 {
      assert BitAt(a, 0) == BitAt(b, 0);
      forall i | 0 <= i < k - 1 ensures BitAt(a / 2, i) == BitAt(b / 2, i) {
        assert BitAt(a, i + 1) == BitAt(b, i + 1);
      }
      SameBits(a / 2, b / 2, k - 1);
    }
  }

  // -- the steps -----------------------------------------------------------

  lemma XorWordBit(a: u32, b: u32, i: int)
    ensures WordBit(XorU32(a, b), i) == (WordBit(a, i) + WordBit(b, i)) % 2
  {
    if 0 <= i < 32 {
      XorBit(a, b, i);
    }
  }

  lemma LeftBit(x: u32, i: nat)
    requires i < 32
    ensures WordBit(x * 0x800 % 0x1_0000_0000, i) == WordBit(x, i - 11)
  {
    LowWord(x * 0x800, i);
    Shl11(x);
    SplitBit(0, x, 11, i);
    ZeroBit(i);
  }

  lemma RightBit(x: u32, k: nat, i: nat)
    requires i < 32
    ensures BitAt(Shr(x, k), i) == WordBit(x, i + k)
  {
    ShrBit(x, k, i);
    if i + k >= 32 {
      NoHighBit(x, i + k);
    }
  }

  // r3 after its two shifts.
  function Mixed(x: u32): (t: u32) {
    var t1 := XorU32(x, x * 0x800 % 0x1_0000_0000);
    XorU32(t1, t1 / 0x100)
  }

  lemma FirstShift(x: u32, i: int)
    ensures WordBit(XorU32(x, x * 0x800 % 0x1_0000_0000), i) ==
            if 0 <= i < 32 then (WordBit(x, i) + WordBit(x, i - 11)) % 2 else 0
  {
    if 0 <= i < 32 {
      XorWordBit(x, x * 0x800 % 0x1_0000_0000, i);
      LeftBit(x, i);
    }
  }

  lemma MixedBit(x: u32, i: nat)
    requires i < 32
    ensures WordBit(Mixed(x), i) ==
            (WordBit(x, i) + WordBit(x, i - 11) +
             if i < 24 then WordBit(x, i + 8) + WordBit(x, i - 3) else 0) % 2
  {
    var t1 := XorU32(x, x * 0x800 % 0x1_0000_0000);
    XorWordBit(t1, t1 / 0x100, i);
    ShrByte(t1);
    RightBit(t1, 8, i);
    FirstShift(x, i);
    FirstShift(x, i + 8);
  }

  lemma Parity(a: nat, b: nat, c: nat)
    ensures ((a % 2 + b) % 2 + c) % 2 == (a + b + c) % 2
  {
  }

  // The key and the next state: every bit of the key is the exclusive or of
  // the bits of the first and the last word that are shifted onto it.
  lemma KeyBits(r: Rng, i: nat)
    requires i < 32
    ensures NextKey(r).1 == Rng(NextKey(r).0, r.r0, r.r1, r.r2)
    ensures WordBit(NextKey(r).0, i) ==
            (WordBit(r.r3, i) + WordBit(r.r3, i - 11) +
             (if i < 24 then WordBit(r.r3, i + 8) + WordBit(r.r3, i - 3) else 0) +
             WordBit(r.r0, i) + WordBit(r.r0, i + 19)) % 2
  {
    var t := Mixed(r.r3);
    XorWordBit(XorU32(t, r.r0), r.r0 / 0x8_0000, i);
    XorWordBit(t, r.r0, i);
    MixedBit(r.r3, i);
    Shr19(r.r0);
    RightBit(r.r0, 19, i);
    Parity(WordBit(r.r3, i) + WordBit(r.r3, i - 11) + if i < 24 then WordBit(r.r3, i + 8) + WordBit(r.r3, i - 3) else 0,
           WordBit(r.r0, i), WordBit(r.r0, i + 19));
  }

  // -- nothing is forgotten ------------------------------------------------

  lemma XorCancels(a: nat, b: nat, c: nat)
    requires Xor(a, c) == Xor(b, c)
    ensures a == b
  {
    XorInvolution(a, c);
    XorInvolution(b, c);
  }

  lemma {:induction false} XorZero(a: nat)
    ensures Xor(a, 0) == a
    decreases a
  {
    if a != 0 {
      XorZero(a / 2);
    }
  }

  lemma XorHighByte(a: nat, b: nat)
    ensures Xor(a, b) / 0x100 == Xor(a / 0x100, b / 0x100)
  {
    XorDigit(a % 0x100, a / 0x100, b % 0x100, b / 0x100);
    assert Pow2(8) == 0x100;
    XorBelow(a % 0x100, b % 0x100, 8);
  }

  // The shift to the right loses nothing: the high byte stands as it was.
  lemma {:induction false} RightInjective(t: nat, u: nat)
    requires Xor(t, t / 0x100) == Xor(u, u / 0x100)
    ensures t == u
    decreases t + u
  {
    if t < 0x100 && u < 0x100 {
      XorZero(t);
      XorZero(u);
    } else {
      XorHighByte(t, t / 0x100);
      XorHighByte(u, u / 0x100);
      RightInjective(t / 0x100, u / 0x100);
      XorCancels(t, u, t / 0x100);
    }
  }

  // Nor does the shift to the left: the low eleven bits stand.
  lemma {:induction false} LeftSame(x: u32, y: u32, i: nat)
    requires XorU32(x, x * 0x800 % 0x1_0000_0000) == XorU32(y, y * 0x800 % 0x1_0000_0000) && i < 32
    ensures WordBit(x, i) == WordBit(y, i)
  {
    FirstShift(x, i);
    FirstShift(y, i);
    if i >= 11 {
      LeftSame(x, y, i - 11);
    }
  }

  lemma MixedInjective(x: u32, y: u32)
    requires Mixed(x) == Mixed(y)
    ensures x == y
  {
    RightInjective(XorU32(x, x * 0x800 % 0x1_0000_0000), XorU32(y, y * 0x800 % 0x1_0000_0000));
    forall i | 0 <= i < 32 ensures BitAt(x, i) == BitAt(y, i) {
      LeftSame(x, y, i);
      assert WordBit(x, i) == WordBit(y, i);
    }
    Pow2Word();
    SameBits(x, y, 32);
  }

  // With the other words alike, another last word gives another key.
  lemma KeysDiffer(r: Rng, x: u32)
    requires x != r.r3
    ensures NextKey(r).0 != NextKey(r.(r3 := x)).0
  {
    if NextKey(r).0 == NextKey(r.(r3 := x)).0 {
      XorCancels(XorU32(Mixed(r.r3), r.r0), XorU32(Mixed(x), r.r0), r.r0 / 0x8_0000);
      XorCancels(Mixed(r.r3), Mixed(x), r.r0);
      MixedInjective(r.r3, x);
    }
  }

  // No two states have the same successor.
  lemma NextInjective(r: Rng, s: Rng)
    requires NextKey(r).1 == NextKey(s).1
    ensures r == s
  {
    assert s == r.(r3 := s.r3);
    if r.r3 != s.r3 {
      KeysDiffer(r, s.r3);
    }
  }

  // -- keys in a row -------------------------------------------------------

  const STUCK := Rng(0, 0, 0, 0)

  function After(r: Rng, n: nat): (s: Rng) {
    if n == 0 then r else NextKey(After(r, n - 1)).1
  }

  function Keys(r: Rng, n: nat): (keys: seq<u32>)
    ensures |keys| == n
  {
    if n == 0 then [] else Keys(r, n - 1) + [NextKey(After(r, n - 1)).0]
  }

  lemma XorNothing(a: u32, b: u32)
    requires a == b == 0
    ensures XorU32(a, b) == 0
  {
    XorZero(a);
  }

  lemma StuckStays(r: Rng)
    requires r == STUCK
    ensures NextKey(r).1 == STUCK
  {
    XorNothing(r.r3, r.r3 * 0x800 % 0x1_0000_0000);
    var t1 := XorU32(r.r3, r.r3 * 0x800 % 0x1_0000_0000);
    XorNothing(t1, t1 / 0x100);
    XorNothing(Mixed(r.r3), r.r0);
    XorNothing(XorU32(Mixed(r.r3), r.r0), r.r0 / 0x8_0000);
  }

  lemma NotStuckNext(r: Rng)
    requires r != STUCK
    ensures NextKey(r).1 != STUCK
  {
    StuckStays(STUCK);
    if NextKey(r).1 == STUCK {
      NextInjective(r, STUCK);
    }
  }

  // Seeded with anything but zeros, the generator never gets stuck.
  lemma {:induction false} NeverStuck(r: Rng, n: nat)
    requires r != STUCK
    ensures After(r, n) != STUCK
  {
    if n > 0 {
      NeverStuck(r, n - 1);
      NotStuckNext(After(r, n - 1));
    }
  }
}
