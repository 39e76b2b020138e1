// The masking kernels of source/units/WS.Frame.pas (section 5.3 of
// RFC 6455): byte loop, 64-bit-word loops and their copying twin, all
// proved to compute the one specification Masked.

module Mask {
  import opened Bytes
  import opened Frame

  // Byte i of the payload is XORed with key byte (phase + i) mod 4.
  function Masked(s: bytes, key: u32, phase: nat): (r: bytes)
    ensures |r| == |s|
  {
    seq(|s|, i requires 0 <= i < |s| => XorByte(s[i], KeyByte(key, phase + i)))
  }

  lemma PhaseMod(key: u32, phase: nat, i: nat)
    ensures KeyByte(key, phase + i) == KeyByte(key, phase % 4 + i)
  {
    assert (phase + i) % 4 == (phase % 4 + i) % 4;
  }

  // Masking a payload in two reads, the phase carried mod 4, is masking it
  // whole.
  lemma MaskSplit(a: bytes, b: bytes, key: u32, phase: nat)
    ensures Masked(a + b, key, phase) == Masked(a, key, phase) + Masked(b, key, (phase + |a|) % 4)
  {
    var l, r := Masked(a + b, key, phase), Masked(a, key, phase) + Masked(b, key, (phase + |a|) % 4);
    forall i | 0 <= i < |l|
      ensures l[i] == r[i]
    {
      if i >= |a| {
        PhaseMod(key, phase + |a|, i - |a|);
      }
    }
  }

  // On the wire: payload byte i is XORed with byte i mod 4 of the key field.
  lemma WireMask(s: bytes, k: bytes, i: nat)
    requires |k| == 4 && i < |s|
    ensures Masked(s, KeyFrom(k), 0)[i] == XorByte(s[i], k[i % 4])
  {
    KeyCanonical(k);
    assert KeyByte(KeyFrom(k), i) == KeyBytes(KeyFrom(k))[i % 4];
  }

  lemma MaskInvolution(s: bytes, key: u32, phase: nat)
    ensures Masked(Masked(s, key, phase), key, phase) == s
  {
    var r := Masked(Masked(s, key, phase), key, phase);
    forall i | 0 <= i < |s|
      ensures r[i] == s[i]
    {
      XorInvolution(s[i], KeyByte(key, phase + i));
    }
  }

  // The key rotated so that its byte 0 is key byte (phase mod 4).
  function RotKey(key: u32, phase: nat): (r: u32) {
    var p := phase % 4;
    if p == 0 then key
    else if p == 1 then key / 0x100 + key % 0x100 * 0x100_0000
    else if p == 2 then key / 0x1_0000 + key % 0x1_0000 * 0x1_0000
    else key / 0x100_0000 + key % 0x100_0000 * 0x100
  }

  lemma RotKeyDigits(key: u32, p: nat)
    requires p < 4
    ensures var k := KeyBytes(key); RotKey(key, p) == KeyFrom(k[p..] + k[..p])
  {
    KeyDigits(key);
    KeyRoundTrip(key);
    var k := KeyBytes(key);
    var k0: int, k1: int, k2: int, k3: int := k[0], k[1], k[2], k[3];
    if p == 0 {
      assert k[p..] + k[..p] == k;
    } else if p == 1 {
      assert k[p..] + k[..p] == [k1, k2, k3, k0];
      assert key / 0x100 == k1 + 0x100 * k2 + 0x1_0000 * k3;
    } else if p == 2 {
      assert k[p..] + k[..p] == [k2, k3, k0, k1];
      assert key / 0x1_0000 == k2 + 0x100 * k3;
    } else {
      assert k[p..] + k[..p] == [k3, k0, k1, k2];
      assert key % 0x100_0000 == k0 + 0x100 * k1 + 0x1_0000 * k2;
    }
  }

  lemma PhaseSum(phase: nat, i: nat)
    ensures (phase + i) % 4 == if phase % 4 + i % 4 < 4 then phase % 4 + i % 4 else phase % 4 + i % 4 - 4
  {
  }

  lemma RotKeyByte(key: u32, phase: nat, i: nat)
    ensures KeyByte(RotKey(key, phase), i) == KeyByte(key, phase + i)
  {
    var p := phase % 4;
    var k := KeyBytes(key);
    RotKeyDigits(key, p);
    KeyCanonical(k[p..] + k[..p]);
    assert KeyByte(RotKey(key, phase), i) == (k[p..] + k[..p])[i % 4] by {
      assert KeyByte(RotKey(key, p), i) == KeyBytes(RotKey(key, p))[i % 4];
    }
    PhaseSum(phase, i);
    assert KeyByte(key, phase + i) == k[(phase + i) % 4];
  }

  lemma RotMasked(s: bytes, key: u32, phase: nat)
    ensures Masked(s, RotKey(key, phase), 0) == Masked(s, key, phase)
  {
    var l, r := Masked(s, RotKey(key, phase), 0), Masked(s, key, phase);
    forall i | 0 <= i < |s|
      ensures l[i] == r[i]
    {
      RotKeyByte(key, phase, i);
    }
  }

  // -- 64-bit words --------------------------------------------------------

  // A word as eight bytes in memory, lowest first.
  function FromLE(b: bytes): (n: nat) {
    if b == [] then 0 else b[0] + 256 * FromLE(b[1..])
  }

  function ToLE(n: nat, width: nat): (b: bytes)
    ensures |b| == width
  {
    if width == 0 then [] else [n % 256] + ToLE(n / 256, width - 1)
  }

  function XorBytes(a: bytes, b: bytes): (r: bytes)
    requires |a| == |b|
    ensures |r| == |a|
  {
    seq(|a|, i requires 0 <= i < |a| => XorByte(a[i], b[i]))
  }

  lemma LowDigit(lo: byte, hi: nat, width: nat)
    requires width > 0
    ensures ToLE(lo + 256 * hi, width) == [lo] + ToLE(hi, width - 1)
  {
    assert (lo + 256 * hi) / 256 == hi;
  }

  // Storing the exclusive or of two loaded words is the exclusive or of
  // their bytes.
  lemma {:induction false} WordXor(a: bytes, b: bytes)
    requires |a| == |b|
    ensures ToLE(Xor(FromLE(a), FromLE(b)), |a|) == XorBytes(a, b)
  {
    if a != [] {
      var a0, as', b0, bs := a[0], FromLE(a[1..]), b[0], FromLE(b[1..]);
      XorDigit(a0, as', b0, bs);
      WordXor(a[1..], b[1..]);
      LowDigit(XorByte(a0, b0), Xor(as', bs), |a|);
      assert XorBytes(a, b) == [XorByte(a0, b0)] + XorBytes(a[1..], b[1..]);
    }
  }

  // The 32-bit key doubled into a word.
  function Key64(key: u32): (k: nat) {
    key + 0x1_0000_0000 * key
  }

  lemma FromLE4(b: bytes)
    requires |b| == 4
    ensures FromLE(b) == KeyFrom(b)
  {
    assert b[1..][1..] == b[2..] && b[2..][1..] == b[3..] && b[3..][1..] == [];
    assert FromLE(b[3..]) == b[3] + 256 * FromLE([]);
    assert FromLE(b[2..]) == b[2] + 256 * FromLE(b[3..]);
  }

  lemma FromLEAppend4(b: bytes)
    requires |b| == 8
    ensures FromLE(b) == FromLE(b[..4]) + 0x1_0000_0000 * FromLE(b[4..])
  {
    var s := b[..4];
    FromLE4(s);
    assert b[1..][1..] == b[2..] && b[2..][1..] == b[3..] && b[3..][1..] == b[4..];
    assert FromLE(b[3..]) == b[3] + 256 * FromLE(b[4..]);
    assert FromLE(b[2..]) == b[2] + 256 * FromLE(b[3..]);
  }

  lemma Key64Bytes(key: u32)
    ensures FromLE(KeyBytes(key) + KeyBytes(key)) == Key64(key)
  {
    var kb := KeyBytes(key);
    var k := kb + kb;
    KeyRoundTrip(key);
    FromLE4(kb);
    FromLEAppend4(k);
    assert k[4..] == kb && k[..4] == kb;
  }

  lemma DoubledKeyMasks(w: bytes, key: u32, at: nat)
    requires |w| == 8 && at % 4 == 0
    ensures XorBytes(w, KeyBytes(key) + KeyBytes(key)) == Masked(w, key, at)
  {
    var kb := KeyBytes(key);
    var k := kb + kb;
    var l, r := XorBytes(w, k), Masked(w, key, at);
    forall i | 0 <= i < 8
      ensures l[i] == r[i]
    {
      assert (at + i) % 4 == i % 4;
      assert k[i] == kb[i % 4];
    }
  }

  // One word step of the kernels masks eight bytes at any phase that is a
  // multiple of four.
  lemma WordMask(w: bytes, key: u32, at: nat)
    requires |w| == 8 && at % 4 == 0
    ensures ToLE(Xor(FromLE(w), Key64(key)), 8) == Masked(w, key, at)
  {
    Key64Bytes(key);
    WordXor(w, KeyBytes(key) + KeyBytes(key));
    DoubledKeyMasks(w, key, at);
  }

  // -- the kernels ---------------------------------------------------------

  method StoreWord(a: array<byte>, at: nat, w: nat)
    requires at + 8 <= a.Length
    modifies a
    ensures a[..] == old(a[..at]) + ToLE(w, 8) + old(a[at + 8..])
  {
    var b := ToLE(w, 8);
    forall j | 0 <= j < 8 {
      a[at + j] := b[j];
    }
  }

  // a with len bytes at `at` masked.
  function MaskedAt(a: bytes, at: nat, len: nat, key: u32, phase: nat): (r: bytes)
    requires at + len <= |a|
    ensures |r| == |a|
  {
    a[..at] + Masked(a[at..at + len], key, phase) + a[at + len..]
  }

  // The first i bytes of m are written at `at`, the rest is as in orig.
  ghost predicate Written(orig: bytes, now: bytes, at: nat, i: nat, m: bytes) {
    |now| == |orig| && i <= |m| && at + |m| <= |orig| &&
    forall j {:trigger now[j]} :: 0 <= j < |now| ==> now[j] == if at <= j < at + i then m[j - at] else orig[j]
  }

  lemma WrittenNone(orig: bytes, at: nat, m: bytes)
    requires at + |m| <= |orig|
    ensures Written(orig, orig, at, 0, m)
  {
  }

  lemma WrittenAll(orig: bytes, now: bytes, at: nat, m: bytes)
    requires Written(orig, now, at, |m|, m)
    ensures now == orig[..at] + m + orig[at + |m|..]
  {
  }

  lemma WrittenMore(orig: bytes, mid: bytes, now: bytes, at: nat, i: nat, n: nat, m: bytes)
    requires Written(orig, mid, at, i, m) && i + n <= |m|
    requires now == mid[..at + i] + m[i..i + n] + mid[at + i + n..]
    ensures Written(orig, now, at, i + n, m)
  {
  }

  lemma WrittenRest(orig: bytes, now: bytes, at: nat, i: nat, n: nat, m: bytes)
    requires Written(orig, now, at, i, m) && at + i + n <= |orig|
    ensures now[at + i..at + i + n] == orig[at + i..at + i + n]
  {
  }

  lemma SliceOfSlice(b: bytes, at: nat, n: nat, i: nat, k: nat)
    requires at + n <= |b| && i + k <= n
    ensures b[at..at + n][i..i + k] == b[at + i..at + i + k]
  {
    var l, r := b[at..at + n][i..i + k], b[at + i..at + i + k];
    assert forall j :: 0 <= j < k ==> l[j] == r[j];
  }

  // Any stretch of a masked payload that starts at a multiple of four is
  // masked from phase 0.
  lemma MaskedSlice(s: bytes, key: u32, i: nat, n: nat)
    requires i + n <= |s| && i % 4 == 0
    ensures Masked(s, key, 0)[i..i + n] == Masked(s[i..i + n], key, 0)
  {
    var l, r := Masked(s, key, 0)[i..i + n], Masked(s[i..i + n], key, 0);
    forall j | 0 <= j < n
      ensures l[j] == r[j]
    {
      PhaseMod(key, i, j);
      assert l[j] == Masked(s, key, 0)[i + j];
    }
  }

  // key is rotKey rotated right by i bytes.
  ghost predicate Tracks(key: u32, rotKey: u32, i: nat) {
    forall j: nat :: KeyByte(key, j) == KeyByte(rotKey, i + j)
  }

  lemma TracksStart(rotKey: u32)
    ensures Tracks(rotKey, rotKey, 0)
  {
  }

  lemma TracksNext(key: u32, rotKey: u32, i: nat)
    requires Tracks(key, rotKey, i)
    ensures key % 256 == KeyByte(rotKey, i)
    ensures Tracks(RotKey(key, 1), rotKey, i + 1)
  {
    assert KeyByte(key, 0) == KeyByte(rotKey, i + 0);
    forall j: nat
      ensures KeyByte(RotKey(key, 1), j) == KeyByte(rotKey, i + 1 + j)
    {
      RotKeyByte(key, 1, j);
      assert KeyByte(key, 1 + j) == KeyByte(rotKey, i + (1 + j));
    }
  }

  method PutByte(a: array<byte>, at: nat, i: nat, b: byte, ghost orig: bytes, ghost m: bytes)
    requires Written(orig, a[..], at, i, m) && i < |m| && m[i] == b
    modifies a
    ensures Written(orig, a[..], at, i + 1, m)
  {
    a[at + i] := b;
  }

  method UnmaskNaive(a: array<byte>, at: nat, len: nat, rotKey: u32)
    requires at + len <= a.Length
    modifies a
    ensures a[..] == MaskedAt(old(a[..]), at, len, rotKey, 0)
  {
    var key := rotKey;
    ghost var orig := a[..];
    ghost var m := Masked(orig[at..at + len], rotKey, 0);
    TracksStart(rotKey);
    for i := 0 to len
      invariant Tracks(key, rotKey, i)
      invariant Written(orig, a[..], at, i, m)
    {
      TracksNext(key, rotKey, i);
      assert m[i] == XorByte(orig[at + i], KeyByte(rotKey, i));
      PutByte(a, at, i, XorByte(a[at + i], key % 256), orig, m);
      key := RotKey(key, 1); // ROR 8
    }
    WrittenAll(orig, a[..], at, m);
  }

  // Writes the masked word behind the i bytes already written.
  method PutWord(a: array<byte>, at: nat, i: nat, word: bytes, rotKey: u32, ghost orig: bytes, ghost s: bytes)
    requires |word| == 8 && i % 4 == 0 && i + 8 <= |s| && word == s[i..i + 8]
    requires Written(orig, a[..], at, i, Masked(s, rotKey, 0))
    modifies a
    ensures Written(orig, a[..], at, i + 8, Masked(s, rotKey, 0))
  {
    ghost var mid := a[..];
    WordMask(word, rotKey, 0);
    MaskedSlice(s, rotKey, i, 8);
    StoreWord(a, at + i, Xor(FromLE(word), Key64(rotKey)));
    WrittenMore(orig, mid, a[..], at, i, 8, Masked(s, rotKey, 0));
  }

  // -- in place: s is the original payload, orig[at..at + |s|] -------------

  method MaskWord(a: array<byte>, at: nat, i: nat, rotKey: u32, ghost orig: bytes, ghost s: bytes)
    requires i % 4 == 0 && i + 8 <= |s| && at + |s| <= |orig| && s == orig[at..at + |s|]
    requires Written(orig, a[..], at, i, Masked(s, rotKey, 0))
    modifies a
    ensures Written(orig, a[..], at, i + 8, Masked(s, rotKey, 0))
  {
    var word := a[at + i..at + i + 8];
    WrittenRest(orig, a[..], at, i, 8, Masked(s, rotKey, 0));
    SliceOfSlice(orig, at, |s|, i, 8);
    PutWord(a, at, i, word, rotKey, orig, s);
  }

  // One pass of the main loop: eight words.
  method MaskBlock(a: array<byte>, at: nat, i: nat, rotKey: u32, ghost orig: bytes, ghost s: bytes)
    requires i % 4 == 0 && i + 64 <= |s| && at + |s| <= |orig| && s == orig[at..at + |s|]
    requires Written(orig, a[..], at, i, Masked(s, rotKey, 0))
    modifies a
    ensures Written(orig, a[..], at, i + 64, Masked(s, rotKey, 0))
  {
    MaskWord(a, at, i, rotKey, orig, s);
    MaskWord(a, at, i + 8, rotKey, orig, s);
    MaskWord(a, at, i + 16, rotKey, orig, s);
    MaskWord(a, at, i + 24, rotKey, orig, s);
    MaskWord(a, at, i + 32, rotKey, orig, s);
    MaskWord(a, at, i + 40, rotKey, orig, s);
    MaskWord(a, at, i + 48, rotKey, orig, s);
    MaskWord(a, at, i + 56, rotKey, orig, s);
  }

  method MaskBlocks(a: array<byte>, at: nat, blocks: nat, rotKey: u32,
      ghost orig: bytes, ghost s: bytes)
    returns (i: nat)
    requires 64 * blocks <= |s| && at + |s| <= |orig| && s == orig[at..at + |s|] && a[..] == orig
    modifies a
    ensures i == 64 * blocks && i % 4 == 0 && Written(orig, a[..], at, i, Masked(s, rotKey, 0))
  {
    i := 0;
    WrittenNone(orig, at, Masked(s, rotKey, 0));
    for k := 0 to blocks
      invariant i == 64 * k && i % 4 == 0
      invariant Written(orig, a[..], at, i, Masked(s, rotKey, 0))
    {
      MaskBlock(a, at, i, rotKey, orig, s);
      i := i + 64;
    }
  }

  method MaskWords(a: array<byte>, at: nat, i0: nat, rest: nat, rotKey: u32,
      ghost orig: bytes, ghost s: bytes)
    returns (i: nat)
    requires i0 % 4 == 0 && i0 + rest == |s| && at + |s| <= |orig| && s == orig[at..at + |s|]
    requires Written(orig, a[..], at, i0, Masked(s, rotKey, 0))
    modifies a
    ensures i0 <= i <= |s| && i % 4 == 0 && Written(orig, a[..], at, i, Masked(s, rotKey, 0))
  {
    i := i0;
    var left := rest;
    while left >= 8
      invariant 0 <= left && i0 <= i && i + left == |s| && i % 4 == 0
      invariant Written(orig, a[..], at, i, Masked(s, rotKey, 0))
    {
      MaskWord(a, at, i, rotKey, orig, s);
      i := i + 8;
      left := left - 8;
    }
  }

  lemma TailWritten(orig: bytes, mid: bytes, at: nat, i: nat, left: nat, key: u32, s: bytes)
    requires i % 4 == 0 && i + left == |s| && at + |s| <= |orig| && s == orig[at..at + |s|]
    requires Written(orig, mid, at, i, Masked(s, key, 0))
    ensures Written(orig, MaskedAt(mid, at + i, left, key, 0), at, |s|, Masked(s, key, 0))
  {
    WrittenRest(orig, mid, at, i, left, Masked(s, key, 0));
    SliceOfSlice(orig, at, |s|, i, left);
    MaskedSlice(s, key, i, left);
    WrittenMore(orig, mid, MaskedAt(mid, at + i, left, key, 0), at, i, left, Masked(s, key, 0));
  }

  method MaskTail(a: array<byte>, at: nat, i: nat, left: nat, rotKey: u32, ghost orig: bytes, ghost s: bytes)
    requires i % 4 == 0 && i + left == |s| && at + |s| <= |orig| && s == orig[at..at + |s|]
    requires Written(orig, a[..], at, i, Masked(s, rotKey, 0))
    modifies a
    ensures Written(orig, a[..], at, |s|, Masked(s, rotKey, 0))
  {
    if left > 0 {
      ghost var mid := a[..];
      UnmaskNaive(a, at + i, left, rotKey);
      ghost var now := a[..];
      TailWritten(orig, mid, at, i, left, rotKey, s);
      assert now == MaskedAt(mid, at + i, left, rotKey, 0);
    }
  }

  method UnmaskU64(a: array<byte>, at: nat, len: nat, rotKey: u32)
    requires at + len <= a.Length
    modifies a
    ensures a[..] == MaskedAt(old(a[..]), at, len, rotKey, 0)
  {
    ghost var orig := a[..];
    ghost var s := orig[at..at + len];
    var i := MaskBlocks(a, at, len / 64, rotKey, orig, s);
    i := MaskWords(a, at, i, len - i, rotKey, orig, s);
    MaskTail(a, at, i, len - i, rotKey, orig, s);
    WrittenAll(orig, a[..], at, Masked(s, rotKey, 0));
  }

  method ApplyMask(a: array<byte>, at: nat, len: nat, key: u32, phase: nat)
    requires at + len <= a.Length
    modifies a
    ensures a[..] == MaskedAt(old(a[..]), at, len, key, phase)
  {
    if len == 0 {
      return;
    }
    RotMasked(a[at..at + len], key, phase);
    UnmaskU64(a, at, len, RotKey(key, phase));
  }

  // -- copying: s is the source payload, src[sat..sat + |s|] ---------------

  method CopyWord(src: array<byte>, sat: nat, dst: array<byte>, dat: nat, i: nat, rotKey: u32,
      ghost orig: bytes, ghost s: bytes)
    requires src != dst && i % 4 == 0 && i + 8 <= |s| && sat + |s| <= src.Length && s == src[sat..sat + |s|]
    requires Written(orig, dst[..], dat, i, Masked(s, rotKey, 0))
    modifies dst
    ensures Written(orig, dst[..], dat, i + 8, Masked(s, rotKey, 0))
  {
    var word := src[sat + i..sat + i + 8];
    SliceOfSlice(src[..], sat, |s|, i, 8);
    PutWord(dst, dat, i, word, rotKey, orig, s);
  }

  method CopyBlock(src: array<byte>, sat: nat, dst: array<byte>, dat: nat, i: nat, rotKey: u32,
      ghost orig: bytes, ghost s: bytes)
    requires src != dst && i % 4 == 0 && i + 64 <= |s| && sat + |s| <= src.Length && s == src[sat..sat + |s|]
    requires Written(orig, dst[..], dat, i, Masked(s, rotKey, 0))
    modifies dst
    ensures Written(orig, dst[..], dat, i + 64, Masked(s, rotKey, 0))
  {
    CopyWord(src, sat, dst, dat, i, rotKey, orig, s);
    CopyWord(src, sat, dst, dat, i + 8, rotKey, orig, s);
    CopyWord(src, sat, dst, dat, i + 16, rotKey, orig, s);
    CopyWord(src, sat, dst, dat, i + 24, rotKey, orig, s);
    CopyWord(src, sat, dst, dat, i + 32, rotKey, orig, s);
    CopyWord(src, sat, dst, dat, i + 40, rotKey, orig, s);
    CopyWord(src, sat, dst, dat, i + 48, rotKey, orig, s);
    CopyWord(src, sat, dst, dat, i + 56, rotKey, orig, s);
  }

  method CopyBlocks(src: array<byte>, sat: nat, dst: array<byte>, dat: nat, blocks: nat, rotKey: u32,
      ghost orig: bytes, ghost s: bytes)
    returns (i: nat)
    requires src != dst && 64 * blocks <= |s| && sat + |s| <= src.Length && s == src[sat..sat + |s|]
    requires dst[..] == orig && dat + |s| <= |orig|
    modifies dst
    ensures i == 64 * blocks && i % 4 == 0 && Written(orig, dst[..], dat, i, Masked(s, rotKey, 0))
  {
    i := 0;
    WrittenNone(orig, dat, Masked(s, rotKey, 0));
    for k := 0 to blocks
      invariant i == 64 * k && i % 4 == 0
      invariant Written(orig, dst[..], dat, i, Masked(s, rotKey, 0))
    {
      CopyBlock(src, sat, dst, dat, i, rotKey, orig, s);
      i := i + 64;
    }
  }

  method CopyWords(src: array<byte>, sat: nat, dst: array<byte>, dat: nat, i0: nat, rest: nat, rotKey: u32,
      ghost orig: bytes, ghost s: bytes)
    returns (i: nat)
    requires src != dst && i0 % 4 == 0 && i0 + rest == |s| && sat + |s| <= src.Length && s == src[sat..sat + |s|]
    requires Written(orig, dst[..], dat, i0, Masked(s, rotKey, 0))
    modifies dst
    ensures i0 <= i <= |s| && i % 4 == 0 && Written(orig, dst[..], dat, i, Masked(s, rotKey, 0))
  {
    i := i0;
    var left := rest;
    while left >= 8
      invariant 0 <= left && i0 <= i && i + left == |s| && i % 4 == 0
      invariant Written(orig, dst[..], dat, i, Masked(s, rotKey, 0))
    {
      CopyWord(src, sat, dst, dat, i, rotKey, orig, s);
      i := i + 8;
      left := left - 8;
    }
  }

  // Byte by byte, as the tail of the copying form goes.
  method CopyNaive(src: array<byte>, sat: nat, dst: array<byte>, dat: nat, len: nat, rotKey: u32)
    requires src != dst && sat + len <= src.Length && dat + len <= dst.Length
    modifies dst
    ensures dst[..] == old(dst[..dat]) + Masked(src[sat..sat + len], rotKey, 0) + old(dst[dat + len..])
  {
    ghost var orig, m := dst[..], Masked(src[sat..sat + len], rotKey, 0);
    WrittenNone(orig, dat, m);
    var key := rotKey;
    TracksStart(rotKey);
    for k := 0 to len
      invariant Tracks(key, rotKey, k)
      invariant Written(orig, dst[..], dat, k, m)
    {
      TracksNext(key, rotKey, k);
      assert m[k] == XorByte(src[sat + k], KeyByte(rotKey, k));
      PutByte(dst, dat, k, XorByte(src[sat + k], key % 256), orig, m);
      key := RotKey(key, 1); // ROR 8
    }
    WrittenAll(orig, dst[..], dat, m);
  }

  method CopyTail(src: array<byte>, sat: nat, dst: array<byte>, dat: nat, i: nat, left: nat, rotKey: u32,
      ghost orig: bytes, ghost s: bytes)
    requires src != dst && i % 4 == 0 && i + left == |s| && sat + |s| <= src.Length && s == src[sat..sat + |s|]
    requires Written(orig, dst[..], dat, i, Masked(s, rotKey, 0))
    modifies dst
    ensures Written(orig, dst[..], dat, |s|, Masked(s, rotKey, 0))
  {
    ghost var mid := dst[..];
    CopyNaive(src, sat + i, dst, dat + i, left, rotKey);
    SliceOfSlice(src[..], sat, |s|, i, left);
    MaskedSlice(s, rotKey, i, left);
    WrittenMore(orig, mid, dst[..], dat, i, left, Masked(s, rotKey, 0));
  }

  // dst[dat..] receives src[sat..] masked; the source is left alone.
  method UnmaskCopyU64(src: array<byte>, sat: nat, dst: array<byte>, dat: nat, len: nat, rotKey: u32)
    requires src != dst && sat + len <= src.Length && dat + len <= dst.Length
    modifies dst
    ensures dst[..] == old(dst[..dat]) + Masked(src[sat..sat + len], rotKey, 0) + old(dst[dat + len..])
  {
    ghost var orig := dst[..];
    ghost var s := src[sat..sat + len];
    var i := CopyBlocks(src, sat, dst, dat, len / 64, rotKey, orig, s);
    i := CopyWords(src, sat, dst, dat, i, len - i, rotKey, orig, s);
    CopyTail(src, sat, dst, dat, i, len - i, rotKey, orig, s);
    WrittenAll(orig, dst[..], dat, Masked(s, rotKey, 0));
  }

  method ApplyMaskCopy(src: array<byte>, sat: nat, dst: array<byte>, dat: nat, len: nat, key: u32, phase: nat)
    requires src != dst && sat + len <= src.Length && dat + len <= dst.Length
    modifies dst
    ensures dst[..] == old(dst[..dat]) + Masked(src[sat..sat + len], key, phase) + old(dst[dat + len..])
  {
    if len == 0 {
      assert dst[..] == dst[..dat] + [] + dst[dat..];
      return;
    }
    RotMasked(src[sat..sat + len], key, phase);
    UnmaskCopyU64(src, sat, dst, dat, len, RotKey(key, phase));
  }
}
