// TWSInflater (source/units/WS.Deflate.pas): a capped, output-driven loop
// over zlib's inflate. zlib itself is a decoding function and the contract of
// one inflate call.

module Inflater {
  import opened Bytes

  const HIGH: nat := 0x7FFF_FFFF_FFFF_FFFF   // High(NativeInt)

  // What a decoder makes of all the input it was ever given: whether it is a
  // stream of sync-flushed deflate blocks so far, and what it decodes to.
  datatype Decoded = Decoded(valid: bool, out: bytes)

  // More input only adds output, and does not mend a corrupt stream.
  ghost predicate Lawful(decode: bytes -> Decoded) {
    && decode([]).valid && decode([]).out == []
    && forall a, b {:trigger decode(a + b)} ::
         decode(a + b).valid ==> decode(a).valid && decode(a).out <= decode(a + b).out
  }

  datatype Code = Ok | BufError | DataError

  // z_stream: how far its input and its output have got. plan is how much
  // input each call cares to swallow while output is waiting.
  class Zlib {
    const decode: bytes -> Decoded
    var consumed: bytes
    var emitted: nat
    var plan: seq<nat>

    constructor (decode: bytes -> Decoded, plan: seq<nat>)
      requires Lawful(decode)
      ensures this.decode == decode && consumed == [] && emitted == 0
    {
      this.decode := decode;
      consumed, emitted := [], 0;
      this.plan := plan;
    }

    ghost predicate Valid()
      reads this
    {
      Lawful(decode) && decode(consumed).valid && emitted <= |decode(consumed).out|
    }

    method Swallow(input: bytes, took: nat)
      requires Valid() && took <= |input|
      modifies this
      ensures consumed == old(consumed) + input[..took] && emitted == old(emitted)
      ensures decode(consumed).valid ==> emitted <= |decode(consumed).out|
    {
      consumed := consumed + input[..took];
    }

    // One call with room for `room` bytes. Room left over means that all the
    // input was taken and nothing decoded is still queued.
    method Inflate(input: bytes, room: nat) returns (took: nat, chunk: bytes, code: Code)
      requires Valid() && room > 0
      modifies this
      ensures took <= |input| && |chunk| <= room && consumed == old(consumed) + input[..took]
      ensures code.DataError? <==> !decode(consumed).valid
      ensures !code.DataError? ==>
                && Valid() && emitted == old(emitted) + |chunk|
                && chunk == decode(consumed).out[old(emitted)..emitted]
                && (|chunk| < room ==> took == |input| && emitted == |decode(consumed).out|)
                && (code.BufError? <==> took == 0 && chunk == [])
    {
      took := |input|;
      if plan != [] {
        took := Min(plan[0], |input|);
        plan := plan[1..];
        var d := decode(consumed + input[..took]);
        if d.valid && |d.out| < emitted + room {
          took := |input|;
        }
      }
      Swallow(input, took);
      var d := decode(consumed);
      if !d.valid {
        return took, [], DataError;
      }
      var upTo := Min(|d.out|, emitted + room);
      chunk := d.out[emitted..upTo];
      emitted := upTo;
      code := if took == 0 && chunk == [] then BufError else Ok;
    }

    // inflateReset.
    method Reset()
      requires Lawful(decode)
      modifies this
      ensures Valid() && consumed == [] && emitted == 0
    {
      consumed, emitted := [], 0;
    }
  }

  // What any part of the input decodes to, the whole does as well.
  lemma Prefix(decode: bytes -> Decoded, c: bytes, input: bytes, i: nat)
    requires Lawful(decode) && i <= |input|
    ensures decode(c + input).valid ==>
              decode(c + input[..i]).valid && decode(c + input[..i]).out <= decode(c + input).out
  {
    assert c + input == (c + input[..i]) + input[i..];
  }

  lemma Slide(c: bytes, input: bytes, i: nat, n: nat)
    requires i + n <= |input|
    ensures (c + input[..i]) + input[i..][..n] == c + input[..i + n]
  {
    assert input[i..][..n] == input[i..i + n];
    assert input[..i + n] == input[..i] + input[i..i + n];
  }

  lemma Beyond(decode: bytes -> Decoded, a: bytes, b: bytes)
    requires Lawful(decode)
    ensures decode(a + b).valid ==> decode(a).valid && |decode(a).out| <= |decode(a + b).out|
  {
  }

  // Output already placed is output of the longer input too.
  lemma Placed(decode: bytes -> Decoded, s: bytes, t: bytes, base: nat, e: nat, f: nat)
    requires Lawful(decode) && decode(t).valid && s <= t && base <= e <= |decode(s).out| && e <= f <= |decode(t).out|
    ensures decode(s).out[base..e] + decode(t).out[e..f] == decode(t).out[base..f]
  {
    assert t == s + t[|s|..];
  }

  const TAIL: bytes := [0, 0, 0xFF, 0xFF]

  class Inflater {
    const z: Zlib
    const noTakeover: bool
    const maxOut: nat
    const outLimit: nat
    var out: array<byte>
    var outSize: nat
    ghost var base: nat          // output of earlier messages on this context

    ghost predicate Valid()
      reads this, z, out
    {
      && z.Valid() && maxOut <= HIGH && outLimit == (if maxOut < HIGH then maxOut + 1 else maxOut)
      && 0 < out.Length <= Max(4096, outLimit) && outSize < out.Length && outSize < outLimit
      && z.emitted == |z.decode(z.consumed).out|
    }

    // The message so far is what the input fed so far decodes to.
    ghost predicate InMessage()
      requires Valid()
      reads this, z, out
    {
      base + outSize == z.emitted && out[..outSize] == z.decode(z.consumed).out[base..]
    }

    constructor (z: Zlib, noTakeover: bool, maxOut: nat)
      requires z.Valid() && z.consumed == [] && z.emitted == 0 && maxOut <= HIGH
      ensures Valid() && InMessage() && this.z == z && this.maxOut == maxOut && outSize == 0 && fresh(out)
    {
      this.z, this.noTakeover, this.maxOut := z, noTakeover, maxOut;
      outLimit := if maxOut < HIGH then maxOut + 1 else maxOut;
      out := new byte[4096](_ => 0);
      outSize, base := 0, 0;
    }

    method BeginMessage()
      requires Valid()
      modifies this
      ensures Valid() && InMessage() && outSize == 0 && out == old(out) && base == z.emitted
    {
      outSize := 0;
      base := z.emitted;
    }

    // Succeeds exactly when the stream is sound and the message still fits.
    ghost predicate Fits(input: bytes)
      requires z.Valid()
      reads this, z
    {
      var d := z.decode(z.consumed + input);
      d.valid && |d.out| - base < outLimit
    }

    // Full: twice the room, the cap's worth at most. False is the bomb guard.
    method Grow() returns (ok: bool)
      requires outSize == out.Length && 0 < out.Length <= Max(4096, outLimit)
      modifies this
      ensures outSize == old(outSize) && base == old(base)
      ensures ok == (old(out.Length) < outLimit)
      ensures ok ==> out.Length == Min(2 * old(out.Length), outLimit)
      ensures ok ==> fresh(out) && outSize < out.Length <= Max(4096, outLimit) && out[..outSize] == old(out[..outSize])
      ensures !ok ==> out == old(out)
    {
      if out.Length >= outLimit { return false; }
      var length := if out.Length * 2 > outLimit then outLimit else out.Length * 2;
      out := Resize(out, length, outSize);
      ok := true;
    }

    // inflate, its output placed behind what is there.
    method Inflate(input: bytes) returns (took: nat, room: nat, code: Code)
      requires z.Valid() && outSize < out.Length
      modifies this, z, out
      ensures out == old(out) && base == old(base) && old(outSize) <= outSize <= out.Length &&
              room == out.Length - outSize
      ensures took <= |input| && z.consumed == old(z.consumed) + input[..took]
      ensures code.DataError? <==> !z.decode(z.consumed).valid
      ensures !code.DataError? ==>
                && z.Valid() && z.emitted == old(z.emitted) + (outSize - old(outSize))
                && out[..outSize] == old(out[..outSize]) + z.decode(z.consumed).out[old(z.emitted)..z.emitted]
                && (room > 0 ==> took == |input| && z.emitted == |z.decode(z.consumed).out|)
    {
      var chunk;
      took, chunk, code := z.Inflate(input, out.Length - outSize);
      Place(out, outSize, chunk);
      outSize := outSize + |chunk|;
      room := out.Length - outSize;
    }

    // inflate on the input from i on.
    method InflateFrom(input: bytes, i: nat, ghost c0: bytes) returns (next: nat, room: nat, code: Code)
      requires z.Valid() && outSize < out.Length && i <= |input| && z.consumed == c0 + input[..i]
      requires base + outSize == z.emitted && out[..outSize] == z.decode(z.consumed).out[base..z.emitted]
      modifies this, z, out
      ensures out == old(out) && base == old(base) && old(outSize) <= outSize <= out.Length &&
              room == out.Length - outSize
      ensures i <= next <= |input| && z.consumed == c0 + input[..next]
      ensures code.DataError? <==> !z.decode(z.consumed).valid
      ensures !code.DataError? ==>
                && z.Valid() && base + outSize == z.emitted
                && out[..outSize] == z.decode(z.consumed).out[base..z.emitted]
                && (room > 0 ==> next == |input| && z.emitted == |z.decode(z.consumed).out|)
    {
      ghost var e0, s0 := z.emitted, z.consumed;
      var took;
      took, room, code := Inflate(input[i..]);
      Slide(c0, input, i, took);
      next := i + took;
      if !code.DataError? {
        Placed(z.decode, s0, z.consumed, base, e0, z.emitted);
      }
    }

    method Pump(input: bytes) returns (ok: bool)
      requires Valid() && InMessage()
      modifies this, z, out
      ensures ok == old(Fits(input)) && base == old(base)
      ensures ok ==> Valid() && InMessage() && z.consumed == old(z.consumed) + input && (out == old(out) || fresh(out))
    {
      var i := 0;
      ghost var c0, all := z.consumed, z.consumed + input;
      assert z.consumed == c0 + input[..i];
      while true
        invariant 0 <= i <= |input| && z.Valid() && z.consumed == c0 + input[..i] && base == old(base)
        invariant out == old(out) || fresh(out)
        invariant 0 < out.Length <= Max(4096, outLimit) && outSize <= out.Length && outSize <= maxOut
        invariant base + outSize == z.emitted && out[..outSize] == z.decode(z.consumed).out[base..z.emitted]
        decreases outLimit - outSize
      {
        Prefix(z.decode, c0, input, i);
        if outSize == out.Length {
          var more := Grow();
          if !more { return false; }
        }
        var room, code;
        i, room, code := InflateFrom(input, i, c0);
        Prefix(z.decode, c0, input, i);
        if code.DataError? { return false; }
        if outSize > maxOut { return false; }
        if room == 0 { continue; }
        if i == |input| { break; }
        if code.BufError? { return false; }
      }
      assert input[..i] == input;
      ok := true;
    }

    // One fragment chunk.
    method Feed(input: bytes) returns (ok: bool)
      requires Valid() && InMessage()
      modifies this, z, out
      ensures ok == old(Fits(input)) && base == old(base)
      ensures ok ==> Valid() && InMessage() && z.consumed == old(z.consumed) + input && (out == old(out) || fresh(out))
    {
      if input == [] {
        assert z.consumed + input == z.consumed;
        return true;
      }
      ok := Pump(input);
    }

    // The message is complete: the tail the wire left off, and without
    // context takeover a fresh context.
    method Finish() returns (ok: bool)
      requires Valid() && InMessage()
      modifies this, z, out
      ensures ok == old(Fits(TAIL))
      ensures ok ==> Valid() && (out == old(out) || fresh(out))
      ensures ok ==> out[..outSize] == z.decode(old(z.consumed) + TAIL).out[old(base)..]
      ensures ok ==> z.consumed == if noTakeover then [] else old(z.consumed) + TAIL
    {
      ok := Pump(TAIL);
      if ok && noTakeover {
        z.Reset();
      }
    }

    // A message fed in any chunks: accepted exactly when the stream is sound
    // and what it decodes to is within the cap, and then held whole.
    method Message(chunks: seq<bytes>) returns (ok: bool)
      requires Valid()
      modifies this, z, out
      ensures var start := old(z.emitted);
              var d := z.decode(old(z.consumed) + Concat(chunks) + TAIL);
              && ok == (d.valid && |d.out| - start < outLimit)
              && (ok ==> Valid() && out[..outSize] == d.out[start..])
    {
      BeginMessage();
      ghost var c0, all := z.consumed, Concat(chunks);
      var i := 0;
      assert chunks[0..] == chunks && z.consumed + Concat(chunks) == c0 + all;
      while i < |chunks|
        invariant i <= |chunks| && Valid() && InMessage() && base == old(z.emitted)
        invariant z.consumed + Concat(chunks[i..]) == c0 + all
        invariant out == old(out) || fresh(out)
      {
        ghost var rest := Concat(chunks[i + 1..]);
        assert chunks[i..][0] == chunks[i] && chunks[i..][1..] == chunks[i + 1..];
        assert z.consumed + (chunks[i] + rest) == (z.consumed + chunks[i]) + rest;
        Beyond(z.decode, z.consumed + chunks[i], rest + TAIL);
        assert (z.consumed + chunks[i]) + (rest + TAIL) == c0 + all + TAIL;
        ok := Feed(chunks[i]);
        if !ok { return; }
        i := i + 1;
      }
      assert z.consumed == z.consumed + Concat(chunks[i..]) == c0 + all;
      ok := Finish();
    }
  }
}
