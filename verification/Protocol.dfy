// TWSProtocol (source/units/WS.Protocol.pas), its buffers in place, proved
// to compute the functions of Machine.dfy. permessage-deflate is not
// negotiated (FDeflater and FInflater are nil).

module Protocol {
  import opened Bytes
  import opened Frame
  import opened Mask
  import opened Utf8
  import M = Machine
  import opened Machine

  // Move within one array, downwards.
  method MoveDown(a: array<byte>, from: nat, n: nat)
    requires from + n <= a.Length
    modifies a
    ensures a[..n] == old(a[from..from + n])
  {
    ghost var orig := a[..];
    var i := 0;
    while i < n
      invariant i <= n && a[..i] == orig[from..from + i]
      invariant a[from + i..] == orig[from + i..]
    {
      assert a[from + i] == orig[from + i] by { assert a[from + i..][0] == orig[from + i..][0]; }
      ghost var rest := a[from + i + 1..];
      assert rest == orig[from + i + 1..];
      a[i] := a[from + i];
      i := i + 1;
    }
  }

  // MovePayload: between two arrays.
  method MovePayload(src: array<byte>, sat: nat, dst: array<byte>, dat: nat, n: nat)
    requires src != dst && sat + n <= src.Length && dat + n <= dst.Length
    modifies dst
    ensures dst[..] == old(dst[..dat]) + src[sat..sat + n] + old(dst[dat + n..])
  {
    ghost var orig := dst[..];
    var i := 0;
    while i < n
      invariant i <= n
      invariant dst[..dat] == orig[..dat] && dst[dat..dat + i] == src[sat..sat + i] && dst[dat + i..] == orig[dat + i..]
    {
      ghost var rest := dst[dat + i + 1..];
      dst[dat + i] := src[sat + i];
      assert dst[dat..dat + i + 1] == dst[dat..dat + i] + [src[sat + i]];
      i := i + 1;
    }
  }

  method ReadClose(p: array<byte>, at: nat, n: nat) returns (note: CloseNote)
    requires at + n <= p.Length
    ensures note == NoteOf(p[at..at + n])
  {
    ghost var d := p[at..at + n];
    if n == 0 { return Ends(1005, []); }
    if n == 1 { return Breaks(1002, "close payload of one byte"); }
    var hi: int, lo: int := p[at], p[at + 1];
    var code := hi * 256 + lo;
    assert d[0] == p[at] && d[1] == p[at + 1] && d[2..] == p[at + 2..at + n];
    if !ValidCloseCode(code) { return Breaks(1002, "invalid close code"); }
    var good, u := Utf8Advance(ACCEPT, p, at + 2, n - 2);
    if !good || u != ACCEPT { return Breaks(1007, "close reason is not UTF-8"); }
    return Ends(code, p[at + 2..at + n]);
  }

  method Copied(d: bytes) returns (a: array<byte>)
    ensures fresh(a) && a[0..a.Length] == d
  {
    a := new byte[|d|](i requires 0 <= i < |d| => d[i]);
    assert a[0..a.Length] == d;
  }

  function HeaderStream(h: Header): (s: M.Stream) {
    if h.len == 0 then Idle else Streaming(h.len, h.fin, h.masked, h.key, 0)
  }

  // A chunk put behind the assembled bytes, its frame's bookkeeping still to
  // come.
  ghost function Joined(c: Config, m: Machine, chunk: bytes): (r: (bool, Machine))
    requires m.inb.stream.Streaming?
  {
    var plain := M.Unmask(m.inb.stream, chunk);
    var u := if m.inb.text then Advance(m.inb.utf8, plain) else m.inb.utf8;
    if m.inb.text && u == REJECT then (false, M.Fail(c, m, 1007, "invalid UTF-8"))
    else (true, m.(inb := m.inb.(msg := m.inb.msg + plain, utf8 := u)))
  }

  method MaskInBuffer(a: array<byte>, at: nat, n: nat, key: u32, phase: nat)
    requires at + n <= a.Length
    modifies a
    ensures a[at..at + n] == old(Masked(a[at..at + n], key, phase)) && a[at + n..] == old(a[at + n..])
  {
    ApplyMask(a, at, n, key, phase);
  }

  lemma PayloadWithin(h: Header, w: bytes, n: nat)
    requires h.headerLen + h.len <= n <= |w|
    ensures ControlPayload(h, w) == ControlPayload(h, w[..n])
  {
    assert w[h.headerLen..h.headerLen + h.len] == w[..n][h.headerLen..h.headerLen + h.len];
  }

  ghost function TakenBy(c: Config, m: Machine, h: Header, w: bytes): Machine
    requires Span(h) <= |w|
  {
    if h.IsControl() then M.HandleControl(c, m, h.opcode, ControlPayload(h, w)) else M.DataHeader(c, m, h)
  }

  // A round with a payload under way.
  lemma StepStreams(c: Config, m: Machine, w: bytes, take: nat)
    requires m.inb.stream.Streaming? && take == Min(|w|, m.inb.stream.remaining) && take > 0
    ensures M.Step(c, m, w) == Round(M.Chunk(c, m, w[..take]), w[take..], false)
  {
  }

  lemma PartOf(a: bytes, off: nat, end: nat, take: nat)
    requires off + take <= end <= |a|
    ensures a[off..end][..take] == a[off..off + take] && a[off..end][take..] == a[off + take..end]
  {
  }

  lemma ControlOpcode(c: Config, w: bytes)
    ensures var v := M.Police(c, w);
            v.Good? && v.h.IsControl() ==> v.h.opcode == OP_PING || v.h.opcode == OP_PONG || v.h.opcode == OP_CLOSE
  {
  }

  // A round with no payload under way, verdict by verdict; n bytes of w
  // have come.
  lemma StepCases(c: Config, m: Machine, w: bytes, n: nat, v: Verdict)
    requires m.inb.stream.Idle? && n <= |w| && v == M.Police(c, w[..n])
    ensures M.Step(c, m, w[..n]) ==
            match v {
              case Wait => Round(m, w[..n], true)
              case Bad(code, reason) => Round(M.Fail(c, m, code, reason), [], false)
              case Good(h) =>
                GoodSpan(c, w[..n]);
                Round(TakenBy(c, m, h, w), w[Span(h)..][..n - Span(h)], false)
            }
    ensures v.Good? ==> 2 <= Span(v.h) <= n
    ensures v.Good? && v.h.IsControl() ==> v.h.opcode == OP_PING || v.h.opcode == OP_PONG || v.h.opcode == OP_CLOSE
  {
    GoodSpan(c, w[..n]);
    ControlOpcode(c, w[..n]);
    if v.Good? {
      assert w[..n][Span(v.h)..] == w[Span(v.h)..][..n - Span(v.h)];
      if v.h.IsControl() {
        PayloadWithin(v.h, w, n);
      }
    }
  }

  lemma StepVerdict(c: Config, m: Machine, b: bytes, w: bytes, v: Verdict, r: Round)
    requires m.inb.stream.Idle? && |b| <= |w| && b == w[..|b|]
    requires v == M.Police(c, b) && r == M.Step(c, m, b)
    ensures v.Wait? ==> r == Round(m, b, true)
    ensures v.Bad? ==> r == Round(M.Fail(c, m, v.code, v.reason), [], false)
    ensures v.Good? ==>
              2 <= Span(v.h) <= |b| && r == Round(TakenBy(c, m, v.h, w), w[Span(v.h)..][..|b| - Span(v.h)], false)
    ensures v.Good? && v.h.IsControl() ==> v.h.opcode == OP_PING || v.h.opcode == OP_PONG || v.h.opcode == OP_CLOSE
  {
    StepCases(c, m, w, |b|, v);
  }

  method UnmaskControl(work: array<byte>, off: nat, h: Header)
    requires off + h.headerLen + h.len <= work.Length
    modifies work
    ensures var at := off + h.headerLen;
            && work[at..at + h.len] == old(ControlPayload(h, work[off..]))
            && work[at + h.len..] == old(work[at + h.len..])
  {
    var at := off + h.headerLen;
    assert work[off..][h.headerLen..h.headerLen + h.len] == work[at..at + h.len];
    if h.masked && h.len > 0 {
      MaskInBuffer(work, at, h.len, h.key, 0);
    }
  }

  // How a round of the loop in Ingest ends: go round again, wait for more
  // bytes, or leave for good.
  datatype Flow = More | Stop | Over

  // The round did what Step says.
  ghost predicate Followed(r: Round, m: Machine, flow: Flow, inside: bool, work: array<byte>, next: nat, wlen: nat)
    reads work
  {
    && m == r.m && inside
    && flow.Stop? == r.stuck && flow.Over? == m.st.drain
    && (flow.More? ==> next <= wlen <= work.Length && work[next..wlen] == r.rest)
  }

  // What the transport takes of one send of a handler: so many bytes of what
  // is pending behind it, or of the message itself in a gather write.
  datatype Give = Give(direct: bool, n: nat)

  lemma Joins(taken: bytes, queue: bytes, more: bytes)
    ensures taken + (queue + more) == (taken + queue) + more
  {
  }

  lemma RestOf(a: bytes, i: nat, j: nat, n: nat)
    requires i + n <= j <= |a|
    ensures a[i..j][n..] == a[i + n..j]
  {
  }

  lemma BothRest(a: bytes, b: bytes, n: nat)
    requires n <= |a| + |b|
    ensures (a + b)[n..] == if n < |a| then a[n..] + b else b[n - |a|..]
  {
  }

  lemma HandedOver(taken: bytes, queue: bytes, n: nat)
    requires n <= |queue|
    ensures (taken + queue[..n]) + queue[n..] == taken + queue
  {
  }

  class WSProtocol {
    const role: Role
    const cap: nat
    const react: seq<Event> -> seq<Command>

    // inbound reassembly
    var carry: array<byte>
    var carryLen: nat
    var msg: array<byte>
    var msgLen: nat
    ghost var body: bytes        // what is assembled
    var inMessage: bool
    var msgText: bool
    var utf8: State
    var stream: Stream           // FStreamRemaining, FStreamFin, FStreamMasked, FStreamKey, FStreamOff

    // outbound queue: out[outOff..outLen]
    var out: array<byte>
    var outOff: nat
    var outLen: nat
    ghost var queue: bytes       // what is pending
    ghost var peak: nat          // most bytes ever pending
    ghost var log: seq<Sent>
    ghost var framed: bytes      // all bytes framed: taken and then queue
    ghost var taken: bytes       // what the transport was handed, OutConsume and DirectSent together

    // what the transport takes while callbacks run; past its end nothing
    var gives: seq<Give>

    // close / failure state
    var st: Status

    var rng: Rng
    var trace: seq<Event>

    // -- abstraction -------------------------------------------------------

    ghost function Cfg(): Config {
      Config(role, cap, react)
    }

    ghost predicate Valid()
      reads `carry, `carryLen, `msg, `msgLen, `body, `out, `outOff, `outLen, `queue, `peak, `st, `stream
      reads `taken, `framed, msg, out
    {
      && carry != msg && carry != out && msg != out
      && carryLen <= carry.Length && msgLen <= msg.Length && outOff <= outLen <= out.Length
      && body == msg[..msgLen] && queue == out[outOff..outLen] && framed == taken + queue
      && |queue| <= peak && out.Length <= 3 * peak + 256
      && (st.failed ==> st.drain) && (stream.Streaming? ==> stream.remaining > 0)
    }

    // All that was framed, handed over or still pending: how far the
    // transport has come is not the machine's concern.
    ghost function Outb(): Outbound
      reads `framed, `rng, `log
    {
      Outbound(framed, rng, log, [])
    }

    // The inbound state apart from the carry.
    ghost function Inb(): Inbound
      reads `body, `inMessage, `msgText, `utf8, `stream
    {
      Inbound([], body, inMessage, msgText, utf8, stream)
    }

    // The machine inside Ingest, its buffer being worked on.
    ghost function Live(): Machine
      reads this
    {
      Machine(if st.drain then BLANK else Inb(), st, Outb(), trace)
    }

    ghost function Kept(rest: bytes): Machine
      reads this
    {
      Live().(inb := Inb().(carry := rest))
    }

    // The machine between calls.
    ghost function Abs(): Machine
      requires carryLen <= carry.Length
      reads this, carry
    {
      if st.drain then Live() else Kept(carry[..carryLen])
    }

    constructor (role: Role, cap: nat, react: seq<Event> -> seq<Command>, seed: Rng, gives: seq<Give>)
      ensures Valid() && queue == taken == []
      ensures Valid() && Cfg() == Config(role, cap, react) && Abs() == Init(seed)
      ensures fresh(carry) && fresh(msg) && fresh(out)
    {
      this.role := role;
      this.cap := cap;
      this.react := react;
      carry := new byte[0];
      carryLen := 0;
      msg := new byte[0];
      msgLen, body := 0, [];
      inMessage, msgText, utf8 := false, false, ACCEPT;
      stream := Idle;
      out := new byte[0];
      outOff, outLen, peak, queue := 0, 0, 0, [];
      log, taken, framed := [], [], [];
      this.gives := gives;
      st := Status(false, false, false, false, 1005, []);
      rng := seed;
      trace := [];
    }

    // -- what a call leaves alone ------------------------------------------

    twostate predicate SameCarry()
      reads this
    {
      carry == old(carry) && carryLen == old(carryLen) && msg == old(msg)
    }

    // The out queue may have moved, bytes framed and bytes handed over; peak
    // is the most it ever held, all that a call framed at the most.
    twostate predicate OutMoved()
      reads this
    {
      && (out == old(out) || fresh(out)) && |old(taken)| <= |taken|
      && |old(framed)| <= |framed| && old(peak) <= peak <= Max(old(peak), |framed| - |old(taken)|)
    }

    // The buffer Ingest reads; the assembly buffer may have grown.
    twostate predicate SameRead()
      reads this
    {
      carry == old(carry) && carryLen == old(carryLen) && (msg == old(msg) || fresh(msg))
    }

    twostate predicate SameMessage()
      reads this
    {
      inMessage == old(inMessage) && msgLen == old(msgLen) && body == old(body)
    }

    twostate predicate SameStream()
      reads this
    {
      msgText == old(msgText) && utf8 == old(utf8) && stream == old(stream)
    }

    twostate predicate SameHistory()
      reads this
    {
      rng == old(rng) && log == old(log) && taken == old(taken) && trace == old(trace)
    }

    twostate predicate SameQueue()
      reads this
    {
      out == old(out) && outOff == old(outOff) && outLen == old(outLen) && queue == old(queue) && peak == old(peak)
      && framed == old(framed)
    }

    // -- the out queue -----------------------------------------------------

    // Drops the dead prefix when it dominates the buffer.
    method Compact()
      requires Valid()
      modifies this, out
      ensures SameCarry() && SameMessage() && SameStream() && st == old(st) && SameHistory()
      ensures Valid() && out == old(out) && queue == old(queue) && peak == old(peak)
      ensures outLen - outOff == old(outLen - outOff) && outOff * 2 <= outLen
    {
      if outOff > 0 && outOff * 2 > outLen {
        MoveDown(out, outOff, outLen - outOff);
        outLen := outLen - outOff;
        outOff := 0;
      }
    }

    // The claimed bytes are filled.
    ghost method Filled(q: bytes, at: nat, d: bytes)
      requires carry != msg && carry != out && msg != out
      requires carryLen <= carry.Length && msgLen <= msg.Length && outOff <= at <= outLen <= out.Length
      requires body == msg[..msgLen] && outLen - outOff <= peak && out.Length <= 3 * peak + 256
      requires out[outOff..at] == q && out[at..outLen] == d
      requires (st.failed ==> st.drain) && (stream.Streaming? ==> stream.remaining > 0)
      modifies this
      ensures SameCarry() && SameMessage() && SameStream() && st == old(st) && SameHistory()
      ensures out == old(out) && outOff == old(outOff) && outLen == old(outLen) && peak == old(peak)
      ensures Valid() && queue == q + d
    {
      queue := q + d;
      framed := taken + queue;
      assert out[outOff..outLen] == out[outOff..at] + out[at..outLen];
    }

    // A buffer with room for n bytes behind the pending ones.
    method GrowOut(n: nat)
      requires Valid() && out.Length < outLen + n && outOff * 2 <= outLen
      modifies this
      ensures SameCarry() && SameMessage() && SameStream() && st == old(st) && SameHistory()
      ensures fresh(out) && outLen + n <= out.Length <= 3 * (|queue| + n) + 256
      ensures outOff == old(outOff) && outLen == old(outLen) && queue == old(queue) && peak == old(peak)
      ensures queue == out[outOff..outLen]
    {
      var need := outLen + n;
      var bigger := Resize(out, need + need / 2 + 256, outLen);
      assert bigger[outOff..outLen] == bigger[..outLen][outOff..] == queue;
      out := bigger;
    }

    // The n bytes behind the pending ones are handed out.
    method Claim(n: nat)
      requires carry != msg && carry != out && msg != out
      requires carryLen <= carry.Length && msgLen <= msg.Length && outOff <= outLen <= outLen + n <= out.Length
      requires body == msg[..msgLen] && queue == out[outOff..outLen] && |queue| <= peak
      requires out.Length <= 3 * Max(peak, |queue| + n) + 256
      requires (st.failed ==> st.drain) && (stream.Streaming? ==> stream.remaining > 0)
      modifies this
      ensures SameCarry() && SameMessage() && SameStream() && st == old(st) && SameHistory()
      ensures Valid() && out == old(out) && outOff == old(outOff) && outLen == old(outLen) + n
      ensures peak == Max(old(peak), |old(queue)| + n) && queue == old(queue) + out[old(outLen)..outLen]
    {
      ghost var at := outLen;
      outLen := outLen + n;
      peak := Max(peak, |queue| + n);
      Filled(queue, at, out[at..outLen]);
    }

    // Makes the out queue n bytes longer; they are written by the caller,
    // from at on.
    method OutReserve(n: nat) returns (at: nat)
      requires Valid() && n > 0
      modifies this, out
      ensures SameCarry() && SameMessage() && SameStream() && st == old(st) && SameHistory()
      ensures Valid() && OutMoved()
      ensures outOff <= at && at + n == outLen
      ensures queue == old(queue) + out[at..outLen] && out[outOff..at] == old(queue)
    {
      Compact();
      if outLen + n > out.Length {
        GrowOut(n);
      }
      at := outLen;
      Claim(n);
    }

    method OutAppend(src: array<byte>, at: nat, n: nat)
      requires Valid() && src != out && at + n <= src.Length
      modifies this, out
      ensures SameCarry() && SameMessage() && SameStream() && st == old(st) && SameHistory()
      ensures Valid() && OutMoved()
      ensures queue == old(queue) + src[at..at + n]
    {
      if n == 0 { return; }
      ghost var q := queue;
      var pos := OutReserve(n);
      ghost var before := out[..];
      MovePayload(src, at, out, pos, n);
      assert out[outOff..pos] == before[outOff..pos];
      Filled(q, pos, src[at..at + n]);
    }

    // The bytes of the queue that were handed over are booked as such.
    ghost method Consumed(t: bytes, q: bytes)
      requires carry != msg && carry != out && msg != out
      requires carryLen <= carry.Length && msgLen <= msg.Length && outOff <= outLen <= out.Length
      requires body == msg[..msgLen] && q == out[outOff..outLen] && framed == t + q
      requires |q| <= peak && out.Length <= 3 * peak + 256
      requires (st.failed ==> st.drain) && (stream.Streaming? ==> stream.remaining > 0)
      modifies this`taken, this`queue
      ensures Valid() && taken == t && queue == q
    {
      taken, queue := t, q;
    }

    method OutConsume(n: nat)
      requires Valid() && n <= outLen - outOff
      modifies this
      ensures SameCarry() && SameMessage() && SameStream() && st == old(st) && rng == old(rng) &&
              log == old(log) && trace == old(trace)
      ensures out == old(out) && peak == old(peak) && gives == old(gives)
      ensures Valid() && OutMoved() && Live() == old(Live())
      ensures queue == old(queue)[n..] && taken == old(taken) + old(queue)[..n]
    {
      ghost var t, q := taken + queue[..n], queue[n..];
      HandedOver(taken, queue, n);
      RestOf(out[..], outOff, outLen, n);
      assert q == out[outOff + n..outLen];
      outOff := outOff + n;
      if outOff >= outLen {
        outOff := 0;
        outLen := 0;
      }
      Consumed(t, q);
    }

    // -- sending -----------------------------------------------------------

    // xorshift128.
    method NextMaskKey() returns (key: u32)
      modifies this
      ensures SameCarry() && SameMessage() && SameStream() && st == old(st) && SameQueue()
      ensures log == old(log) && taken == old(taken) && trace == old(trace)
      ensures (key, rng) == NextKey(old(rng))
    {
      var t: int := rng.r3;
      t := XorU32(t, t * 0x800 % 0x1_0000_0000);
      t := XorU32(t, t / 0x100);
      key := XorU32(XorU32(t, rng.r0), rng.r0 / 0x8_0000);
      rng := Rng(key, rng.r0, rng.r1, rng.r2);
    }

    method AppendHeader(op: byte, masked: bool, key: u32, n: nat)
      requires Valid()
      modifies this, out
      ensures SameCarry() && SameMessage() && SameStream() && st == old(st) && SameHistory()
      ensures Valid() && OutMoved()
      ensures queue == old(queue) + HeaderBytes(true, false, op, masked, key, n)
    {
      var hdr := new byte[MAX_HEADER];
      var hlen := WriteFrameHeader(hdr, true, false, op, masked, key, n);
      OutAppend(hdr, 0, hlen);
    }

    // The frame of a server.
    method SendPlain(op: byte, src: array<byte>, at: nat, n: nat)
      requires Valid() && role.Server? && src != out && at + n <= src.Length
      modifies this, out
      ensures SameCarry() && SameMessage() && SameStream() && st == old(st) && SameHistory()
      ensures Valid() && OutMoved()
      ensures queue == old(queue) + Encode(role, Sent(op, src[at..at + n], 0))
    {
      Joins(queue, HeaderBytes(true, false, op, false, 0, n), src[at..at + n]);
      AppendHeader(op, false, 0, n);
      OutAppend(src, at, n);
    }

    method MaskedAppend(src: array<byte>, at: nat, n: nat, key: u32)
      requires Valid() && src != out && at + n <= src.Length
      modifies this, out
      ensures SameCarry() && SameMessage() && SameStream() && st == old(st) && SameHistory()
      ensures Valid() && OutMoved()
      ensures queue == old(queue) + Masked(src[at..at + n], key, 0)
    {
      if n == 0 { return; }
      ghost var q := queue;
      var pos := OutReserve(n);
      ghost var before := out[..];
      ApplyMaskCopy(src, at, out, pos, n, key, 0);
      assert out[outOff..pos] == before[outOff..pos];
      Filled(q, pos, Masked(src[at..at + n], key, 0));
    }

    // The frame of a client. The mask is applied to the queued copy alone.
    method SendMasked(op: byte, src: array<byte>, at: nat, n: nat, key: u32)
      requires Valid() && role.Client? && src != out && at + n <= src.Length
      modifies this, out
      ensures SameCarry() && SameMessage() && SameStream() && st == old(st) && SameHistory()
      ensures Valid() && OutMoved()
      ensures queue == old(queue) + Encode(role, Sent(op, src[at..at + n], key))
    {
      Joins(queue, HeaderBytes(true, false, op, true, key, n), Masked(src[at..at + n], key, 0));
      AppendHeader(op, true, key, n);
      MaskedAppend(src, at, n, key);
    }

    method SendFromServer(op: byte, src: array<byte>, at: nat, n: nat)
      requires Valid() && role.Server? && src != out && at + n <= src.Length
      modifies this, out
      ensures SameCarry() && SameMessage() && SameStream() && st == old(st) && trace == old(trace) &&
              taken == old(taken)
      ensures Valid() && OutMoved()
      ensures Outb() == M.SendFrame(role, old(Outb()), op, old(src[at..at + n]))
    {
      ghost var payload := src[at..at + n];
      Joins(taken, queue, Encode(role, Sent(op, payload, 0)));
      SendPlain(op, src, at, n);
      log := log + [Sent(op, payload, 0)];
    }

    method SendFromClient(op: byte, src: array<byte>, at: nat, n: nat)
      requires Valid() && role.Client? && src != out && at + n <= src.Length
      modifies this, out
      ensures SameCarry() && SameMessage() && SameStream() && st == old(st) && trace == old(trace) &&
              taken == old(taken)
      ensures Valid() && OutMoved()
      ensures Outb() == M.SendFrame(role, old(Outb()), op, old(src[at..at + n]))
    {
      ghost var payload := src[at..at + n];
      var key := NextMaskKey();
      Joins(taken, queue, Encode(role, Sent(op, payload, key)));
      SendMasked(op, src, at, n, key);
      log := log + [Sent(op, payload, key)];
    }

    method SendFrame(op: byte, src: array<byte>, at: nat, n: nat)
      requires Valid() && src != out && at + n <= src.Length
      modifies this, out
      ensures SameCarry() && SameMessage() && SameStream() && st == old(st) && trace == old(trace) &&
              taken == old(taken)
      ensures Valid() && OutMoved()
      ensures Outb() == M.SendFrame(role, old(Outb()), op, old(src[at..at + n]))
    {
      if role.Client? {
        SendFromClient(op, src, at, n);
      } else {
        SendFromServer(op, src, at, n);
      }
    }

    method SendDataMessage(op: byte, src: array<byte>, at: nat, n: nat)
      requires Valid() && src != out && at + n <= src.Length
      modifies this, out
      ensures SameCarry() && SameMessage() && SameStream() && st == old(st) && trace == old(trace) &&
              taken == old(taken)
      ensures Valid() && OutMoved()
      ensures Live() == M.Send(Cfg(), old(Live()), op, old(src[at..at + n]))
    {
      if st.closeSent { return; }
      SendFrame(op, src, at, n);
    }

    method SendText(src: array<byte>, at: nat, n: nat)
      requires Valid() && src != out && at + n <= src.Length
      modifies this, out
      ensures SameCarry() && SameMessage() && SameStream() && st == old(st) && trace == old(trace) &&
              taken == old(taken)
      ensures Valid() && OutMoved()
      ensures Live() == M.Do(Cfg(), old(Live()), Command.SendText(old(src[at..at + n])))
    {
      SendDataMessage(OP_TEXT, src, at, n);
    }

    method SendBinary(src: array<byte>, at: nat, n: nat)
      requires Valid() && src != out && at + n <= src.Length
      modifies this, out
      ensures SameCarry() && SameMessage() && SameStream() && st == old(st) && trace == old(trace) &&
              taken == old(taken)
      ensures Valid() && OutMoved()
      ensures Live() == M.Do(Cfg(), old(Live()), Command.SendBinary(old(src[at..at + n])))
    {
      SendDataMessage(OP_BINARY, src, at, n);
    }

    method SendPing(src: array<byte>, at: nat, n: nat)
      requires Valid() && src != out && at + n <= src.Length
      modifies this, out
      ensures SameCarry() && SameMessage() && SameStream() && st == old(st) && trace == old(trace) &&
              taken == old(taken)
      ensures Valid() && OutMoved()
      ensures Live() == M.Do(Cfg(), old(Live()), Command.SendPing(old(src[at..at + n])))
    {
      if !st.closeSent && n <= 125 {
        SendFrame(OP_PING, src, at, n);
      }
    }

    method SendPong(src: array<byte>, at: nat, n: nat)
      requires Valid() && src != out && at + n <= src.Length
      modifies this, out
      ensures SameCarry() && SameMessage() && SameStream() && st == old(st) && trace == old(trace) &&
              taken == old(taken)
      ensures Valid() && OutMoved()
      ensures Live() == M.Do(Cfg(), old(Live()), Command.SendPong(old(src[at..at + n])))
    {
      if !st.closeSent && n <= 125 {
        SendFrame(OP_PONG, src, at, n);
      }
    }

    // The close payload in a buffer of its own.
    method CloseFrame(code: word, reason: bytes) returns (buf: array<byte>, len: nat)
      ensures fresh(buf) && len <= buf.Length && buf[0..len] == ClosePayload(code, reason)
    {
      buf, len := new byte[125](_ => 0), 0;
      if ValidCloseCode(code) {
        buf[0] := code / 256;
        buf[1] := code % 256;
        var n := |reason|;
        if n > 123 { n := 123; }
        for i := 0 to n
          invariant buf[0] == code / 256 && buf[1] == code % 256
          invariant buf[2..2 + i] == reason[..i]
        {
          buf[2 + i] := reason[i];
        }
        len := n + 2;
        assert buf[0..len] == [code / 256, code % 256] + buf[2..len];
      }
    }

    method QueueClose(code: word, reason: bytes)
      requires Valid()
      modifies this, out
      ensures SameCarry() && SameMessage() && SameStream() && trace == old(trace) && taken == old(taken)
      ensures Valid() && OutMoved()
      ensures st == old(st).(closeSent := true)
      ensures Outb() == if old(st.closeSent) then old(Outb())
                        else M.SendFrame(role, old(Outb()), OP_CLOSE, ClosePayload(code, reason))
    {
      if st.closeSent { return; }
      st := st.(closeSent := true);
      var buf, len := CloseFrame(code, reason);
      SendFrame(OP_CLOSE, buf, 0, len);
    }

    method SendClose(code: word, reason: bytes)
      requires Valid()
      modifies this, out
      ensures SameCarry() && SameStream() && SameMessage() && st.drain == old(st.drain) &&
              st.failed == old(st.failed) && trace == old(trace)
      ensures Valid() && OutMoved()
      ensures Live() == M.Do(Cfg(), old(Live()), Command.SendClose(code, reason))
    {
      if !st.closeSent {
        st := st.(code := code, reason := reason);
        QueueClose(code, reason);
      }
    }

    method QueueRaw(src: array<byte>, at: nat, n: nat)
      requires Valid() && src != out && at + n <= src.Length
      modifies this, out
      ensures SameCarry() && SameMessage() && SameStream() && st == old(st) && trace == old(trace)
      ensures Valid() && OutMoved()
      ensures Live() == M.QueueRaw(old(Live()), old(src[at..at + n]))
      ensures queue == old(queue) + old(src[at..at + n]) && taken == old(taken)
    {
      Joins(taken, queue, src[at..at + n]);
      log := log + [Raw(src[at..at + n])];
      OutAppend(src, at, n);
    }

    // -- the gather write --------------------------------------------------

    // The header for a gather write of header and payload, or 0 for a message
    // that has to be queued.
    method DirectHeader(text: bool, n: nat, hdr: array<byte>) returns (hlen: nat)
      requires Valid() && hdr.Length >= MAX_HEADER
      modifies hdr
      ensures (hlen > 0) == (role.Server? && !st.closeSent && queue == [])
      ensures hlen > 0 ==> hlen <= hdr.Length && hdr[..hlen] == HeaderBytes(true, false, DataOpcode(text), false, 0, n)
    {
      if role.Client? || st.closeSent || outLen > outOff { return 0; }
      hlen := WriteFrameHeader(hdr, true, false, DataOpcode(text), false, 0, n);
    }

    method QueueBoth(a: array<byte>, i: nat, k: nat, b: array<byte>, j: nat, n: nat)
      requires Valid() && queue == [] && a != out && i + k <= a.Length && b != out && j + n <= b.Length
      modifies this, out
      ensures SameCarry() && SameMessage() && SameStream() && st == old(st) && SameHistory()
      ensures Valid() && OutMoved() && queue == a[i..i + k] + b[j..j + n]
    {
      OutAppend(a, i, k);
      assert queue == a[i..i + k];
      OutAppend(b, j, n);
    }

    method QueueRest(hdr: array<byte>, hlen: nat, p: array<byte>, at: nat, n: nat, took: nat)
      requires Valid() && queue == [] && hdr != out && hlen <= hdr.Length
      requires p != out && at + n <= p.Length && took <= hlen + n
      modifies this, out
      ensures SameCarry() && SameMessage() && SameStream() && st == old(st) && SameHistory()
      ensures Valid() && OutMoved()
      ensures queue == (hdr[..hlen] + p[at..at + n])[took..]
    {
      ghost var rest := (hdr[..hlen] + p[at..at + n])[took..];
      BothRest(hdr[..hlen], p[at..at + n], took);
      if took < hlen {
        assert rest == hdr[took..hlen] + p[at..at + n] by {
          RestOf(hdr[..], 0, hlen, took);
        }
        QueueBoth(hdr, took, hlen - took, p, at, n);
      } else {
        assert rest == p[at + (took - hlen)..at + n] by {
          RestOf(p[..], at, at + n, took - hlen);
        }
        OutAppend(p, at + (took - hlen), n - (took - hlen));
      }
    }

    // After a gather write that took `took` bytes of header and payload: the
    // rest is queued, and the machine is as if the message had been queued
    // whole and so many bytes of it consumed.
    method DirectSent(ghost text: bool, hdr: array<byte>, hlen: nat, p: array<byte>, at: nat, n: nat, took: nat)
      requires Valid() && role.Server? && !st.closeSent && queue == []
      requires hdr != out && hlen <= hdr.Length &&
               hdr[..hlen] == HeaderBytes(true, false, DataOpcode(text), false, 0, n)
      requires p != out && at + n <= p.Length && took <= hlen + n
      modifies this, out
      ensures SameCarry() && SameMessage() && SameStream() && st == old(st) && trace == old(trace)
      ensures Valid() && OutMoved()
      ensures Live() == M.Send(Cfg(), old(Live()), DataOpcode(text), old(p[at..at + n]))
      ensures queue == old(hdr[..hlen] + p[at..at + n])[took..]
      ensures taken == old(taken) + old(hdr[..hlen] + p[at..at + n])[..took]
    {
      ghost var whole := hdr[..hlen] + p[at..at + n];
      ghost var e := Sent(DataOpcode(text), p[at..at + n], 0);
      assert whole == Encode(role, e);
      ghost var t := taken + whole[..took];
      HandedOver(taken, whole, took);
      assert framed == taken;
      QueueRest(hdr, hlen, p, at, n, took);
      log, framed := log + [e], taken + whole;
      Consumed(t, queue);
    }

    // -- callbacks ---------------------------------------------------------

    method PerformSend(cmd: Command, a: array<byte>)
      requires Valid() && !cmd.SendClose? && a != out && a[0..0 + a.Length] == cmd.data
      modifies this, out
      ensures SameCarry() && SameStream() && SameMessage() && st == old(st) && trace == old(trace)
      ensures Valid() && OutMoved()
      ensures Live() == M.Do(Cfg(), old(Live()), cmd)
    {
      match cmd {
        case SendText(_) => SendText(a, 0, a.Length);
        case SendBinary(_) => SendBinary(a, 0, a.Length);
        case SendPing(_) => SendPing(a, 0, a.Length);
        case SendPong(_) => SendPong(a, 0, a.Length);
      }
    }

    // A command from the owner, its payload in memory of the owner's own.
    method Perform(cmd: Command)
      requires Valid()
      modifies this, out
      ensures SameCarry() && SameStream() && SameMessage() && st.drain == old(st.drain) &&
              st.failed == old(st.failed) && trace == old(trace)
      ensures Valid() && OutMoved()
      ensures Live() == M.Do(Cfg(), old(Live()), cmd)
    {
      if cmd.SendClose? {
        SendClose(cmd.code, cmd.reason);
        return;
      }
      var a := Copied(cmd.data);
      PerformSend(cmd, a);
    }

    // A message of the owner's that goes out in one gather write, as far as
    // the transport takes it.
    method PerformDirect(text: bool, data: bytes, took: nat)
      requires Valid() && role.Server? && !st.closeSent && queue == []
      modifies this, out
      ensures SameCarry() && SameStream() && SameMessage() && st == old(st) && trace == old(trace)
      ensures Valid() && OutMoved()
      ensures Live() == M.Do(Cfg(), old(Live()), if text then Command.SendText(data) else Command.SendBinary(data))
    {
      var a := Copied(data);
      var hdr := new byte[MAX_HEADER];
      var hlen := DirectHeader(text, a.Length, hdr);
      assert a[0..0 + a.Length] == data;
      DirectSent(text, hdr, hlen, a, 0, a.Length, Min(took, hlen + a.Length));
    }

    // A command, and some of what is pending behind it handed over.
    method PerformQueued(cmd: Command, n: nat)
      requires Valid()
      modifies this, out
      ensures SameCarry() && SameStream() && SameMessage() && st.drain == old(st.drain) &&
              st.failed == old(st.failed) && trace == old(trace)
      ensures Valid() && OutMoved()
      ensures Live() == M.Do(Cfg(), old(Live()), cmd)
    {
      Perform(cmd);
      OutConsume(Min(n, outLen - outOff));
    }

    // One thing a handler does: a command, and what the transport takes on
    // the way, of the message itself or of the queue behind it.
    method Act(cmd: Command)
      requires Valid()
      modifies this, out
      ensures SameCarry() && SameStream() && SameMessage() && st.drain == old(st.drain) &&
              st.failed == old(st.failed) && trace == old(trace)
      ensures Valid() && OutMoved()
      ensures Live() == M.Do(Cfg(), old(Live()), cmd)
    {
      if gives == [] {
        Perform(cmd);
        return;
      }
      var give := gives[0];
      gives := gives[1..];
      if give.direct && role.Server? && !st.closeSent && outLen == outOff && (cmd.SendText? || cmd.SendBinary?) {
        PerformDirect(cmd.SendText?, cmd.data, give.n);
      } else {
        PerformQueued(cmd, give.n);
      }
    }

    // OnMessage, OnPing, OnPong or OnClose fires: the handler's sends
    // re-enter the machine, and the transport empties the queue under it.
    method Emit(e: Event)
      requires Valid()
      modifies this, out
      ensures SameCarry() && SameStream() && SameMessage() && st.drain == old(st.drain) && st.failed == old(st.failed)
      ensures Valid() && OutMoved()
      ensures Live() == M.Emit(Cfg(), old(Live()), e)
    {
      trace := trace + [e];
      var cmds := react(trace);
      ghost var m := Live();
      var i := 0;
      while i < |cmds|
        invariant i <= |cmds| && Valid() && OutMoved()
        invariant SameCarry() && SameStream() && SameMessage()
        invariant st.drain == old(st.drain) && st.failed == old(st.failed)
        invariant DoAll(Cfg(), Live(), cmds[i..]) == DoAll(Cfg(), m, cmds)
      {
        Act(cmds[i]);
        i := i + 1;
      }
    }

    method Fail(code: word, reason: string)
      requires Valid()
      modifies this, out
      ensures SameCarry() && SameStream() && SameMessage()
      ensures Valid() && OutMoved()
      ensures st.failed && st.drain && Live() == M.Fail(Cfg(), old(Live()), code, reason)
    {
      ghost var m := Live();
      st := st.(failed := true, drain := true, code := code, reason := Ascii(reason));
      ghost var m1 := Live();
      QueueClose(code, Ascii(reason));
      assert Live() == M.QueueClose(Cfg(), m1, code, Ascii(reason));
      Emit(Closed(code, Ascii(reason)));
    }

    method PeerClosed(code: word, reason: bytes)
      requires Valid()
      modifies this, out
      ensures SameCarry() && SameStream() && SameMessage() && st.failed == old(st.failed)
      ensures Valid() && OutMoved()
      ensures st.drain && Live() == M.PeerClose(Cfg(), old(Live()), code, reason)
    {
      st := st.(closeReceived := true, drain := true);
      if !st.closeSent {
        st := st.(code := code, reason := reason);
        QueueClose(code, []);
      }
      Emit(Closed(code, reason));
    }

    // An incoming close frame.
    method HandleClose(p: array<byte>, at: nat, n: nat) returns (ok: bool)
      requires Valid() && !st.failed && !st.drain && p != out && at + n <= p.Length
      modifies this, out
      ensures SameCarry() && SameStream() && SameMessage()
      ensures Valid() && OutMoved()
      ensures ok == !st.failed && st.drain &&
              Live() == M.HandleControl(Cfg(), old(Live()), OP_CLOSE, old(p[at..at + n]))
    {
      var note := ReadClose(p, at, n);
      ok := note.Ends?;
      if ok {
        PeerClosed(note.code, note.reason);
      } else {
        Fail(note.code, note.why);
      }
    }

    method HandleControl(op: byte, p: array<byte>, at: nat, n: nat) returns (ok: bool)
      requires Valid() && !st.failed && !st.drain && p != out && at + n <= p.Length
      requires op == OP_PING || op == OP_PONG || op == OP_CLOSE
      modifies this, out
      ensures SameCarry() && SameStream() && SameMessage()
      ensures Valid() && OutMoved()
      ensures ok == !st.failed && (!ok ==> st.drain) && (ok ==> st.drain == (op == OP_CLOSE))
      ensures Live() == M.HandleControl(Cfg(), old(Live()), op, old(p[at..at + n]))
    {
      ok := true;
      if op == OP_PING {
        SendPong(p, at, n);
        Emit(Event.Ping(p[at..at + n]));
      } else if op == OP_PONG {
        Emit(Event.Pong(p[at..at + n]));
      } else {
        ok := HandleClose(p, at, n);
      }
    }

    // -- messages ----------------------------------------------------------

    // A finished message is told: its callback finds the object between
    // messages.
    method DeliverMessage(p: array<byte>, at: nat, n: nat)
      requires Valid() && !st.drain && p != out && at + n <= p.Length
      modifies this, out
      ensures SameCarry() && SameStream() && st.drain == old(st.drain) && st.failed == old(st.failed)
      ensures Valid() && OutMoved()
      ensures Live() == M.Deliver(Cfg(), old(Live()), old(p[at..at + n]))
    {
      inMessage := false;
      msgLen, body := 0, [];
      Emit(Message(msgText, p[at..at + n]));
    }

    method FinishInPlace(p: array<byte>, at: nat, n: nat) returns (ok: bool)
      requires Valid() && !st.failed && !st.drain && p != out && at + n <= p.Length
      modifies this, out
      ensures SameCarry() && SameStream()
      ensures Valid() && OutMoved()
      ensures ok == !st.failed == !st.drain && Live() == M.Finish(Cfg(), old(Live()), old(p[at..at + n]))
    {
      if msgText && utf8 != ACCEPT {
        Fail(1007, "truncated UTF-8 at message end");
        return false;
      }
      DeliverMessage(p, at, n);
      ok := true;
    }

    method FinishMessage() returns (ok: bool)
      requires Valid() && !st.failed && !st.drain
      modifies this, out
      ensures SameCarry() && SameStream()
      ensures Valid() && OutMoved()
      ensures ok == !st.failed == !st.drain && Live() == M.Finish(Cfg(), old(Live()), old(body))
    {
      if msgText && utf8 != ACCEPT {
        Fail(1007, "truncated UTF-8 at message end");
        return false;
      }
      DeliverMessage(msg, 0, msgLen);
      ok := true;
    }

    method OpenMessage(text: bool)
      requires Valid()
      modifies this
      ensures SameCarry() && Valid() && st == old(st) && stream == old(stream) && SameHistory() && SameQueue()
      ensures inMessage && msgText == text && utf8 == ACCEPT && body == []
    {
      inMessage := true;
      msgText := text;
      utf8 := ACCEPT;
      msgLen, body := 0, [];
    }

    method BeginDataFrame(h: Header) returns (ok: bool)
      requires Valid() && !st.failed && !st.drain && stream.Idle?
      modifies this, out
      ensures SameCarry() && Valid() && OutMoved()
      ensures ok == !st.failed == !st.drain
      ensures !ok ==> Live() == M.BeginData(Cfg(), old(Live()), h)
      ensures ok ==>
                && stream == Idle
                && M.BeginData(Cfg(), old(Live()), h) == Live().(inb := Inb().(stream := HeaderStream(h)))
      ensures ok ==> inMessage && |body| + h.len <= cap
      ensures ok && h.opcode == OP_CONT ==>
                old(inMessage) && body == old(body) && utf8 == old(utf8) && msgText == old(msgText)
      ensures ok && h.opcode != OP_CONT ==>
                !old(inMessage) && body == [] && utf8 == ACCEPT && msgText == (h.opcode == OP_TEXT)
    {
      if h.opcode == OP_CONT {
        if !inMessage {
          Fail(1002, "continuation without a message");
          return false;
        }
      } else {
        if inMessage {
          Fail(1002, "new data opcode inside a fragmented message");
          return false;
        }
        OpenMessage(h.opcode == OP_TEXT);
      }
      if msgLen + h.len > cap {
        Fail(1009, "message too big");
        return false;
      }
      ok := true;
    }

    method OpenStream(h: Header) returns (ok: bool)
      requires Valid() && !st.failed && !st.drain && stream.Idle?
      modifies this, out
      ensures SameCarry() && Valid() && OutMoved() && ok == !st.failed == !st.drain
      ensures Live() == M.BeginData(Cfg(), old(Live()), h) && (ok ==> stream == HeaderStream(h))
    {
      ok := BeginDataFrame(h);
      if ok {
        stream := HeaderStream(h);
      }
    }

    // The header of a data frame: its payload, if any, streams next.
    method StartFrame(h: Header) returns (ok: bool)
      requires Valid() && !st.failed && !st.drain && stream.Idle?
      modifies this, out
      ensures SameCarry() && Valid() && OutMoved()
      ensures ok == !st.failed == !st.drain
      ensures Live() == M.DataHeader(Cfg(), old(Live()), h)
    {
      ok := OpenStream(h);
      if ok && stream.Idle? && h.fin {
        ok := FinishMessage();
      }
    }

    // Room for n more assembled bytes.
    method MsgReserve(n: nat)
      requires Valid()
      modifies this
      ensures carry == old(carry) && carryLen == old(carryLen) && SameMessage() && SameStream() &&
              st == old(st) && SameHistory() && SameQueue()
      ensures Valid() && msgLen + n <= msg.Length && (msg == old(msg) || fresh(msg))
    {
      var need := msgLen + n;
      if need > msg.Length {
        msg := Resize(msg, need + need / 2 + 64, msgLen);
      }
    }

    // The automaton run over more of a text message; a byte it rejects
    // fails the connection.
    method CheckText(p: array<byte>, at: nat, n: nat) returns (ok: bool)
      requires Valid() && !st.drain && n > 0 && p != out && at + n <= p.Length
      modifies this, out
      ensures SameCarry() && SameMessage() && Valid() && OutMoved() && ok == !st.failed == !st.drain
      ensures ok ==> msgText == old(msgText) && stream == old(stream) && st == old(st) && SameHistory() && SameQueue()
      ensures ok ==>
                && utf8 == (if msgText then Advance(old(utf8), p[at..at + n]) else old(utf8))
                && !(msgText && utf8 == REJECT)
      ensures !ok ==> old(msgText) && Advance(old(utf8), old(p[at..at + n])) == REJECT
      ensures !ok ==> Live() == M.Fail(Cfg(), old(Live()), 1007, "invalid UTF-8")
    {
      ok := true;
      if msgText {
        ok, utf8 := Utf8Advance(utf8, p, at, n);
        if !ok {
          Fail(1007, "invalid UTF-8");
        }
      }
    }

    // The n bytes placed behind the assembled ones count.
    method Assembled(n: nat, ghost plain: bytes)
      requires Valid() && msgLen + n <= msg.Length && msg[msgLen..msgLen + n] == plain
      modifies this
      ensures SameCarry() && SameStream() && st == old(st) && SameHistory() && SameQueue() &&
              inMessage == old(inMessage)
      ensures Valid() && body == old(body) + plain
    {
      assert msg[..msgLen + n] == msg[..msgLen] + plain;
      msgLen, body := msgLen + n, body + plain;
    }

    method UnmaskInto(p: array<byte>, at: nat, n: nat, ghost plain: bytes)
      requires Valid() && p != out && p != msg && at + n <= p.Length && stream.Streaming?
      requires plain == Masked(p[at..at + n], stream.key, stream.off)
      modifies this, msg
      ensures SameRead() && SameMessage() && SameStream() && st == old(st) && SameHistory() && SameQueue() && Valid()
      ensures msgLen + n <= msg.Length && msg[msgLen..msgLen + n] == plain
    {
      MsgReserve(n);
      ghost var before := msg[..];
      ApplyMaskCopy(p, at, msg, msgLen, n, stream.key, stream.off);
      assert msg[..msgLen] == before[..msgLen];
    }

    // The chunk, unmasked behind the assembled bytes, checked and joined.
    method JoinText(n: nat, ghost chunk: bytes) returns (ok: bool)
      requires Valid() && !st.failed && !st.drain && n > 0 && stream.Streaming? && stream.masked
      requires msgLen + n <= msg.Length && msg[msgLen..msgLen + n] == Masked(chunk, stream.key, stream.off)
      modifies this, out
      ensures SameCarry() && Valid() && OutMoved()
      ensures ok == !st.failed == !st.drain
      ensures Joined(Cfg(), old(Live()), chunk) == (ok, Live())
    {
      ok := CheckText(msg, msgLen, n);
      if !ok { return; }
      Assembled(n, Masked(chunk, stream.key, stream.off));
    }

    // Assembly of a masked chunk: what is judged is its unmasked copy behind
    // the message.
    method AssembleMaskedChunk(p: array<byte>, at: nat, n: nat) returns (ok: bool)
      requires Valid() && !st.failed && !st.drain && n > 0 && p != out && p != msg && at + n <= p.Length
      requires stream.Streaming? && stream.masked
      modifies this, out, msg
      ensures SameRead() && Valid() && OutMoved()
      ensures ok == !st.failed == !st.drain
      ensures Joined(Cfg(), old(Live()), old(p[at..at + n])) == (ok, Live())
    {
      ghost var chunk := p[at..at + n];
      UnmaskInto(p, at, n, Masked(chunk, stream.key, stream.off));
      ok := JoinText(n, chunk);
    }

    method CopyInto(p: array<byte>, at: nat, n: nat)
      requires Valid() && p != out && p != msg && at + n <= p.Length
      modifies this, msg
      ensures SameRead() && SameMessage() && SameStream() && st == old(st) && SameHistory() && SameQueue() && Valid()
      ensures msgLen + n <= msg.Length && msg[msgLen..msgLen + n] == old(p[at..at + n])
    {
      MsgReserve(n);
      ghost var before := msg[..];
      MovePayload(p, at, msg, msgLen, n);
      assert msg[..msgLen] == before[..msgLen] && msg[msgLen..msgLen + n] == p[at..at + n];
    }

    // Assembly of a chunk that travelled unmasked.
    method DataChunk(p: array<byte>, at: nat, n: nat) returns (ok: bool)
      requires Valid() && !st.failed && !st.drain && n > 0 && p != out && p != msg && at + n <= p.Length
      requires stream.Streaming? && !stream.masked
      modifies this, out, msg
      ensures SameRead() && Valid() && OutMoved()
      ensures ok == !st.failed == !st.drain
      ensures Joined(Cfg(), old(Live()), old(p[at..at + n])) == (ok, Live())
    {
      ok := CheckText(p, at, n);
      if !ok { return; }
      ghost var plain := p[at..at + n];
      CopyInto(p, at, n);
      Assembled(n, plain);
    }

    method UnmaskInPlace(work: array<byte>, at: nat, n: nat)
      requires stream.Streaming? && at + n <= work.Length
      modifies work
      ensures work[at..at + n] == M.Unmask(stream, old(work[at..at + n]))
      ensures work[at + n..] == old(work[at + n..])
    {
      if stream.masked {
        MaskInBuffer(work, at, n, stream.key, stream.off);
      }
    }

    // The only frame of its message: unmasked, judged and told from the
    // place it was read to.
    method InPlaceChunk(work: array<byte>, at: nat, n: nat) returns (ok: bool)
      requires Valid() && !st.failed && !st.drain && n > 0 && work != out && work != msg && at + n <= work.Length
      requires stream.Streaming?
      modifies this, out, work
      ensures SameCarry() && Valid() && OutMoved()
      ensures ok == !st.failed == !st.drain && work[at + n..] == old(work[at + n..])
      ensures Live() == M.InPlace(Cfg(), old(Live()), old(work[at..at + n]))
    {
      UnmaskInPlace(work, at, n);
      stream := Idle;
      ok := CheckText(work, at, n);
      if !ok { return; }
      ok := FinishInPlace(work, at, n);
    }

    // n bytes less to come; the last of a final frame completes the message.
    method Advanced(n: nat) returns (ok: bool)
      requires Valid() && !st.drain && stream.Streaming? && n <= stream.remaining
      modifies this, out
      ensures SameCarry() && Valid() && OutMoved() && ok == !st.failed == !st.drain
      ensures var m := old(Live());
              var m1 := m.(inb := m.inb.(stream := M.Rest(m.inb.stream, n)));
              Live() == if n == m.inb.stream.remaining && m.inb.stream.fin then M.Finish(Cfg(), m1, m1.inb.msg) else m1
    {
      ok := true;
      var last := n == stream.remaining && stream.fin;
      stream := M.Rest(stream, n);
      if last {
        ok := FinishMessage();
      }
    }

    method JoinChunk(work: array<byte>, at: nat, n: nat) returns (ok: bool)
      requires Valid() && !st.failed && !st.drain && n > 0 && work != out && work != msg && at + n <= work.Length
      requires stream.Streaming? && n <= stream.remaining
      modifies this, out, msg
      ensures SameRead() && Valid() && OutMoved() && ok == !st.failed == !st.drain
      ensures Joined(Cfg(), old(Live()), old(work[at..at + n])) == (ok, Live())
    {
      if stream.masked {
        ok := AssembleMaskedChunk(work, at, n);
      } else {
        ok := DataChunk(work, at, n);
      }
    }

    method AssembleChunk(work: array<byte>, at: nat, n: nat) returns (ok: bool)
      requires Valid() && !st.failed && !st.drain && n > 0 && work != out && work != msg && at + n <= work.Length
      requires stream.Streaming? && n <= stream.remaining
      modifies this, out, msg
      ensures SameRead() && Valid() && OutMoved()
      ensures ok == !st.failed == !st.drain
      ensures Live() == M.Assemble(Cfg(), old(Live()), old(work[at..at + n]))
    {
      ok := JoinChunk(work, at, n);
      if ok {
        ok := Advanced(n);
      }
    }

    // The next n bytes of the payload being streamed.
    method StreamChunk(work: array<byte>, at: nat, n: nat) returns (ok: bool)
      requires Valid() && !st.failed && !st.drain && n > 0 && work != out && work != msg && at + n <= work.Length
      requires stream.Streaming? && n <= stream.remaining
      modifies this, out, msg, work
      ensures SameRead() && Valid() && OutMoved()
      ensures ok == !st.failed == !st.drain && work[at + n..] == old(work[at + n..])
      ensures Live() == M.Chunk(Cfg(), old(Live()), old(work[at..at + n]))
    {
      if stream.fin && msgLen == 0 && n == stream.remaining {
        ok := InPlaceChunk(work, at, n);
        return;
      }
      ok := AssembleChunk(work, at, n);
    }

    // A control frame lying whole at off, its header h.
    method ControlFrame(work: array<byte>, off: nat, h: Header) returns (ok: bool)
      requires Valid() && !st.failed && !st.drain && work != out && work != msg
      requires off + h.headerLen + h.len <= work.Length
      requires h.opcode == OP_PING || h.opcode == OP_PONG || h.opcode == OP_CLOSE
      modifies this, out, work
      ensures SameCarry() && SameStream() && Valid() && OutMoved()
      ensures ok == !st.failed && (!ok ==> st.drain)
      ensures work[off + h.headerLen + h.len..] == old(work[off + h.headerLen + h.len..])
      ensures Live() == M.HandleControl(Cfg(), old(Live()), h.opcode, old(ControlPayload(h, work[off..])))
    {
      ghost var payload := ControlPayload(h, work[off..]);
      UnmaskControl(work, off, h);
      assert work[off + h.headerLen..off + h.headerLen + h.len] == payload;
      ok := HandleControl(h.opcode, work, off + h.headerLen, h.len);
    }

    // The frame of an accepted header: a control frame whole, of a data
    // frame the header. r is what Step makes of it.
    method TakeFrame(work: array<byte>, off: nat, wlen: nat, h: Header, ghost r: Round) returns (next: nat, flow: Flow)
      requires Valid() && !st.drain && stream.Idle? && work != out && work != msg
      requires off + Span(h) <= wlen <= work.Length
      requires h.IsControl() ==> h.opcode == OP_PING || h.opcode == OP_PONG || h.opcode == OP_CLOSE
      requires r == Round(TakenBy(Cfg(), Live(), h, work[off..]), work[off..][Span(h)..][..wlen - off - Span(h)], false)
      modifies this, out, work
      ensures SameCarry() && Valid() && OutMoved()
      ensures next == off + Span(h)
      ensures Followed(r, Live(), flow, true, work, next, wlen) && !flow.Stop?
    {
      next := off + Span(h);
      ghost var tail := work[next..];
      assert work[off..][Span(h)..] == tail;
      var ok;
      if h.IsControl() {
        ok := ControlFrame(work, off, h);
      } else {
        ok := StartFrame(h);
      }
      assert work[next..] == tail;
      assert work[next..wlen] == work[next..][..wlen - next];
      flow := if st.drain then Over else More;
    }

    // The verdict on that header acted on.
    method OnVerdict(work: array<byte>, off: nat, wlen: nat, v: Verdict, ghost r: Round) returns (next: nat, flow: Flow)
      requires Valid() && !st.drain && stream.Idle? && work != out && work != msg && off <= wlen <= work.Length
      requires v.Good? ==> 2 <= Span(v.h) <= wlen - off
      requires v.Good? && v.h.IsControl() ==> v.h.opcode == OP_PING || v.h.opcode == OP_PONG || v.h.opcode == OP_CLOSE
      requires v.Wait? ==> r == Round(Live(), work[off..wlen], true)
      requires v.Bad? ==> r == Round(M.Fail(Cfg(), Live(), v.code, v.reason), [], false)
      requires v.Good? ==>
        r == Round(TakenBy(Cfg(), Live(), v.h, work[off..]), work[off..][Span(v.h)..][..wlen - off - Span(v.h)], false)
      modifies this, out, work
      ensures SameCarry() && Valid() && OutMoved()
      ensures Followed(r, Live(), flow, off <= next <= wlen, work, next, wlen)
      ensures flow.Stop? ==> next == off && Live() == old(Live()) && work[off..wlen] == old(work[off..wlen])
      ensures flow.More? ==> off < next
    {
      match v {
        case Wait =>
          return off, Stop;
        case Bad(code, reason) =>
          Fail(code, reason);
          return wlen, Over;
        case Good(h) =>
          next, flow := TakeFrame(work, off, wlen, h, r);
      }
    }

    // One frame header, read at off with no payload under way. Over: the
    // machine has shut its inbound side.
    method NextFrame(work: array<byte>, off: nat, wlen: nat, ghost r: Round) returns (next: nat, flow: Flow)
      requires Valid() && !st.drain && work != out && work != msg && off <= wlen <= work.Length
      requires stream.Idle? && r == M.Step(Cfg(), Live(), work[off..wlen])
      modifies this, out, work
      ensures SameCarry() && Valid() && OutMoved()
      ensures Followed(r, Live(), flow, off <= next <= wlen, work, next, wlen)
      ensures flow.Stop? ==> next == off && Live() == old(Live()) && work[off..wlen] == old(work[off..wlen])
      ensures flow.More? ==> off < next
    {
      var v := M.Police(Config(role, cap, react), work[off..wlen]);
      StepVerdict(Cfg(), Live(), work[off..wlen], work[off..], v, r);
      next, flow := OnVerdict(work, off, wlen, v, r);
    }

    // take bytes of the payload under way.
    method ReadChunk(work: array<byte>, off: nat, wlen: nat, take: nat, ghost r: Round) returns (next: nat, flow: Flow)
      requires Valid() && !st.drain && work != out && work != msg && off + take <= wlen <= work.Length
      requires stream.Streaming? && 0 < take <= stream.remaining
      requires r == Round(M.Chunk(Cfg(), Live(), work[off..off + take]), work[off + take..wlen], false)
      modifies this, out, msg, work
      ensures SameRead() && Valid() && OutMoved()
      ensures Followed(r, Live(), flow, true, work, next, wlen) && next == off + take && !flow.Stop?
    {
      ghost var tail := work[off + take..];
      assert tail[..wlen - off - take] == work[off + take..wlen];
      var ok := StreamChunk(work, off, take);
      next := off + take;
      assert work[next..] == tail && work[next..wlen] == tail[..wlen - next];
      flow := if ok then More else Over;
    }

    // A round: the payload under way, or else a frame header.
    method ReadOn(work: array<byte>, off: nat, wlen: nat) returns (next: nat, flow: Flow)
      requires Valid() && !st.drain && work != out && work != msg && off <= wlen <= work.Length
      modifies this, out, msg, work
      ensures SameRead() && Valid() && OutMoved()
      ensures var r := M.Step(Cfg(), old(Live()), old(work[off..wlen]));
              Followed(r, Live(), flow, off <= next <= wlen, work, next, wlen)
      ensures flow.Stop? ==> next == off && Live() == old(Live()) && work[off..wlen] == old(work[off..wlen])
      ensures flow.More? ==> off < next
    {
      ghost var r := M.Step(Cfg(), Live(), work[off..wlen]);
      if stream.Streaming? {
        var take := Min(wlen - off, stream.remaining);
        if take == 0 {
          return off, Stop;
        }
        StepStreams(Cfg(), Live(), work[off..wlen], take);
        PartOf(work[..], off, wlen, take);
        next, flow := ReadChunk(work, off, wlen, take, r);
      } else {
        next, flow := NextFrame(work, off, wlen, r);
      }
    }

    // The loop of Ingest over work[..wlen]; over: the inbound side is shut,
    // otherwise work[off..wlen] stays unread.
    method Consume(work: array<byte>, wlen: nat) returns (off: nat, over: bool)
      requires Valid() && !st.drain && work != out && work != msg && wlen <= work.Length
      modifies this, out, msg, work
      ensures SameRead() && Valid() && OutMoved() && off <= wlen
      ensures over == st.drain
      ensures M.Loop(Cfg(), old(Live()), old(work[..wlen])) == if over then Live() else Kept(work[off..wlen])
    {
      ghost var m0, w0 := Live(), work[..wlen];
      off := 0;
      assert work[off..wlen] == w0;
      while true
        invariant SameRead() && Valid() && OutMoved() && off <= wlen && !st.drain
        invariant M.Loop(Cfg(), Live(), work[off..wlen]) == M.Loop(Cfg(), m0, w0)
        decreases wlen - off
      {
        ghost var m, w := Live(), work[off..wlen];
        var next, flow := ReadOn(work, off, wlen);
        if flow.Stop? {
          return off, false;
        }
        off := next;
        if flow.Over? {
          return off, true;
        }
      }
    }

    // The carry followed by the whole new read.
    method Splice(p: array<byte>, n: nat)
      requires Valid() && n <= p.Length && p != out && p != msg && p != carry
      modifies this, carry
      ensures msg == old(msg) && SameMessage() && SameStream() && st == old(st) && SameHistory() && SameQueue()
      ensures Valid() && (carry == old(carry) || fresh(carry))
      ensures carry[..carryLen] == old(carry[..carryLen]) + p[..n]
    {
      if carryLen + n > carry.Length {
        carry := Resize(carry, carryLen + n, carryLen);
      }
      ghost var before := carry[..];
      assert before[..carryLen] == old(carry[..carryLen]);
      MovePayload(p, 0, carry, carryLen, n);
      assert carry[..carryLen] == before[..carryLen] && p[0..n] == p[..n];
      assert carry[..carryLen + n] == carry[..carryLen] + p[..n];
      carryLen := carryLen + n;
    }

    // Keeps the unread end of a read that came straight from the caller.
    method Stash(p: array<byte>, at: nat, n: nat)
      requires Valid() && at + n <= p.Length && p != out && p != msg && p != carry
      modifies this, carry
      ensures msg == old(msg) && SameMessage() && SameStream() && st == old(st) && SameHistory() && SameQueue()
      ensures Valid() && (carry == old(carry) || fresh(carry))
      ensures carry[..carryLen] == p[at..at + n]
    {
      if n > carry.Length {
        carry := Resize(carry, n + n / 2 + MAX_HEADER, 0);
      }
      MovePayload(p, at, carry, 0, n);
      carryLen := n;
    }

    // What the loop left over, moved to the front of the carry.
    method KeepFrom(off: nat)
      requires Valid() && off <= carryLen
      modifies this`carryLen, carry
      ensures Valid() && carry[..carryLen] == old(carry[off..carryLen])
    {
      MoveDown(carry, off, carryLen - off);
      carryLen := carryLen - off;
    }

    method IngestCarry() returns (ok: bool)
      requires Valid() && !st.drain
      modifies this, out, msg, carry
      ensures Valid() && OutMoved() && (msg == old(msg) || fresh(msg)) && carry == old(carry)
      ensures Abs() == M.Loop(Cfg(), old(Live()), old(carry[..carryLen]))
      ensures ok == !st.failed
    {
      var off, over := Consume(carry, carryLen);
      ok := !st.failed;
      if over {
        carryLen := 0;
      } else {
        KeepFrom(off);
      }
    }

    method IngestRead(p: array<byte>, n: nat) returns (ok: bool)
      requires Valid() && !st.drain && n <= p.Length && p != out && p != msg && p != carry && carryLen == 0
      modifies this, out, msg, carry, p
      ensures Valid() && OutMoved() && (msg == old(msg) || fresh(msg)) && (carry == old(carry) || fresh(carry))
      ensures Abs() == M.Loop(Cfg(), old(Live()), old(p[..n]))
      ensures ok == !st.failed
    {
      var off, over := Consume(p, n);
      ok := !st.failed;
      if !over && off < n {
        Stash(p, off, n - off);
      }
    }

    // Ingest(p, n): the result is False exactly on a failed connection.
    method Ingest(p: array<byte>, n: nat) returns (ok: bool)
      requires Valid() && n <= p.Length && p != out && p != msg && p != carry
      modifies this, out, msg, carry, p
      ensures Valid() && OutMoved() && (msg == old(msg) || fresh(msg)) && (carry == old(carry) || fresh(carry))
      ensures Abs() == M.Ingest(Cfg(), old(Abs()), old(p[..n]))
      ensures ok == !st.failed
    {
      if st.failed { return false; }
      if n == 0 || st.drain { return true; }
      assert Abs().(inb := Abs().inb.(carry := [])) == Live();
      if carryLen > 0 {
        Splice(p, n);
        ok := IngestCarry();
      } else {
        assert carry[..carryLen] + p[..n] == p[..n];
        ok := IngestRead(p, n);
      }
    }

    // -- the owner's side --------------------------------------------------

    // A send or a close from outside.
    method Issue(cmd: Command)
      requires Valid()
      modifies this, out
      ensures Valid() && OutMoved()
      ensures Abs() == M.Do(Cfg(), old(Abs()), cmd)
    {
      Perform(cmd);
    }
  }
}
