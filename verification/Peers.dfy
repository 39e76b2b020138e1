// What a receiver makes of its peer's frames: its inbound side does not
// depend on its own handlers or sends, and every conforming frame is one
// event.

module Peers {
  import opened Bytes
  import opened Frame
  import opened Mask
  import opened Utf8
  import opened Machine
  import opened Segmentation
  import opened Safety

  // -- the inbound side does not depend on the owner's handlers ------------

  predicate SameInput(c: Config, d: Config) {
    c.role == d.role && c.cap == d.cap
  }

  lemma FinishView(c: Config, m: Machine, d: Config, n: Machine, data: bytes)
    requires ViewOf(m) == ViewOf(n)
    ensures ViewOf(Finish(c, m, data)) == ViewOf(Finish(d, n, data))
  {
    if m.inb.text && m.inb.utf8 != ACCEPT {
      FailView(c, m, 1007, "truncated UTF-8 at message end");
      FailView(d, n, 1007, "truncated UTF-8 at message end");
    } else {
      EmitView(c, m.(inb := m.inb.(inMessage := false, msg := [])), Message(m.inb.text, data));
      EmitView(d, n.(inb := n.inb.(inMessage := false, msg := [])), Message(n.inb.text, data));
    }
  }

  lemma AssembleView(c: Config, m: Machine, d: Config, n: Machine, chunk: bytes)
    requires ViewOf(m) == ViewOf(n) && m.inb.stream.Streaming? && |chunk| <= m.inb.stream.remaining
    ensures ViewOf(Assemble(c, m, chunk)) == ViewOf(Assemble(d, n, chunk))
  {
    var a, b := Assembled(m, chunk), Assembled(n, chunk);
    if m.inb.text && a.inb.utf8 == REJECT {
      FailView(c, m, 1007, "invalid UTF-8");
      FailView(d, n, 1007, "invalid UTF-8");
    } else {
      FinishView(c, a, d, b, a.inb.msg);
    }
  }

  lemma BeginDataView(c: Config, m: Machine, d: Config, n: Machine, h: Header)
    requires ViewOf(m) == ViewOf(n) && SameInput(c, d)
    ensures ViewOf(BeginData(c, m, h)) == ViewOf(BeginData(d, n, h))
  {
    if h.opcode == OP_CONT && !m.inb.inMessage {
      FailView(c, m, 1002, "continuation without a message");
      FailView(d, n, 1002, "continuation without a message");
    } else if h.opcode != OP_CONT && m.inb.inMessage {
      FailView(c, m, 1002, "new data opcode inside a fragmented message");
      FailView(d, n, 1002, "new data opcode inside a fragmented message");
    } else {
      FailView(c, m, 1009, "message too big");
      FailView(d, n, 1009, "message too big");
    }
  }

  lemma DataHeaderView(c: Config, m: Machine, d: Config, n: Machine, h: Header)
    requires ViewOf(m) == ViewOf(n) && SameInput(c, d)
    ensures ViewOf(DataHeader(c, m, h)) == ViewOf(DataHeader(d, n, h))
  {
    BeginDataView(c, m, d, n, h);
    var m1, n1 := BeginData(c, m, h), BeginData(d, n, h);
    FinishView(c, m1, d, n1, m1.inb.msg);
  }

  lemma CloseFrameView(c: Config, m: Machine, d: Config, n: Machine, p: bytes)
    requires ViewOf(m) == ViewOf(n)
    ensures ViewOf(HandleControl(c, m, OP_CLOSE, p)) == ViewOf(HandleControl(d, n, OP_CLOSE, p))
  {
    match NoteOf(p)
    case Ends(code, reason) =>
      PeerCloseView(c, m, code, reason);
      PeerCloseView(d, n, code, reason);
    case Breaks(code, why) =>
      FailView(c, m, code, why);
      FailView(d, n, code, why);
  }

  lemma StepView(c: Config, m: Machine, d: Config, n: Machine, w: bytes)
    requires Core(c, m) && ViewOf(m) == ViewOf(n) && SameInput(c, d)
    ensures var r, s := Step(c, m, w), Step(d, n, w);
            ViewOf(r.m) == ViewOf(s.m) && r.rest == s.rest && r.stuck == s.stuck
  {
    if m.inb.stream.Streaming? {
      var take := Min(|w|, m.inb.stream.remaining);
      if take > 0 {
        ChunkIsAssembly(c, m, w[..take]);
        ChunkIsAssembly(d, n, w[..take]);
        AssembleView(c, m, d, n, w[..take]);
      }
    } else {
      var v := Police(c, w);
      assert Police(d, w) == v;
      if v.Bad? {
        FailView(c, m, v.code, v.reason);
        FailView(d, n, v.code, v.reason);
      } else if v.Good? {
        GoodSpan(c, w);
        if !v.h.IsControl() {
          DataHeaderView(c, m, d, n, v.h);
        } else {
          var p := ControlPayload(v.h, w);
          if v.h.opcode == OP_PING || v.h.opcode == OP_PONG {
            ControlView(c, m, v.h.opcode, p);
            ControlView(d, n, v.h.opcode, p);
          } else {
            CloseFrameView(c, m, d, n, p);
          }
        }
      }
    }
  }

  lemma {:induction false} LoopView(c: Config, m: Machine, d: Config, n: Machine, w: bytes)
    requires Running(c, m) && ViewOf(m) == ViewOf(n) && SameInput(c, d)
    ensures ViewOf(Loop(c, m, w)) == ViewOf(Loop(d, n, w))
    decreases |w|
  {
    if !m.st.drain {
      StepView(c, m, d, n, w);
      StepRunning(c, m, w);
      var r, s := Step(c, m, w), Step(d, n, w);
      if !r.stuck {
        LoopView(c, r.m, d, s.m, r.rest);
      }
    }
  }

  // Whatever was sent meanwhile, and whatever the handlers do, the same bytes
  // give the same events and the same inbound state.
  lemma HandlersDoNotSteerInput(c: Config, m: Machine, d: Config, n: Machine, data: bytes)
    requires Settled(c, m) && ViewOf(m) == ViewOf(n) && SameInput(c, d)
    ensures ViewOf(Ingest(c, m, data)) == ViewOf(Ingest(d, n, data))
  {
    if !m.st.drain && data != [] {
      LoopView(c, m.(inb := m.inb.(carry := [])), d, n.(inb := n.inb.(carry := [])), m.inb.carry + data);
    }
  }

  // -- the trace only grows ------------------------------------------------

  predicate Prefix<T(==)>(a: seq<T>, b: seq<T>) {
    |a| <= |b| && a == b[..|a|]
  }

  lemma FinishGrows(c: Config, m: Machine, data: bytes)
    ensures Prefix(m.trace, Finish(c, m, data).trace)
  {
    if m.inb.text && m.inb.utf8 != ACCEPT {
      FailView(c, m, 1007, "truncated UTF-8 at message end");
    } else {
      EmitView(c, m.(inb := m.inb.(inMessage := false, msg := [])), Message(m.inb.text, data));
    }
  }

  lemma AssembleGrows(c: Config, m: Machine, chunk: bytes)
    requires m.inb.stream.Streaming? && |chunk| <= m.inb.stream.remaining
    ensures Prefix(m.trace, Assemble(c, m, chunk).trace)
  {
    var a := Assembled(m, chunk);
    FailView(c, m, 1007, "invalid UTF-8");
    FinishGrows(c, a, a.inb.msg);
  }

  lemma DataHeaderGrows(c: Config, m: Machine, h: Header)
    ensures Prefix(m.trace, DataHeader(c, m, h).trace)
  {
    FailView(c, m, 1002, "continuation without a message");
    FailView(c, m, 1002, "new data opcode inside a fragmented message");
    FailView(c, m, 1009, "message too big");
    var m1 := BeginData(c, m, h);
    FinishGrows(c, m1, m1.inb.msg);
  }

  lemma StepGrows(c: Config, m: Machine, w: bytes)
    requires Core(c, m)
    ensures Prefix(m.trace, Step(c, m, w).m.trace)
  {
    if m.inb.stream.Streaming? {
      var take := Min(|w|, m.inb.stream.remaining);
      if take > 0 {
        ChunkIsAssembly(c, m, w[..take]);
        AssembleGrows(c, m, w[..take]);
      }
    } else {
      var v := Police(c, w);
      if v.Bad? {
        FailView(c, m, v.code, v.reason);
      } else if v.Good? {
        GoodSpan(c, w);
        if v.h.IsControl() {
          ControlView(c, m, v.h.opcode, ControlPayload(v.h, w));
        } else {
          DataHeaderGrows(c, m, v.h);
        }
      }
    }
  }

  lemma {:induction false} LoopGrows(c: Config, m: Machine, w: bytes)
    requires Running(c, m)
    ensures Prefix(m.trace, Loop(c, m, w).trace)
    decreases |w|
  {
    if !m.st.drain {
      StepRunning(c, m, w);
      StepGrows(c, m, w);
      var r := Step(c, m, w);
      if !r.stuck {
        LoopGrows(c, r.m, r.rest);
      }
    }
  }

  lemma IngestGrows(c: Config, m: Machine, data: bytes)
    requires Settled(c, m)
    ensures Prefix(m.trace, Ingest(c, m, data).trace)
    ensures m.st.failed ==> Ingest(c, m, data).st.failed
  {
    if !m.st.drain && data != [] {
      LoopGrows(c, m.(inb := m.inb.(carry := [])), m.inb.carry + data);
    }
  }

  // -- one frame, one event ------------------------------------------------

  // A whole frame whose header the peer with this cap lets pass.
  predicate Passes(e: Sent, peerCap: nat) {
    && e.Sent? && KnownOpcode(e.opcode) && (e.opcode >= 8 ==> |e.payload| <= 125)
    && (e.opcode < 8 ==> |e.payload| <= peerCap && |e.payload| < 0x8000_0000_0000_0000)
  }

  // A frame a machine makes that is within the peer's limits.
  predicate Fits(e: Sent, peerCap: nat) {
    Passes(e, peerCap) && LegalFrame(e)
  }

  // A frame the peer with this cap must accept: section 8.1 of RFC 6455 for
  // text and close reasons, its own limit for sizes.
  predicate Conforms(e: Sent, peerCap: nat) {
    && Fits(e, peerCap)
    && (e.opcode == OP_TEXT ==> WellFormed(e.payload))
    && (e.opcode == OP_CLOSE && e.payload != [] ==> WellFormed(e.payload[2..]))
  }

  function EventOf(e: Sent): (v: Event)
    requires e.Sent? && LegalFrame(e)
  {
    if e.opcode == OP_TEXT then Message(true, e.payload)
    else if e.opcode == OP_BINARY then Message(false, e.payload)
    else if e.opcode == OP_PING then Ping(e.payload)
    else if e.opcode == OP_PONG then Pong(e.payload)
    else if e.payload == [] then Closed(1005, [])
    else var hi: int, lo: int := e.payload[0], e.payload[1]; Closed(hi * 256 + lo, e.payload[2..])
  }

  function Other(r: Role): (s: Role) {
    if r.Client? then Server else Client
  }

  // Between frames, perhaps inside a message, nothing carried over.
  ghost predicate BetweenFrames(m: Machine) {
    !m.st.drain && !m.st.failed && !m.st.closeReceived && m.inb.carry == [] && m.inb.stream.Idle?
  }

  // Between messages.
  ghost predicate AtRest(m: Machine) {
    BetweenFrames(m) && m.inb.msg == [] && !m.inb.inMessage && m.inb.utf8 == ACCEPT
  }

  function Body(role: Role, e: Sent): (b: bytes)
    requires e.Sent?
    ensures |b| == |e.payload|
  {
    if role.Client? then Masked(e.payload, e.key, 0) else e.payload
  }

  function HeaderOf(role: Role, e: Sent): (h: Header)
    requires e.Sent?
  {
    var key: u32 := if role.Client? then e.key else 0;
    Header(true, false, false, false, e.opcode, role.Client?, key, |e.payload|,
           |HeaderBytes(true, false, e.opcode, role.Client?, key, |e.payload|)|)
  }

  // The receiver reads back the header the sender wrote.
  lemma FrameHead(role: Role, c: Config, e: Sent)
    requires c.role == Other(role) && Passes(e, c.cap)
    ensures var b := Encode(role, e);
            var h := HeaderOf(role, e);
            && Police(c, b) == Good(h) && b != []
            && h.headerLen + h.len == |b|
            && b[h.headerLen..] == Body(role, e)
  {
    var b := Encode(role, e);
    var h := HeaderOf(role, e);
    ParseInvertsWrite(true, false, e.opcode, role.Client?, h.key, |e.payload|, Body(role, e));
    assert b == HeaderBytes(true, false, e.opcode, role.Client?, h.key, |e.payload|) + Body(role, e);
  }

  lemma UnmaskBody(role: Role, e: Sent)
    requires e.Sent?
    ensures var h := HeaderOf(role, e);
            (if h.masked then Masked(Body(role, e), h.key, 0) else Body(role, e)) == e.payload
  {
    MaskInvolution(e.payload, e.key, 0);
  }

  lemma BetweenFramesLoops(c: Config, m: Machine)
    requires BetweenFrames(m)
    ensures Loop(c, m, []) == m
  {
    assert Police(c, []).Wait?;
    assert m.(inb := m.inb.(carry := [])) == m;
  }

  lemma OneRound(c: Config, m: Machine, b: bytes, r: Machine)
    requires BetweenFrames(m) && b != [] && Step(c, m, b) == Round(r, [], false)
    requires r.st.drain || BetweenFrames(r)
    ensures Ingest(c, m, b) == r
  {
    assert [] + b == b && m.(inb := m.inb.(carry := [])) == m;
    assert Loop(c, m, b) == Loop(c, r, []);
    if r.st.drain {
      assert Loop(c, r, []) == r;
    } else {
      BetweenFramesLoops(c, r);
    }
  }

  lemma TwoRounds(c: Config, m: Machine, b: bytes, m1: Machine, w: bytes, r: Machine)
    requires BetweenFrames(m) && b != [] && Step(c, m, b) == Round(m1, w, false)
    requires !m1.st.drain && Step(c, m1, w) == Round(r, [], false) && (r.st.drain || BetweenFrames(r))
    ensures Ingest(c, m, b) == r
  {
    assert [] + b == b && m.(inb := m.inb.(carry := [])) == m;
    assert Loop(c, r, []) == r by {
      if !r.st.drain {
        BetweenFramesLoops(c, r);
      }
    }
    assert Loop(c, m1, w) == Loop(c, r, []);
    assert Loop(c, m, b) == Loop(c, m1, w);
  }

  // A buffer that is one whole control frame.
  lemma ControlTaken(c: Config, m: Machine, b: bytes, h: Header, body: bytes, p: bytes)
    requires BetweenFrames(m) && Police(c, b) == Good(h) && h.IsControl() && h.headerLen + h.len == |b|
    requires b[h.headerLen..] == body && (if h.masked then Masked(body, h.key, 0) else body) == p
    ensures Step(c, m, b) == Round(HandleControl(c, m, h.opcode, p), [], false)
  {
    assert b[h.headerLen..h.headerLen + h.len] == body;
    assert ControlPayload(h, b) == p && b[Span(h)..] == [];
  }

  lemma ControlRound(role: Role, c: Config, m: Machine, e: Sent)
    requires c.role == Other(role) && BetweenFrames(m) && Passes(e, c.cap) && e.opcode >= 8
    ensures Encode(role, e) != [] &&
            Step(c, m, Encode(role, e)) == Round(HandleControl(c, m, e.opcode, e.payload), [], false)
  {
    FrameHead(role, c, e);
    UnmaskBody(role, e);
    ControlTaken(c, m, Encode(role, e), HeaderOf(role, e), Body(role, e), e.payload);
  }

  lemma PingPongView(c: Config, m: Machine, op: byte, p: bytes)
    requires BetweenFrames(m) && (op == OP_PING || op == OP_PONG)
    ensures var r := HandleControl(c, m, op, p);
            BetweenFrames(r) && r.inb == m.inb && r.trace == m.trace + [if op == OP_PING then Ping(p) else Pong(p)]
  {
    ControlView(c, m, op, p);
  }

  lemma ConformingClose(c: Config, m: Machine, p: bytes)
    requires !m.st.failed && LegalFrame(Sent(OP_CLOSE, p, 0))
    requires p != [] ==> WellFormed(p[2..])
    ensures var r := HandleControl(c, m, OP_CLOSE, p);
            && r.trace == m.trace + [EventOf(Sent(OP_CLOSE, p, 0))] && Shut(r) && !r.st.failed && r.st.closeReceived
  {
    if p != [] {
      AcceptsWellFormed(p[2..]);
    }
    PeerCloseView(c, m, NoteOf(p).code, NoteOf(p).reason);
  }

  lemma ControlEvent(c: Config, m: Machine, e: Sent)
    requires BetweenFrames(m) && Conforms(e, c.cap) && e.opcode >= 8
    ensures var r := HandleControl(c, m, e.opcode, e.payload);
            && r.trace == m.trace + [EventOf(e)]
            && (if IsClose(e) then Shut(r) && !r.st.failed && r.st.closeReceived
                else BetweenFrames(r) && r.inb == m.inb)
  {
    if e.opcode == OP_CLOSE {
      ConformingClose(c, m, e.payload);
      assert EventOf(Sent(OP_CLOSE, e.payload, 0)) == EventOf(e);
    } else {
      PingPongView(c, m, e.opcode, e.payload);
    }
  }

  // A control frame is read between frames, within a message as well, and
  // leaves the message as it was.
  lemma ControlFrame(role: Role, c: Config, m: Machine, e: Sent)
    requires c.role == Other(role) && BetweenFrames(m) && Conforms(e, c.cap) && e.opcode >= 8
    ensures Ingest(c, m, Encode(role, e)) == HandleControl(c, m, e.opcode, e.payload)
    ensures var r := HandleControl(c, m, e.opcode, e.payload);
            && r.trace == m.trace + [EventOf(e)]
            && (if IsClose(e) then Shut(r) && !r.st.failed && r.st.closeReceived
                else BetweenFrames(r) && r.inb == m.inb)
  {
    ControlRound(role, c, m, e);
    ControlEvent(c, m, e);
    OneRound(c, m, Encode(role, e), HandleControl(c, m, e.opcode, e.payload));
  }

  // The state behind the header of a whole-message data frame.
  function Opened(m: Machine, role: Role, e: Sent): (r: Machine)
    requires e.Sent?
  {
    var h := HeaderOf(role, e);
    m.(inb := m.inb.(inMessage := true, text := e.opcode == OP_TEXT, utf8 := ACCEPT, msg := [],
                     stream := if h.len == 0 then Idle else Streaming(h.len, true, h.masked, h.key, 0)))
  }

  lemma HeaderRound(role: Role, c: Config, m: Machine, e: Sent)
    requires c.role == Other(role) && AtRest(m) && Conforms(e, c.cap) && e.opcode < 8
    ensures Encode(role, e) != []
    ensures Step(c, m, Encode(role, e)) ==
            Round(if e.payload == [] then Deliver(c, Opened(m, role, e), []) else Opened(m, role, e),
                  Body(role, e), false)
  {
    var h := HeaderOf(role, e);
    FrameHead(role, c, e);
    assert BeginData(c, m, h) == Opened(m, role, e);
  }

  lemma PayloadRound(role: Role, c: Config, m: Machine, e: Sent)
    requires AtRest(m) && Conforms(e, c.cap) && e.opcode < 8 && e.payload != []
    ensures Step(c, Opened(m, role, e), Body(role, e)) ==
            Round(Deliver(c, Opened(m, role, e).(inb := Opened(m, role, e).inb.(stream := Idle)), e.payload), [], false)
  {
    var m1 := Opened(m, role, e);
    var w := Body(role, e);
    UnmaskBody(role, e);
    assert w[..|w|] == w && w[|w|..] == [];
    assert Unmask(m1.inb.stream, w) == e.payload;
    if e.opcode == OP_TEXT {
      AcceptsWellFormed(e.payload);
    }
    assert m1.inb.(utf8 := ACCEPT, stream := Idle) == m1.inb.(stream := Idle);
    assert Chunk(c, m1, w) == InPlace(c, m1, w);
  }

  lemma Delivered(c: Config, m: Machine, data: bytes)
    requires !m.st.drain && !m.st.failed && !m.st.closeReceived
    requires m.inb.carry == [] && m.inb.utf8 == ACCEPT && m.inb.stream.Idle?
    ensures var r := Deliver(c, m, data); AtRest(r) && r.trace == m.trace + [Message(m.inb.text, data)]
  {
    EmitView(c, m.(inb := m.inb.(inMessage := false, msg := [])), Message(m.inb.text, data));
  }

  lemma DataFrame(role: Role, c: Config, m: Machine, e: Sent)
    requires c.role == Other(role) && AtRest(m) && Conforms(e, c.cap) && e.opcode < 8
    ensures var r := Ingest(c, m, Encode(role, e));
            r.trace == m.trace + [EventOf(e)] && AtRest(r)
  {
    var b := Encode(role, e);
    var m1 := Opened(m, role, e);
    HeaderRound(role, c, m, e);
    if e.payload == [] {
      assert Body(role, e) == [];
      Delivered(c, m1, []);
      OneRound(c, m, b, Deliver(c, m1, []));
    } else {
      PayloadRound(role, c, m, e);
      var m2 := m1.(inb := m1.inb.(stream := Idle));
      Delivered(c, m2, e.payload);
      TwoRounds(c, m, b, m1, Body(role, e), Deliver(c, m2, e.payload));
    }
  }

  lemma OneFrame(role: Role, c: Config, m: Machine, e: Sent)
    requires c.role == Other(role) && AtRest(m) && Conforms(e, c.cap)
    ensures var r := Ingest(c, m, Encode(role, e));
            && r.trace == m.trace + [EventOf(e)]
            && (if IsClose(e) then Shut(r) && !r.st.failed && r.st.closeReceived else AtRest(r))
  {
    if e.opcode >= 8 {
      ControlFrame(role, c, m, e);
    } else {
      DataFrame(role, c, m, e);
    }
  }
}
