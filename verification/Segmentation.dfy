// However a byte stream is cut into reads, the machine does the same.

module Segmentation {
  import opened Bytes
  import opened Frame
  import opened Mask
  import opened Utf8
  import opened Machine

  // -- callbacks touch only the sending side -------------------------------

  // Everything but the outgoing side: what inbound bytes alone decide.
  datatype View = View(inb: Inbound, failed: bool, received: bool, drain: bool, trace: seq<Event>)

  function ViewOf(m: Machine): (v: View) {
    View(m.inb, m.st.failed, m.st.closeReceived, m.st.drain, m.trace)
  }

  lemma {:induction false} DoAllView(c: Config, m: Machine, cmds: seq<Command>)
    ensures ViewOf(DoAll(c, m, cmds)) == ViewOf(m)
    decreases |cmds|
  {
    if cmds != [] {
      DoAllView(c, Do(c, m, cmds[0]), cmds[1..]);
    }
  }

  lemma EmitView(c: Config, m: Machine, e: Event)
    ensures ViewOf(Emit(c, m, e)) == ViewOf(m).(trace := m.trace + [e])
  {
    var t := m.trace + [e];
    DoAllView(c, m.(trace := t), c.react(t));
  }

  lemma FailView(c: Config, m: Machine, code: word, reason: string)
    ensures ViewOf(Fail(c, m, code, reason)) ==
            View(BLANK, true, m.st.closeReceived, true, m.trace + [Closed(code, Ascii(reason))])
  {
    var st := m.st.(failed := true, drain := true, code := code, reason := Ascii(reason));
    EmitView(c, QueueClose(c, m.(inb := BLANK, st := st), code, Ascii(reason)), Closed(code, Ascii(reason)));
  }

  // -- what the frame loop relies on ---------------------------------------

  // True of the machine at the top of every round of the loop.
  ghost predicate Core(c: Config, m: Machine) {
    var i := m.inb;
    && !m.st.drain && !m.st.failed && !m.st.closeReceived
    && i.carry == []
    && (i.stream.Streaming? ==> i.stream.remaining > 0 && i.inMessage)
    && (!i.inMessage ==> i.msg == [])
    && i.utf8 == (if i.inMessage && i.text then Advance(ACCEPT, i.msg) else ACCEPT)
    && i.utf8 != REJECT
    && |i.msg| + (if i.stream.Streaming? then i.stream.remaining else 0) <= Max(c.cap, 0)
  }

  // The inbound side is shut: failed, or the peer's close was taken.
  ghost predicate Shut(m: Machine) {
    m.st.drain && m.inb == BLANK && (m.st.failed || m.st.closeReceived)
  }

  ghost predicate Running(c: Config, m: Machine) {
    Core(c, m) || Shut(m)
  }

  lemma DeliverCore(c: Config, m: Machine, data: bytes)
    requires Core(c, m) && m.inb.stream.Idle? && (m.inb.text ==> m.inb.utf8 == ACCEPT)
    ensures Core(c, Deliver(c, m, data))
  {
    EmitView(c, m.(inb := m.inb.(inMessage := false, msg := [])), Message(m.inb.text, data));
  }

  lemma FinishRunning(c: Config, m: Machine, data: bytes)
    requires Core(c, m) && m.inb.stream.Idle?
    ensures Running(c, Finish(c, m, data))
  {
    if m.inb.text && m.inb.utf8 != ACCEPT {
      FailView(c, m, 1007, "truncated UTF-8 at message end");
    } else {
      DeliverCore(c, m, data);
    }
  }

  // The chunk with the stream moved past it, before a final frame finishes.
  function Assembled(m: Machine, chunk: bytes): (r: Machine)
    requires m.inb.stream.Streaming? && |chunk| <= m.inb.stream.remaining
  {
    var plain := Unmask(m.inb.stream, chunk);
    m.(inb := m.inb.(msg := m.inb.msg + plain,
                     utf8 := if m.inb.text then Advance(m.inb.utf8, plain) else m.inb.utf8,
                     stream := Rest(m.inb.stream, |chunk|)))
  }

  lemma AssembledCore(c: Config, m: Machine, chunk: bytes)
    requires Core(c, m) && m.inb.stream.Streaming? && |chunk| <= m.inb.stream.remaining
    requires Assembled(m, chunk).inb.utf8 != REJECT
    ensures Core(c, Assembled(m, chunk))
  {
    if m.inb.text {
      AdvanceSplit(ACCEPT, m.inb.msg, Unmask(m.inb.stream, chunk));
    }
  }

  lemma AssembleRunning(c: Config, m: Machine, chunk: bytes)
    requires Core(c, m) && m.inb.stream.Streaming? && |chunk| <= m.inb.stream.remaining
    ensures Running(c, Assemble(c, m, chunk))
  {
    var a := Assembled(m, chunk);
    if m.inb.text && a.inb.utf8 == REJECT {
      FailView(c, m, 1007, "invalid UTF-8");
    } else {
      AssembledCore(c, m, chunk);
      if |chunk| == m.inb.stream.remaining && m.inb.stream.fin {
        FinishRunning(c, a, a.inb.msg);
      }
    }
  }

  // The in-place fast path refines assembly.
  lemma InPlaceIsAssembly(c: Config, m: Machine, chunk: bytes)
    requires Core(c, m) && m.inb.stream.Streaming? && |chunk| == m.inb.stream.remaining
    requires m.inb.stream.fin && m.inb.msg == []
    ensures InPlace(c, m, chunk) == Assemble(c, m, chunk)
  {
    assert m.inb.msg + Unmask(m.inb.stream, chunk) == Unmask(m.inb.stream, chunk);
  }

  lemma ChunkIsAssembly(c: Config, m: Machine, chunk: bytes)
    requires Core(c, m) && m.inb.stream.Streaming? && |chunk| <= m.inb.stream.remaining
    ensures Chunk(c, m, chunk) == Assemble(c, m, chunk)
    ensures Running(c, Chunk(c, m, chunk))
  {
    AssembleRunning(c, m, chunk);
    if m.inb.stream.fin && m.inb.msg == [] && |chunk| == m.inb.stream.remaining {
      InPlaceIsAssembly(c, m, chunk);
    }
  }

  lemma UnmaskJoin(s: Stream, a: bytes, b: bytes)
    requires s.Streaming? && |a| < s.remaining && |a| + |b| <= s.remaining
    ensures Unmask(s, a + b) == Unmask(s, a) + Unmask(Rest(s, |a|), b)
    ensures Rest(s, |a| + |b|) == Rest(Rest(s, |a|), |b|)
  {
    MaskSplit(a, b, s.key, s.off);
    assert ((s.off + |a|) % 4 + |b|) % 4 == (s.off + (|a| + |b|)) % 4;
  }

  // A payload cut in two inside one frame: the mask phase and the UTF-8
  // state carried across make it one chunk.
  lemma AssembleJoin(c: Config, m: Machine, a: bytes, b: bytes)
    requires Core(c, m) && m.inb.stream.Streaming?
    requires |a| < m.inb.stream.remaining && |a| + |b| <= m.inb.stream.remaining
    ensures var m1 := Assemble(c, m, a);
            if m1.st.drain then Assemble(c, m, a + b) == m1
            else m1.inb.stream == Rest(m.inb.stream, |a|) && Assemble(c, m1, b) == Assemble(c, m, a + b)
  {
    UnmaskJoin(m.inb.stream, a, b);
    var pa, pb := Unmask(m.inb.stream, a), Unmask(Rest(m.inb.stream, |a|), b);
    assert m.inb.msg + (pa + pb) == m.inb.msg + pa + pb;
    if m.inb.text {
      AdvanceSplit(m.inb.utf8, pa, pb);
      if Advance(m.inb.utf8, pa) == REJECT {
        RejectAbsorbs(pb);
        FailView(c, m, 1007, "invalid UTF-8");
      }
    }
  }

  // -- header rounds -------------------------------------------------------

  lemma PoliceStable(c: Config, w: bytes, x: bytes)
    requires !Police(c, w).Wait?
    ensures Police(c, w + x) == Police(c, w)
  {
    VerdictStable(w, x);
  }

  lemma BeginDataRunning(c: Config, m: Machine, h: Header)
    requires Core(c, m) && m.inb.stream.Idle?
    ensures Running(c, BeginData(c, m, h))
    ensures var r := BeginData(c, m, h);
            !r.st.failed ==> Core(c, r) && r.inb.inMessage && (h.len == 0 ==> r.inb.stream.Idle?)
  {
    if h.opcode == OP_CONT && !m.inb.inMessage {
      FailView(c, m, 1002, "continuation without a message");
    } else if h.opcode != OP_CONT && m.inb.inMessage {
      FailView(c, m, 1002, "new data opcode inside a fragmented message");
    } else {
      FailView(c, m, 1009, "message too big");
    }
  }

  lemma DataHeaderRunning(c: Config, m: Machine, h: Header)
    requires Core(c, m) && m.inb.stream.Idle?
    ensures Running(c, DataHeader(c, m, h))
  {
    BeginDataRunning(c, m, h);
    var m1 := BeginData(c, m, h);
    if !m1.st.failed && h.len == 0 && h.fin {
      FinishRunning(c, m1, m1.inb.msg);
    }
  }

  lemma PeerCloseView(c: Config, m: Machine, code: word, reason: bytes)
    ensures ViewOf(PeerClose(c, m, code, reason)) ==
            View(BLANK, m.st.failed, true, true, m.trace + [Closed(code, reason)])
  {
    var m1 := m.(inb := BLANK, st := m.st.(closeReceived := true, drain := true));
    var m2 := if m1.st.closeSent then m1
              else QueueClose(c, m1.(st := m1.st.(code := code, reason := reason)), code, []);
    EmitView(c, m2, Closed(code, reason));
  }

  // A control frame leaves a message being reassembled alone.
  lemma ControlView(c: Config, m: Machine, op: byte, p: bytes)
    ensures var r := HandleControl(c, m, op, p);
            if r.st.drain && !m.st.drain then Shut(r) else op in {OP_PING, OP_PONG} && !m.st.drain ==> r.inb == m.inb
    ensures !m.st.drain && op in {OP_PING, OP_PONG} ==>
              ViewOf(HandleControl(c, m, op, p)) ==
              ViewOf(m).(trace := m.trace + [if op == OP_PING then Ping(p) else Pong(p)])
    ensures op !in {OP_PING, OP_PONG} ==>
              var r := HandleControl(c, m, op, p);
              Shut(r) && |r.trace| == |m.trace| + 1 && r.trace[..|m.trace|] == m.trace && r.trace[|m.trace|].Closed?
  {
    if op == OP_PING {
      EmitView(c, Do(c, m, SendPong(p)), Ping(p));
    } else if op == OP_PONG {
      EmitView(c, m, Pong(p));
    } else {
      match NoteOf(p)
      case Ends(code, reason) => PeerCloseView(c, m, code, reason);
      case Breaks(code, why) => FailView(c, m, code, why);
    }
  }

  lemma StepRunning(c: Config, m: Machine, w: bytes)
    requires Core(c, m)
    ensures Running(c, Step(c, m, w).m)
    ensures Step(c, m, w).stuck ==> Step(c, m, w).m == m && Step(c, m, w).rest == w
  {
    if m.inb.stream.Streaming? {
      var take := Min(|w|, m.inb.stream.remaining);
      if take > 0 {
        ChunkIsAssembly(c, m, w[..take]);
      }
    } else {
      var v := Police(c, w);
      if v.Bad? {
        FailView(c, m, v.code, v.reason);
      } else if v.Good? {
        GoodSpan(c, w);
        if v.h.IsControl() {
          ControlView(c, m, v.h.opcode, ControlPayload(v.h, w));
        } else {
          DataHeaderRunning(c, m, v.h);
        }
      }
    }
  }

  // -- the theorem ---------------------------------------------------------

  // Going on with more bytes after the loop has left.
  function Resume(c: Config, m: Machine, x: bytes): (r: Machine) {
    if m.st.drain then m else Loop(c, m.(inb := m.inb.(carry := [])), m.inb.carry + x)
  }

  lemma SpanStable(h: Header, w: bytes, x: bytes)
    requires Span(h) <= |w|
    ensures (w + x)[Span(h)..] == w[Span(h)..] + x
    ensures h.IsControl() ==> ControlPayload(h, w + x) == ControlPayload(h, w)
  {
    if h.IsControl() {
      assert (w + x)[h.headerLen..h.headerLen + h.len] == w[h.headerLen..h.headerLen + h.len];
    }
  }

  lemma CutWithin(w: bytes, x: bytes, n: nat)
    requires n <= |w|
    ensures (w + x)[..n] == w[..n] && (w + x)[n..] == w[n..] + x
  {
  }

  // A round that ends inside the buffer is the same round with more behind it.
  lemma SameRound(c: Config, m: Machine, w: bytes, x: bytes)
    requires Core(c, m) && !Step(c, m, w).stuck
    requires m.inb.stream.Streaming? ==> m.inb.stream.remaining <= |w|
    ensures var r, s := Step(c, m, w), Step(c, m, w + x);
            !s.stuck && s.m == r.m && (s.rest == r.rest + x || s.m.st.drain)
  {
    if m.inb.stream.Streaming? {
      CutWithin(w, x, m.inb.stream.remaining);
    } else {
      PoliceStable(c, w, x);
      GoodSpan(c, w);
      var v := Police(c, w);
      if v.Good? {
        SpanStable(v.h, w, x);
      } else {
        FailView(c, m, v.code, v.reason);
      }
    }
  }

  lemma LoopEmpty(c: Config, m: Machine)
    requires Running(c, m)
    ensures Loop(c, m, []) == m
  {
    if !m.st.drain {
      assert m.(inb := m.inb.(carry := [])) == m;
    }
  }

  // A round with a payload under way, by way of assembly.
  lemma StreamRound(c: Config, m: Machine, w: bytes)
    requires Core(c, m) && m.inb.stream.Streaming? && w != []
    ensures var take := Min(|w|, m.inb.stream.remaining);
            Step(c, m, w) == Round(Assemble(c, m, w[..take]), w[take..], false)
  {
    ChunkIsAssembly(c, m, w[..Min(|w|, m.inb.stream.remaining)]);
  }

  // A buffer the frame takes whole and stays open behind.
  lemma WholeRound(c: Config, m: Machine, w: bytes)
    requires Core(c, m) && m.inb.stream.Streaming? && 0 < |w| < m.inb.stream.remaining
    ensures Loop(c, m, w) == Assemble(c, m, w) && Running(c, Assemble(c, m, w))
  {
    assert w[..|w|] == w && w[|w|..] == [];
    StreamRound(c, m, w);
    StepRunning(c, m, w);
    LoopEmpty(c, Assemble(c, m, w));
  }

  lemma Behind(w: bytes, x: bytes, n: nat)
    requires |w| <= n <= |w + x|
    ensures (w + x)[..n] == w + x[..n - |w|] && (w + x)[n..] == x[n - |w|..]
  {
  }

  // Two buffers whose next round is the same, one machine perhaps shut by it.
  lemma RoundsMeet(c: Config, m: Machine, y: bytes, m1: Machine, x: bytes, r: Machine, rest: bytes)
    requires !m.st.drain && Step(c, m, y) == Round(r, rest, false)
    requires if m1.st.drain then r == m1 else Step(c, m1, x) == Round(r, rest, false)
    ensures Loop(c, m, y) == if m1.st.drain then m1 else Loop(c, m1, x)
  {
  }

  // What an open frame has left, once a part of it is assembled.
  lemma StillOpen(c: Config, m: Machine, w: bytes)
    requires Core(c, m) && m.inb.stream.Streaming? && 0 < |w| < m.inb.stream.remaining
    ensures var m1 := Assemble(c, m, w);
            m1.st.drain || (Core(c, m1) && m1.inb.stream.Streaming? &&
                            m1.inb.stream.remaining == m.inb.stream.remaining - |w|)
  {
    WholeRound(c, m, w);
    AssembleJoin(c, m, w, []);
  }

  // The round of the longer buffer is the next one behind the buffer.
  lemma SharedRound(c: Config, m: Machine, w: bytes, x: bytes) returns (r: Machine, rest: bytes)
    requires Core(c, m) && m.inb.stream.Streaming? && 0 < |w| < m.inb.stream.remaining && x != []
    ensures Step(c, m, w + x) == Round(r, rest, false)
    ensures var m1 := Assemble(c, m, w); if m1.st.drain then r == m1 else Step(c, m1, x) == Round(r, rest, false)
  {
    var take := Min(|w + x|, m.inb.stream.remaining);
    var t := take - |w|;
    r, rest := Assemble(c, m, w + x[..t]), x[t..];
    Behind(w, x, take);
    StreamRound(c, m, w + x);
    AssembleJoin(c, m, w, x[..t]);
    StillOpen(c, m, w);
    if !Assemble(c, m, w).st.drain {
      StreamRound(c, Assemble(c, m, w), x);
    }
  }

  // The same round with more behind the buffer.
  lemma LongerRound(c: Config, m: Machine, w: bytes, x: bytes)
    requires Core(c, m) && m.inb.stream.Streaming? && 0 < |w| < m.inb.stream.remaining && x != []
    ensures var m1 := Assemble(c, m, w);
            Loop(c, m, w + x) == if m1.st.drain then m1 else Loop(c, m1, x)
  {
    var r, rest := SharedRound(c, m, w, x);
    RoundsMeet(c, m, w + x, Assemble(c, m, w), x, r, rest);
  }

  // A round that takes the whole buffer into a frame still open goes on where
  // it stopped.
  lemma JoinRounds(c: Config, m: Machine, w: bytes, x: bytes)
    requires Core(c, m) && m.inb.stream.Streaming? && 0 < |w| < m.inb.stream.remaining
    ensures Loop(c, m, w + x) == Resume(c, Loop(c, m, w), x)
  {
    var m1 := Assemble(c, m, w);
    WholeRound(c, m, w);
    if x == [] {
      assert w + x == w;
      if !m1.st.drain {
        AssembleJoin(c, m, w, []);
        LoopEmpty(c, m1);
      }
    } else {
      LongerRound(c, m, w, x);
    }
    if !m1.st.drain {
      AssembleJoin(c, m, w, []);
      assert m1.inb.carry == [] && [] + x == x && m1.(inb := m1.inb.(carry := [])) == m1;
    }
  }

  lemma {:induction false} LoopAppend(c: Config, m: Machine, w: bytes, x: bytes)
    requires Running(c, m)
    ensures Loop(c, m, w + x) == Resume(c, Loop(c, m, w), x)
    decreases |w|
  {
    if !m.st.drain {
      StepRunning(c, m, w);
      var r := Step(c, m, w);
      if r.stuck {
        assert Loop(c, m, w) == m.(inb := m.inb.(carry := w));
      } else if m.inb.stream.Streaming? && |w| < m.inb.stream.remaining {
        JoinRounds(c, m, w, x);
      } else {
        SameRound(c, m, w, x);
        LoopAppend(c, r.m, r.rest, x);
      }
    }
  }

  // Between reads: the carry holds exactly what the loop could not use.
  ghost predicate Settled(c: Config, m: Machine) {
    Shut(m) ||
    (Core(c, m.(inb := m.inb.(carry := []))) &&
     (m.inb.stream.Streaming? ==> m.inb.carry == []) &&
     (m.inb.stream.Idle? ==> Police(c, m.inb.carry).Wait?))
  }

  lemma {:induction false} LoopSettles(c: Config, m: Machine, w: bytes)
    requires Running(c, m)
    ensures Settled(c, Loop(c, m, w))
    decreases |w|
  {
    if !m.st.drain {
      StepRunning(c, m, w);
      var r := Step(c, m, w);
      if r.stuck {
        assert m.(inb := m.inb.(carry := w)).(inb := m.inb.(carry := [])) == m;
      } else {
        LoopSettles(c, r.m, r.rest);
      }
    }
  }

  lemma IngestSettles(c: Config, m: Machine, data: bytes)
    requires Settled(c, m)
    ensures Settled(c, Ingest(c, m, data))
  {
    if !m.st.drain && data != [] {
      LoopSettles(c, m.(inb := m.inb.(carry := [])), m.inb.carry + data);
    }
  }

  // Segmentation invariance: two reads and their concatenation leave the
  // same machine - events, queued bytes (mask keys included), state.
  lemma SegmentationInvariance(c: Config, m: Machine, a: bytes, b: bytes)
    requires Settled(c, m)
    ensures Ingest(c, Ingest(c, m, a), b) == Ingest(c, m, a + b)
  {
    if m.st.drain {
    } else if a == [] {
      assert a + b == b;
    } else if b == [] {
      assert a + b == a;
    } else {
      var m0 := m.(inb := m.inb.(carry := []));
      var w := m.inb.carry + a;
      assert m.inb.carry + (a + b) == w + b;
      LoopAppend(c, m0, w, b);
    }
  }

  function IngestEach(c: Config, m: Machine, cuts: seq<bytes>): (r: Machine)
    decreases |cuts|
  {
    if cuts == [] then m else IngestEach(c, Ingest(c, m, cuts[0]), cuts[1..])
  }

  // ... and so does every partition of a stream.
  lemma {:induction false} AnyPartition(c: Config, m: Machine, cuts: seq<bytes>)
    requires Settled(c, m)
    ensures IngestEach(c, m, cuts) == Ingest(c, m, Concat(cuts))
    decreases |cuts|
  {
    if cuts != [] {
      IngestSettles(c, m, cuts[0]);
      AnyPartition(c, Ingest(c, m, cuts[0]), cuts[1..]);
      SegmentationInvariance(c, m, cuts[0], Concat(cuts[1..]));
    }
  }
}
