// What holds of every run: any interleaving of reads, sends, closes and
// output draining, whatever the peer and the handlers do.

module Safety {
  import opened Bytes
  import opened Frame
  import opened Utf8
  import opened Machine
  import opened Segmentation

  // One call from the owner.
  datatype Op = Feed(data: bytes) | Issue(cmd: Command) | Preface(data: bytes) | Drain(n: nat)

  function Apply(c: Config, m: Machine, op: Op): (r: Machine) {
    match op
    case Feed(data) => Ingest(c, m, data)
    case Issue(cmd) => Do(c, m, cmd)
    case Preface(data) => QueueRaw(m, data)
    case Drain(n) => Take(m, n)
  }

  function Run(c: Config, m: Machine, ops: seq<Op>): (r: Machine)
    decreases |ops|
  {
    if ops == [] then m else Run(c, Apply(c, m, ops[0]), ops[1..])
  }

  predicate IsClose(e: Sent) {
    e.Sent? && e.opcode == OP_CLOSE
  }

  // Section 5.5 of RFC 6455: a close payload is empty or a code that may
  // travel and at most 123 bytes; ping and pong carry at most 125.
  predicate LegalFrame(e: Sent) {
    e.Sent? ==>
      && KnownOpcode(e.opcode) && e.opcode != OP_CONT
      && (e.opcode >= 8 ==> |e.payload| <= 125)
      && (e.opcode == OP_CLOSE ==>
            e.payload == [] ||
            (|e.payload| >= 2 && var hi: int, lo: int := e.payload[0], e.payload[1]; ValidCloseCode(hi * 256 + lo)))
  }

  // At most one close frame, and no frame behind it.
  ghost predicate CloseIsLast(log: seq<Sent>) {
    forall i, j :: 0 <= i < j < |log| && IsClose(log[i]) ==> log[j].Raw?
  }

  ghost predicate LogInv(log: seq<Sent>, closeSent: bool) {
    && (forall i :: 0 <= i < |log| ==> LegalFrame(log[i]))
    && CloseIsLast(log)
    && (closeSent <==> exists i :: 0 <= i < |log| && IsClose(log[i]))
  }

  // The bytes handed over and still queued are the log's frames, in order.
  ghost predicate WireInv(c: Config, o: Outbound) {
    o.taken + o.queue == EncodeAll(c.role, o.log)
  }

  ghost predicate LegalEvent(c: Config, e: Event) {
    match e
    case Message(text, data) => |data| <= c.cap && (text ==> WellFormed(data))
    case Ping(data) => |data| <= 125
    case Pong(data) => |data| <= 125
    case Closed(_, _) => true
  }

  // OnClose fires exactly when the inbound side shuts, and nothing after it.
  ghost predicate TraceInv(c: Config, m: Machine) {
    && (forall i :: 0 <= i < |m.trace| ==> LegalEvent(c, m.trace[i]))
    && (forall i :: 0 <= i < |m.trace| && m.trace[i].Closed? ==> i == |m.trace| - 1 && m.st.drain)
    && (m.st.drain ==> m.trace != [] && m.trace[|m.trace| - 1].Closed?)
  }

  ghost predicate OutInv(c: Config, m: Machine) {
    WireInv(c, m.outb) && LogInv(m.outb.log, m.st.closeSent)
  }

  ghost predicate Sound(c: Config, m: Machine) {
    OutInv(c, m) && TraceInv(c, m) && (m.st.drain ==> m.st.closeSent)
  }

  // -- the sending side ----------------------------------------------------

  lemma Joined(a: bytes, b: bytes, c: bytes)
    ensures a + (b + c) == a + b + c
  {
  }

  lemma PushWire(c: Config, o: Outbound, e: Sent)
    requires WireInv(c, o)
    ensures WireInv(c, Push(c.role, o, e))
  {
    var log := o.log + [e];
    assert log[..|log| - 1] == o.log;
    Joined(o.taken, o.queue, Encode(c.role, e));
  }

  lemma LogMore(log: seq<Sent>, e: Sent, closeSent: bool)
    requires LogInv(log, closeSent) && LegalFrame(e) && (e.Sent? ==> !closeSent)
    ensures LogInv(log + [e], closeSent || IsClose(e))
  {
    var l := log + [e];
    if closeSent {
      var i :| 0 <= i < |log| && IsClose(log[i]);
      assert IsClose(l[i]);
    }
    if IsClose(e) {
      assert IsClose(l[|log|]);
    }
    forall i | 0 <= i < |l|
      ensures LegalFrame(l[i]) && (IsClose(l[i]) ==> closeSent || IsClose(e))
    {
      assert i < |log| ==> l[i] == log[i];
    }
  }

  lemma SendFrameInv(c: Config, m: Machine, op: byte, p: bytes)
    requires OutInv(c, m) && !m.st.closeSent && (forall key: u32 :: LegalFrame(Sent(op, p, key)))
    ensures var o := SendFrame(c.role, m.outb, op, p);
            WireInv(c, o) && LogInv(o.log, op == OP_CLOSE) && |o.log| > 0
  {
    var (key, rng) := NextKey(m.outb.rng);
    var e := if c.role.Client? then Sent(op, p, key) else Sent(op, p, 0);
    PushWire(c, if c.role.Client? then m.outb.(rng := rng) else m.outb, e);
    LogMore(m.outb.log, e, false);
  }

  lemma ClosePayloadLegal(code: word, reason: bytes, key: u32)
    ensures LegalFrame(Sent(OP_CLOSE, ClosePayload(code, reason), key))
  {
    var hi, lo := code / 256, code % 256;
    assert hi * 256 + lo == code;
  }

  lemma QueueCloseInv(c: Config, m: Machine, code: word, reason: bytes)
    requires OutInv(c, m)
    ensures var r := QueueClose(c, m, code, reason); OutInv(c, r) && r.st.closeSent && ViewOf(r) == ViewOf(m)
  {
    if !m.st.closeSent {
      forall key: u32 ensures LegalFrame(Sent(OP_CLOSE, ClosePayload(code, reason), key)) {
        ClosePayloadLegal(code, reason, key);
      }
      SendFrameInv(c, m, OP_CLOSE, ClosePayload(code, reason));
    }
  }

  lemma DoInv(c: Config, m: Machine, cmd: Command)
    requires OutInv(c, m)
    ensures OutInv(c, Do(c, m, cmd)) && (m.st.closeSent ==> Do(c, m, cmd) == m)
  {
    if !m.st.closeSent {
      match cmd
      case SendText(d) => SendFrameInv(c, m, OP_TEXT, d);
      case SendBinary(d) => SendFrameInv(c, m, OP_BINARY, d);
      case SendPing(d) => if |d| <= 125 { SendFrameInv(c, m, OP_PING, d); }
      case SendPong(d) => if |d| <= 125 { SendFrameInv(c, m, OP_PONG, d); }
      case SendClose(code, reason) => QueueCloseInv(c, m.(st := m.st.(code := code, reason := reason)), code, reason);
    }
  }

  lemma {:induction false} DoAllInv(c: Config, m: Machine, cmds: seq<Command>)
    requires OutInv(c, m)
    ensures OutInv(c, DoAll(c, m, cmds)) && (m.st.closeSent ==> DoAll(c, m, cmds) == m)
    decreases |cmds|
  {
    if cmds != [] {
      DoInv(c, m, cmds[0]);
      DoAllInv(c, Do(c, m, cmds[0]), cmds[1..]);
    }
  }

  lemma EmitInv(c: Config, m: Machine, e: Event)
    requires OutInv(c, m)
    ensures OutInv(c, Emit(c, m, e)) && (m.st.closeSent ==> Emit(c, m, e) == m.(trace := m.trace + [e]))
  {
    var t := m.trace + [e];
    DoAllInv(c, m.(trace := t), c.react(t));
  }

  // -- the receiving side --------------------------------------------------

  lemma TraceMore(c: Config, m: Machine, r: Machine, e: Event)
    requires TraceInv(c, m) && !m.st.drain && LegalEvent(c, e)
    requires r.trace == m.trace + [e] && r.st.drain == e.Closed?
    ensures TraceInv(c, r)
  {
  }

  lemma EventSound(c: Config, m: Machine, e: Event)
    requires Sound(c, m) && !m.st.drain && LegalEvent(c, e) && !e.Closed?
    ensures Sound(c, Emit(c, m, e))
  {
    EmitInv(c, m, e);
    EmitView(c, m, e);
    TraceMore(c, m, Emit(c, m, e), e);
  }

  // Queueing the close frame and firing OnClose, from a state already marked.
  lemma ShutOut(c: Config, m: Machine, code: word, reason: bytes, e: Event)
    requires OutInv(c, m)
    ensures var r := Emit(c, QueueClose(c, m, code, reason), e); OutInv(c, r) && r.st.closeSent
  {
    QueueCloseInv(c, m, code, reason);
    EmitInv(c, QueueClose(c, m, code, reason), e);
  }

  lemma FailSound(c: Config, m: Machine, code: word, reason: string)
    requires Sound(c, m) && !m.st.drain
    ensures Sound(c, Fail(c, m, code, reason))
  {
    var e := Closed(code, Ascii(reason));
    var m1 := m.(inb := BLANK, st := m.st.(failed := true, drain := true, code := code, reason := Ascii(reason)));
    ShutOut(c, m1, code, Ascii(reason), e);
    FailView(c, m, code, reason);
    TraceMore(c, m, Fail(c, m, code, reason), e);
  }

  lemma PeerCloseSound(c: Config, m: Machine, code: word, reason: bytes)
    requires Sound(c, m) && !m.st.drain
    ensures Sound(c, PeerClose(c, m, code, reason))
  {
    var e := Closed(code, reason);
    var m1 := m.(inb := BLANK, st := m.st.(closeReceived := true, drain := true));
    if m1.st.closeSent {
      EmitInv(c, m1, e);
    } else {
      ShutOut(c, m1.(st := m1.st.(code := code, reason := reason)), code, [], e);
    }
    PeerCloseView(c, m, code, reason);
    TraceMore(c, m, PeerClose(c, m, code, reason), e);
  }

  lemma CloseFrameSound(c: Config, m: Machine, p: bytes)
    requires Sound(c, m) && !m.st.drain
    ensures Sound(c, HandleControl(c, m, OP_CLOSE, p))
  {
    match NoteOf(p)
    case Ends(code, reason) => PeerCloseSound(c, m, code, reason);
    case Breaks(code, why) => FailSound(c, m, code, why);
  }

  lemma ControlSound(c: Config, m: Machine, op: byte, p: bytes)
    requires Sound(c, m) && !m.st.drain && |p| <= 125
    ensures Sound(c, HandleControl(c, m, op, p))
  {
    if op == OP_PING {
      var m1 := Do(c, m, SendPong(p));
      DoInv(c, m, SendPong(p));
      assert ViewOf(m1) == ViewOf(m);
      EventSound(c, m1, Ping(p));
    } else if op == OP_PONG {
      EventSound(c, m, Pong(p));
    } else {
      CloseFrameSound(c, m, p);
      assert HandleControl(c, m, op, p) == HandleControl(c, m, OP_CLOSE, p);
    }
  }

  lemma FinishSound(c: Config, m: Machine)
    requires Sound(c, m) && Core(c, m) && m.inb.inMessage && m.inb.stream.Idle?
    ensures Sound(c, Finish(c, m, m.inb.msg))
  {
    if m.inb.text && m.inb.utf8 != ACCEPT {
      FailSound(c, m, 1007, "truncated UTF-8 at message end");
    } else {
      AcceptsWellFormed(m.inb.msg);
      EventSound(c, m.(inb := m.inb.(inMessage := false, msg := [])), Message(m.inb.text, m.inb.msg));
    }
  }

  lemma AssembleSound(c: Config, m: Machine, chunk: bytes)
    requires Sound(c, m) && Core(c, m) && m.inb.stream.Streaming? && |chunk| <= m.inb.stream.remaining
    ensures Sound(c, Assemble(c, m, chunk))
  {
    var a := Assembled(m, chunk);
    if m.inb.text && a.inb.utf8 == REJECT {
      FailSound(c, m, 1007, "invalid UTF-8");
    } else {
      AssembledCore(c, m, chunk);
      if |chunk| == m.inb.stream.remaining && m.inb.stream.fin {
        FinishSound(c, a);
      }
    }
  }

  lemma SoundIgnoresInbound(c: Config, m: Machine, i: Inbound)
    requires Sound(c, m)
    ensures Sound(c, m.(inb := i))
  {
  }

  lemma BeginDataSound(c: Config, m: Machine, h: Header)
    requires Sound(c, m) && !m.st.drain
    ensures Sound(c, BeginData(c, m, h))
  {
    var r := BeginData(c, m, h);
    if h.opcode == OP_CONT && !m.inb.inMessage {
      FailSound(c, m, 1002, "continuation without a message");
    } else if h.opcode != OP_CONT && m.inb.inMessage {
      FailSound(c, m, 1002, "new data opcode inside a fragmented message");
    } else {
      FailSound(c, m, 1009, "message too big");
      SoundIgnoresInbound(c, m, r.inb);
    }
  }

  lemma DataHeaderSound(c: Config, m: Machine, h: Header)
    requires Sound(c, m) && Core(c, m) && m.inb.stream.Idle?
    ensures Sound(c, DataHeader(c, m, h))
  {
    BeginDataRunning(c, m, h);
    BeginDataSound(c, m, h);
    var m1 := BeginData(c, m, h);
    if !m1.st.failed && h.len == 0 && h.fin {
      FinishSound(c, m1);
    }
  }

  lemma StepSound(c: Config, m: Machine, w: bytes)
    requires Sound(c, m) && Core(c, m)
    ensures Sound(c, Step(c, m, w).m)
  {
    if m.inb.stream.Streaming? {
      var take := Min(|w|, m.inb.stream.remaining);
      if take > 0 {
        ChunkIsAssembly(c, m, w[..take]);
        AssembleSound(c, m, w[..take]);
      }
    } else {
      var v := Police(c, w);
      if v.Bad? {
        FailSound(c, m, v.code, v.reason);
      } else if v.Good? {
        GoodSpan(c, w);
        HeaderBounds(w);
        if v.h.IsControl() {
          ControlSound(c, m, v.h.opcode, ControlPayload(v.h, w));
        } else {
          DataHeaderSound(c, m, v.h);
        }
      }
    }
  }

  lemma {:induction false} LoopSound(c: Config, m: Machine, w: bytes)
    requires Sound(c, m) && Running(c, m)
    ensures Sound(c, Loop(c, m, w))
    decreases |w|
  {
    if !m.st.drain {
      StepRunning(c, m, w);
      StepSound(c, m, w);
      var r := Step(c, m, w);
      if !r.stuck {
        LoopSound(c, r.m, r.rest);
      }
    }
  }

  lemma TakeInv(c: Config, m: Machine, n: nat)
    requires WireInv(c, m.outb)
    ensures WireInv(c, Take(m, n).outb)
  {
    var k := Min(n, |m.outb.queue|);
    var q := m.outb.queue;
    assert m.outb.taken + q[..k] + q[k..] == m.outb.taken + (q[..k] + q[k..]);
    assert q[..k] + q[k..] == q;
  }

  lemma FeedSound(c: Config, m: Machine, data: bytes)
    requires Sound(c, m) && Settled(c, m)
    ensures Sound(c, Ingest(c, m, data))
  {
    if !m.st.drain && data != [] {
      var m0 := m.(inb := m.inb.(carry := []));
      SoundIgnoresInbound(c, m, m0.inb);
      LoopSound(c, m0, m.inb.carry + data);
    }
  }

  // The sending side moves, the inbound side does not notice.
  lemma SentSound(c: Config, m: Machine, r: Machine)
    requires Sound(c, m) && Settled(c, m) && ViewOf(r) == ViewOf(m) && OutInv(c, r)
    requires m.st.closeSent ==> r.st.closeSent
    ensures Sound(c, r) && Settled(c, r)
  {
    var m0, r0 := m.(inb := m.inb.(carry := [])), r.(inb := r.inb.(carry := []));
    assert Core(c, m0) ==> Core(c, r0);
  }

  lemma IssueSound(c: Config, m: Machine, cmd: Command)
    requires Sound(c, m) && Settled(c, m)
    ensures Sound(c, Do(c, m, cmd)) && Settled(c, Do(c, m, cmd))
  {
    DoInv(c, m, cmd);
    SentSound(c, m, Do(c, m, cmd));
  }

  lemma PrefaceSound(c: Config, m: Machine, data: bytes)
    requires Sound(c, m) && Settled(c, m)
    ensures Sound(c, QueueRaw(m, data)) && Settled(c, QueueRaw(m, data))
  {
    PushWire(c, m.outb, Raw(data));
    LogMore(m.outb.log, Raw(data), m.st.closeSent);
    SentSound(c, m, QueueRaw(m, data));
  }

  lemma DrainSound(c: Config, m: Machine, n: nat)
    requires Sound(c, m) && Settled(c, m)
    ensures Sound(c, Take(m, n)) && Settled(c, Take(m, n))
  {
    TakeInv(c, m, n);
    SentSound(c, m, Take(m, n));
  }

  lemma ApplySound(c: Config, m: Machine, op: Op)
    requires Sound(c, m) && Settled(c, m)
    ensures Sound(c, Apply(c, m, op)) && Settled(c, Apply(c, m, op))
  {
    match op
    case Feed(data) =>
      FeedSound(c, m, data);
      IngestSettles(c, m, data);
    case Issue(cmd) =>
      IssueSound(c, m, cmd);
    case Preface(data) =>
      PrefaceSound(c, m, data);
    case Drain(n) =>
      DrainSound(c, m, n);
  }

  lemma InitSound(c: Config, rng: Rng)
    ensures Sound(c, Init(rng)) && Settled(c, Init(rng))
  {
  }

  lemma {:induction false} RunSound(c: Config, m: Machine, ops: seq<Op>)
    requires Sound(c, m) && Settled(c, m)
    ensures Sound(c, Run(c, m, ops)) && Settled(c, Run(c, m, ops))
    decreases |ops|
  {
    if ops != [] {
      ApplySound(c, m, ops[0]);
      RunSound(c, Apply(c, m, ops[0]), ops[1..]);
    }
  }

  // -- the statements ------------------------------------------------------

  // The wire carries the logged frames, the close frame is last and legal,
  // OnClose fires once, last, and exactly when the machine failed or took the
  // peer's close, which it has then answered.
  ghost predicate CloseSafe(c: Config, m: Machine) {
    && m.outb.taken + m.outb.queue == EncodeAll(c.role, m.outb.log)
    && CloseIsLast(m.outb.log)
    && (forall i :: 0 <= i < |m.outb.log| ==> LegalFrame(m.outb.log[i]))
    && (m.st.closeSent <==> exists i :: 0 <= i < |m.outb.log| && IsClose(m.outb.log[i]))
    && (forall i :: 0 <= i < |m.trace| && m.trace[i].Closed? ==> i == |m.trace| - 1)
    && (m.st.failed || m.st.closeReceived <==> m.trace != [] && m.trace[|m.trace| - 1].Closed?)
    && (m.st.failed || m.st.closeReceived ==> m.st.closeSent)
  }

  lemma SoundIsCloseSafe(c: Config, m: Machine)
    requires Sound(c, m) && Settled(c, m)
    ensures CloseSafe(c, m)
  {
    assert m.st.failed || m.st.closeReceived <==> m.st.drain;
  }

  lemma CloseSafety(c: Config, rng: Rng, ops: seq<Op>)
    ensures CloseSafe(c, Run(c, Init(rng), ops))
  {
    InitSound(c, rng);
    RunSound(c, Init(rng), ops);
    SoundIsCloseSafe(c, Run(c, Init(rng), ops));
  }

  lemma CarryBound(c: Config, w: bytes)
    ensures Police(c, w).Wait? ==> |w| <= 130
  {
    HeaderBounds(w);
  }

  lemma SettledBounds(c: Config, m: Machine)
    requires Settled(c, m)
    ensures |m.inb.msg| + (if m.inb.stream.Streaming? then m.inb.stream.remaining else 0) <= c.cap
    ensures |m.inb.carry| <= 130
    ensures m.inb.stream.Streaming? ==> m.inb.carry == []
  {
    CarryBound(c, m.inb.carry);
  }

  // No delivered message exceeds the cap, every delivered text is well-formed
  // UTF-8, and what is retained between reads is bounded.
  lemma ReassemblyBounds(c: Config, rng: Rng, ops: seq<Op>)
    ensures var m := Run(c, Init(rng), ops);
            && (forall i :: 0 <= i < |m.trace| ==> LegalEvent(c, m.trace[i]))
            && |m.inb.msg| + (if m.inb.stream.Streaming? then m.inb.stream.remaining else 0) <= c.cap
            && |m.inb.carry| <= 130
            && (m.inb.stream.Streaming? ==> m.inb.carry == [])
  {
    InitSound(c, rng);
    RunSound(c, Init(rng), ops);
    SettledBounds(c, Run(c, Init(rng), ops));
  }

  // Raw bytes at most were queued since.
  ghost predicate NoFrameSince(m: Machine, r: Machine) {
    && m.outb.log <= r.outb.log
    && forall i :: |m.outb.log| <= i < |r.outb.log| ==> r.outb.log[i].Raw?
  }

  lemma ShutOnce(c: Config, m: Machine, op: Op)
    requires m.st.drain && m.st.closeSent
    ensures var r := Apply(c, m, op);
            r.inb == m.inb && r.st == m.st && r.trace == m.trace && NoFrameSince(m, r)
  {
  }

  // A machine that failed or took the peer's close is over for good: in
  // every later run nothing is reported or framed, whatever arrives and
  // whatever its owner asks, and its failure, code and reason stand.
  lemma {:induction false} ShutForGood(c: Config, m: Machine, ops: seq<Op>)
    requires Sound(c, m) && Settled(c, m) && (m.st.failed || m.st.closeReceived)
    ensures var r := Run(c, m, ops);
            r.inb == m.inb && r.st == m.st && r.trace == m.trace && NoFrameSince(m, r)
    decreases |ops|
  {
    if ops != [] {
      SoundIsCloseSafe(c, m);
      ApplySound(c, m, ops[0]);
      ShutOnce(c, m, ops[0]);
      ShutForGood(c, Apply(c, m, ops[0]), ops[1..]);
    }
  }
}
