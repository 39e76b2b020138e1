// A client and a server machine with the bytes in flight between them: every
// schedule of sends and deliveries.

module Connection {
  import opened Bytes
  import opened Frame
  import opened Utf8
  import opened Machine
  import opened Segmentation
  import opened Safety
  import opened Peers

  // -- a stream of frames --------------------------------------------------

  ghost predicate AllConform(log: seq<Sent>, peerCap: nat) {
    forall i :: 0 <= i < |log| ==> Conforms(log[i], peerCap)
  }

  function Events(log: seq<Sent>): (t: seq<Event>)
    requires forall i :: 0 <= i < |log| ==> log[i].Sent? && LegalFrame(log[i])
  {
    seq(|log|, i requires 0 <= i < |log| => EventOf(log[i]))
  }

  ghost predicate HasClose(log: seq<Sent>) {
    exists i :: 0 <= i < |log| && IsClose(log[i])
  }

  // A receiver of that role and cap whose owner never sends: by
  // HandlersDoNotSteerInput it stands for all of them.
  function Quiet(c: Config): (q: Config) {
    Config(c.role, c.cap, (t: seq<Event>) => [])
  }

  const SEED := Rng(1, 0, 0, 0)

  // What a fresh receiver makes of a byte stream.
  function Received(c: Config, data: bytes): (m: Machine) {
    Ingest(Quiet(c), Init(SEED), data)
  }

  lemma ReceivedSound(c: Config, data: bytes)
    ensures Settled(Quiet(c), Received(c, data)) && Sound(Quiet(c), Received(c, data))
  {
    InitSound(Quiet(c), SEED);
    ApplySound(Quiet(c), Init(SEED), Feed(data));
  }

  lemma ReceivedMore(c: Config, a: bytes, b: bytes)
    ensures Received(c, a + b) == Ingest(Quiet(c), Received(c, a), b)
  {
    InitSound(Quiet(c), SEED);
    SegmentationInvariance(Quiet(c), Init(SEED), a, b);
  }

  lemma EventsMore(log: seq<Sent>)
    requires log != [] && (forall i :: 0 <= i < |log| ==> log[i].Sent? && LegalFrame(log[i]))
    ensures Events(log) == Events(log[..|log| - 1]) + [EventOf(log[|log| - 1])]
  {
  }

  lemma FrontHasNoClose(log: seq<Sent>)
    requires log != [] && CloseIsLast(log) && (forall i :: 0 <= i < |log| ==> log[i].Sent?)
    ensures CloseIsLast(log[..|log| - 1]) && !HasClose(log[..|log| - 1])
    ensures HasClose(log) == IsClose(log[|log| - 1])
  {
    var last := |log| - 1;
    forall i | 0 <= i < last
      ensures !IsClose(log[i])
    {
      assert log[last].Sent?;
    }
  }

  // The whole stream of a conforming log is reported frame by frame.
  lemma {:induction false} ReceivedLog(role: Role, c: Config, log: seq<Sent>)
    requires c.role == Other(role) && AllConform(log, c.cap) && CloseIsLast(log)
    ensures var m := Received(c, EncodeAll(role, log));
            && m.trace == Events(log)
            && !m.st.failed
            && (if HasClose(log) then Shut(m) && m.st.closeReceived else AtRest(m))
    decreases |log|
  {
    if log != [] {
      var front, e := log[..|log| - 1], log[|log| - 1];
      FrontHasNoClose(log);
      ReceivedLog(role, c, front);
      ReceivedMore(c, EncodeAll(role, front), Encode(role, e));
      OneFrame(role, Quiet(c), Received(c, EncodeAll(role, front)), e);
      EventsMore(log);
    }
  }

  // Any prefix of that stream: no failure, and a prefix of the events.
  lemma ReceivedPrefix(role: Role, c: Config, log: seq<Sent>, a: bytes, b: bytes)
    requires c.role == Other(role) && AllConform(log, c.cap) && CloseIsLast(log)
    requires a + b == EncodeAll(role, log)
    ensures var m := Received(c, a);
            && !m.st.failed
            && Prefix(m.trace, Events(log))
            && (m.st.drain ==> HasClose(log) && m.trace == Events(log))
  {
    var m := Received(c, a);
    ReceivedLog(role, c, log);
    ReceivedMore(c, a, b);
    ReceivedSound(c, a);
    IngestGrows(Quiet(c), m, b);
    var full := Received(c, EncodeAll(role, log));
    assert full == Ingest(Quiet(c), m, b);
    if m.st.drain {
      assert full == m;
      assert HasClose(log);
    } else {
      assert !m.st.failed;
    }
  }

  // -- conforming owners ---------------------------------------------------

  // Section 8.1 and the peer's limit, as a duty of whoever sends. Of a close
  // reason only what travels counts, behind a code that travels.
  ghost predicate ConformingCmd(cmd: Command, peerCap: nat) {
    match cmd
    case SendText(d) => |d| <= peerCap && |d| < 0x8000_0000_0000_0000 && WellFormed(d)
    case SendBinary(d) => |d| <= peerCap && |d| < 0x8000_0000_0000_0000
    case SendPing(_) => true
    case SendPong(_) => true
    case SendClose(code, reason) => ValidCloseCode(code) ==> WellFormed(Cut(reason))
  }

  // What a machine may have reported to its owner.
  ghost predicate LegalTrace(c: Config, t: seq<Event>) {
    && (forall j :: 0 <= j < |t| ==> LegalEvent(c, t[j]))
    && (forall j :: 0 <= j < |t| && t[j].Closed? ==> j == |t| - 1)
  }

  // An owner is asked to conform only in answer to such reports: it may rely
  // on texts being well-formed and on messages within its own cap.
  ghost predicate ConformingOwner(c: Config, peerCap: nat) {
    forall t: seq<Event>, i :: LegalTrace(c, t) && 0 <= i < |c.react(t)| ==> ConformingCmd(c.react(t)[i], peerCap)
  }

  lemma SendConforms(c: Config, m: Machine, op: byte, p: bytes, peerCap: nat)
    requires AllConform(m.outb.log, peerCap) && (forall key: u32 :: Conforms(Sent(op, p, key), peerCap))
    ensures AllConform(SendFrame(c.role, m.outb, op, p).log, peerCap)
  {
  }

  lemma CloseConforms(c: Config, m: Machine, code: word, reason: bytes, peerCap: nat)
    requires AllConform(m.outb.log, peerCap) && (ValidCloseCode(code) ==> WellFormed(Cut(reason)))
    ensures AllConform(QueueClose(c, m, code, reason).outb.log, peerCap)
  {
    var p := ClosePayload(code, reason);
    forall key: u32 ensures Conforms(Sent(OP_CLOSE, p, key), peerCap) {
      ClosePayloadLegal(code, reason, key);
      if p != [] {
        assert p[2..] == Cut(reason);
      }
    }
    if !m.st.closeSent {
      SendConforms(c, m, OP_CLOSE, p, peerCap);
    }
  }

  lemma PayloadNote(code: word, reason: bytes)
    ensures NoteOf(ClosePayload(code, reason)) ==
            if !ValidCloseCode(code) then Ends(1005, [])
            else if WellFormed(Cut(reason)) then Ends(code, Cut(reason))
            else Breaks(1007, "close reason is not UTF-8")
  {
    if ValidCloseCode(code) {
      var p := ClosePayload(code, reason);
      assert p[2..] == Cut(reason) && CodeOf(p) == code;
      AcceptsWellFormed(p[2..]);
    }
  }

  // Exactly when a machine fails over the close frame another one made, and
  // how.
  lemma CloseAccepted(c: Config, m: Machine, code: word, reason: bytes)
    requires !m.st.failed
    ensures var r := HandleControl(c, m, OP_CLOSE, ClosePayload(code, reason));
            && (r.st.failed <==> ValidCloseCode(code) && !WellFormed(Cut(reason)))
            && (r.st.failed ==> r.trace == m.trace + [Closed(1007, Ascii("close reason is not UTF-8"))])
  {
    PayloadNote(code, reason);
    match NoteOf(ClosePayload(code, reason))
    case Ends(told, text) => PeerCloseView(c, m, told, text);
    case Breaks(bad, why) => FailView(c, m, bad, why);
  }

  // The same of the frame on the wire, whichever side sent it.
  lemma CloseAcceptedOnWire(c: Config, m: Machine, code: word, reason: bytes, key: u32)
    requires BetweenFrames(m)
    ensures var r := Ingest(c, m, Encode(Other(c.role), Sent(OP_CLOSE, ClosePayload(code, reason), key)));
            && (r.st.failed <==> ValidCloseCode(code) && !WellFormed(Cut(reason)))
            && (r.st.failed ==> r.trace == m.trace + [Closed(1007, Ascii("close reason is not UTF-8"))])
  {
    var p := ClosePayload(code, reason);
    var e := Sent(OP_CLOSE, p, key);
    ClosePayloadLegal(code, reason, key);
    ControlRound(Other(c.role), c, m, e);
    ControlView(c, m, OP_CLOSE, p);
    OneRound(c, m, Encode(Other(c.role), e), HandleControl(c, m, OP_CLOSE, p));
    CloseAccepted(c, m, code, reason);
  }

  // 122 times 'a', then U+00E9 in its two bytes.
  const LONG_REASON: bytes := seq(122, _ => 0x61) + [0xC3, 0xA9]

  // A well-formed reason that fails the peer: the cut takes half a character.
  lemma CutReasonFails(c: Config, m: Machine)
    requires !m.st.failed
    ensures WellFormed(LONG_REASON) && |LONG_REASON| == 124
    ensures var r := HandleControl(c, m, OP_CLOSE, ClosePayload(1000, LONG_REASON));
            r.st.failed && r.trace == m.trace + [Closed(1007, Ascii("close reason is not UTF-8"))]
  {
    var run: bytes := seq(122, _ => 0x61);
    AsciiKeepsAccept(run);
    AdvanceSplit(ACCEPT, run, [0xC3, 0xA9]);
    AdvanceSplit(ACCEPT, run, [0xC3]);
    assert Cut(LONG_REASON) == run + [0xC3];
    assert Advance(ACCEPT, [0xC3, 0xA9]) == Advance(Advance(ACCEPT, [0xC3]), [0xA9]) by {
      AdvanceSplit(ACCEPT, [0xC3], [0xA9]);
      assert [0xC3, 0xA9] == [0xC3] + [0xA9];
    }
    AcceptsWellFormed(LONG_REASON);
    AcceptsWellFormed(Cut(LONG_REASON));
    CloseAccepted(c, m, 1000, LONG_REASON);
  }

  lemma CutReasonFailsOnWire(c: Config, m: Machine, key: u32)
    requires BetweenFrames(m)
    ensures var r := Ingest(c, m, Encode(Other(c.role), Sent(OP_CLOSE, ClosePayload(1000, LONG_REASON), key)));
            r.st.failed && r.trace == m.trace + [Closed(1007, Ascii("close reason is not UTF-8"))]
  {
    CutReasonFails(c, m);
    CloseAccepted(c, m, 1000, LONG_REASON);
    CloseAcceptedOnWire(c, m, 1000, LONG_REASON, key);
  }

  lemma DoConforms(c: Config, m: Machine, cmd: Command, peerCap: nat)
    requires AllConform(m.outb.log, peerCap) && ConformingCmd(cmd, peerCap)
    ensures AllConform(Do(c, m, cmd).outb.log, peerCap)
  {
    match cmd
    case SendText(d) => SendConforms(c, m, OP_TEXT, d, peerCap);
    case SendBinary(d) => SendConforms(c, m, OP_BINARY, d, peerCap);
    case SendPing(d) => if |d| <= 125 { SendConforms(c, m, OP_PING, d, peerCap); }
    case SendPong(d) => if |d| <= 125 { SendConforms(c, m, OP_PONG, d, peerCap); }
    case SendClose(code, reason) =>
      CloseConforms(c, m.(st := m.st.(code := code, reason := reason)), code, reason, peerCap);
  }

  lemma {:induction false} DoAllConforms(c: Config, m: Machine, cmds: seq<Command>, peerCap: nat)
    requires AllConform(m.outb.log, peerCap)
    requires forall i :: 0 <= i < |cmds| ==> ConformingCmd(cmds[i], peerCap)
    ensures AllConform(DoAll(c, m, cmds).outb.log, peerCap)
    decreases |cmds|
  {
    if cmds != [] {
      DoConforms(c, m, cmds[0], peerCap);
      DoAllConforms(c, Do(c, m, cmds[0]), cmds[1..], peerCap);
    }
  }

  lemma EmitConforms(c: Config, m: Machine, e: Event, peerCap: nat)
    requires AllConform(m.outb.log, peerCap) && ConformingOwner(c, peerCap) && LegalTrace(c, m.trace + [e])
    ensures AllConform(Emit(c, m, e).outb.log, peerCap)
  {
    var t := m.trace + [e];
    DoAllConforms(c, m.(trace := t), c.react(t), peerCap);
  }

  lemma PeerCloseConforms(c: Config, m: Machine, code: word, reason: bytes, peerCap: nat)
    requires AllConform(m.outb.log, peerCap) && ConformingOwner(c, peerCap)
    requires LegalTrace(c, PeerClose(c, m, code, reason).trace)
    ensures AllConform(PeerClose(c, m, code, reason).outb.log, peerCap)
  {
    PeerCloseView(c, m, code, reason);
    var m1 := m.(inb := BLANK, st := m.st.(closeReceived := true, drain := true));
    if m1.st.closeSent {
      EmitConforms(c, m1, Closed(code, reason), peerCap);
    } else {
      var m2 := m1.(st := m1.st.(code := code, reason := reason));
      CloseConforms(c, m2, code, [], peerCap);
      EmitConforms(c, QueueClose(c, m2, code, []), Closed(code, reason), peerCap);
    }
  }

  lemma ControlConforms(c: Config, m: Machine, op: byte, p: bytes, peerCap: nat)
    requires AllConform(m.outb.log, peerCap) && ConformingOwner(c, peerCap)
    requires LegalTrace(c, HandleControl(c, m, op, p).trace)
    ensures var r := HandleControl(c, m, op, p); r.st.failed || AllConform(r.outb.log, peerCap)
  {
    if op == OP_PING {
      DoConforms(c, m, SendPong(p), peerCap);
      EmitView(c, Do(c, m, SendPong(p)), Ping(p));
      EmitConforms(c, Do(c, m, SendPong(p)), Ping(p), peerCap);
    } else if op == OP_PONG {
      EmitView(c, m, Pong(p));
      EmitConforms(c, m, Pong(p), peerCap);
    } else {
      match NoteOf(p)
      case Ends(code, reason) => PeerCloseConforms(c, m, code, reason, peerCap);
      case Breaks(code, why) => FailView(c, m, code, why);
    }
  }

  lemma FinishConforms(c: Config, m: Machine, data: bytes, peerCap: nat)
    requires AllConform(m.outb.log, peerCap) && ConformingOwner(c, peerCap)
    requires LegalTrace(c, Finish(c, m, data).trace)
    ensures var r := Finish(c, m, data); r.st.failed || AllConform(r.outb.log, peerCap)
  {
    if m.inb.text && m.inb.utf8 != ACCEPT {
      FailView(c, m, 1007, "truncated UTF-8 at message end");
    } else {
      var m1, e := m.(inb := m.inb.(inMessage := false, msg := [])), Message(m.inb.text, data);
      EmitView(c, m1, e);
      EmitConforms(c, m1, e, peerCap);
    }
  }

  lemma AssembleConforms(c: Config, m: Machine, chunk: bytes, peerCap: nat)
    requires AllConform(m.outb.log, peerCap) && ConformingOwner(c, peerCap)
    requires m.inb.stream.Streaming? && |chunk| <= m.inb.stream.remaining
    requires LegalTrace(c, Assemble(c, m, chunk).trace)
    ensures var r := Assemble(c, m, chunk); r.st.failed || AllConform(r.outb.log, peerCap)
  {
    var a := Assembled(m, chunk);
    if m.inb.text && a.inb.utf8 == REJECT {
      FailView(c, m, 1007, "invalid UTF-8");
    } else if |chunk| == m.inb.stream.remaining && m.inb.stream.fin {
      FinishConforms(c, a, a.inb.msg, peerCap);
    }
  }

  lemma DataHeaderConforms(c: Config, m: Machine, h: Header, peerCap: nat)
    requires AllConform(m.outb.log, peerCap) && ConformingOwner(c, peerCap)
    requires LegalTrace(c, DataHeader(c, m, h).trace)
    ensures var r := DataHeader(c, m, h); r.st.failed || AllConform(r.outb.log, peerCap)
  {
    var m1 := BeginData(c, m, h);
    if m1.st.failed {
    } else {
      FailView(c, m, 1002, "continuation without a message");
      FailView(c, m, 1002, "new data opcode inside a fragmented message");
      FailView(c, m, 1009, "message too big");
      if h.len == 0 && h.fin {
        FinishConforms(c, m1, m1.inb.msg, peerCap);
      }
    }
  }

  lemma StepConforms(c: Config, m: Machine, w: bytes, peerCap: nat)
    requires Sound(c, m) && Core(c, m) && AllConform(m.outb.log, peerCap) && ConformingOwner(c, peerCap)
    ensures var r := Step(c, m, w).m; r.st.failed || AllConform(r.outb.log, peerCap)
  {
    StepSound(c, m, w);
    if m.inb.stream.Streaming? {
      var take := Min(|w|, m.inb.stream.remaining);
      if take > 0 {
        ChunkIsAssembly(c, m, w[..take]);
        AssembleConforms(c, m, w[..take], peerCap);
      }
    } else {
      var v := Police(c, w);
      if v.Bad? {
        FailView(c, m, v.code, v.reason);
      } else if v.Good? {
        GoodSpan(c, w);
        if v.h.IsControl() {
          ControlConforms(c, m, v.h.opcode, ControlPayload(v.h, w), peerCap);
        } else {
          DataHeaderConforms(c, m, v.h, peerCap);
        }
      }
    }
  }

  lemma {:induction false} LoopConforms(c: Config, m: Machine, w: bytes, peerCap: nat)
    requires Sound(c, m) && Running(c, m) && AllConform(m.outb.log, peerCap) && ConformingOwner(c, peerCap)
    ensures var r := Loop(c, m, w); r.st.failed || AllConform(r.outb.log, peerCap)
    decreases |w|
  {
    if !m.st.drain {
      StepRunning(c, m, w);
      StepConforms(c, m, w, peerCap);
      StepSound(c, m, w);
      var r := Step(c, m, w);
      if !r.stuck {
        if r.m.st.failed {
          assert Loop(c, r.m, r.rest) == r.m;
        } else {
          LoopConforms(c, r.m, r.rest, peerCap);
        }
      }
    }
  }

  // Unless the input failed it, a machine of a conforming owner only queues
  // frames its peer must accept.
  lemma IngestConforms(c: Config, m: Machine, data: bytes, peerCap: nat)
    requires Sound(c, m) && Settled(c, m) && AllConform(m.outb.log, peerCap) && ConformingOwner(c, peerCap)
    ensures var r := Ingest(c, m, data); r.st.failed || AllConform(r.outb.log, peerCap)
  {
    if !m.st.drain && data != [] {
      SoundIgnoresInbound(c, m, m.inb.(carry := []));
      LoopConforms(c, m.(inb := m.inb.(carry := [])), m.inb.carry + data, peerCap);
    }
  }

  // -- the pair ------------------------------------------------------------

  datatype Pair = Pair(client: Machine, server: Machine)

  // An owner's call on either side, or some bytes of one side's output
  // arriving at the other. The bytes in flight are the queues.
  datatype Act = ClientDo(cmd: Command) | ServerDo(cmd: Command) | ToServer(n: nat) | ToClient(n: nat)

  function Head(m: Machine, n: nat): (b: bytes) {
    m.outb.queue[..Min(n, |m.outb.queue|)]
  }

  function Next(cc: Config, cs: Config, p: Pair, a: Act): (q: Pair) {
    match a
    case ClientDo(cmd) => p.(client := Do(cc, p.client, cmd))
    case ServerDo(cmd) => p.(server := Do(cs, p.server, cmd))
    case ToServer(n) => Pair(Take(p.client, n), Ingest(cs, p.server, Head(p.client, n)))
    case ToClient(n) => Pair(Ingest(cc, p.client, Head(p.server, n)), Take(p.server, n))
  }

  function Schedule(cc: Config, cs: Config, p: Pair, acts: seq<Act>): (q: Pair)
    decreases |acts|
  {
    if acts == [] then p else Schedule(cc, cs, Next(cc, cs, p, acts[0]), acts[1..])
  }

  ghost predicate ConformingAct(cc: Config, cs: Config, a: Act) {
    match a
    case ClientDo(cmd) => ConformingCmd(cmd, cs.cap)
    case ServerDo(cmd) => ConformingCmd(cmd, cc.cap)
    case _ => true
  }

  ghost predicate Setup(cc: Config, cs: Config) {
    cc.role.Client? && cs.role.Server? && ConformingOwner(cc, cs.cap) && ConformingOwner(cs, cc.cap)
  }

  // One side of the pair: healthy, and its log acceptable to the peer.
  ghost predicate Side(c: Config, m: Machine, peer: Config) {
    Sound(c, m) && Settled(c, m) && AllConform(m.outb.log, peer.cap)
  }

  // The receiver is where the bytes handed over so far take any receiver.
  ghost predicate Link(from: Machine, to: Machine, ct: Config) {
    ViewOf(to) == ViewOf(Received(ct, from.outb.taken))
  }

  ghost predicate Linked(cc: Config, cs: Config, p: Pair) {
    && Setup(cc, cs)
    && Side(cc, p.client, cs) && Side(cs, p.server, cc)
    && Link(p.client, p.server, cs) && Link(p.server, p.client, cc)
  }

  lemma DoSide(c: Config, m: Machine, cmd: Command, peer: Config)
    requires Side(c, m, peer) && ConformingCmd(cmd, peer.cap)
    ensures var r := Do(c, m, cmd);
            Side(c, r, peer) && ViewOf(r) == ViewOf(m) && r.outb.taken == m.outb.taken
  {
    ApplySound(c, m, Issue(cmd));
    DoConforms(c, m, cmd, peer.cap);
    DoAllView(c, m, [cmd]);
    assert DoAll(c, m, [cmd]) == Do(c, m, cmd);
  }

  // -- what the sending side of a machine may do while it reads ------------

  // Nothing handed over is taken back, and after its close frame a machine
  // queues nothing more.
  ghost predicate Extends(m: Machine, r: Machine) {
    && r.outb.taken == m.outb.taken && m.outb.queue <= r.outb.queue
    && (m.st.closeSent ==> r.st.closeSent && r.outb == m.outb)
  }

  lemma {:induction false} DoAllExtends(c: Config, m: Machine, cmds: seq<Command>)
    ensures Extends(m, DoAll(c, m, cmds))
    decreases |cmds|
  {
    if cmds != [] {
      DoAllExtends(c, Do(c, m, cmds[0]), cmds[1..]);
    }
  }

  lemma EmitExtends(c: Config, m: Machine, e: Event)
    ensures Extends(m, Emit(c, m, e))
  {
    var t := m.trace + [e];
    DoAllExtends(c, m.(trace := t), c.react(t));
  }

  lemma FailExtends(c: Config, m: Machine, code: word, reason: string)
    ensures Extends(m, Fail(c, m, code, reason))
  {
    var st := m.st.(failed := true, drain := true, code := code, reason := Ascii(reason));
    EmitExtends(c, QueueClose(c, m.(inb := BLANK, st := st), code, Ascii(reason)), Closed(code, Ascii(reason)));
  }

  lemma PeerCloseExtends(c: Config, m: Machine, code: word, reason: bytes)
    ensures Extends(m, PeerClose(c, m, code, reason))
  {
    var m1 := m.(inb := BLANK, st := m.st.(closeReceived := true, drain := true));
    var m2 := if m1.st.closeSent then m1
              else QueueClose(c, m1.(st := m1.st.(code := code, reason := reason)), code, []);
    EmitExtends(c, m2, Closed(code, reason));
  }

  lemma PingExtends(c: Config, m: Machine, p: bytes)
    ensures Extends(m, Emit(c, Do(c, m, SendPong(p)), Ping(p)))
  {
    EmitExtends(c, Do(c, m, SendPong(p)), Ping(p));
  }

  lemma ControlExtends(c: Config, m: Machine, op: byte, p: bytes)
    ensures Extends(m, HandleControl(c, m, op, p))
  {
    if op == OP_PING {
      PingExtends(c, m, p);
    } else if op == OP_PONG {
      EmitExtends(c, m, Pong(p));
    } else {
      match NoteOf(p)
      case Ends(code, reason) => PeerCloseExtends(c, m, code, reason);
      case Breaks(code, why) => FailExtends(c, m, code, why);
    }
  }

  lemma FinishExtends(c: Config, m: Machine, data: bytes)
    ensures Extends(m, Finish(c, m, data))
  {
    FailExtends(c, m, 1007, "truncated UTF-8 at message end");
    EmitExtends(c, m.(inb := m.inb.(inMessage := false, msg := [])), Message(m.inb.text, data));
  }

  lemma AssembleExtends(c: Config, m: Machine, chunk: bytes)
    requires m.inb.stream.Streaming? && |chunk| <= m.inb.stream.remaining
    ensures Extends(m, Assemble(c, m, chunk))
  {
    var a := Assembled(m, chunk);
    FailExtends(c, m, 1007, "invalid UTF-8");
    FinishExtends(c, a, a.inb.msg);
  }

  lemma DataHeaderExtends(c: Config, m: Machine, h: Header)
    ensures Extends(m, DataHeader(c, m, h))
  {
    FailExtends(c, m, 1002, "continuation without a message");
    FailExtends(c, m, 1002, "new data opcode inside a fragmented message");
    FailExtends(c, m, 1009, "message too big");
    var m1 := BeginData(c, m, h);
    FinishExtends(c, m1, m1.inb.msg);
  }

  lemma StepExtends(c: Config, m: Machine, w: bytes)
    requires Core(c, m)
    ensures Extends(m, Step(c, m, w).m)
  {
    if m.inb.stream.Streaming? {
      var take := Min(|w|, m.inb.stream.remaining);
      if take > 0 {
        ChunkIsAssembly(c, m, w[..take]);
        AssembleExtends(c, m, w[..take]);
      }
    } else {
      var v := Police(c, w);
      if v.Bad? {
        FailExtends(c, m, v.code, v.reason);
      } else if v.Good? {
        GoodSpan(c, w);
        if v.h.IsControl() {
          ControlExtends(c, m, v.h.opcode, ControlPayload(v.h, w));
        } else {
          DataHeaderExtends(c, m, v.h);
        }
      }
    }
  }

  lemma {:induction false} LoopExtends(c: Config, m: Machine, w: bytes)
    requires Running(c, m)
    ensures Extends(m, Loop(c, m, w))
    decreases |w|
  {
    if !m.st.drain {
      StepRunning(c, m, w);
      StepExtends(c, m, w);
      var r := Step(c, m, w);
      if !r.stuck {
        LoopExtends(c, r.m, r.rest);
      }
    }
  }

  lemma IngestExtends(c: Config, m: Machine, data: bytes)
    requires Settled(c, m)
    ensures Extends(m, Ingest(c, m, data))
  {
    if !m.st.drain && data != [] {
      LoopExtends(c, m.(inb := m.inb.(carry := [])), m.inb.carry + data);
    }
  }

  // -- every schedule keeps the link ---------------------------------------

  // What the link and a conforming log say of the receiver.
  lemma LinkMeans(cf: Config, from: Machine, ct: Config, to: Machine)
    requires cf.role == Other(ct.role) && Side(cf, from, ct) && Link(from, to, ct)
    ensures !to.st.failed && Prefix(to.trace, Events(from.outb.log))
    ensures to.st.drain ==> from.st.closeSent && to.trace == Events(from.outb.log)
    ensures from.outb.queue == [] ==>
              to.trace == Events(from.outb.log) && (from.st.closeSent ==> to.st.closeReceived)
  {
    var o := from.outb;
    ReceivedPrefix(cf.role, ct, o.log, o.taken, o.queue);
    if o.queue == [] {
      assert o.taken + o.queue == o.taken;
      ReceivedLog(cf.role, ct, o.log);
    }
  }

  // The receiver takes the bytes as any receiver would.
  lemma LinkGoesOn(from: Machine, ct: Config, to: Machine, n: nat)
    requires Settled(ct, to) && Link(from, to, ct)
    ensures Link(Take(from, n), Ingest(ct, to, Head(from, n)), ct)
  {
    ReceivedSound(ct, from.outb.taken);
    HandlersDoNotSteerInput(ct, to, Quiet(ct), Received(ct, from.outb.taken), Head(from, n));
    ReceivedMore(ct, from.outb.taken, Head(from, n));
  }

  lemma TakeSide(c: Config, m: Machine, peer: Config, n: nat)
    requires Side(c, m, peer)
    ensures Side(c, Take(m, n), peer) && ViewOf(Take(m, n)) == ViewOf(m)
  {
    DrainSound(c, m, n);
  }

  lemma IngestSide(c: Config, m: Machine, peer: Config, data: bytes)
    requires Side(c, m, peer) && ConformingOwner(c, peer.cap) && !Ingest(c, m, data).st.failed
    ensures Side(c, Ingest(c, m, data), peer) && Extends(m, Ingest(c, m, data))
  {
    ApplySound(c, m, Feed(data));
    IngestConforms(c, m, data, peer.cap);
    IngestExtends(c, m, data);
  }

  // One transfer, seen from the link's two ends.
  lemma TransferLinks(cf: Config, from: Machine, ct: Config, to: Machine, n: nat)
    requires cf.role == Other(ct.role) && ct.role == Other(cf.role)
    requires Side(cf, from, ct) && Side(ct, to, cf) && Link(from, to, ct) && ConformingOwner(ct, cf.cap)
    ensures var f, t := Take(from, n), Ingest(ct, to, Head(from, n));
            Side(cf, f, ct) && Side(ct, t, cf) && Link(f, t, ct) && ViewOf(f) == ViewOf(from) && Extends(to, t)
  {
    TakeSide(cf, from, ct, n);
    LinkGoesOn(from, ct, to, n);
    LinkMeans(cf, Take(from, n), ct, Ingest(ct, to, Head(from, n)));
    IngestSide(ct, to, cf, Head(from, n));
  }

  lemma NextLinked(cc: Config, cs: Config, p: Pair, a: Act)
    requires Linked(cc, cs, p) && ConformingAct(cc, cs, a)
    ensures Linked(cc, cs, Next(cc, cs, p, a))
  {
    match a
    case ClientDo(cmd) => DoSide(cc, p.client, cmd, cs);
    case ServerDo(cmd) => DoSide(cs, p.server, cmd, cc);
    case ToServer(n) => TransferLinks(cc, p.client, cs, p.server, n);
    case ToClient(n) => TransferLinks(cs, p.server, cc, p.client, n);
  }

  lemma StartLinked(cc: Config, cs: Config, r0: Rng, r1: Rng)
    requires Setup(cc, cs)
    ensures Linked(cc, cs, Pair(Init(r0), Init(r1)))
  {
    InitSound(cc, r0);
    InitSound(cs, r1);
  }

  lemma {:induction false} ScheduleLinked(cc: Config, cs: Config, p: Pair, acts: seq<Act>)
    requires Linked(cc, cs, p) && (forall i :: 0 <= i < |acts| ==> ConformingAct(cc, cs, acts[i]))
    ensures Linked(cc, cs, Schedule(cc, cs, p, acts))
    decreases |acts|
  {
    if acts != [] {
      NextLinked(cc, cs, p, acts[0]);
      ScheduleLinked(cc, cs, Next(cc, cs, p, acts[0]), acts[1..]);
    }
  }

  // -- the statements ------------------------------------------------------

  // Under every schedule neither side fails and each has reported a prefix of
  // what the other queued, frame for frame; all of it once nothing is in
  // flight that way.
  lemma RoundTrip(cc: Config, cs: Config, r0: Rng, r1: Rng, acts: seq<Act>)
    requires Setup(cc, cs) && (forall i :: 0 <= i < |acts| ==> ConformingAct(cc, cs, acts[i]))
    ensures var p := Schedule(cc, cs, Pair(Init(r0), Init(r1)), acts);
            && AllConform(p.client.outb.log, cs.cap) && AllConform(p.server.outb.log, cc.cap)
            && !p.client.st.failed && !p.server.st.failed
            && Prefix(p.server.trace, Events(p.client.outb.log))
            && Prefix(p.client.trace, Events(p.server.outb.log))
            && (p.client.outb.queue == [] ==> p.server.trace == Events(p.client.outb.log))
            && (p.server.outb.queue == [] ==> p.client.trace == Events(p.server.outb.log))
  {
    StartLinked(cc, cs, r0, r1);
    ScheduleLinked(cc, cs, Pair(Init(r0), Init(r1)), acts);
    var p := Schedule(cc, cs, Pair(Init(r0), Init(r1)), acts);
    LinkMeans(cc, p.client, cs, p.server);
    LinkMeans(cs, p.server, cc, p.client);
  }

  // Once either side has sent a close, an empty wire means both are done.
  lemma QuietWireIsClosed(cc: Config, cs: Config, p: Pair)
    requires Linked(cc, cs, p) && (p.client.st.closeSent || p.server.st.closeSent)
    requires p.client.outb.queue == [] && p.server.outb.queue == []
    ensures CloseDone(p.client) && CloseDone(p.server) && !p.client.st.failed && !p.server.st.failed
  {
    LinkMeans(cc, p.client, cs, p.server);
    LinkMeans(cs, p.server, cc, p.client);
  }

  // A transfer that moves something.
  predicate Moves(p: Pair, a: Act) {
    (a.ToServer? && a.n > 0 && p.client.outb.queue != []) || (a.ToClient? && a.n > 0 && p.server.outb.queue != [])
  }

  // Once a side has sent its close, every transfer shrinks the pair (bytes
  // in flight from that side, bytes in flight from the other), so pumping
  // ends however the transfers are scheduled.
  lemma TransfersShrink(cc: Config, cs: Config, p: Pair, a: Act)
    requires Linked(cc, cs, p) && Moves(p, a)
    ensures var q := Next(cc, cs, p, a);
            && (p.client.st.closeSent ==>
                  && q.client.st.closeSent
                  && (|q.client.outb.queue| < |p.client.outb.queue| ||
                      (q.client.outb.queue == p.client.outb.queue && |q.server.outb.queue| < |p.server.outb.queue|)))
            && (p.server.st.closeSent ==>
                  && q.server.st.closeSent
                  && (|q.server.outb.queue| < |p.server.outb.queue| ||
                      (q.server.outb.queue == p.server.outb.queue && |q.client.outb.queue| < |p.client.outb.queue|)))
  {
    if a.ToServer? {
      IngestExtends(cs, p.server, Head(p.client, a.n));
    } else {
      IngestExtends(cc, p.client, Head(p.server, a.n));
    }
  }

  // Everything in flight, the closing side's bytes first.
  function Pumped(cc: Config, cs: Config, p: Pair, clientFirst: bool): (q: Pair) {
    if clientFirst then
      var q := Next(cc, cs, p, ToServer(|p.client.outb.queue|));
      Next(cc, cs, q, ToClient(|q.server.outb.queue|))
    else
      var q := Next(cc, cs, p, ToClient(|p.server.outb.queue|));
      Next(cc, cs, q, ToServer(|q.client.outb.queue|))
  }

  // Two transfers finish any close: the closing side's bytes, then the
  // answer.
  lemma CloseHandshakeEnds(cc: Config, cs: Config, p: Pair)
    requires Linked(cc, cs, p) && (p.client.st.closeSent || p.server.st.closeSent)
    ensures var q := Pumped(cc, cs, p, p.client.st.closeSent);
            && q.client.outb.queue == [] && q.server.outb.queue == []
            && CloseDone(q.client) && CloseDone(q.server) && !q.client.st.failed && !q.server.st.failed
  {
    if p.client.st.closeSent {
      var a := ToServer(|p.client.outb.queue|);
      var q := Next(cc, cs, p, a);
      NextLinked(cc, cs, p, a);
      LinkMeans(cc, q.client, cs, q.server);
      var b := ToClient(|q.server.outb.queue|);
      NextLinked(cc, cs, q, b);
      IngestExtends(cc, q.client, Head(q.server, b.n));
      QuietWireIsClosed(cc, cs, Next(cc, cs, q, b));
    } else {
      var a := ToClient(|p.server.outb.queue|);
      var q := Next(cc, cs, p, a);
      NextLinked(cc, cs, p, a);
      LinkMeans(cs, q.server, cc, q.client);
      var b := ToServer(|q.client.outb.queue|);
      NextLinked(cc, cs, q, b);
      IngestExtends(cs, q.server, Head(q.client, b.n));
      QuietWireIsClosed(cc, cs, Next(cc, cs, q, b));
    }
  }
}
