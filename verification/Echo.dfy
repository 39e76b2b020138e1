// The echo server of source/apps/wsecho.pas: an owner that conforms because
// of what its machine guarantees it, and what its clients get of it.

module Echo {
  import opened Bytes
  import opened Frame
  import Utf8
  import opened Machine
  import opened Segmentation
  import opened Safety
  import opened Peers
  import opened Connection

  // Every message goes back as it came.
  function SendBack(t: seq<Event>): (cmds: seq<Command>) {
    if t != [] && t[|t| - 1].Message? then
      var e := t[|t| - 1];
      [if e.text then SendText(e.data) else SendBinary(e.data)]
    else []
  }

  function EchoServer(cap: nat): (c: Config) {
    Config(Role.Server, cap, SendBack)
  }

  // It never sends what a peer of its own cap must refuse.
  lemma EchoConforms(cap: nat, peerCap: nat)
    requires cap <= peerCap && cap < 0x8000_0000_0000_0000
    ensures ConformingOwner(EchoServer(cap), peerCap)
  {
    var c := EchoServer(cap);
    forall t: seq<Event>, i | LegalTrace(c, t) && 0 <= i < |c.react(t)|
      ensures ConformingCmd(c.react(t)[i], peerCap)
    {
      assert LegalEvent(c, t[|t| - 1]);
    }
  }

  // -- messages sent and messages told -------------------------------------

  function MessageOf(e: Sent): (ms: seq<Event>) {
    if e.Sent? && (e.opcode == OP_TEXT || e.opcode == OP_BINARY) then [Message(e.opcode == OP_TEXT, e.payload)] else []
  }

  // The messages among frames.
  function Carried(log: seq<Sent>): (ms: seq<Event>) {
    if log == [] then [] else Carried(log[..|log| - 1]) + MessageOf(log[|log| - 1])
  }

  // The messages among events.
  function Heard(t: seq<Event>): (ms: seq<Event>) {
    if t == [] then [] else Heard(t[..|t| - 1]) + if t[|t| - 1].Message? then [t[|t| - 1]] else []
  }

  lemma CarriedMore(log: seq<Sent>, e: Sent)
    ensures Carried(log + [e]) == Carried(log) + MessageOf(e)
  {
    assert (log + [e])[..|log|] == log;
  }

  lemma HeardMore(t: seq<Event>, e: Event)
    ensures Heard(t + [e]) == Heard(t) + if e.Message? then [e] else []
  {
    assert (t + [e])[..|t|] == t;
  }

  // What is sent as a message is told as one.
  lemma {:induction false} CarriedIsHeard(log: seq<Sent>)
    requires forall i :: 0 <= i < |log| ==> log[i].Sent? && LegalFrame(log[i])
    ensures Heard(Events(log)) == Carried(log)
    decreases |log|
  {
    if log != [] {
      EventsMore(log);
      CarriedIsHeard(log[..|log| - 1]);
      HeardMore(Events(log[..|log| - 1]), EventOf(log[|log| - 1]));
    }
  }

  // -- the server's invariant ----------------------------------------------

  // Unless its input failed it, an echo server has sent the messages it was
  // told, and no others. Only its peer makes it close.
  ghost predicate Echoed(m: Machine) {
    (m.st.closeSent ==> m.st.drain) && (m.st.failed || Carried(m.outb.log) == Heard(m.trace))
  }

  lemma PongEchoed(cap: nat, m: Machine, p: bytes)
    requires Echoed(m)
    ensures Echoed(Do(EchoServer(cap), m, SendPong(p)))
  {
    if !m.st.closeSent && |p| <= 125 {
      CarriedMore(m.outb.log, Sent(OP_PONG, p, 0));
    }
  }

  lemma SendEchoed(cap: nat, m: Machine, e: Event)
    requires m.trace != [] && m.trace[|m.trace| - 1] == e && e.Message?
    requires !m.st.closeSent && (m.st.failed || Carried(m.outb.log) == Heard(m.trace[..|m.trace| - 1]))
    ensures Echoed(Do(EchoServer(cap), m, if e.text then SendText(e.data) else SendBinary(e.data)))
  {
    CarriedMore(m.outb.log, Sent(if e.text then OP_TEXT else OP_BINARY, e.data, 0));
  }

  lemma EmitEchoed(cap: nat, m: Machine, e: Event)
    requires Echoed(m) && (e.Message? ==> !m.st.closeSent)
    ensures Echoed(Emit(EchoServer(cap), m, e))
  {
    var c, t := EchoServer(cap), m.trace + [e];
    var m1 := m.(trace := t);
    assert t[..|t| - 1] == m.trace;
    if e.Message? {
      var cmd := if e.text then SendText(e.data) else SendBinary(e.data);
      assert c.react(t) == [cmd];
      assert DoAll(c, m1, [cmd]) == Do(c, m1, cmd);
      SendEchoed(cap, m1, e);
    } else {
      HeardMore(m.trace, e);
      assert c.react(t) == [];
    }
  }

  lemma FinishEchoed(cap: nat, m: Machine, data: bytes)
    requires Echoed(m) && !m.st.closeSent
    ensures Echoed(Finish(EchoServer(cap), m, data))
  {
    if m.inb.text && m.inb.utf8 != Utf8.ACCEPT {
      FailView(EchoServer(cap), m, 1007, "truncated UTF-8 at message end");
    } else {
      EmitEchoed(cap, m.(inb := m.inb.(inMessage := false, msg := [])), Message(m.inb.text, data));
    }
  }

  lemma AssembleEchoed(cap: nat, m: Machine, chunk: bytes)
    requires Echoed(m) && !m.st.closeSent && m.inb.stream.Streaming? && |chunk| <= m.inb.stream.remaining
    ensures Echoed(Assemble(EchoServer(cap), m, chunk))
  {
    var a := Assembled(m, chunk);
    if m.inb.text && a.inb.utf8 == Utf8.REJECT {
      FailView(EchoServer(cap), m, 1007, "invalid UTF-8");
    } else if |chunk| == m.inb.stream.remaining && m.inb.stream.fin {
      FinishEchoed(cap, a, a.inb.msg);
    }
  }

  lemma DataHeaderEchoed(cap: nat, m: Machine, h: Header)
    requires Echoed(m) && !m.st.closeSent && !m.st.failed
    ensures Echoed(DataHeader(EchoServer(cap), m, h))
  {
    var c := EchoServer(cap);
    if h.opcode == OP_CONT && !m.inb.inMessage {
      FailView(c, m, 1002, "continuation without a message");
    } else if h.opcode != OP_CONT && m.inb.inMessage {
      FailView(c, m, 1002, "new data opcode inside a fragmented message");
    } else if BeginData(c, m, h).st.failed {
      FailView(c, m, 1009, "message too big");
    } else if h.len == 0 && h.fin {
      FinishEchoed(cap, BeginData(c, m, h), BeginData(c, m, h).inb.msg);
    }
  }

  lemma PeerCloseEchoed(cap: nat, m: Machine, code: word, reason: bytes)
    requires Echoed(m)
    ensures Echoed(PeerClose(EchoServer(cap), m, code, reason))
  {
    var c := EchoServer(cap);
    var m1 := m.(inb := BLANK, st := m.st.(closeReceived := true, drain := true));
    if m1.st.closeSent {
      EmitEchoed(cap, m1, Closed(code, reason));
    } else {
      CarriedMore(m.outb.log, Sent(OP_CLOSE, ClosePayload(code, []), 0));
      EmitEchoed(cap, QueueClose(c, m1.(st := m1.st.(code := code, reason := reason)), code, []), Closed(code, reason));
    }
  }

  lemma ControlEchoed(cap: nat, m: Machine, op: byte, p: bytes)
    requires Echoed(m)
    ensures Echoed(HandleControl(EchoServer(cap), m, op, p))
  {
    var c := EchoServer(cap);
    if op == OP_PING {
      PongEchoed(cap, m, p);
      EmitEchoed(cap, Do(c, m, SendPong(p)), Ping(p));
    } else if op == OP_PONG {
      EmitEchoed(cap, m, Pong(p));
    } else {
      match NoteOf(p)
      case Ends(code, reason) => PeerCloseEchoed(cap, m, code, reason);
      case Breaks(code, why) => FailView(c, m, code, why);
    }
  }

  lemma StepEchoed(cap: nat, m: Machine, w: bytes)
    requires Sound(EchoServer(cap), m) && Core(EchoServer(cap), m) && Echoed(m)
    ensures Echoed(Step(EchoServer(cap), m, w).m)
  {
    var c := EchoServer(cap);
    if m.inb.stream.Streaming? {
      var take := Min(|w|, m.inb.stream.remaining);
      if take > 0 {
        ChunkIsAssembly(c, m, w[..take]);
        AssembleEchoed(cap, m, w[..take]);
      }
    } else {
      var v := Police(c, w);
      match v
      case Wait =>
      case Bad(code, reason) => FailView(c, m, code, reason);
      case Good(h) =>
        GoodSpan(c, w);
        if h.IsControl() {
          ControlEchoed(cap, m, h.opcode, ControlPayload(h, w));
        } else {
          DataHeaderEchoed(cap, m, h);
        }
    }
  }

  lemma {:induction false} LoopEchoed(cap: nat, m: Machine, w: bytes)
    requires Sound(EchoServer(cap), m) && Running(EchoServer(cap), m) && Echoed(m)
    ensures Echoed(Loop(EchoServer(cap), m, w))
    decreases |w|
  {
    var c := EchoServer(cap);
    if !m.st.drain {
      StepRunning(c, m, w);
      StepSound(c, m, w);
      StepEchoed(cap, m, w);
      var r := Step(c, m, w);
      if !r.stuck {
        LoopEchoed(cap, r.m, r.rest);
      }
    }
  }

  lemma IngestEchoed(cap: nat, m: Machine, data: bytes)
    requires Sound(EchoServer(cap), m) && Settled(EchoServer(cap), m) && Echoed(m)
    ensures Echoed(Ingest(EchoServer(cap), m, data))
  {
    if !m.st.drain && data != [] {
      var m0 := m.(inb := m.inb.(carry := []));
      SoundIgnoresInbound(EchoServer(cap), m, m0.inb);
      LoopEchoed(cap, m0, m.inb.carry + data);
    }
  }

  ghost predicate EchoPair(cc: Config, cap: nat, p: Pair) {
    Linked(cc, EchoServer(cap), p) && Echoed(p.server)
  }

  // What may happen to the pair: the server sends of its own accord nothing.
  ghost predicate EchoAct(cc: Config, cap: nat, a: Act) {
    ConformingAct(cc, EchoServer(cap), a) && !a.ServerDo?
  }

  lemma NextEchoed(cc: Config, cap: nat, p: Pair, a: Act)
    requires EchoPair(cc, cap, p) && EchoAct(cc, cap, a)
    ensures EchoPair(cc, cap, Next(cc, EchoServer(cap), p, a))
  {
    NextLinked(cc, EchoServer(cap), p, a);
    if a.ToServer? {
      IngestEchoed(cap, p.server, Head(p.client, a.n));
    }
  }

  lemma {:induction false} ScheduleEchoed(cc: Config, cap: nat, p: Pair, acts: seq<Act>)
    requires EchoPair(cc, cap, p) && (forall i :: 0 <= i < |acts| ==> EchoAct(cc, cap, acts[i]))
    ensures EchoPair(cc, cap, Schedule(cc, EchoServer(cap), p, acts))
    decreases |acts|
  {
    if acts != [] {
      NextEchoed(cc, cap, p, acts[0]);
      ScheduleEchoed(cc, cap, Next(cc, EchoServer(cap), p, acts[0]), acts[1..]);
    }
  }

  // -- the statement -------------------------------------------------------

  // However a client's sends and the bytes both ways are scheduled, nobody
  // fails, and once nothing is in flight the client has been told exactly
  // the messages it sent, in order, closed or not.
  lemma EchoRoundTrip(cc: Config, cap: nat, r0: Rng, r1: Rng, acts: seq<Act>)
    requires cc.role.Client? && cap <= cc.cap && cap < 0x8000_0000_0000_0000 && ConformingOwner(cc, cap)
    requires forall i :: 0 <= i < |acts| ==> EchoAct(cc, cap, acts[i])
    ensures var p := Schedule(cc, EchoServer(cap), Pair(Init(r0), Init(r1)), acts);
            && !p.client.st.failed && !p.server.st.failed
            && (p.client.outb.queue == [] && p.server.outb.queue == [] ==>
                  Heard(p.client.trace) == Carried(p.client.outb.log))
  {
    var cs, p0 := EchoServer(cap), Pair(Init(r0), Init(r1));
    EchoConforms(cap, cc.cap);
    StartLinked(cc, cs, r0, r1);
    ScheduleEchoed(cc, cap, p0, acts);
    RoundTrip(cc, cs, r0, r1, acts);
    var p := Schedule(cc, cs, p0, acts);
    CarriedIsHeard(p.client.outb.log);
    CarriedIsHeard(p.server.outb.log);
  }
}
