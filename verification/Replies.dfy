// What a machine sends: the frames of its owner's commands, its answers to
// the peer's pings and to what ends the connection, and the keys of them all.

module Replies {
  import opened Bytes
  import opened Frame
  import opened Machine
  import Utf8
  import opened Segmentation
  import opened Safety
  import opened Peers
  import opened Xorshift

  // -- the owner's commands ------------------------------------------------

  function KeyNext(c: Config, m: Machine): (key: u32) {
    if c.role.Client? then NextKey(m.outb.rng).0 else 0
  }

  // A code that may travel, and what of its reason fits behind it.
  function CloseBytes(code: word, reason: bytes): (p: bytes) {
    if 1000 <= code <= 1003 || 1007 <= code <= 1014 || 3000 <= code <= 4999
    then [code / 256, code % 256] + (if |reason| <= 123 then reason else reason[..123]) else []
  }

  // Opcode and payload of the frame a command makes; none when a ping or a
  // pong would be too long.
  function FrameOf(cmd: Command): (f: seq<(byte, bytes)>) {
    match cmd
    case SendText(d) => [(0x1, d)]
    case SendBinary(d) => [(0x2, d)]
    case SendPing(d) => if |d| <= 125 then [(0x9, d)] else []
    case SendPong(d) => if |d| <= 125 then [(0xA, d)] else []
    case SendClose(code, reason) => [(0x8, CloseBytes(code, reason))]
  }

  // Those of commands in a row: the first close is the last of them.
  function FramesOf(cmds: seq<Command>): (fs: seq<(byte, bytes)>) {
    if cmds == [] then [] else FrameOf(cmds[0]) + if cmds[0].SendClose? then [] else FramesOf(cmds[1..])
  }

  function Shown(log: seq<Sent>): (fs: seq<(byte, bytes)>) {
    if log == [] then [] else
    var e := log[|log| - 1];
    Shown(log[..|log| - 1]) + if e.Sent? then [(e.opcode, e.payload)] else []
  }

  lemma ShownMore(log: seq<Sent>, e: Sent)
    ensures Shown(log + [e]) == Shown(log) + if e.Sent? then [(e.opcode, e.payload)] else []
  {
    assert (log + [e])[..|log|] == log;
  }

  // A frame behind all others, in the history and on the wire, under the
  // next key.
  ghost predicate Framed(c: Config, m: Machine, r: Machine, op: byte, p: bytes) {
    var e := Sent(op, p, KeyNext(c, m));
    && r.outb.log == m.outb.log + [e] && r.outb.queue == m.outb.queue + Encode(c.role, e)
    && Shown(r.outb.log) == Shown(m.outb.log) + [(op, p)] && r.trace == m.trace && r.inb == m.inb
  }

  lemma SendFramed(c: Config, m: Machine, op: byte, p: bytes)
    requires !m.st.closeSent
    ensures Framed(c, m, Send(c, m, op, p), op, p)
  {
    ShownMore(m.outb.log, Sent(op, p, KeyNext(c, m)));
  }

  lemma CloseFramed(c: Config, m: Machine, code: word, reason: bytes)
    requires !m.st.closeSent
    ensures Framed(c, m, QueueClose(c, m, code, reason), OP_CLOSE, CloseBytes(code, reason))
  {
    ShownMore(m.outb.log, Sent(OP_CLOSE, CloseBytes(code, reason), KeyNext(c, m)));
    assert reason[..Min(|reason|, 123)] == if |reason| <= 123 then reason else reason[..123];
  }

  lemma CommandFramed(c: Config, m: Machine, cmd: Command)
    requires !m.st.closeSent
    ensures var r, f := Do(c, m, cmd), FrameOf(cmd);
            && (if f == [] then r == m else Framed(c, m, r, f[0].0, f[0].1))
            && r.st == if cmd.SendClose? then m.st.(closeSent := true, code := cmd.code, reason := cmd.reason) else m.st
  {
    match cmd
    case SendText(d) => SendFramed(c, m, OP_TEXT, d);
    case SendBinary(d) => SendFramed(c, m, OP_BINARY, d);
    case SendPing(d) => if |d| <= 125 { SendFramed(c, m, OP_PING, d); }
    case SendPong(d) => if |d| <= 125 { SendFramed(c, m, OP_PONG, d); }
    case SendClose(code, reason) =>
      CloseFramed(c, m.(st := m.st.(code := code, reason := reason)), code, reason);
  }

  lemma {:induction false} DoAllInert(c: Config, m: Machine, cmds: seq<Command>)
    requires m.st.closeSent
    ensures DoAll(c, m, cmds) == m
    decreases |cmds|
  {
    if cmds != [] {
      DoAllInert(c, m, cmds[1..]);
    }
  }

  lemma PrefixOfPrefix(a: seq<Sent>, b: seq<Sent>, c: seq<Sent>)
    requires a <= b <= c
    ensures a <= c
  {
  }

  lemma Regroup(a: seq<(byte, bytes)>, b: seq<(byte, bytes)>, c: seq<(byte, bytes)>)
    ensures (a + b) + c == a + (b + c)
  {
  }

  lemma CommandShown(c: Config, m: Machine, cmd: Command)
    requires !m.st.closeSent
    ensures var r := Do(c, m, cmd);
            m.outb.log <= r.outb.log && Shown(r.outb.log) == Shown(m.outb.log) + FrameOf(cmd)
  {
    CommandFramed(c, m, cmd);
    var f := FrameOf(cmd);
    if f != [] {
      assert f == [(f[0].0, f[0].1)];
    }
  }

  // A command and those behind it.
  lemma OneThenRest(c: Config, m: Machine, cmd: Command, m1: Machine, rest: seq<(byte, bytes)>, r: Machine)
    requires !m.st.closeSent && m1 == Do(c, m, cmd) && m1.outb.log <= r.outb.log
    requires Shown(r.outb.log) == Shown(m1.outb.log) + rest
    ensures m.outb.log <= r.outb.log && Shown(r.outb.log) == Shown(m.outb.log) + (FrameOf(cmd) + rest)
  {
    CommandShown(c, m, cmd);
    PrefixOfPrefix(m.outb.log, m1.outb.log, r.outb.log);
    Regroup(Shown(m.outb.log), FrameOf(cmd), rest);
  }

  lemma {:induction false} CommandsFramed(c: Config, m: Machine, cmds: seq<Command>)
    ensures var r := DoAll(c, m, cmds);
            && m.outb.log <= r.outb.log
            && Shown(r.outb.log) == Shown(m.outb.log) + if m.st.closeSent then [] else FramesOf(cmds)
    decreases |cmds|
  {
    if m.st.closeSent {
      DoAllInert(c, m, cmds);
    } else if cmds != [] {
      var m1 := Do(c, m, cmds[0]);
      CommandsFramed(c, m1, cmds[1..]);
      CommandFramed(c, m, cmds[0]);
      OneThenRest(c, m, cmds[0], m1, if m1.st.closeSent then [] else FramesOf(cmds[1..]), DoAll(c, m, cmds));
    }
  }

  // -- one frame and its answer --------------------------------------------

  // A ping is answered with its own payload, ahead of what the handler sends;
  // once a close is out there is no answer.
  lemma PingAnswered(c: Config, m: Machine, p: bytes, key: u32)
    requires BetweenFrames(m) && |p| <= 125
    ensures var r := Ingest(c, m, Encode(Other(c.role), Sent(0x9, p, key)));
            && r.trace == m.trace + [Ping(p)]
            && (m.st.closeSent ==> r.outb == m.outb)
            && (!m.st.closeSent ==>
                  && m.outb.log + [Sent(0xA, p, KeyNext(c, m))] <= r.outb.log
                  && Shown(r.outb.log) == Shown(m.outb.log) + [(0xA, p)] + FramesOf(c.react(m.trace + [Ping(p)])))
  {
    ControlFrame(Other(c.role), c, m, Sent(OP_PING, p, key));
    var m1 := Do(c, m, SendPong(p));
    var m2 := m1.(trace := m.trace + [Ping(p)]);
    if m.st.closeSent {
      DoAllInert(c, m2, c.react(m2.trace));
    } else {
      CommandFramed(c, m, SendPong(p));
      CommandsFramed(c, m2, c.react(m2.trace));
    }
  }

  // The close frame of a failure carries its code and its reason; behind
  // another close nothing goes out.
  lemma FailFramed(c: Config, m: Machine, code: word, reason: string)
    ensures var r := Fail(c, m, code, reason);
            && m.outb.log <= r.outb.log && (m.st.closeSent ==> r.outb == m.outb)
            && r.st.closeSent && r.st.code == code && r.st.reason == Ascii(reason)
            && Shown(r.outb.log) ==
               Shown(m.outb.log) + if m.st.closeSent then [] else [(0x8, CloseBytes(code, Ascii(reason)))]
  {
    var st := m.st.(failed := true, drain := true, code := code, reason := Ascii(reason));
    var m1 := m.(inb := BLANK, st := st);
    var m2 := QueueClose(c, m1, code, Ascii(reason));
    if !m.st.closeSent {
      CloseFramed(c, m1, code, Ascii(reason));
    }
    var t := m2.trace + [Closed(code, Ascii(reason))];
    DoAllInert(c, m2.(trace := t), c.react(t));
  }

  // A close is answered with its code alone.
  lemma PeerCloseFramed(c: Config, m: Machine, code: word, reason: bytes)
    ensures var r := PeerClose(c, m, code, reason);
            && m.outb.log <= r.outb.log && (m.st.closeSent ==> r.outb == m.outb) && r.st.closeSent
            && (if m.st.closeSent then r.st.code == m.st.code && r.st.reason == m.st.reason
                else r.st.code == code && r.st.reason == reason)
            && Shown(r.outb.log) == Shown(m.outb.log) + if m.st.closeSent then [] else [(0x8, CloseBytes(code, []))]
  {
    var m1 := m.(inb := BLANK, st := m.st.(closeReceived := true, drain := true));
    var m2 := if m1.st.closeSent then m1
              else QueueClose(c, m1.(st := m1.st.(code := code, reason := reason)), code, []);
    if !m.st.closeSent {
      CloseFramed(c, m1.(st := m1.st.(code := code, reason := reason)), code, []);
    }
    var t := m2.trace + [Closed(code, reason)];
    DoAllInert(c, m2.(trace := t), c.react(t));
  }

  // What a close frame comes to: the code it is told with, and whether it
  // fails the machine it reaches.
  datatype Verdict = Taken(code: word) | Failed(code: word)

  function CloseVerdict(p: bytes): (v: Verdict) {
    if p == [] then Taken(1005) else if |p| == 1 then Failed(1002) else
    var hi: int, lo: int := p[0], p[1];
    var code := hi * 256 + lo;
    if !(1000 <= code <= 1003 || 1007 <= code <= 1014 || 3000 <= code <= 4999) then Failed(1002)
    else if Utf8.WellFormed(p[2..]) then Taken(code) else Failed(1007)
  }

  lemma NoteVerdict(p: bytes)
    ensures match NoteOf(p)
            case Ends(code, reason) => CloseVerdict(p) == Taken(code) && reason == if p == [] then [] else p[2..]
            case Breaks(code, _) => CloseVerdict(p) == Failed(code)
  {
    if |p| >= 2 {
      Utf8.AcceptsWellFormed(p[2..]);
    }
  }

  // Closed is told with this code; what it is answered with, unless a close
  // went out before.
  ghost predicate ClosedWith(m: Machine, r: Machine, code: word, answer: bytes) {
    && |r.trace| == |m.trace| + 1 && r.trace[..|m.trace|] == m.trace
    && r.trace[|m.trace|].Closed? && r.trace[|m.trace|].code == code && r.st.drain
    && (if m.st.closeSent then r.outb == m.outb else Shown(r.outb.log) == Shown(m.outb.log) + [(0x8, answer)])
  }

  lemma FailCloses(c: Config, m: Machine, code: word, reason: string)
    ensures var r := Fail(c, m, code, reason);
            && ClosedWith(m, r, code, CloseBytes(code, Ascii(reason)))
            && r.st.failed && r.trace[|m.trace|].reason == Ascii(reason)
  {
    FailView(c, m, code, reason);
    FailFramed(c, m, code, reason);
  }

  lemma PeerCloses(c: Config, m: Machine, code: word, reason: bytes)
    ensures var r := PeerClose(c, m, code, reason);
            && ClosedWith(m, r, code, CloseBytes(code, []))
            && r.st.failed == m.st.failed && r.trace[|m.trace|].reason == reason
  {
    PeerCloseView(c, m, code, reason);
    PeerCloseFramed(c, m, code, reason);
  }

  lemma CodeEchoed(p: bytes)
    requires CloseVerdict(p).Taken?
    ensures CloseBytes(CloseVerdict(p).code, []) == if p == [] then [] else p[..2]
  {
  }

  // A legal close frame has its code echoed, an illegal one fails the
  // connection.
  ghost predicate CloseOutcome(m: Machine, r: Machine, p: bytes) {
    && r.trace != [] && r.trace[|r.trace| - 1].Closed? && r.st.failed == CloseVerdict(p).Failed?
    && var reason := r.trace[|r.trace| - 1].reason;
       if r.st.failed then ClosedWith(m, r, CloseVerdict(p).code, CloseBytes(CloseVerdict(p).code, reason))
       else reason == (if p == [] then [] else p[2..]) &&
            ClosedWith(m, r, CloseVerdict(p).code, if p == [] then [] else p[..2])
  }

  lemma CloseHandled(c: Config, m: Machine, p: bytes)
    requires !m.st.failed
    ensures CloseOutcome(m, HandleControl(c, m, OP_CLOSE, p), p)
  {
    NoteVerdict(p);
    match NoteOf(p)
    case Ends(code, reason) =>
      PeerCloses(c, m, code, reason);
      CodeEchoed(p);
    case Breaks(code, why) =>
      FailCloses(c, m, code, why);
  }

  // Any close frame, legal or not: what is told of it and answered to it.
  lemma CloseJudged(c: Config, m: Machine, p: bytes, key: u32)
    requires BetweenFrames(m) && |p| <= 125
    ensures CloseOutcome(m, Ingest(c, m, Encode(Other(c.role), Sent(0x8, p, key))), p)
  {
    var e := Sent(OP_CLOSE, p, key);
    ControlRound(Other(c.role), c, m, e);
    CloseHandled(c, m, p);
    OneRound(c, m, Encode(Other(c.role), e), HandleControl(c, m, OP_CLOSE, p));
  }

  // -- over a run ----------------------------------------------------------

  // Payloads of the frames of one opcode.
  function Payloads(log: seq<Sent>, op: byte): (ps: seq<bytes>) {
    if log == [] then [] else
    var e := log[|log| - 1];
    Payloads(log[..|log| - 1], op) + if e.Sent? && e.opcode == op then [e.payload] else []
  }

  function KeysOf(log: seq<Sent>): (keys: seq<u32>) {
    if log == [] then [] else
    var e := log[|log| - 1];
    KeysOf(log[..|log| - 1]) + if e.Sent? then [e.key] else []
  }

  function PingsOf(t: seq<Event>): (ps: seq<bytes>) {
    if t == [] then [] else
    var e := t[|t| - 1];
    PingsOf(t[..|t| - 1]) + if e.Ping? then [e.data] else []
  }

  // A client's frames are masked with the generator's keys in turn.
  ghost predicate Keyed(seed: Rng, o: Outbound) {
    var n := |KeysOf(o.log)|;
    KeysOf(o.log) == Keys(seed, n) && o.rng == After(seed, n)
  }

  // Every ping reported was answered, with its payload and in its turn; the
  // close frame was sent exactly if the inbound side shut, and answers what
  // was told then.
  ghost predicate Answered(m: Machine) {
    && Payloads(m.outb.log, 0xA) == PingsOf(m.trace) && m.st.closeSent == m.st.drain
    && (!m.st.drain ==> Payloads(m.outb.log, 0x8) == [])
    && (m.st.drain ==>
          && m.trace != [] && m.trace[|m.trace| - 1].Closed?
          && var e := m.trace[|m.trace| - 1];
             Payloads(m.outb.log, 0x8) == [CloseBytes(e.code, if m.st.failed then e.reason else [])])
  }

  // A command that is neither a pong nor a close.
  predicate Mild(cmd: Command) {
    !cmd.SendPong? && !cmd.SendClose?
  }

  ghost predicate MildOwner(c: Config) {
    forall t: seq<Event>, i :: 0 <= i < |c.react(t)| ==> Mild(c.react(t)[i])
  }

  ghost predicate Kept(c: Config, seed: Rng, mild: bool, m: Machine) {
    (c.role.Client? ==> Keyed(seed, m.outb)) && (mild ==> MildOwner(c) && Answered(m))
  }

  lemma FrameMore(log: seq<Sent>, e: Sent, op: byte)
    ensures Payloads(log + [e], op) == Payloads(log, op) + if e.Sent? && e.opcode == op then [e.payload] else []
    ensures KeysOf(log + [e]) == KeysOf(log) + if e.Sent? then [e.key] else []
  {
    assert (log + [e])[..|log|] == log;
  }

  lemma PingMore(t: seq<Event>, e: Event)
    ensures PingsOf(t + [e]) == PingsOf(t) + if e.Ping? then [e.data] else []
  {
    assert (t + [e])[..|t|] == t;
  }

  lemma SendKeyed(c: Config, seed: Rng, o: Outbound, op: byte, p: bytes)
    requires c.role.Client? && Keyed(seed, o)
    ensures Keyed(seed, SendFrame(c.role, o, op, p))
  {
    FrameMore(o.log, Sent(op, p, NextKey(o.rng).0), op);
  }

  lemma SendShows(c: Config, o: Outbound, op: byte, p: bytes, of: byte)
    ensures Payloads(SendFrame(c.role, o, op, p).log, of) == Payloads(o.log, of) + if op == of then [p] else []
  {
    FrameMore(o.log, Sent(op, p, if c.role.Client? then NextKey(o.rng).0 else 0), of);
  }

  lemma SendKept(c: Config, seed: Rng, mild: bool, m: Machine, op: byte, p: bytes)
    requires Kept(c, seed, mild, m) && op != OP_PONG && op != OP_CLOSE
    ensures Kept(c, seed, mild, Send(c, m, op, p))
  {
    if !m.st.closeSent {
      if c.role.Client? {
        SendKeyed(c, seed, m.outb, op, p);
      }
      SendShows(c, m.outb, op, p, 0xA);
      SendShows(c, m.outb, op, p, 0x8);
    }
  }

  lemma DoKeyed(c: Config, seed: Rng, m: Machine, cmd: Command)
    requires c.role.Client? && Keyed(seed, m.outb)
    ensures Keyed(seed, Do(c, m, cmd).outb)
  {
    match cmd
    case SendText(d) => SendKeyed(c, seed, m.outb, OP_TEXT, d);
    case SendBinary(d) => SendKeyed(c, seed, m.outb, OP_BINARY, d);
    case SendPing(d) => SendKeyed(c, seed, m.outb, OP_PING, d);
    case SendPong(d) => SendKeyed(c, seed, m.outb, OP_PONG, d);
    case SendClose(code, reason) => SendKeyed(c, seed, m.outb, OP_CLOSE, ClosePayload(code, reason));
  }

  lemma DoKept(c: Config, seed: Rng, mild: bool, m: Machine, cmd: Command)
    requires Kept(c, seed, mild, m) && (mild ==> Mild(cmd))
    ensures Kept(c, seed, mild, Do(c, m, cmd))
  {
    if c.role.Client? {
      DoKeyed(c, seed, m, cmd);
    }
    match cmd
    case SendText(d) => SendKept(c, seed, mild, m, OP_TEXT, d);
    case SendBinary(d) => SendKept(c, seed, mild, m, OP_BINARY, d);
    case SendPing(d) => SendKept(c, seed, mild, m, OP_PING, d);
    case SendPong(_) =>
    case SendClose(_, _) =>
  }

  lemma {:induction false} DoAllKept(c: Config, seed: Rng, mild: bool, m: Machine, cmds: seq<Command>)
    requires Kept(c, seed, mild, m) && (mild ==> forall i :: 0 <= i < |cmds| ==> Mild(cmds[i]))
    ensures Kept(c, seed, mild, DoAll(c, m, cmds))
    decreases |cmds|
  {
    if cmds != [] {
      DoKept(c, seed, mild, m, cmds[0]);
      DoAllKept(c, seed, mild, Do(c, m, cmds[0]), cmds[1..]);
    }
  }

  // An event that neither asks for an answer nor ends anything.
  lemma EmitKept(c: Config, seed: Rng, mild: bool, m: Machine, e: Event)
    requires Kept(c, seed, mild, m) && !m.st.drain && !e.Ping?
    ensures Kept(c, seed, mild, Emit(c, m, e))
  {
    var t := m.trace + [e];
    PingMore(m.trace, e);
    DoAllKept(c, seed, mild, m.(trace := t), c.react(t));
  }

  lemma PingKept(c: Config, seed: Rng, mild: bool, m: Machine, p: bytes)
    requires Kept(c, seed, mild, m) && !m.st.drain && |p| <= 125
    ensures Kept(c, seed, mild, Emit(c, Do(c, m, SendPong(p)), Ping(p)))
  {
    var m1 := Do(c, m, SendPong(p));
    var t := m.trace + [Ping(p)];
    if c.role.Client? {
      DoKeyed(c, seed, m, SendPong(p));
    }
    PingMore(m.trace, Ping(p));
    SendShows(c, m.outb, OP_PONG, p, 0xA);
    SendShows(c, m.outb, OP_PONG, p, 0x8);
    DoAllKept(c, seed, mild, m1.(trace := t), c.react(t));
  }

  // The inbound side shuts behind a close frame with this payload.
  lemma ShutKept(c: Config, seed: Rng, mild: bool, m: Machine, m2: Machine, p: bytes, e: Event)
    requires Kept(c, seed, mild, m) && !m.st.drain && e.Closed? && m2.st.drain && m2.st.closeSent && m2.trace == m.trace
    requires m2.outb == if m.st.closeSent then m.outb else SendFrame(c.role, m.outb, OP_CLOSE, p)
    requires p == CloseBytes(e.code, if m2.st.failed then e.reason else [])
    ensures Kept(c, seed, mild, Emit(c, m2, e))
  {
    var t := m.trace + [e];
    DoAllInert(c, m2.(trace := t), c.react(t));
    PingMore(m.trace, e);
    if !m.st.closeSent {
      if c.role.Client? {
        SendKeyed(c, seed, m.outb, OP_CLOSE, p);
      }
      SendShows(c, m.outb, OP_CLOSE, p, 0xA);
      SendShows(c, m.outb, OP_CLOSE, p, 0x8);
    }
  }

  lemma SamePayload(code: word, reason: bytes)
    ensures ClosePayload(code, reason) == CloseBytes(code, reason)
  {
    assert reason[..Min(|reason|, 123)] == if |reason| <= 123 then reason else reason[..123];
  }

  lemma FailKept(c: Config, seed: Rng, mild: bool, m: Machine, code: word, reason: string)
    requires Kept(c, seed, mild, m) && !m.st.drain
    ensures Kept(c, seed, mild, Fail(c, m, code, reason))
  {
    var st := m.st.(failed := true, drain := true, code := code, reason := Ascii(reason));
    SamePayload(code, Ascii(reason));
    ShutKept(c, seed, mild, m, QueueClose(c, m.(inb := BLANK, st := st), code, Ascii(reason)),
             CloseBytes(code, Ascii(reason)), Closed(code, Ascii(reason)));
  }

  lemma PeerCloseKept(c: Config, seed: Rng, mild: bool, m: Machine, code: word, reason: bytes)
    requires Kept(c, seed, mild, m) && !m.st.drain && !m.st.failed
    ensures Kept(c, seed, mild, PeerClose(c, m, code, reason))
  {
    var m1 := m.(inb := BLANK, st := m.st.(closeReceived := true, drain := true));
    var m2 := if m1.st.closeSent then m1
              else QueueClose(c, m1.(st := m1.st.(code := code, reason := reason)), code, []);
    SamePayload(code, []);
    ShutKept(c, seed, mild, m, m2, CloseBytes(code, []), Closed(code, reason));
  }

  lemma FinishKept(c: Config, seed: Rng, mild: bool, m: Machine, data: bytes)
    requires Kept(c, seed, mild, m) && !m.st.drain
    ensures Kept(c, seed, mild, Finish(c, m, data))
  {
    if m.inb.text && m.inb.utf8 != Utf8.ACCEPT {
      FailKept(c, seed, mild, m, 1007, "truncated UTF-8 at message end");
    } else {
      EmitKept(c, seed, mild, m.(inb := m.inb.(inMessage := false, msg := [])), Message(m.inb.text, data));
    }
  }

  lemma AssembleKept(c: Config, seed: Rng, mild: bool, m: Machine, chunk: bytes)
    requires Kept(c, seed, mild, m) && !m.st.drain && m.inb.stream.Streaming? && |chunk| <= m.inb.stream.remaining
    ensures Kept(c, seed, mild, Assemble(c, m, chunk))
  {
    var a := Assembled(m, chunk);
    if m.inb.text && a.inb.utf8 == Utf8.REJECT {
      FailKept(c, seed, mild, m, 1007, "invalid UTF-8");
    } else if |chunk| == m.inb.stream.remaining && m.inb.stream.fin {
      FinishKept(c, seed, mild, a, a.inb.msg);
    }
  }

  lemma DataHeaderKept(c: Config, seed: Rng, mild: bool, m: Machine, h: Header)
    requires Kept(c, seed, mild, m) && !m.st.drain && !m.st.failed
    ensures Kept(c, seed, mild, DataHeader(c, m, h))
  {
    if h.opcode == OP_CONT && !m.inb.inMessage {
      FailView(c, m, 1002, "continuation without a message");
      FailKept(c, seed, mild, m, 1002, "continuation without a message");
    } else if h.opcode != OP_CONT && m.inb.inMessage {
      FailView(c, m, 1002, "new data opcode inside a fragmented message");
      FailKept(c, seed, mild, m, 1002, "new data opcode inside a fragmented message");
    } else {
      FailView(c, m, 1009, "message too big");
      FailKept(c, seed, mild, m, 1009, "message too big");
      var m1 := BeginData(c, m, h);
      if !m1.st.failed && h.len == 0 && h.fin {
        FinishKept(c, seed, mild, m1, m1.inb.msg);
      }
    }
  }

  lemma ControlKept(c: Config, seed: Rng, mild: bool, m: Machine, op: byte, p: bytes)
    requires Kept(c, seed, mild, m) && !m.st.drain && !m.st.failed && |p| <= 125
    ensures Kept(c, seed, mild, HandleControl(c, m, op, p))
  {
    if op == OP_PING {
      PingKept(c, seed, mild, m, p);
    } else if op == OP_PONG {
      EmitKept(c, seed, mild, m, Pong(p));
    } else {
      match NoteOf(p)
      case Ends(code, reason) => PeerCloseKept(c, seed, mild, m, code, reason);
      case Breaks(code, why) => FailKept(c, seed, mild, m, code, why);
    }
  }

  lemma StepKept(c: Config, seed: Rng, mild: bool, m: Machine, w: bytes)
    requires Core(c, m) && Kept(c, seed, mild, m)
    ensures Kept(c, seed, mild, Step(c, m, w).m)
  {
    if m.inb.stream.Streaming? {
      var take := Min(|w|, m.inb.stream.remaining);
      if take > 0 {
        ChunkIsAssembly(c, m, w[..take]);
        AssembleKept(c, seed, mild, m, w[..take]);
      }
    } else {
      match Police(c, w)
      case Wait =>
      case Bad(code, reason) => FailKept(c, seed, mild, m, code, reason);
      case Good(h) =>
        GoodSpan(c, w);
        HeaderBounds(w);
        if h.IsControl() {
          ControlKept(c, seed, mild, m, h.opcode, ControlPayload(h, w));
        } else {
          DataHeaderKept(c, seed, mild, m, h);
        }
    }
  }

  lemma {:induction false} LoopKept(c: Config, seed: Rng, mild: bool, m: Machine, w: bytes)
    requires Running(c, m) && Kept(c, seed, mild, m)
    ensures Kept(c, seed, mild, Loop(c, m, w))
    decreases |w|
  {
    if !m.st.drain {
      StepRunning(c, m, w);
      StepKept(c, seed, mild, m, w);
      var r := Step(c, m, w);
      if !r.stuck {
        LoopKept(c, seed, mild, r.m, r.rest);
      }
    }
  }

  lemma ApplyKept(c: Config, seed: Rng, mild: bool, m: Machine, op: Op)
    requires Settled(c, m) && Kept(c, seed, mild, m) && (mild && op.Issue? ==> Mild(op.cmd))
    ensures Kept(c, seed, mild, Apply(c, m, op))
  {
    match op
    case Feed(data) =>
      if !m.st.drain && data != [] {
        LoopKept(c, seed, mild, m.(inb := m.inb.(carry := [])), m.inb.carry + data);
      }
    case Issue(cmd) => DoKept(c, seed, mild, m, cmd);
    case Preface(data) =>
      FrameMore(m.outb.log, Raw(data), 0xA);
      FrameMore(m.outb.log, Raw(data), 0x8);
    case Drain(n) =>
  }

  lemma {:induction false} RunKept(c: Config, seed: Rng, mild: bool, m: Machine, ops: seq<Op>)
    requires Sound(c, m) && Settled(c, m) && Kept(c, seed, mild, m)
    requires mild ==> forall i :: 0 <= i < |ops| && ops[i].Issue? ==> Mild(ops[i].cmd)
    ensures Kept(c, seed, mild, Run(c, m, ops))
    decreases |ops|
  {
    if ops != [] {
      ApplySound(c, m, ops[0]);
      ApplyKept(c, seed, mild, m, ops[0]);
      RunKept(c, seed, mild, Apply(c, m, ops[0]), ops[1..]);
    }
  }

  // Whatever a client's peer and handlers do, its frames carry the keys of
  // the generator its seed started, one after the other.
  lemma KeysInTurn(c: Config, seed: Rng, ops: seq<Op>)
    requires c.role.Client?
    ensures Keyed(seed, Run(c, Init(seed), ops).outb)
  {
    InitSound(c, seed);
    RunKept(c, seed, false, Init(seed), ops);
  }

  // An owner that sends no pong and no close itself: whatever else it sends
  // and whatever its peer does, the pongs sent are those of the pings
  // reported, in order, and the one close frame is the answer to the end.
  lemma EveryPingAnswered(c: Config, seed: Rng, ops: seq<Op>)
    requires MildOwner(c) && forall i :: 0 <= i < |ops| && ops[i].Issue? ==> Mild(ops[i].cmd)
    ensures Answered(Run(c, Init(seed), ops))
  {
    InitSound(c, seed);
    RunKept(c, seed, true, Init(seed), ops);
  }
}
