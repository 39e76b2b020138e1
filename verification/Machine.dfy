// The connection state machine of source/units/WS.Protocol.pas as a function
// of its inputs, permessage-deflate not negotiated. The class in Protocol.dfy
// is proved to compute exactly this; the laws are in the files beside it.

module Machine {
  import opened Bytes
  import opened Frame
  import opened Mask
  import opened Utf8

  type word = x: int | 0 <= x < 0x1_0000

  datatype Role = Server | Client

  // What the machine reports to its owner, in order.
  datatype Event = Message(text: bool, data: bytes) | Ping(data: bytes) | Pong(data: bytes)
                 | Closed(code: word, reason: bytes)

  // What the owner may ask of it, from outside or from inside a callback.
  datatype Command = SendText(data: bytes) | SendBinary(data: bytes) | SendPing(data: bytes)
                   | SendPong(data: bytes) | SendClose(code: word, reason: bytes)

  // react is the owner's callbacks: what they send when the last event of
  // the trace fires. Any deterministic handler is such a function.
  datatype Config = Config(role: Role, cap: nat, react: seq<Event> -> seq<Command>)

  datatype Stream = Idle | Streaming(remaining: nat, fin: bool, masked: bool, key: u32, off: nat)

  // Inbound reassembly: FCarry, FMsg, FInMessage, FMsgText, FUtf8, FStream*.
  datatype Inbound = Inbound(carry: bytes, msg: bytes, inMessage: bool, text: bool, utf8: State, stream: Stream)

  const BLANK := Inbound([], [], false, false, ACCEPT, Idle)

  datatype Status = Status(closeSent: bool, closeReceived: bool, failed: bool, drain: bool, code: word, reason: bytes)

  datatype Rng = Rng(r0: u32, r1: u32, r2: u32, r3: u32)

  // One entry of the send history: raw bytes (the 101) or a whole frame.
  datatype Sent = Raw(data: bytes) | Sent(opcode: byte, payload: bytes, key: u32)

  // queue is what OutPtr/OutPending show; log and taken are history: all
  // that was ever queued, and the bytes OutConsume took away.
  datatype Outbound = Outbound(queue: bytes, rng: Rng, log: seq<Sent>, taken: bytes)

  datatype Machine = Machine(inb: Inbound, st: Status, outb: Outbound, trace: seq<Event>)

  function Init(rng: Rng): (m: Machine) {
    Machine(BLANK, Status(false, false, false, false, 1005, []), Outbound([], rng, [], []), [])
  }

  predicate CloseDone(m: Machine) {
    m.st.failed || (m.st.closeSent && m.st.closeReceived)
  }

  // -- sending -------------------------------------------------------------

  // xorshift128.
  function NextKey(r: Rng): (res: (u32, Rng)) {
    var t1 := XorU32(r.r3, r.r3 * 0x800 % 0x1_0000_0000);
    var t2 := XorU32(t1, t1 / 0x100);
    var k := XorU32(XorU32(t2, r.r0), r.r0 / 0x8_0000);
    (k, Rng(k, r.r0, r.r1, r.r2))
  }

  function Encode(role: Role, e: Sent): (b: bytes) {
    match e
    case Raw(data) => data
    case Sent(op, p, key) =>
      if role.Client?
      then HeaderBytes(true, false, op, true, key, |p|) + Masked(p, key, 0)
      else HeaderBytes(true, false, op, false, 0, |p|) + p
  }

  function EncodeAll(role: Role, log: seq<Sent>): (b: bytes) {
    if log == [] then [] else EncodeAll(role, log[..|log| - 1]) + Encode(role, log[|log| - 1])
  }

  function Push(role: Role, o: Outbound, e: Sent): (r: Outbound) {
    o.(queue := o.queue + Encode(role, e), log := o.log + [e])
  }

  function SendFrame(role: Role, o: Outbound, op: byte, p: bytes): (r: Outbound) {
    if role.Client? then
      var (key, rng) := NextKey(o.rng);
      Push(role, o.(rng := rng), Sent(op, p, key))
    else
      Push(role, o, Sent(op, p, 0))
  }

  predicate ValidCloseCode(code: int) {
    1000 <= code <= 1003 || 1007 <= code <= 1014 || 3000 <= code <= 4999
  }

  // What travels of a close reason.
  function Cut(reason: bytes): (r: bytes)
    ensures |r| <= 123
  {
    reason[..Min(|reason|, 123)]
  }

  function ClosePayload(code: word, reason: bytes): (p: bytes)
    ensures |p| <= 125
  {
    if !ValidCloseCode(code) then [] else [code / 256, code % 256] + Cut(reason)
  }

  function QueueClose(c: Config, m: Machine, code: word, reason: bytes): (r: Machine) {
    if m.st.closeSent then m
    else m.(st := m.st.(closeSent := true),
            outb := SendFrame(c.role, m.outb, OP_CLOSE, ClosePayload(code, reason)))
  }

  function Send(c: Config, m: Machine, op: byte, p: bytes): (r: Machine) {
    if m.st.closeSent then m else m.(outb := SendFrame(c.role, m.outb, op, p))
  }

  function Do(c: Config, m: Machine, cmd: Command): (r: Machine) {
    match cmd
    case SendText(d) => Send(c, m, OP_TEXT, d)
    case SendBinary(d) => Send(c, m, OP_BINARY, d)
    case SendPing(d) => if |d| <= 125 then Send(c, m, OP_PING, d) else m
    case SendPong(d) => if |d| <= 125 then Send(c, m, OP_PONG, d) else m
    case SendClose(code, reason) =>
      if m.st.closeSent then m
      else QueueClose(c, m.(st := m.st.(code := code, reason := reason)), code, reason)
  }

  function DoAll(c: Config, m: Machine, cmds: seq<Command>): (r: Machine)
    decreases |cmds|
  {
    if cmds == [] then m else DoAll(c, Do(c, m, cmds[0]), cmds[1..])
  }

  // A callback: the event is recorded, then the handler's sends happen.
  function Emit(c: Config, m: Machine, e: Event): (r: Machine) {
    var t := m.trace + [e];
    DoAll(c, m.(trace := t), c.react(t))
  }

  // OutConsume.
  function Take(m: Machine, n: nat): (r: Machine) {
    var k := Min(n, |m.outb.queue|);
    m.(outb := m.outb.(queue := m.outb.queue[k..], taken := m.outb.taken + m.outb.queue[..k]))
  }

  function QueueRaw(m: Machine, data: bytes): (r: Machine) {
    m.(outb := m.outb.(queue := m.outb.queue + data, log := m.outb.log + [Raw(data)]))
  }

  // -- failing and closing -------------------------------------------------

  function Fail(c: Config, m: Machine, code: word, reason: string): (r: Machine) {
    var st := m.st.(failed := true, drain := true, code := code, reason := Ascii(reason));
    Emit(c, QueueClose(c, m.(inb := BLANK, st := st), code, Ascii(reason)), Closed(code, Ascii(reason)))
  }

  function PeerClose(c: Config, m: Machine, code: word, reason: bytes): (r: Machine) {
    var m1 := m.(inb := BLANK, st := m.st.(closeReceived := true, drain := true));
    var m2 := if m1.st.closeSent then m1
              else QueueClose(c, m1.(st := m1.st.(code := code, reason := reason)), code, []);
    Emit(c, m2, Closed(code, reason))
  }

  // What a close payload says: the peer's code and reason, or what it is
  // failed for.
  datatype CloseNote = Ends(code: word, reason: bytes) | Breaks(code: word, why: string)

  function CodeOf(p: bytes): (code: word)
    requires |p| >= 2
  {
    var hi: int, lo: int := p[0], p[1];
    hi * 256 + lo
  }

  function NoteOf(p: bytes): (note: CloseNote) {
    if |p| == 0 then Ends(1005, [])
    else if |p| == 1 then Breaks(1002, "close payload of one byte")
    else if !ValidCloseCode(CodeOf(p)) then Breaks(1002, "invalid close code")
    else if Advance(ACCEPT, p[2..]) != ACCEPT then Breaks(1007, "close reason is not UTF-8")
    else Ends(CodeOf(p), p[2..])
  }

  function HandleControl(c: Config, m: Machine, op: byte, p: bytes): (r: Machine) {
    if op == OP_PING then Emit(c, Do(c, m, SendPong(p)), Ping(p))
    else if op == OP_PONG then Emit(c, m, Pong(p))
    else
      match NoteOf(p)
      case Ends(code, reason) => PeerClose(c, m, code, reason)
      case Breaks(code, why) => Fail(c, m, code, why)
  }

  // -- messages ------------------------------------------------------------

  // Finished: a step either goes on or has shut the inbound side.
  function Deliver(c: Config, m: Machine, data: bytes): (r: Machine) {
    Emit(c, m.(inb := m.inb.(inMessage := false, msg := [])), Message(m.inb.text, data))
  }

  function Finish(c: Config, m: Machine, data: bytes): (r: Machine) {
    if m.inb.text && m.inb.utf8 != ACCEPT then Fail(c, m, 1007, "truncated UTF-8 at message end")
    else Deliver(c, m, data)
  }

  function BeginData(c: Config, m: Machine, h: Header): (r: Machine) {
    if h.opcode == OP_CONT && !m.inb.inMessage then Fail(c, m, 1002, "continuation without a message")
    else if h.opcode != OP_CONT && m.inb.inMessage then Fail(c, m, 1002, "new data opcode inside a fragmented message")
    else
      var i := if h.opcode == OP_CONT then m.inb
               else m.inb.(inMessage := true, text := h.opcode == OP_TEXT, utf8 := ACCEPT, msg := []);
      if |i.msg| + h.len > c.cap then Fail(c, m, 1009, "message too big")
      else m.(inb := i.(stream := if h.len == 0 then Idle else Streaming(h.len, h.fin, h.masked, h.key, 0)))
  }

  function DataHeader(c: Config, m: Machine, h: Header): (r: Machine) {
    var m1 := BeginData(c, m, h);
    if !m1.st.failed && h.len == 0 && h.fin then Finish(c, m1, m1.inb.msg) else m1
  }

  function Unmask(s: Stream, chunk: bytes): (plain: bytes)
    requires s.Streaming?
  {
    if s.masked then Masked(chunk, s.key, s.off) else chunk
  }

  function Rest(s: Stream, n: nat): (r: Stream)
    requires s.Streaming? && n <= s.remaining
  {
    if n == s.remaining then Idle else s.(remaining := s.remaining - n, off := (s.off + n) % 4)
  }

  // The assembly route: unmask into FMsg, validate, finish on the last byte
  // of a final frame.
  function Assemble(c: Config, m: Machine, chunk: bytes): (r: Machine)
    requires m.inb.stream.Streaming? && |chunk| <= m.inb.stream.remaining
  {
    var s := m.inb.stream;
    var plain := Unmask(s, chunk);
    var u := if m.inb.text then Advance(m.inb.utf8, plain) else m.inb.utf8;
    if m.inb.text && u == REJECT then Fail(c, m, 1007, "invalid UTF-8")
    else
      var m1 := m.(inb := m.inb.(msg := m.inb.msg + plain, utf8 := u, stream := Rest(s, |chunk|)));
      if |chunk| == s.remaining && s.fin then Finish(c, m1, m1.inb.msg) else m1
  }

  // The in-place route: the only frame of its message, whole in the buffer,
  // is judged and told from there.
  function InPlace(c: Config, m: Machine, chunk: bytes): (r: Machine)
    requires m.inb.stream.Streaming?
  {
    var plain := Unmask(m.inb.stream, chunk);
    var u := if m.inb.text then Advance(m.inb.utf8, plain) else m.inb.utf8;
    if m.inb.text && u == REJECT then Fail(c, m, 1007, "invalid UTF-8")
    else Finish(c, m.(inb := m.inb.(utf8 := u, stream := Idle)), plain)
  }

  function Chunk(c: Config, m: Machine, chunk: bytes): (r: Machine)
    requires m.inb.stream.Streaming? && |chunk| <= m.inb.stream.remaining
  {
    if m.inb.stream.fin && m.inb.msg == [] && |chunk| == m.inb.stream.remaining
    then InPlace(c, m, chunk) else Assemble(c, m, chunk)
  }

  // -- the frame loop ------------------------------------------------------

  // What the head of the buffer amounts to, before any state is touched.
  datatype Verdict = Wait | Bad(code: word, reason: string) | Good(h: Header)

  function Police(c: Config, w: bytes): (v: Verdict) {
    match ParseHeader(w)
    case ProtocolError => Bad(1002, "malformed frame header")
    case NeedMore => Wait
    case Parsed(h) =>
      if h.rsv2 || h.rsv3 then Bad(1002, "reserved bits set")
      else if h.rsv1 then Bad(1002, "unexpected RSV1")
      else if c.role.Server? && !h.masked then Bad(1002, "client frame not masked")
      else if c.role.Client? && h.masked then Bad(1002, "server frame masked")
      else if !h.IsControl() && h.len > c.cap then Bad(1009, "frame exceeds message cap")
      else if h.IsControl() && h.headerLen + h.len > |w| then Wait
      else Good(h)
  }

  // Bytes of w the accepted header stands for: a control frame whole, a data
  // frame's header only.
  function Span(h: Header): (n: nat) {
    if h.IsControl() then h.headerLen + h.len else h.headerLen
  }

  function ControlPayload(h: Header, w: bytes): (p: bytes)
    requires h.headerLen + h.len <= |w|
  {
    var p := w[h.headerLen..h.headerLen + h.len];
    if h.masked then Masked(p, h.key, 0) else p
  }

  // One round of the loop. The unread rest of the buffer comes back; Stuck
  // says the loop leaves.
  datatype Round = Round(m: Machine, rest: bytes, stuck: bool)

  lemma GoodSpan(c: Config, w: bytes)
    ensures Police(c, w).Good? ==> 2 <= Span(Police(c, w).h) <= |w|
    ensures !Police(c, w).Wait? ==> w != []
  {
    if !ParseHeader(w).NeedMore? {
      VerdictStable(w, []);
    }
  }

  function Step(c: Config, m: Machine, w: bytes): (r: Round)
    ensures !r.stuck ==> |r.rest| < |w|
  {
    if m.inb.stream.Streaming? then
      var take := Min(|w|, m.inb.stream.remaining);
      if take == 0 then Round(m, w, true)
      else Round(Chunk(c, m, w[..take]), w[take..], false)
    else
      var v := Police(c, w);
      match v
      case Wait => Round(m, w, true)
      case Bad(code, reason) => GoodSpan(c, w); Round(Fail(c, m, code, reason), [], false)
      case Good(h) =>
        GoodSpan(c, w);
        Round(if h.IsControl() then HandleControl(c, m, h.opcode, ControlPayload(h, w)) else DataHeader(c, m, h),
              w[Span(h)..], false)
  }

  // The loop of Ingest on a buffer w, the leftover stored as the new carry.
  function Loop(c: Config, m: Machine, w: bytes): (r: Machine)
    decreases |w|
  {
    if m.st.drain then m
    else
      var r := Step(c, m, w);
      if r.stuck then r.m.(inb := r.m.inb.(carry := r.rest)) else Loop(c, r.m, r.rest)
  }

  function Ingest(c: Config, m: Machine, data: bytes): (r: Machine) {
    if m.st.drain || data == [] then m
    else Loop(c, m.(inb := m.inb.(carry := [])), m.inb.carry + data)
  }
}
