// What a session is handed for a read is what its protocol machine makes of
// the bytes: every Ingest of a server machine is a list of turns, its message
// handler run at each message (source/units/WS.Server.pas).

module Reads {
  import opened Bytes
  import opened Frame
  import opened Machine
  import M = Machine
  import Utf8
  import opened Segmentation
  import Peers
  import Connection
  import S = Session

  // A server's message handler: what it sends, given the story so far.
  type Handler = seq<S.Note> -> seq<S.Act>

  // The session's part of the machine: everything but the bytes under way.
  ghost predicate SameOutside(a: Machine, b: Machine) {
    a.st == b.st && a.outb == b.outb
  }

  // The messages among a machine's events.
  function Told(trace: seq<Event>): (notes: seq<S.Note>) {
    if trace == [] then [] else
    var rest := Told(trace[..|trace| - 1]);
    var e := trace[|trace| - 1];
    if e.Message? then rest + [S.Delivered(e.text, e.data)] else rest
  }

  // Everything among them but pongs, which the session never hears of.
  function Seen(trace: seq<Event>): (events: seq<Event>) {
    if trace == [] then [] else
    var rest := Seen(trace[..|trace| - 1]);
    var e := trace[|trace| - 1];
    if e.Pong? then rest else rest + [e]
  }

  lemma ToldMore(trace: seq<Event>, e: Event)
    ensures Told(trace + [e]) == if e.Message? then Told(trace) + [S.Delivered(e.text, e.data)] else Told(trace)
    ensures Seen(trace + [e]) == if e.Pong? then Seen(trace) else Seen(trace) + [e]
  {
    assert (trace + [e])[..|trace|] == trace;
  }

  function Reaction(h: Handler, t: seq<Event>): (cmds: seq<Command>) {
    if t != [] && t[|t| - 1].Message? then S.Commands(h(Told(t))) else []
  }

  // The machine's callbacks are the session's: OnMessage runs the handler,
  // nothing else is assigned.
  ghost predicate Hears(c: Config, h: Handler) {
    c.role.Server? && forall t :: c.react(t) == Reaction(h, t)
  }

  lemma HandlerEmit(c: Config, h: Handler, m: Machine, e: Event)
    requires Hears(c, h)
    ensures !e.Message? ==> Emit(c, m, e) == m.(trace := m.trace + [e])
    ensures e.Message? ==>
              Emit(c, m, e) == DoAll(c, m.(trace := m.trace + [e]), S.Commands(h(Told(m.trace + [e]))))
  {
    assert c.react(m.trace + [e]) == Reaction(h, m.trace + [e]);
  }

  // What the machine reports as a turn happens.
  function EventOf(turn: S.Turn): (e: Event) {
    match turn
    case Reply(ping) => Ping(ping)
    case Arrive(text, data, _) => Message(text, data)
    case PeerClose(code, reason) => Closed(code, reason)
    case Broken(code, why) => Closed(code, Ascii(why))
  }

  function EventsOf(turns: seq<S.Turn>): (events: seq<Event>)
    decreases |turns|
  {
    if turns == [] then [] else [EventOf(turns[0])] + EventsOf(turns[1..])
  }

  // Every message of the turns comes with what the handler does about it.
  ghost predicate Scripted(h: Handler, told: seq<S.Note>, turns: seq<S.Turn>)
    decreases |turns|
  {
    turns == [] ||
    (var now := told + S.Heard([turns[0]]);
     && (turns[0].Arrive? ==> turns[0].script == S.Script(h(now), false, []))
     && Scripted(h, now, turns[1..]))
  }

  // r comes of m by the turns, in their order.
  ghost predicate Played(h: Handler, m: Machine, turns: seq<S.Turn>, r: Machine) {
    && SameOutside(r, S.PlayAll(m, turns)) && Scripted(h, Told(m.trace), turns)
    && Told(r.trace) == Told(m.trace) + S.Heard(turns)
    && Seen(r.trace) == Seen(m.trace) + EventsOf(turns)
  }

  lemma PlayedOne(h: Handler, m: Machine, turn: S.Turn, r: Machine)
    requires !m.st.drain && SameOutside(r, S.Play(m, turn)) && Told(r.trace) == Told(m.trace) + S.Heard([turn])
    requires Seen(r.trace) == Seen(m.trace) + [EventOf(turn)]
    requires turn.Arrive? ==> turn.script == S.Script(h(Told(r.trace)), false, [])
    ensures Played(h, m, [turn], r)
  {
    assert S.PlayAll(m, [turn]) == S.PlayAll(S.Play(m, turn), []);
    assert EventsOf([turn]) == [EventOf(turn)] + EventsOf([]);
    assert [turn][1..] == [] && Scripted(h, Told(r.trace), []);
  }

  lemma FailPlayed(c: Config, h: Handler, m: Machine, code: word, why: string)
    requires Hears(c, h) && !m.st.drain
    ensures Played(h, m, [S.Broken(code, why)], Fail(c, m, code, why))
  {
    var st := m.st.(failed := true, drain := true, code := code, reason := Ascii(why));
    var m1 := QueueClose(c, m.(inb := BLANK, st := st), code, Ascii(why));
    var e := Closed(code, Ascii(why));
    HandlerEmit(c, h, m1, e);
    S.SilentEmit(QueueClose(S.SERVER, m.(inb := BLANK, st := st), code, Ascii(why)), e);
    ToldMore(m.trace, e);
    PlayedOne(h, m, S.Broken(code, why), Fail(c, m, code, why));
  }

  lemma ClosePlayed(c: Config, h: Handler, m: Machine, code: word, reason: bytes)
    requires Hears(c, h) && !m.st.drain
    ensures Played(h, m, [S.PeerClose(code, reason)], M.PeerClose(c, m, code, reason))
  {
    var m1 := m.(inb := BLANK, st := m.st.(closeReceived := true, drain := true));
    var m2 := m1.(st := m1.st.(code := code, reason := reason));
    var e := Closed(code, reason);
    HandlerEmit(c, h, if m1.st.closeSent then m1 else QueueClose(c, m2, code, []), e);
    S.SilentEmit(if m1.st.closeSent then m1 else QueueClose(S.SERVER, m2, code, []), e);
    ToldMore(m.trace, e);
    PlayedOne(h, m, S.PeerClose(code, reason), M.PeerClose(c, m, code, reason));
  }

  // Failing does not depend on the bytes under way.
  lemma FailFrom(c: Config, h: Handler, m0: Machine, m: Machine, code: word, why: string) returns (turns: seq<S.Turn>)
    requires Hears(c, h) && !m0.st.drain && SameOutside(m0, m) && m0.trace == m.trace
    ensures Played(h, m0, turns, Fail(c, m, code, why)) && |turns| <= 1
  {
    FailPlayed(c, h, m0, code, why);
    assert Fail(c, m, code, why) == Fail(c, m0, code, why);
    turns := [S.Broken(code, why)];
  }

  // A handler's acts, in the machine and in the session.
  lemma {:induction false} ActsOutside(c: Config, a: Machine, b: Machine, acts: seq<S.Act>)
    requires c.role.Server? && SameOutside(a, b)
    ensures SameOutside(DoAll(c, a, S.Commands(acts)), S.PlayActs(b, acts))
    decreases |acts|
  {
    if acts != [] {
      var cmd := S.CommandOf(acts[0]);
      assert S.Commands(acts)[1..] == S.Commands(acts[1..]);
      ActsOutside(c, Do(c, a, cmd), Do(S.SERVER, b, cmd), acts[1..]);
    }
  }

  lemma FinishPlayed(c: Config, h: Handler, m0: Machine, m: Machine, data: bytes) returns (turns: seq<S.Turn>)
    requires Hears(c, h) && !m0.st.drain && SameOutside(m0, m) && m0.trace == m.trace
    ensures Played(h, m0, turns, Finish(c, m, data)) && |turns| <= 1
  {
    if m.inb.text && m.inb.utf8 != Utf8.ACCEPT {
      turns := FailFrom(c, h, m0, m, 1007, "truncated UTF-8 at message end");
    } else {
      var e := Message(m.inb.text, data);
      var m1 := m.(inb := m.inb.(inMessage := false, msg := []));
      HandlerEmit(c, h, m1, e);
      ToldMore(m.trace, e);
      var acts := h(Told(m.trace + [e]));
      var turn := S.Arrive(m.inb.text, data, S.Script(acts, false, []));
      assert S.Heard([turn]) == [S.Delivered(m.inb.text, data)] + S.Heard([turn][1..]);
      ActsOutside(c, m1.(trace := m.trace + [e]), m0, acts);
      DoAllView(c, m1.(trace := m.trace + [e]), S.Commands(acts));
      PlayedOne(h, m0, turn, Finish(c, m, data));
      turns := [turn];
    }
  }

  lemma CloseFramePlayed(c: Config, h: Handler, m: Machine, p: bytes) returns (turns: seq<S.Turn>)
    requires Hears(c, h) && !m.st.drain
    ensures Played(h, m, turns, HandleControl(c, m, OP_CLOSE, p)) && |turns| <= 1
  {
    match NoteOf(p)
    case Ends(code, reason) =>
      ClosePlayed(c, h, m, code, reason);
      turns := [S.PeerClose(code, reason)];
    case Breaks(code, why) =>
      FailPlayed(c, h, m, code, why);
      turns := [S.Broken(code, why)];
  }

  lemma ControlPlayed(c: Config, h: Handler, m: Machine, op: byte, p: bytes) returns (turns: seq<S.Turn>)
    requires Hears(c, h) && !m.st.drain
    ensures Played(h, m, turns, HandleControl(c, m, op, p)) && |turns| <= 1
  {
    if op == OP_PING {
      var m1 := Do(c, m, SendPong(p));
      HandlerEmit(c, h, m1, Ping(p));
      ToldMore(m.trace, Ping(p));
      assert S.Heard([S.Reply(p)]) == S.Heard([S.Reply(p)][1..]);
      PlayedOne(h, m, S.Reply(p), HandleControl(c, m, op, p));
      turns := [S.Reply(p)];
    } else if op == OP_PONG {
      HandlerEmit(c, h, m, Pong(p));
      ToldMore(m.trace, Pong(p));
      turns := [];
    } else {
      turns := CloseFramePlayed(c, h, m, p);
      assert HandleControl(c, m, op, p) == HandleControl(c, m, OP_CLOSE, p);
    }
  }

  // The header of a data frame: refused, or nothing outside has changed.
  lemma BeginPlayed(c: Config, h: Handler, m: Machine, head: Header) returns (turns: seq<S.Turn>)
    requires Hears(c, h) && !m.st.failed && !m.st.drain
    ensures Played(h, m, turns, BeginData(c, m, head)) && |turns| <= 1
    ensures var r := BeginData(c, m, head); r.st.failed || (SameOutside(m, r) && r.trace == m.trace && turns == [])
  {
    var held := if head.opcode == OP_CONT then |m.inb.msg| else 0;
    turns := [];
    if head.opcode == OP_CONT && !m.inb.inMessage {
      turns := FailFrom(c, h, m, m, 1002, "continuation without a message");
      FailView(c, m, 1002, "continuation without a message");
    } else if head.opcode != OP_CONT && m.inb.inMessage {
      turns := FailFrom(c, h, m, m, 1002, "new data opcode inside a fragmented message");
      FailView(c, m, 1002, "new data opcode inside a fragmented message");
    } else if held + head.len > c.cap {
      turns := FailFrom(c, h, m, m, 1009, "message too big");
      FailView(c, m, 1009, "message too big");
    }
  }

  lemma DataHeaderPlayed(c: Config, h: Handler, m: Machine, head: Header) returns (turns: seq<S.Turn>)
    requires Hears(c, h) && !m.st.failed && !m.st.drain
    ensures Played(h, m, turns, DataHeader(c, m, head)) && |turns| <= 1
  {
    var r := BeginData(c, m, head);
    turns := BeginPlayed(c, h, m, head);
    if !r.st.failed && head.len == 0 && head.fin {
      turns := FinishPlayed(c, h, m, r, r.inb.msg);
    }
  }

  lemma ChunkPlayed(c: Config, h: Handler, m: Machine, chunk: bytes) returns (turns: seq<S.Turn>)
    requires Hears(c, h) && !m.st.drain && m.inb.stream.Streaming? && |chunk| <= m.inb.stream.remaining
    ensures Played(h, m, turns, Chunk(c, m, chunk)) && |turns| <= 1
  {
    var s := m.inb.stream;
    var plain := Unmask(s, chunk);
    var u := if m.inb.text then Utf8.Advance(m.inb.utf8, plain) else m.inb.utf8;
    if m.inb.text && u == Utf8.REJECT {
      turns := FailFrom(c, h, m, m, 1007, "invalid UTF-8");
    } else if s.fin && m.inb.msg == [] && |chunk| == s.remaining {
      turns := FinishPlayed(c, h, m, m.(inb := m.inb.(utf8 := u, stream := Idle)), plain);
    } else {
      var m1 := m.(inb := m.inb.(msg := m.inb.msg + plain, utf8 := u, stream := Rest(s, |chunk|)));
      if |chunk| == s.remaining && s.fin {
        turns := FinishPlayed(c, h, m, m1, m1.inb.msg);
      } else {
        turns := [];
      }
    }
  }

  lemma StepPlayed(c: Config, h: Handler, m: Machine, w: bytes) returns (turns: seq<S.Turn>)
    requires Hears(c, h) && !m.st.failed && !m.st.drain
    ensures Played(h, m, turns, Step(c, m, w).m) && |turns| <= 1
  {
    if m.inb.stream.Streaming? {
      var take := Min(|w|, m.inb.stream.remaining);
      if take == 0 {
        turns := [];
      } else {
        turns := ChunkPlayed(c, h, m, w[..take]);
      }
    } else {
      var v := Police(c, w);
      match v
      case Wait => turns := [];
      case Bad(code, reason) => turns := FailFrom(c, h, m, m, code, reason);
      case Good(head) =>
        GoodSpan(c, w);
        if head.IsControl() {
          turns := ControlPlayed(c, h, m, head.opcode, ControlPayload(head, w));
        } else {
          turns := DataHeaderPlayed(c, h, m, head);
        }
    }
  }

  // -- a whole read --------------------------------------------------------

  lemma CloseOutside(a: Machine, b: Machine, code: word, reason: bytes)
    requires SameOutside(a, b)
    ensures SameOutside(M.PeerClose(S.SERVER, a, code, reason), M.PeerClose(S.SERVER, b, code, reason))
    ensures M.PeerClose(S.SERVER, a, code, reason).st.drain
  {
    S.SilentEmit(a, Closed(code, reason));
    var m1 := a.(inb := BLANK, st := a.st.(closeReceived := true, drain := true));
    var n1 := b.(inb := BLANK, st := b.st.(closeReceived := true, drain := true));
    var m2, n2 := m1.(st := m1.st.(code := code, reason := reason)), n1.(st := n1.st.(code := code, reason := reason));
    var e := Closed(code, reason);
    S.SilentEmit(if m1.st.closeSent then m1 else QueueClose(S.SERVER, m2, code, []), e);
    S.SilentEmit(if n1.st.closeSent then n1 else QueueClose(S.SERVER, n2, code, []), e);
  }

  lemma FailOutside(a: Machine, b: Machine, code: word, why: string)
    requires SameOutside(a, b)
    ensures SameOutside(Fail(S.SERVER, a, code, why), Fail(S.SERVER, b, code, why))
    ensures Fail(S.SERVER, a, code, why).st.drain
  {
    var st := a.st.(failed := true, drain := true, code := code, reason := Ascii(why));
    var e := Closed(code, Ascii(why));
    S.SilentEmit(QueueClose(S.SERVER, a.(inb := BLANK, st := st), code, Ascii(why)), e);
    S.SilentEmit(QueueClose(S.SERVER, b.(inb := BLANK, st := st), code, Ascii(why)), e);
  }

  lemma PlayCongruent(a: Machine, b: Machine, turn: S.Turn)
    requires SameOutside(a, b)
    ensures SameOutside(S.Play(a, turn), S.Play(b, turn))
  {
    match turn
    case Reply(_) =>
    case Arrive(_, _, script) =>
      ActsOutside(S.SERVER, a, a, script.acts);
      ActsOutside(S.SERVER, a, b, script.acts);
    case PeerClose(code, reason) => CloseOutside(a, b, code, reason);
    case Broken(code, why) => FailOutside(a, b, code, why);
  }

  lemma {:induction false} PlayAllCongruent(a: Machine, b: Machine, turns: seq<S.Turn>)
    requires SameOutside(a, b)
    ensures SameOutside(S.PlayAll(a, turns), S.PlayAll(b, turns))
    decreases |turns|
  {
    if turns != [] && !a.st.drain {
      PlayCongruent(a, b, turns[0]);
      PlayAllCongruent(S.Play(a, turns[0]), S.Play(b, turns[0]), turns[1..]);
    }
  }

  lemma HeardJoin(turn: S.Turn, b: seq<S.Turn>)
    ensures S.Heard([turn] + b) == if turn.PeerClose? || turn.Broken? then [] else S.Heard([turn]) + S.Heard(b)
  {
    assert ([turn] + b)[1..] == b && [turn][1..] == [];
  }

  lemma PlayFailed(m: Machine, turns: seq<S.Turn>)
    requires |turns| <= 1 && (m.st.failed ==> m.st.drain)
    ensures S.PlayAll(m, turns).st.failed ==> S.PlayAll(m, turns).st.drain
  {
    if turns != [] && !m.st.drain {
      assert turns[1..] == [];
      match turns[0]
      case Reply(_) =>
      case Arrive(_, _, script) =>
        ActsOutside(S.SERVER, m, m, script.acts);
        DoAllView(S.SERVER, m, S.Commands(script.acts));
      case PeerClose(code, reason) => CloseOutside(m, m, code, reason);
      case Broken(code, why) => FailOutside(m, m, code, why);
    }
  }

  lemma Regrouped<T>(a: seq<T>, b: seq<T>, c: seq<T>)
    ensures (a + b) + c == a + (b + c)
  {
  }

  lemma HeardThen(turn: S.Turn, over: bool, b: seq<S.Turn>, was: seq<S.Note>)
    requires (turn.PeerClose? || turn.Broken? ==> over) && (over ==> b == [])
    ensures was + S.Heard([turn] + b) == (was + S.Heard([turn])) + S.Heard(b)
  {
    HeardJoin(turn, b);
    Regrouped(was, S.Heard([turn]), S.Heard(b));
  }

  lemma EventsThen(turn: S.Turn, b: seq<S.Turn>, was: seq<Event>)
    ensures was + EventsOf([turn] + b) == (was + EventsOf([turn])) + EventsOf(b)
  {
    assert ([turn] + b)[1..] == b && [turn][1..] == [];
    assert EventsOf([turn]) == [EventOf(turn)];
    Regrouped(was, [EventOf(turn)], EventsOf(b));
  }

  lemma PlayedFirst(m: Machine, turn: S.Turn, b: seq<S.Turn>)
    requires !m.st.drain
    ensures S.PlayAll(m, [turn] + b) == S.PlayAll(S.Play(m, turn), b)
  {
    assert ([turn] + b)[1..] == b && ([turn] + b)[0] == turn;
  }

  // The inbound side is shut by either of these.
  lemma LastTurn(m: Machine, turn: S.Turn)
    ensures turn.PeerClose? || turn.Broken? ==> S.Play(m, turn).st.drain
  {
    match turn
    case Reply(_) =>
    case Arrive(_, _, _) =>
    case PeerClose(code, reason) => CloseOutside(m, m, code, reason);
    case Broken(code, why) => FailOutside(m, m, code, why);
  }

  lemma ScriptedThen(h: Handler, told: seq<S.Note>, turn: S.Turn, b: seq<S.Turn>)
    requires Scripted(h, told, [turn]) && Scripted(h, told + S.Heard([turn]), b)
    ensures Scripted(h, told, [turn] + b)
  {
    assert ([turn] + b)[1..] == b && [turn][1..] == [];
  }

  // A turn and then the rest.
  lemma TurnThenRest(h: Handler, m: Machine, turn: S.Turn, m1: Machine, b: seq<S.Turn>, r: Machine)
    requires !m.st.drain && Played(h, m, [turn], m1) && Played(h, m1, b, r) && (m1.st.drain ==> b == [])
    ensures Played(h, m, [turn] + b, r)
  {
    assert SameOutside(m1, S.Play(m, turn)) by {
      PlayedFirst(m, turn, []);
      assert [turn] + [] == [turn];
    }
    assert SameOutside(r, S.PlayAll(m, [turn] + b)) by {
      PlayedFirst(m, turn, b);
      PlayAllCongruent(m1, S.Play(m, turn), b);
    }
    assert Told(r.trace) == Told(m.trace) + S.Heard([turn] + b) by {
      LastTurn(m, turn);
      HeardThen(turn, m1.st.drain, b, Told(m.trace));
    }
    assert Seen(r.trace) == Seen(m.trace) + EventsOf([turn] + b) by {
      EventsThen(turn, b, Seen(m.trace));
    }
    ScriptedThen(h, Told(m.trace), turn, b);
  }

  // A round and then the rest.
  lemma PlayedJoin(h: Handler, m: Machine, a: seq<S.Turn>, m1: Machine, b: seq<S.Turn>, r: Machine)
    requires !m.st.drain && Played(h, m, a, m1) && |a| <= 1 && Played(h, m1, b, r) && (m1.st.drain ==> b == [])
    ensures Played(h, m, a + b, r)
  {
    if a == [] {
      assert a + b == b;
      assert Told(m1.trace) == Told(m.trace) && Seen(m1.trace) == Seen(m.trace);
      PlayAllCongruent(m1, m, b);
    } else {
      var turn := a[0];
      assert a == [turn];
      TurnThenRest(h, m, turn, m1, b, r);
    }
  }

  lemma {:induction false} LoopPlayed(c: Config, h: Handler, m: Machine, w: bytes) returns (turns: seq<S.Turn>)
    requires Hears(c, h) && (m.st.failed ==> m.st.drain)
    ensures Played(h, m, turns, Loop(c, m, w)) && (m.st.drain ==> turns == [])
    decreases |w|
  {
    turns := [];
    if !m.st.drain {
      var r := Step(c, m, w);
      turns := StepPlayed(c, h, m, w);
      if !r.stuck {
        PlayFailed(m, turns);
        var more := LoopPlayed(c, h, r.m, r.rest);
        PlayedJoin(h, m, turns, r.m, more, Loop(c, r.m, r.rest));
        turns := turns + more;
      }
    }
  }

  // Every read of a server machine is the turns it parses to, its handler run
  // at each message: the same frames queued in the same order, the same
  // messages told, the same close state.
  lemma ReadIsTurns(c: Config, h: Handler, m: Machine, data: bytes) returns (turns: seq<S.Turn>)
    requires Hears(c, h) && (m.st.failed ==> m.st.drain)
    ensures Played(h, m, turns, Ingest(c, m, data))
  {
    if m.st.drain || data == [] {
      turns := [];
    } else {
      turns := LoopPlayed(c, h, m.(inb := m.inb.(carry := [])), m.inb.carry + data);
      PlayAllCongruent(m.(inb := m.inb.(carry := [])), m, turns);
    }
  }

  // Callbacks of any kind, pings and closes answered too: the machine reports
  // those turns, in their order, and shuts exactly when they do.
  lemma ReadIsTurnsForAny(c: Config, m: Machine, data: bytes) returns (turns: seq<S.Turn>)
    requires c.role.Server? && Settled(c, m)
    ensures Played(notes => [], m, turns, Ingest(Connection.Quiet(c), m, data))
    ensures var r := Ingest(c, m, data);
            && Seen(r.trace) == Seen(m.trace) + EventsOf(turns)
            && Told(r.trace) == Told(m.trace) + S.Heard(turns)
            && r.st.failed == S.PlayAll(m, turns).st.failed
            && r.st.closeReceived == S.PlayAll(m, turns).st.closeReceived
  {
    turns := ReadIsTurns(Connection.Quiet(c), notes => [], m, data);
    Peers.HandlersDoNotSteerInput(c, m, Connection.Quiet(c), m, data);
  }

  // The session's read is the machine's: from machines alike, a connection
  // that plays those turns and neither loses its peer nor is told to go has
  // made the frames the machine makes of the bytes with the same handler, in
  // the same order between its answers, and the same bytes of them.
  method ReadAsMachine(conn: S.Conn, ghost c: Config, ghost h: Handler, ghost m: Machine, ghost data: bytes,
      turns: seq<S.Turn>)
    returns (ok: bool)
    requires Hears(c, h) && Played(h, m, turns, Ingest(c, m, data)) && S.Alike(conn.proto, m)
    requires conn.Standing() && conn.inDelivery && conn.hasProto && !conn.state.Handshake?
    requires !conn.faulted && !conn.committed
    modifies conn, conn.t
    ensures !conn.faulted && !conn.dropDeferred ==>
              && S.Alike(conn.proto, Ingest(c, m, data)) && ok == !Ingest(c, m, data).st.failed
              && conn.proto.outb.taken + conn.proto.outb.queue == EncodeAll(M.Server, Ingest(c, m, data).outb.log)
  {
    S.PlayAllAlike(conn.proto, m, turns);
    ok := conn.Ingest(turns);
  }
}
