// A server connection (TWSConnection and the per-connection half of
// TWSServer, source/units/WS.Server.pas) over the plaintext epoll
// transport. What the application's handlers do, what a read parses to, when
// system calls fall short and when time passes are inputs.

module Session {
  import opened Bytes
  import opened Frame
  import M = Machine
  import Safety
  import opened Epoll

  datatype State = Handshake | Open | Closing

  // What the application is told, in order.
  datatype Note = Opened | Delivered(text: bool, data: bytes) | Gone

  // What a handler does to this connection before it returns or raises;
  // onError is what OnError does about the latter.
  datatype Act = Text(data: bytes) | Binary(data: bytes) | Goodbye(code: M.word, reason: bytes)
  datatype Script = Script(acts: seq<Act>, raises: bool, onError: seq<Act>)

  // What one read makes the protocol machine do, a frame at a time.
  datatype Turn = Reply(pong: bytes) | Arrive(text: bool, data: bytes, script: Script)
                | PeerClose(code: M.word, reason: bytes) | Broken(code: M.word, why: string)

  // What a complete request is answered with: a bare refusal (400), a queued
  // response (a plain answer, a 403), or the 101.
  datatype Answer = Refuse(response: bytes) | Respond(response: bytes) | Upgrade(response: bytes, onOpen: Script)

  // What a read amounts to ahead of the upgrade, and behind it.
  datatype Input = Partial | TooLarge(response: bytes) | Request(answer: Answer, pipelined: seq<Turn>)
                 | Frames(turns: seq<Turn>)

  datatype Job = Proc(script: Script) | Check

  // What happens to a connection.
  datatype Event = Data(input: Input, rng: M.Rng) | Ready | Hangup | Posted(job: Job) | Owner(act: Act) | Swept

  // Milliseconds; 0 or less switches a clock or the cap off.
  datatype Settings = Settings(handshakeMs: int, closeMs: int, idleMs: int, pingMs: int, maxPending: int,
                               directMin: nat)

  // The machine of a server; its owner's sends are made by the connection.
  const SERVER: M.Config := M.Config(M.Server, 0, t => [])

  function Earliest(a: nat, b: nat): (e: nat)
    ensures (e == a || e == b) && (e == 0 ==> a == b == 0) && (a != 0 ==> e <= a) && (b != 0 ==> e <= b)
  {
    if a == 0 then b else if b == 0 then a else Min(a, b)
  }

  // OnOpen, then messages.
  ghost predicate OpenRun(notes: seq<Note>) {
    && notes != [] && notes[0] == Opened
    && forall i :: 1 <= i < |notes| ==> notes[i].Delivered?
  }

  // The whole of a connection's story: silence, or OnOpen, messages and one
  // OnClientClose.
  ghost predicate Complete(notes: seq<Note>) {
    notes == [] || (notes[|notes| - 1] == Gone && OpenRun(notes[..|notes| - 1]))
  }

  // -- the protocol machine as the session sees it -------------------------

  // Frames logged are frames on the wire or queued, the close frame last.
  ghost predicate Framed(m: M.Machine) {
    Safety.OutInv(SERVER, m)
  }

  lemma DoFramed(m: M.Machine, cmd: M.Command)
    requires Framed(m)
    ensures var r := M.Do(SERVER, m, cmd);
            && Framed(r) && r.outb.taken == m.outb.taken && m.outb.queue <= r.outb.queue && m.outb.log <= r.outb.log
            && r.st.drain == m.st.drain && r.st.failed == m.st.failed && r.st.closeReceived == m.st.closeReceived
            && r.st.closeSent == (m.st.closeSent || cmd.SendClose?)
            && (m.st.closeSent ==> r == m)
  {
    Safety.DoInv(SERVER, m, cmd);
  }

  lemma RawFramed(m: M.Machine, data: bytes)
    requires Framed(m)
    ensures var r := M.QueueRaw(m, data);
            Framed(r) && r.outb.taken == m.outb.taken && r.outb.queue == m.outb.queue + data && r.st == m.st
  {
    Safety.PushWire(SERVER, m.outb, M.Raw(data));
    Safety.LogMore(m.outb.log, M.Raw(data), m.st.closeSent);
  }

  lemma OneRaw(data: bytes)
    ensures M.EncodeAll(M.Server, [M.Raw(data)]) == data
  {
    assert M.EncodeAll(M.Server, [M.Raw(data)]) == M.EncodeAll(M.Server, []) + data;
  }

  lemma TakeFramed(m: M.Machine, n: nat)
    requires Framed(m) && n <= |m.outb.queue|
    ensures var r := M.Take(m, n);
            && Framed(r) && r.outb.taken == m.outb.taken + m.outb.queue[..n]
            && r.outb.queue == m.outb.queue[n..] && r.st == m.st
  {
    Safety.TakeInv(SERVER, m, n);
  }

  lemma SilentEmit(m: M.Machine, e: M.Event)
    ensures M.Emit(SERVER, m, e) == m.(trace := m.trace + [e])
  {
  }

  // Fail and an incoming close queue at most one close frame and shut the
  // inbound side.
  ghost predicate ShutDown(m: M.Machine, r: M.Machine) {
    && Framed(r) && r.outb.taken == m.outb.taken && m.outb.queue <= r.outb.queue && m.outb.log <= r.outb.log
    && r.st.drain && r.st.closeSent
  }

  lemma FailFramed(m: M.Machine, code: M.word, why: string)
    requires Framed(m)
    ensures ShutDown(m, M.Fail(SERVER, m, code, why)) && M.Fail(SERVER, m, code, why).st.failed
  {
    var st := m.st.(failed := true, drain := true, code := code, reason := Ascii(why));
    var m1 := m.(inb := M.BLANK, st := st);
    Safety.QueueCloseInv(SERVER, m1, code, Ascii(why));
    SilentEmit(M.QueueClose(SERVER, m1, code, Ascii(why)), M.Closed(code, Ascii(why)));
  }

  lemma PeerCloseFramed(m: M.Machine, code: M.word, reason: bytes)
    requires Framed(m)
    ensures var r := M.PeerClose(SERVER, m, code, reason);
            && ShutDown(m, r) && r.st.closeReceived && r.st.failed == m.st.failed
            && (!m.st.closeSent ==> |m.outb.queue| < |r.outb.queue| <= |m.outb.queue| + 127)
  {
    var m1 := m.(inb := M.BLANK, st := m.st.(closeReceived := true, drain := true));
    var m2 := m1.(st := m1.st.(code := code, reason := reason));
    Safety.QueueCloseInv(SERVER, m2, code, []);
    SilentEmit(if m1.st.closeSent then m1 else M.QueueClose(SERVER, m2, code, []), M.Closed(code, reason));
  }

  lemma FreshFramed(rng: M.Rng)
    ensures Framed(M.Init(rng))
  {
  }

  lemma ResponseFramed(rng: M.Rng, response: bytes)
    ensures var r := M.QueueRaw(M.Init(rng), response);
            && Framed(r) && r.outb.taken == [] && r.outb.queue == response && r.outb.log == [M.Raw(response)]
            && r.st == M.Init(rng).st && !r.st.drain && !r.st.closeSent && !r.st.failed && !r.st.closeReceived
  {
    FreshFramed(rng);
    RawFramed(M.Init(rng), response);
    assert [] + response == response;
    assert [] + [M.Raw(response)] == [M.Raw(response)];
  }

  // -- what a read does, played on the machine -----------------------------

  // The same frames made, the same close state; how many of the bytes have
  // been handed over does not count.
  ghost predicate Alike(a: M.Machine, b: M.Machine) {
    a.st == b.st && a.outb.log == b.outb.log
  }

  function CommandOf(act: Act): M.Command {
    match act
    case Text(data) => M.SendText(data)
    case Binary(data) => M.SendBinary(data)
    case Goodbye(code, reason) => M.SendClose(code, reason)
  }

  function Commands(acts: seq<Act>): (cmds: seq<M.Command>)
    decreases |acts|
  {
    if acts == [] then [] else [CommandOf(acts[0])] + Commands(acts[1..])
  }

  // What a handler asks of the machine.
  function PlayActs(m: M.Machine, acts: seq<Act>): (r: M.Machine)
    decreases |acts|
  {
    if acts == [] then m else PlayActs(M.Do(SERVER, m, CommandOf(acts[0])), acts[1..])
  }

  function Play(m: M.Machine, turn: Turn): (r: M.Machine) {
    match turn
    case Reply(pong) => M.Do(SERVER, m, M.SendPong(pong))
    case Arrive(_, _, script) => PlayActs(m, script.acts)
    case PeerClose(code, reason) => M.PeerClose(SERVER, m, code, reason)
    case Broken(code, why) => M.Fail(SERVER, m, code, why)
  }

  // The turns of a read up to the one that shuts the inbound side.
  function PlayAll(m: M.Machine, turns: seq<Turn>): (r: M.Machine)
    decreases |turns|
  {
    if turns == [] || m.st.drain then m else PlayAll(Play(m, turns[0]), turns[1..])
  }

  lemma DoAlike(a: M.Machine, b: M.Machine, cmd: M.Command)
    requires Alike(a, b)
    ensures Alike(M.Do(SERVER, a, cmd), M.Do(SERVER, b, cmd))
  {
  }

  lemma {:induction false} PlayActsAlike(a: M.Machine, b: M.Machine, acts: seq<Act>)
    requires Alike(a, b)
    ensures Alike(PlayActs(a, acts), PlayActs(b, acts))
    decreases |acts|
  {
    if acts != [] {
      DoAlike(a, b, CommandOf(acts[0]));
      PlayActsAlike(M.Do(SERVER, a, CommandOf(acts[0])), M.Do(SERVER, b, CommandOf(acts[0])), acts[1..]);
    }
  }

  // The first act and then the rest.
  lemma ActsNext(was: M.Machine, now: M.Machine, last: M.Machine, acts: seq<Act>)
    requires acts != [] && Alike(now, M.Do(SERVER, was, CommandOf(acts[0]))) && Alike(last, PlayActs(now, acts[1..]))
    ensures Alike(last, PlayActs(was, acts))
  {
    PlayActsAlike(now, M.Do(SERVER, was, CommandOf(acts[0])), acts[1..]);
  }

  lemma CloseAlike(a: M.Machine, b: M.Machine, code: M.word, reason: bytes)
    requires Alike(a, b)
    ensures Alike(M.PeerClose(SERVER, a, code, reason), M.PeerClose(SERVER, b, code, reason))
  {
    var st := a.st.(closeReceived := true, drain := true);
    var m1, n1 := a.(inb := M.BLANK, st := st), b.(inb := M.BLANK, st := st);
    var st2 := st.(code := code, reason := reason);
    var e := M.Closed(code, reason);
    SilentEmit(if st.closeSent then m1 else M.QueueClose(SERVER, m1.(st := st2), code, []), e);
    SilentEmit(if st.closeSent then n1 else M.QueueClose(SERVER, n1.(st := st2), code, []), e);
  }

  lemma FailAlike(a: M.Machine, b: M.Machine, code: M.word, why: string)
    requires Alike(a, b)
    ensures Alike(M.Fail(SERVER, a, code, why), M.Fail(SERVER, b, code, why))
  {
    var st := a.st.(failed := true, drain := true, code := code, reason := Ascii(why));
    var e := M.Closed(code, Ascii(why));
    SilentEmit(M.QueueClose(SERVER, a.(inb := M.BLANK, st := st), code, Ascii(why)), e);
    SilentEmit(M.QueueClose(SERVER, b.(inb := M.BLANK, st := st), code, Ascii(why)), e);
  }

  lemma PlayAlike(a: M.Machine, b: M.Machine, turn: Turn)
    requires Alike(a, b)
    ensures Alike(Play(a, turn), Play(b, turn))
  {
    match turn
    case Reply(pong) => DoAlike(a, b, M.SendPong(pong));
    case Arrive(_, _, script) => PlayActsAlike(a, b, script.acts);
    case PeerClose(code, reason) => CloseAlike(a, b, code, reason);
    case Broken(code, why) => FailAlike(a, b, code, why);
  }

  lemma {:induction false} PlayAllAlike(a: M.Machine, b: M.Machine, turns: seq<Turn>)
    requires Alike(a, b)
    ensures Alike(PlayAll(a, turns), PlayAll(b, turns))
    decreases |turns|
  {
    if turns != [] && !a.st.drain {
      PlayAlike(a, b, turns[0]);
      PlayAllAlike(Play(a, turns[0]), Play(b, turns[0]), turns[1..]);
    }
  }

  // One turn on: was is played to where now is by the turns ahead of i.
  lemma PlayNext(now: M.Machine, turns: seq<Turn>, i: nat, next: M.Machine, goal: M.Machine)
    requires i < |turns| && !now.st.drain && Alike(PlayAll(now, turns[i..]), goal) && Alike(next, Play(now, turns[i]))
    ensures Alike(PlayAll(next, turns[i + 1..]), goal)
  {
    assert turns[i..][0] == turns[i] && turns[i..][1..] == turns[i + 1..];
    PlayAllAlike(next, Play(now, turns[i]), turns[i + 1..]);
  }

  function Ended(told: seq<Note>): seq<Note> {
    if told == [] then [] else told + [Gone]
  }

  // The messages a read delivers: those ahead of the frame that ends it.
  function Heard(turns: seq<Turn>): seq<Note>
    decreases |turns|
  {
    if turns == [] then [] else
    match turns[0]
    case Reply(_) => Heard(turns[1..])
    case Arrive(text, data, _) => [Delivered(text, data)] + Heard(turns[1..])
    case PeerClose(_, _) => []
    case Broken(_, _) => []
  }

  lemma HeardNext(was: seq<Note>, now: seq<Note>, turns: seq<Turn>, i: nat)
    requires i < |turns| && now + Heard(turns[i..]) == was + Heard(turns)
    ensures match turns[i] {
              case Reply(_) => now + Heard(turns[i + 1..]) == was + Heard(turns)
              case Arrive(text, data, _) =>
                (now + [Delivered(text, data)]) + Heard(turns[i + 1..]) == was + Heard(turns)
              case _ => now == was + Heard(turns)
            }
  {
    assert turns[i..][1..] == turns[i + 1..];
    if turns[i].Arrive? {
      var d := [Delivered(turns[i].text, turns[i].data)];
      assert now + (d + Heard(turns[i + 1..])) == (now + d) + Heard(turns[i + 1..]);
    }
  }

  lemma StoryEnds(notes: seq<Note>)
    requires OpenRun(notes)
    ensures Complete(notes + [Gone])
  {
    assert (notes + [Gone])[..|notes + [Gone]| - 1] == notes;
  }

  // What the machine frames for a message of its owner.
  function Framing(m: M.Machine, text: bool, data: bytes): bytes {
    if m.st.closeSent then [] else HeaderBytes(true, false, DataOpcode(text), false, 0, |data|) + data
  }

  lemma DataFramed(m: M.Machine, text: bool, data: bytes)
    requires Framed(m)
    ensures var r := M.Do(SERVER, m, if text then M.SendText(data) else M.SendBinary(data));
            && Framed(r) && r.outb.taken == m.outb.taken && m.outb.queue <= r.outb.queue && r.st == m.st
            && r.outb.log == (if m.st.closeSent then m.outb.log else m.outb.log + [M.Sent(DataOpcode(text), data, 0)])
            && r.outb.queue == m.outb.queue + Framing(m, text, data)
  {
    DoFramed(m, if text then M.SendText(data) else M.SendBinary(data));
  }

  lemma CloseFramed(m: M.Machine, code: M.word, reason: bytes)
    requires Framed(m)
    ensures var r := M.Do(SERVER, m, M.SendClose(code, reason));
            && Framed(r) && r.outb.taken == m.outb.taken && m.outb.queue <= r.outb.queue
            && r.st == (if m.st.closeSent then m.st else m.st.(closeSent := true, code := code, reason := reason))
            && r.outb.log == if m.st.closeSent then m.outb.log
                             else m.outb.log + [M.Sent(OP_CLOSE, M.ClosePayload(code, reason), 0)]
  {
    DoFramed(m, M.SendClose(code, reason));
  }

  // A gather write that took `took` bytes is a queued send of which so many
  // bytes were consumed.
  lemma DirectFramed(m: M.Machine, text: bool, data: bytes, took: nat)
    requires Framed(m) && !m.st.closeSent && m.outb.queue == [] && took <= |Framing(m, text, data)|
    ensures var r := M.Take(M.Send(SERVER, m, DataOpcode(text), data), took);
            var b := Framing(m, text, data);
            && Framed(r) && r.st == m.st && r.outb.queue == b[took..] && r.outb.taken == m.outb.taken + b[..took]
            && r.outb.log == m.outb.log + [M.Sent(DataOpcode(text), data, 0)]
  {
    DoFramed(m, if text then M.SendText(data) else M.SendBinary(data));
    var s := M.Send(SERVER, m, DataOpcode(text), data);
    var b := Framing(m, text, data);
    assert s.outb.queue == [] + b == b;
    TakeFramed(s, took);
  }

  // What happened to the clocks: the last keepalive ping and peer bytes, the
  // waits Close and BeginDrain armed, when the idle clock closed the
  // connection and when a deadline ran out on it (0: neither did).
  datatype History = History(pinged: bool, pingAt: nat, activity: nat, drainArms: nat, closeArms: nat, armed: nat,
                             idleAt: nat, lapsedAt: nat)

  // Why a connection may go with output behind on a socket that lives.
  datatype Excuse = NoExcuse | OverCap(pending: nat) | Lapsed | PeerLost

  // What is left of a queue once n bytes of it are taken.
  ghost predicate Leaves(was: bytes, n: nat, now: bytes) {
    n <= |was| && was == was[..n] + now
  }

  // Whether a handler's acts on an open, draining connection push out the
  // last of the n bytes that wait there, and keep the connection. Each send
  // offers what is left once; a close is the last that offers anything.
  predicate Empties(acts: seq<Act>, fate: seq<Sys>, n: nat)
    decreases |acts|
  {
    n == 0 ||
    (acts != [] &&
     var o := Offer(fate, n);
     !o.lost && (o.took == n || (!acts[0].Goodbye? && Empties(acts[1..], o.rest, n - o.took))))
  }

  // The first act on a drain and then the rest: lost and still are the state
  // between them, gone and left the end.
  lemma EmptiesNext(acts: seq<Act>, fate: seq<Sys>, n: nat, lost: bool, still: bool, rest: seq<Sys>, k: nat,
      gone: bool, left: nat)
    requires acts != [] && lost == Offer(fate, n).lost && still == !acts[0].Goodbye?
    requires !lost ==> k == n - Offer(fate, n).took && rest == Offer(fate, n).rest
    requires lost ==> gone
    requires !lost && still ==> (Empties(acts[1..], rest, k) <==> !gone && left == 0)
    requires !lost && !still ==> !gone && left == k
    ensures Empties(acts, fate, n) <==> !gone && left == 0
  {
  }

  // A handler that says goodbye.
  predicate Closes(acts: seq<Act>)
    decreases |acts|
  {
    acts != [] && (acts[0].Goodbye? || Closes(acts[1..]))
  }

  // The sweeper's side of a connection: FSweepPosted, and the checks on
  // their way to it.
  class SweepPost {
    var posted: bool
    ghost var due: nat

    // A check is on its way exactly while the flag is up.
    ghost predicate Valid()
      reads this
    {
      due == if posted then 1 else 0
    }

    constructor ()
      ensures Valid() && !posted
    {
      posted, due := false, 0;
    }
  }

  class Conn {
    const t: EpollConn
    const sweep: SweepPost
    const settings: Settings
    const onClose: Script        // OnClientClose

    var state: State
    var hasProto: bool
    var proto: M.Machine
    var inDelivery: bool
    var dropDeferred: bool
    var dropping: bool
    var faulted: bool
    var dropPending: bool
    var attached: bool           // the transport still reports to this object
    var deadline: nat
    var pingDue: nat
    var sweepAt: nat
    var clock: nat

    ghost var freed: bool
    ghost var notes: seq<Note>
    ghost var hist: History
    ghost var committed: bool    // a lapsed deadline is about to drop it
    ghost var excuse: Excuse

    // -- invariants --------------------------------------------------------

    ghost predicate Keepalive()
      reads this
    {
      0 < settings.pingMs < settings.idleMs
    }

    // The idle clock closes only a peer that left a ping unanswered.
    ghost predicate IdleFact()
      reads this
    {
      && (hist.idleAt != 0 ==> state.Closing?)
      && (hist.idleAt != 0 && Keepalive() ==>
            && hist.pinged && hist.activity <= hist.pingAt
            && hist.pingAt + (settings.idleMs - settings.pingMs) <= hist.idleAt)
    }

    ghost predicate Story()
      reads this
    {
      if state.Handshake? then notes == [] else OpenRun(notes)
    }

    ghost predicate Pinging()
      reads this
    {
      if pingDue != 0 then pingDue == hist.activity + settings.pingMs && deadline == hist.activity + settings.idleMs
      else hist.pinged && hist.activity <= hist.pingAt && deadline >= hist.pingAt + (settings.idleMs - settings.pingMs)
    }

    ghost predicate Ticking()
      reads this
    {
      && (dropDeferred || committed || sweepAt == Earliest(deadline, pingDue))
      && (dropPending ==> pingDue == 0)
      && hist.drainArms == (if dropPending then 1 else 0) && hist.closeArms <= 1
      && (hist.closeArms == 1 ==> state.Closing?)
      && (!dropDeferred && !committed && (dropPending || hist.closeArms == 1) ==> deadline == hist.armed)
      && hist.activity <= clock && hist.pingAt <= clock && (settings.closeMs <= 0 ==> hist.armed == 0)
    }

    ghost predicate Clocks()
      reads this
    {
      Ticking() && (!dropDeferred && !committed && state.Open? && !dropPending && Keepalive() ==> Pinging())
    }

    // Everything framed is on the wire or queued, in order.
    ghost predicate Wired()
      reads this, t
    {
      && t.Valid()
      && (!hasProto ==> state.Handshake? && !dropPending && proto.outb.log == [] && (!t.dead ==> t.wire == []))
      && (hasProto ==> Framed(proto) && (!t.dead ==> t.wire == proto.outb.taken))
      && (hasProto ==> proto.st.drain == (proto.st.failed || proto.st.closeReceived))
      && (hasProto && proto.st.drain ==> proto.st.closeSent)
      && (hasProto && state.Open? && proto.st.closeSent ==> proto.st.drain)
      && (state.Closing? ==> proto.st.closeSent)
      && (dropPending && !state.Handshake? && !faulted ==> proto.st.drain)
    }

    ghost predicate Reasons()
      reads this
    {
      && (excuse.OverCap? ==> 0 < settings.maxPending < excuse.pending)
      && (excuse.Lapsed? <==> hist.lapsedAt != 0)
    }

    // A socket that lives has taken every byte framed but the queued ones,
    // and without an excuse none is queued.
    ghost predicate Accounted()
      reads this, t
    {
      hasProto && !t.dead ==>
        && t.wire + proto.outb.queue == M.EncodeAll(M.Server, proto.outb.log)
        && (excuse.NoExcuse? ==> proto.outb.queue == [])
    }

    // A drop is marked over every lost socket, and otherwise only with an
    // excuse.
    ghost predicate Excused()
      reads this, t
    {
      && (t.dead ==> dropDeferred) && (dropDeferred ==> t.dead || !excuse.NoExcuse?)
      && (!excuse.NoExcuse? ==> dropDeferred || committed)
    }

    ghost predicate Droppable()
      reads this
    {
      !freed && !dropping && attached && Story() && IdleFact() && Reasons() && !excuse.PeerLost?
    }

    // Standing, but for a drop that is due.
    ghost predicate Upright()
      reads this, t
    {
      Droppable() && Clocks() && Wired() && (faulted ==> !state.Open?)
    }

    // Standing, the keepalive clocks between two settings.
    ghost predicate Almost()
      reads this, t
    {
      Droppable() && Ticking() && Wired() && (faulted ==> !state.Open?) && Excused()
    }

    ghost predicate Standing()
      reads this, t
    {
      Upright() && Excused()
    }

    // Output that waits has EPOLLOUT armed, and not too much of it waits.
    ghost predicate Poised()
      reads this, t
    {
      && (hasProto && proto.outb.queue != [] ==> t.wantWrite)
      && (hasProto && !dropPending && settings.maxPending > 0 ==> |proto.outb.queue| <= settings.maxPending)
    }

    // Draining with nothing left to drain: no send-ready event will come.
    ghost predicate Stranded()
      reads this
    {
      hasProto && dropPending && proto.outb.queue == []
    }

    // Between the events of the transport.
    ghost predicate Quiet()
      reads this, t
    {
      && Standing() && !inDelivery && !dropDeferred && !committed && Poised()
      && (faulted ==> dropPending)
      && (hasProto && (proto.st.drain || state.Handshake?) ==> dropPending)
      && (Stranded() ==> !faulted && !state.Handshake? && !t.wantWrite)
    }

    // The owner may still send into the drain.
    ghost predicate Draining()
      reads this
    {
      state.Open? && dropPending && !dropDeferred
    }

    // The event that strands a connection: sends or a close, from its owner
    // or a posted procedure, that push out the last of what it drains.
    ghost predicate Strands(e: Event)
      reads this, t
    {
      && Draining()
      && match e
         case Owner(act) => Empties([act], t.fate, |proto.outb.queue|)
         case Posted(Proc(script)) => !script.raises && Empties(script.acts, t.fate, |proto.outb.queue|)
         case _ => false
    }

    // A flush of n bytes ends in a drop: the connection is dead or dies over
    // it, or too much is left.
    ghost predicate Fails(fate: seq<Sys>, n: nat)
      reads this, t
    {
      n > 0 && (t.dead || Offer(fate, n).lost ||
                (settings.maxPending > 0 && !dropPending && n - Offer(fate, n).took > settings.maxPending))
    }

    // Output that ran dry leaves EPOLLOUT withdrawn.
    twostate predicate Disarmed()
      reads this, t
    {
      |proto.outb.queue| == 0 ==>
        if |old(proto.outb.queue)| == 0 then t.wantWrite == old(t.wantWrite) else !t.wantWrite
    }

    // What a flush did: its result, and what of the queue is left.
    twostate predicate Flushed(r: bool)
      reads this, t
    {
      var o := Offer(old(t.fate), |old(proto.outb.queue)|);
      && (r <==> !old(Fails(t.fate, |proto.outb.queue|))) && (r ==> dropDeferred == old(dropDeferred))
      && (!old(t.dead) ==> t.dead == o.lost && t.fate == o.rest)
      && (!freed && !t.dead ==> Leaves(old(proto.outb.queue), o.took, proto.outb.queue) && Disarmed())
    }

    // What one of them did, whichever it was: the whole queue offered once.
    twostate predicate OfferedOnce()
      reads this, t
    {
      var o := Offer(old(t.fate), |old(proto.outb.queue)|);
      && (freed || dropDeferred <==> o.lost)
      && (!freed && !dropDeferred ==>
            |proto.outb.queue| == |old(proto.outb.queue)| - o.took && t.fate == o.rest && Disarmed())
    }

    // What acts on a draining connection did to its queue.
    twostate predicate Pushed(acts: seq<Act>)
      reads this, t
    {
      && (old(Empties(acts, t.fate, |proto.outb.queue|)) <==> !freed && !dropDeferred && |proto.outb.queue| == 0)
      && (!freed && !dropDeferred ==> Disarmed())
    }

    // Released, once, told the end if it was told the beginning, its output
    // accounted for.
    ghost predicate Released()
      reads this, t
    {
      freed && dropping && !attached && Complete(notes) && IdleFact() && Reasons() && Accounted()
    }

    // Released by the session itself: neither its peer nor, since, its time
    // ran out.
    twostate predicate Over(told: seq<Note>)
      reads this, t
    {
      && Released() && notes == Ended(told) && !excuse.PeerLost? && hist.lapsedAt == old(hist.lapsedAt)
      && old(proto.outb.log) <= proto.outb.log && (old(hasProto) ==> hasProto)
    }

    ghost predicate Departing()
      reads this
    {
      dropping && !freed && !attached && IdleFact() && Reasons()
    }

    // HandleAccept, below the connection limit.
    constructor (t: EpollConn, settings: Settings, onClose: Script)
      requires t.Valid() && !t.dead && t.wire == []
      ensures this.t == t && this.settings == settings && this.onClose == onClose && fresh(sweep)
      ensures Quiet() && state.Handshake? && !hasProto && notes == [] && sweep.Valid() && !sweep.posted
      ensures sweepAt == deadline == if settings.handshakeMs > 0 then clock + settings.handshakeMs else 0
    {
      this.t, this.settings, this.onClose := t, settings, onClose;
      state, hasProto, proto := Handshake, false, M.Init(M.Rng(0, 0, 0, 0));
      inDelivery, dropDeferred, dropping, faulted, dropPending, attached := false, false, false, false, false, true;
      deadline, pingDue, sweepAt, clock := 0, 0, 0, 0;
      sweep := new SweepPost();
      freed, notes, hist, committed := false, [], History(false, 0, 0, 0, 0, 0, 0, 0), false;
      excuse := NoExcuse;
      new;
      ArmDeadline(settings.handshakeMs);
    }

    // -- frames ------------------------------------------------------------

    twostate predicate SameFlags()
      reads this
    {
      && state == old(state) && hasProto == old(hasProto) && faulted == old(faulted) && dropPending == old(dropPending)
      && inDelivery == old(inDelivery) && dropping == old(dropping) && attached == old(attached)
      && freed == old(freed) && notes == old(notes) && committed == old(committed)
    }

    twostate predicate SameClocks()
      reads this
    {
      && deadline == old(deadline) && pingDue == old(pingDue) && sweepAt == old(sweepAt)
      && clock == old(clock) && hist == old(hist)
    }

    twostate predicate Same()
      reads this
    {
      && SameFlags() && SameClocks() && proto == old(proto) && dropDeferred == old(dropDeferred)
      && excuse == old(excuse)
    }

    twostate predicate SameInput()
      reads this
    {
      && proto.st.drain == old(proto.st.drain) && proto.st.failed == old(proto.st.failed)
      && proto.st.closeReceived == old(proto.st.closeReceived)
    }

    // What was framed stays framed, and the wait for the drop is armed anew
    // only by Close and BeginDrain.
    twostate predicate Onward()
      reads this
    {
      && old(proto.outb.log) <= proto.outb.log
      && old(hist.closeArms) <= hist.closeArms && old(hist.drainArms) <= hist.drainArms
      && hist.lapsedAt == old(hist.lapsedAt) && (old(hasProto) ==> hasProto)
      && (hist.closeArms == old(hist.closeArms) && hist.drainArms == old(hist.drainArms) ==>
            hist.armed == old(hist.armed))
    }

    // What handlers and owners may have changed on a connection that stands.
    twostate predicate Acted()
      reads this, t
    {
      && Standing() && hasProto == old(hasProto) && faulted == old(faulted) && dropPending == old(dropPending)
      && inDelivery == old(inDelivery) && notes == old(notes) && committed == old(committed)
      && hist.idleAt == old(hist.idleAt)
      && (state == old(state) || (old(state.Open?) && state.Closing?))
      && SameInput() && Onward()
      && (old(dropDeferred) ==> dropDeferred) && (!inDelivery ==> dropDeferred == old(dropDeferred))
      && (old(Poised()) && !dropDeferred ==> Poised())
      && (!old(state.Open?) ==> proto == old(proto) && dropDeferred == old(dropDeferred) && unchanged(t))
    }

    // -- the clocks --------------------------------------------------------

    // WSMonotonicMs: time may have passed.
    method Now() returns (now: nat)
      modifies this
      ensures SameFlags() && deadline == old(deadline) && pingDue == old(pingDue) && sweepAt == old(sweepAt)
      ensures hist == old(hist) && proto == old(proto) && dropDeferred == old(dropDeferred) && excuse == old(excuse)
      ensures old(clock) <= clock == now
    {
      var passed: int :| 0 <= passed;
      clock := clock + passed;
      now := clock;
    }

    method Reschedule()
      modifies this
      ensures SameFlags() && deadline == old(deadline) && pingDue == old(pingDue) && clock == old(clock)
      ensures hist == old(hist) && proto == old(proto) && dropDeferred == old(dropDeferred) && excuse == old(excuse)
      ensures sweepAt == Earliest(deadline, pingDue)
    {
      if deadline == 0 || (pingDue != 0 && pingDue < deadline) {
        sweepAt := pingDue;
      } else {
        sweepAt := deadline;
      }
    }

    method ArmDeadline(ms: int)
      modifies this
      ensures SameFlags() && pingDue == old(pingDue) && old(clock) <= clock
      ensures hist == old(hist) && proto == old(proto) && dropDeferred == old(dropDeferred) && excuse == old(excuse)
      ensures deadline == if ms > 0 then clock + ms else 0
      ensures sweepAt == Earliest(deadline, pingDue)
    {
      if ms > 0 {
        var now := Now();
        deadline := now + ms;
      } else {
        deadline := 0;
      }
      Reschedule();
    }

    // From here the connection only drains: the close budget, once.
    method BeginDrain()
      requires Standing() && hasProto && !dropDeferred && (state.Handshake? || faulted || proto.st.drain)
      modifies this
      ensures Standing() && dropPending && proto == old(proto) && !dropDeferred && excuse == old(excuse)
      ensures state == old(state) && faulted == old(faulted) && inDelivery == old(inDelivery) && notes == old(notes)
      ensures hasProto && committed == old(committed)
      ensures old(dropPending) ==> SameClocks()
      ensures !old(dropPending) ==> deadline == (if settings.closeMs > 0 then clock + settings.closeMs else 0)
      ensures Onward()
    {
      if dropPending { return; }
      dropPending := true;
      pingDue := 0;
      ArmDeadline(settings.closeMs);
      hist := hist.(drainArms := hist.drainArms + 1, armed := deadline);
    }

    // The peer was heard from. A connection that waits for its close or its
    // drain keeps its deadline.
    method NoteActivity()
      requires !dropDeferred && hist.activity <= clock && hist.pingAt <= clock && sweepAt == Earliest(deadline, pingDue)
      modifies this
      ensures SameFlags() && proto == old(proto) && dropDeferred == old(dropDeferred) && excuse == old(excuse)
      ensures old(clock) <= clock && hist == old(hist).(activity := hist.activity) && hist.activity <= clock
      ensures sweepAt == Earliest(deadline, pingDue)
      ensures !state.Open? || dropPending ==> SameClocks()
      ensures state.Open? && !dropPending ==>
                && hist.activity == clock && deadline == (if settings.idleMs > 0 then clock + settings.idleMs else 0)
                && pingDue == (if settings.pingMs > 0 then clock + settings.pingMs else 0)
    {
      if !state.Open? || dropPending { return; }
      if settings.idleMs <= 0 && settings.pingMs <= 0 {
        hist := hist.(activity := clock);
        if deadline != 0 || pingDue != 0 {
          deadline := 0;
          pingDue := 0;
          Reschedule();
        }
        return;
      }
      var now := Now();
      hist := hist.(activity := now);
      deadline := if settings.idleMs > 0 then now + settings.idleMs else 0;
      pingDue := if settings.pingMs > 0 then now + settings.pingMs else 0;
      Reschedule();
    }

    // -- dropping ----------------------------------------------------------

    // The end of every drop: a connection that opened is told its end, and
    // the object is let go.
    method ReleaseConn()
      requires Departing() && Story() && Accounted()
      modifies this, t
      ensures Released() && notes == Ended(old(notes)) && unchanged(t) && clock == old(clock)
      ensures excuse == old(excuse) && hist == old(hist) && proto == old(proto) && faulted == old(faulted)
      ensures hasProto == old(hasProto)
      decreases 0, 6, 0
    {
      if !state.Handshake? {
        StoryEnds(notes);
        notes := notes + [Gone];
        RunActs(onClose.acts);
        if onClose.raises {
          HandlerRaised(onClose.onError);
        }
      }
      freed := true;
    }

    // Frees the connection, or, with a delivery on the stack, marks it for
    // the delivery site to free.
    method DropConn() returns (r: bool)
      requires Droppable() && if inDelivery then t.dead || !excuse.NoExcuse? else Accounted()
      modifies this, t
      ensures !r && unchanged(t) && excuse == old(excuse) && proto == old(proto) && faulted == old(faulted)
      ensures old(inDelivery) ==> dropDeferred && SameFlags() && SameClocks() && proto == old(proto)
      ensures !old(inDelivery) ==> Over(old(notes)) && clock == old(clock)
      decreases 1, 1, 0
    {
      r := false;
      if inDelivery {
        dropDeferred := true;
        return;
      }
      if dropping { return; }
      dropping := true;
      attached := false;
      ReleaseConn();
    }

    // The drop of a connection whose socket is lost, or that has an excuse.
    method GiveUp() returns (r: bool)
      requires Upright() && (t.dead || !excuse.NoExcuse?)
      modifies this, t
      ensures !r && unchanged(t) && proto == old(proto) && faulted == old(faulted) && excuse == old(excuse)
      ensures freed == !old(inDelivery)
      ensures freed ==> Over(old(notes))
      ensures !freed ==> Standing() && SameFlags() && SameClocks() && dropDeferred
      decreases 1, 1, 1
    {
      r := DropConn();
    }

    // -- output ------------------------------------------------------------

    // The whole queue offered to the transport, what it took consumed.
    method Submit() returns (w: int)
      requires Standing() && hasProto && proto.outb.queue != []
      modifies this, t
      ensures SameFlags() && SameClocks() && dropDeferred == old(dropDeferred) && excuse == old(excuse) && t.Valid()
      ensures proto.st == old(proto.st) && proto.outb.log == old(proto.outb.log)
      ensures w < 0 <==> t.dead
      ensures Upright() && (w < 0 ==> proto == old(proto))
      ensures !old(t.dead) ==> (t.dead <==> Offer(old(t.fate), |old(proto.outb.queue)|).lost)
      ensures !old(t.dead) ==> t.fate == Offer(old(t.fate), |old(proto.outb.queue)|).rest
      ensures w >= 0 ==> Standing() && !old(t.dead) && w == Offer(old(t.fate), |old(proto.outb.queue)|).took
      ensures w >= 0 ==> Leaves(old(proto.outb.queue), w, proto.outb.queue)
      ensures w >= 0 ==> if proto.outb.queue == [] then !t.wantWrite else t.wantWrite
    {
      w := t.SubmitSend(proto.outb.queue);
      if w >= 0 {
        TakeFramed(proto, w);
        proto := M.Take(proto, w);
      }
    }

    // A peer that leaves more than the cap unread is given up.
    method Overflow() returns (r: bool)
      requires Standing() && hasProto && !t.dead && !dropPending && 0 < settings.maxPending < |proto.outb.queue|
      modifies this, t
      ensures !r && unchanged(t) && proto == old(proto) && faulted == old(faulted)
      ensures excuse == if old(excuse.NoExcuse?) then OverCap(|proto.outb.queue|) else old(excuse)
      ensures freed == !old(inDelivery)
      ensures freed ==> Over(old(notes))
      ensures !freed ==> Standing() && SameFlags() && SameClocks() && dropDeferred
      decreases 1, 1, 2
    {
      if excuse.NoExcuse? {
        excuse := OverCap(|proto.outb.queue|);
      }
      r := GiveUp();
    }

    // Offers what is queued. False: this ended, or will end, in a drop.
    method FlushConn() returns (r: bool)
      requires Standing() && hasProto
      modifies this, t
      ensures freed ==> Over(old(notes)) && !old(inDelivery) && !r
      ensures !freed ==> Standing() && SameFlags() && SameClocks()
      ensures !freed ==> (old(dropDeferred) ==> dropDeferred) && (!inDelivery ==> dropDeferred == old(dropDeferred))
      ensures r ==> Poised() && dropDeferred == old(dropDeferred)
      ensures !r ==> freed || dropDeferred
      ensures Flushed(r) && Alike(proto, old(proto)) && faulted == old(faulted)
      ensures excuse == old(excuse) || (old(excuse.NoExcuse? && !dropPending) && excuse.OverCap?)
      ensures !r ==> t.dead || !excuse.NoExcuse?
      decreases 1, 2, 0
    {
      if proto.outb.queue == [] { return true; }
      var w := Submit();
      if w < 0 {
        r := GiveUp();
        return;
      }
      r := true;
      if settings.maxPending > 0 && !dropPending && |proto.outb.queue| > settings.maxPending {
        r := Overflow();
      }
    }

    // A message whose send ends in a drop, on either route.
    ghost predicate Drops(text: bool, data: bytes)
      reads this, t
    {
      var n := |Framing(proto, text, data)|;
      if |data| < settings.directMin || proto.st.closeSent || proto.outb.queue != []
      then Fails(t.fate, |proto.outb.queue + Framing(proto, text, data)|)
      else t.dead || Offer(t.fate, n).lost || Fails(Offer(t.fate, n).rest, n - Offer(t.fate, n).took)
    }

    // The frames and the close state are those the machine makes of a
    // command; some of the bytes may be on the wire already.
    twostate predicate Did(cmd: M.Command)
      reads this
    {
      Alike(proto, M.Do(SERVER, old(proto), cmd))
    }

    // SendText and SendBinary: a large enough message with no output ahead of
    // it takes the gather route, any other the queue.
    method SendData(text: bool, data: bytes) returns (r: bool)
      requires Standing() || Departing()
      modifies this, t
      ensures old(Departing()) ==> !r && Same() && unchanged(t)
      ensures old(Standing()) && freed ==> Over(old(notes)) && !old(inDelivery) && !r
      ensures old(Standing()) && !freed ==> Acted() && state == old(state) && proto.st == old(proto.st) && SameClocks()
      ensures !r && !freed && !dropping ==> dropDeferred
      ensures old(Standing()) ==> (r <==> !old(state.Open? && Drops(text, data)))
      ensures r ==> proto.outb.log == if old(state.Open? && !proto.st.closeSent)
                                      then old(proto.outb.log) + [M.Sent(DataOpcode(text), data, 0)]
                                      else old(proto.outb.log)
      ensures old(Standing() && Draining()) ==> Flushed(r)
      ensures old(Standing() && !state.Open?) ==> r && Same() && unchanged(t)
      ensures old(Standing() && !state.Handshake?) && r ==> Did(if text then M.SendText(data) else M.SendBinary(data))
      decreases if dropping then 0 else 1, 3, 0
    {
      if dropping { return false; }
      r := true;
      if !state.Open? { return; }
      DataFramed(proto, text, data);
      if |data| < settings.directMin || proto.st.closeSent || proto.outb.queue != [] {
        r := SendQueued(text, data);
      } else {
        r := SendDirect(text, data);
      }
    }

    // Through the protocol's out queue.
    method SendQueued(text: bool, data: bytes) returns (r: bool)
      requires Standing() && state.Open?
      modifies this, t
      ensures freed ==> Over(old(notes)) && !old(inDelivery) && !r
      ensures !freed ==> Standing() && SameFlags() && SameClocks() && proto.st == old(proto.st)
      ensures !freed ==> (old(dropDeferred) ==> dropDeferred) && (!inDelivery ==> dropDeferred == old(dropDeferred))
      ensures r ==> Poised() && dropDeferred == old(dropDeferred)
      ensures !freed ==> proto.outb.log == if old(proto.st.closeSent) then old(proto.outb.log)
                                           else old(proto.outb.log) + [M.Sent(DataOpcode(text), data, 0)]
      ensures !r ==> freed || dropDeferred
      ensures r <==> !old(Fails(t.fate, |proto.outb.queue + Framing(proto, text, data)|))
      ensures old(proto.st.closeSent) ==> Flushed(r)
      decreases 1, 2, 1
    {
      var cmd := if text then M.SendText(data) else M.SendBinary(data);
      DataFramed(proto, text, data);
      proto := M.Do(SERVER, proto, cmd);
      assert old(proto.st.closeSent) ==> proto == old(proto);
      r := FlushConn();
    }

    // Header and payload offered in one write, what was not taken queued.
    method Gather(text: bool, data: bytes) returns (taken: int)
      requires Standing() && state.Open? && !proto.st.closeSent && proto.outb.queue == []
      modifies this, t
      ensures SameFlags() && SameClocks() && dropDeferred == old(dropDeferred) && proto.st == old(proto.st)
      ensures excuse == old(excuse) && Upright()
      ensures taken < 0 <==> old(t.dead || Offer(t.fate, |Framing(proto, text, data)|).lost)
      ensures t.Valid() && (taken < 0 ==> t.dead && proto == old(proto))
      ensures taken >= 0 ==>
                var o := Offer(old(t.fate), |old(Framing(proto, text, data))|);
                && Standing() && !t.dead && t.fate == o.rest
                && |proto.outb.queue| == |old(Framing(proto, text, data))| - o.took
                && (proto.outb.queue == [] ==> Poised())
                && proto.outb.log == old(proto.outb.log) + [M.Sent(DataOpcode(text), data, 0)]
    {
      var hdr := HeaderBytes(true, false, DataOpcode(text), false, 0, |data|);
      taken := t.SubmitSendV(hdr, data);
      if taken >= 0 {
        DirectFramed(proto, text, data, taken);
        proto := M.Take(M.Send(SERVER, proto, DataOpcode(text), data), taken);
      }
    }

    // The gather write of a message.
    method SendDirect(text: bool, data: bytes) returns (r: bool)
      requires Standing() && state.Open? && !proto.st.closeSent && proto.outb.queue == []
      requires |data| >= settings.directMin
      modifies this, t
      ensures freed ==> Over(old(notes)) && !old(inDelivery) && !r
      ensures !freed ==> Standing() && SameFlags() && SameClocks() && proto.st == old(proto.st)
      ensures !freed ==> (old(dropDeferred) ==> dropDeferred) && (!inDelivery ==> dropDeferred == old(dropDeferred))
      ensures r ==> Poised() && dropDeferred == old(dropDeferred)
      ensures r ==> proto.outb.log == old(proto.outb.log) + [M.Sent(DataOpcode(text), data, 0)]
      ensures !r ==> freed || dropDeferred
      ensures !freed ==> old(proto.outb.log) <= proto.outb.log
      ensures r <==> !old(Drops(text, data))
      decreases 1, 2, 1
    {
      var taken := Gather(text, data);
      if taken < 0 {
        r := GiveUp();
        return;
      }
      r := true;
      assert !old(Drops(text, data)) == !Fails(t.fate, |proto.outb.queue|);
      if proto.outb.queue != [] {
        r := FlushConn();
      }
    }

    // SendClose and the state that goes with it.
    method SayClose(code: M.word, reason: bytes)
      requires Wired() && state.Open?
      modifies this
      ensures state.Closing? && hasProto == old(hasProto) && faulted == old(faulted) && dropPending == old(dropPending)
      ensures inDelivery == old(inDelivery) && dropping == old(dropping) && attached == old(attached)
      ensures freed == old(freed) && notes == old(notes) && dropDeferred == old(dropDeferred) &&
              committed == old(committed) && excuse == old(excuse)
      ensures SameClocks() && Framed(proto) && proto.outb.taken == old(proto.outb.taken)
      ensures old(proto.st.closeSent) ==> proto == old(proto)
      ensures proto == M.Do(SERVER, old(proto), M.SendClose(code, reason))
      ensures old(proto.outb.queue) <= proto.outb.queue
      ensures proto.st == if old(proto.st.closeSent) then old(proto.st)
                          else old(proto.st).(closeSent := true, code := code, reason := reason)
      ensures proto.outb.log == if old(proto.st.closeSent) then old(proto.outb.log)
                                else old(proto.outb.log) + [M.Sent(OP_CLOSE, M.ClosePayload(code, reason), 0)]
    {
      CloseFramed(proto, code, reason);
      proto := M.Do(SERVER, proto, M.SendClose(code, reason));
      state := Closing;
    }

    // The close budget, once, and no more pings.
    method ArmClose()
      requires Standing() && state.Closing? && hist.closeArms == 0
      modifies this
      ensures Standing() && SameFlags() && proto == old(proto) && dropDeferred == old(dropDeferred) && Onward()
      ensures excuse == old(excuse)
      ensures hist.idleAt == old(hist.idleAt) && hist.closeArms == 1
      ensures pingDue == 0 && deadline == (if settings.closeMs > 0 then clock + settings.closeMs else 0)
    {
      pingDue := 0;
      ArmDeadline(settings.closeMs);
      hist := hist.(closeArms := hist.closeArms + 1, armed := deadline);
    }

    // The close frame queued, the wait for the peer's armed.
    method StartClose(code: M.word, reason: bytes)
      requires Standing() && state.Open?
      modifies this
      ensures Standing() && state.Closing? && hasProto && faulted == old(faulted) && dropPending == old(dropPending)
      ensures inDelivery == old(inDelivery) && notes == old(notes) && dropDeferred == old(dropDeferred) &&
              committed == old(committed) && excuse == old(excuse)
      ensures hist.idleAt == old(hist.idleAt) && old(proto.outb.queue) <= proto.outb.queue && Onward()
      ensures proto.st == if old(proto.st.closeSent) then old(proto.st)
                          else old(proto.st).(closeSent := true, code := code, reason := reason)
      ensures proto.outb.log == if old(proto.st.closeSent) then old(proto.outb.log)
                                else old(proto.outb.log) + [M.Sent(OP_CLOSE, M.ClosePayload(code, reason), 0)]
      ensures old(proto.st.closeSent) ==> proto == old(proto)
      ensures proto == M.Do(SERVER, old(proto), M.SendClose(code, reason))
      ensures pingDue == 0 && deadline == (if settings.closeMs > 0 then clock + settings.closeMs else 0)
    {
      assert hist.closeArms == 0;
      SayClose(code, reason);
      ArmClose();
    }

    // Close, of an open connection.
    method Goodbye(code: M.word, reason: bytes) returns (r: bool)
      requires Standing() && state.Open?
      modifies this, t
      ensures freed ==> Over(old(notes)) && !old(inDelivery) && !r
      ensures !freed ==>
                && Acted() && state.Closing? && proto.st.closeSent && pingDue == 0
                && deadline == (if settings.closeMs > 0 then clock + settings.closeMs else 0)
                && (old(proto.st.closeSent) ||
                    proto.outb.log == old(proto.outb.log) + [M.Sent(OP_CLOSE, M.ClosePayload(code, reason), 0)])
      ensures !r && !freed ==> dropDeferred
      ensures old(Draining()) ==> Flushed(r)
      ensures !freed ==> Did(M.SendClose(code, reason))
      decreases 1, 2, 1
    {
      StartClose(code, reason);
      assert old(Draining()) ==> proto == old(proto);
      r := FlushConn();
    }

    method Close(code: M.word, reason: bytes) returns (r: bool)
      requires Standing() || Departing()
      modifies this, t
      ensures old(Departing()) ==> !r && Same() && unchanged(t)
      ensures old(Standing()) && freed ==> Over(old(notes)) && !old(inDelivery) && !r
      ensures old(Standing()) && !freed ==> Acted() && !state.Open?
      ensures old(Standing() && state.Open?) && !freed ==>
                && state.Closing? && proto.st.closeSent && pingDue == 0
                && deadline == (if settings.closeMs > 0 then clock + settings.closeMs else 0)
                && (old(proto.st.closeSent) ||
                    proto.outb.log == old(proto.outb.log) + [M.Sent(OP_CLOSE, M.ClosePayload(code, reason), 0)])
      ensures !r && !freed && !dropping ==> dropDeferred
      ensures old(Standing() && Draining()) ==> Flushed(r)
      ensures old(Standing() && !state.Open?) ==> r && Same() && unchanged(t)
      ensures old(Standing() && !state.Handshake?) && !freed ==> Did(M.SendClose(code, reason))
      decreases if dropping then 0 else 1, 3, 0
    {
      if dropping { return false; }
      r := true;
      if state.Open? {
        r := Goodbye(code, reason);
      }
    }

    method DoAct(act: Act) returns (r: bool)
      requires Standing() || Departing()
      modifies this, t
      ensures old(Departing()) ==> !r && Same() && unchanged(t)
      ensures old(Standing()) && freed ==> Over(old(notes)) && !old(inDelivery) && !r
      ensures old(Standing()) && !freed ==> Acted()
      ensures !r && !freed && !dropping ==> dropDeferred
      ensures old(Standing() && Draining()) ==> OfferedOnce()
      ensures old(Standing() && state.Open?) && !freed ==> state.Open? == !act.Goodbye?
      ensures old(Standing() && !state.Open?) ==> r && Same() && unchanged(t)
      ensures old(Standing() && !state.Handshake?) && r ==> Did(CommandOf(act))
      decreases if dropping then 0 else 1, 3, 1
    {
      match act {
        case Text(data) => r := SendData(true, data);
        case Binary(data) => r := SendData(false, data);
        case Goodbye(code, reason) => r := Close(code, reason);
      }
    }

    // What a handler does; it may ignore every result.
    method RunActs(acts: seq<Act>)
      requires (Standing() && inDelivery) || Departing()
      modifies this, t
      ensures old(Departing()) ==> Same() && unchanged(t)
      ensures old(Standing()) ==> Acted() && (old(Draining()) ==> Pushed(acts))
      ensures acts == [] ==> Same() && unchanged(t)
      ensures old(Standing() && !state.Handshake?) && !dropDeferred ==> Alike(proto, PlayActs(old(proto), acts))
      ensures old(Standing() && state.Open?) ==> state.Open? == !Closes(acts)
      decreases if dropping then 0 else 1, 4, |acts|
    {
      if acts == [] { return; }
      ghost var was, open, draining, fate := proto, !dropping && !state.Handshake?, !dropping && Draining(), t.fate;
      var alive := DoAct(acts[0]);
      ghost var now, lost, still, rest := proto, freed || dropDeferred, state.Open?, t.fate;
      RunActs(acts[1..]);
      if draining {
        EmptiesNext(acts, fate, |was.outb.queue|, lost, still, rest, |now.outb.queue|,
                    freed || dropDeferred, |proto.outb.queue|);
      }
      if alive && open && !dropDeferred {
        ActsNext(was, now, proto, acts);
      }
    }

    // -- containment -------------------------------------------------------

    // A handler raised: 1011 is queued on an open connection, OnError acts.
    method HandlerRaised(onError: seq<Act>)
      requires (Standing() && inDelivery) || Departing()
      modifies this, t
      ensures old(Departing()) ==> Same() && unchanged(t)
      ensures old(Standing()) ==>
                && Standing() && faulted && hasProto == old(hasProto) && inDelivery
                && dropPending == old(dropPending) && notes == old(notes)
      ensures old(Standing()) ==> !state.Handshake? == !old(state.Handshake?) && SameInput() && Onward()
      ensures old(Standing()) ==> dropDeferred == old(dropDeferred) && committed == old(committed)
      ensures old(Standing()) ==>
                proto.outb.log ==
                if old(state.Open? && !proto.st.closeSent)
                then old(proto.outb.log) + [M.Sent(OP_CLOSE, M.ClosePayload(1011, Ascii("internal error")), 0)]
                else old(proto.outb.log)
      ensures old(Standing() && proto.st.closeSent) ==> proto == old(proto)
      decreases if dropping then 0 else 1, 5, 0
    {
      if !dropping {
        faulted := true;
        if state.Open? {
          SayClose(1011, Ascii("internal error"));
        }
        assert Standing();
      }
      RunActs(onError);
    }

    // -- settling ----------------------------------------------------------

    // The queue was offered once: the connection is gone exactly when the
    // socket took all of it or died over it, and keeps the rest otherwise.
    twostate predicate Drained()
      reads this, t
    {
      var o := Offer(old(t.fate), |old(proto.outb.queue)|);
      && (freed <==> o.lost || o.took == |old(proto.outb.queue)|) && (t.dead <==> o.lost)
      && (!freed ==> Leaves(old(proto.outb.queue), o.took, proto.outb.queue))
    }

    // Output goes first: the drop comes at once when the socket takes all of
    // it, and with the last of it otherwise.
    method DrainThenDrop()
      requires Standing() && !inDelivery && !dropDeferred && !committed &&
               (state.Handshake? || faulted || proto.st.drain)
      modifies this, t
      ensures freed ==> Over(old(notes))
      ensures !freed ==> Quiet() && dropPending && faulted == old(faulted) && notes == old(notes) && Onward()
      ensures !freed ==> proto.outb.queue != [] && (old(dropPending) ==> SameClocks())
      ensures old(proto.outb.queue) == [] ==> freed
      ensures old(hasProto) ==> Drained()
      ensures !old(hasProto) ==> freed
      ensures excuse.NoExcuse? && Alike(proto, old(proto)) && faulted == old(faulted)
    {
      if !hasProto {
        var gone := DropConn();
        return;
      }
      BeginDrain();
      var alive := FlushConn();
      if alive {
        if proto.outb.queue == [] {
          alive := DropConn();
        }
      }
    }

    // After a delivery: a deferred drop, or the end of a faulted connection.
    method SettleDelivery() returns (r: bool)
      requires Standing() && !inDelivery && !committed
      modifies this, t
      ensures r ==> !old(dropDeferred) && !old(faulted) && Standing() && Same() && unchanged(t)
      ensures !r ==> if freed then Over(old(notes)) else Quiet() && notes == old(notes) && Onward() && !Stranded()
      ensures r <==> !old(dropDeferred || faulted)
      ensures !freed && old(dropPending) ==> SameClocks()
      ensures old(dropDeferred) ==> freed && clock == old(clock) && unchanged(t)
      ensures old(faulted && proto.outb.queue == []) ==> freed
      ensures old(!dropDeferred && faulted && hasProto) ==> Drained()
      ensures faulted == old(faulted) && Alike(proto, old(proto)) && excuse == old(excuse)
    {
      r := false;
      if dropDeferred {
        dropDeferred := false;
        var gone := DropConn();
      } else if faulted {
        DrainThenDrop();
      } else {
        r := true;
      }
    }

    // The delivery guard: while it is up, a drop is deferred.
    method Guard(up: bool)
      requires Standing()
      modifies this
      ensures Standing() && inDelivery == up && state == old(state) && hasProto == old(hasProto) && proto == old(proto)
      ensures faulted == old(faulted) && dropPending == old(dropPending) && dropDeferred == old(dropDeferred)
      ensures excuse == old(excuse)
      ensures committed == old(committed) && notes == old(notes) && SameClocks() &&
              freed == old(freed)
    {
      inDelivery := up;
    }

    // The handler runs, its exception contained.
    method Contained(script: Script) returns (ghost calm: bool)
      requires Standing() && inDelivery
      modifies this, t
      ensures Standing() && inDelivery && calm == !script.raises && hasProto == old(hasProto) &&
              dropPending == old(dropPending)
      ensures notes == old(notes) && committed == old(committed) && (old(dropDeferred) ==> dropDeferred) &&
              Onward() && SameInput()
      ensures state.Handshake? == old(state.Handshake?) && faulted == (old(faulted) || script.raises)
      ensures !script.raises && !dropDeferred && old(Poised()) ==> Poised()
      ensures !script.raises && !dropDeferred && old(!state.Handshake?) ==>
                Alike(proto, PlayActs(old(proto), script.acts))
      ensures !script.raises && old(Draining()) ==> Pushed(script.acts)
      ensures !script.raises && old(state.Open?) ==> state.Open? == !Closes(script.acts)
      ensures !script.raises && !old(state.Open?) ==>
                proto == old(proto) && dropDeferred == old(dropDeferred) && unchanged(t)
      ensures !script.raises && script.acts == [] ==> Same() && unchanged(t)
      ensures script.raises && old(Stranded() && proto.st.closeSent && !dropDeferred) ==> proto.outb.queue == []
    {
      RunActs(script.acts);
      if script.raises {
        HandlerRaised(script.onError);
      }
      calm := !script.raises;
    }

    // No handler raised, the socket lives, and nothing is left behind.
    ghost predicate Unhindered()
      reads this, t
    {
      !faulted && !t.dead && excuse.NoExcuse?
    }

    // A handler under the delivery guard, its exception contained.
    method DeliverContained(script: Script) returns (r: bool)
      requires Quiet()
      modifies this, t
      ensures if freed then Over(old(notes)) && !r else Quiet() && notes == old(notes) && Onward()
      ensures r ==> !script.raises && !faulted
      ensures !old(Stranded()) ==>
                (!freed && Stranded() <==>
                  !script.raises && old(Draining() && Empties(script.acts, t.fate, |proto.outb.queue|)))
      ensures old(Stranded()) ==> (freed <==> script.raises) && (!freed ==> Stranded())
      ensures script.acts == [] && !script.raises && !old(faulted) ==> r && Same() && unchanged(t)
      ensures r ==> SameInput() && (old(state.Open?) ==> state.Open? == !Closes(script.acts))
      ensures r <==> !old(faulted) && !script.raises && !freed
      ensures Unhindered() && !old(faulted) ==> r
      ensures r && old(!state.Handshake?) ==> Alike(proto, PlayActs(old(proto), script.acts))
    {
      Guard(true);
      ghost var calm := Contained(script);
      Guard(false);
      r := SettleDelivery();
    }

    // -- reads -------------------------------------------------------------

    // OnMessage, unless an earlier message of this read already lost the
    // connection. False: the handler raised.
    method ProtoMessage(text: bool, data: bytes, script: Script) returns (ok: bool)
      requires Standing() && inDelivery && hasProto && !state.Handshake? && !faulted && !committed
      modifies this, t
      ensures Standing() && inDelivery && hasProto && !state.Handshake? && !committed && Onward()
      ensures dropPending == old(dropPending) && (old(dropDeferred) ==> dropDeferred) && faulted == !ok
      ensures proto.st.drain == old(proto.st.drain) && proto.st.failed == old(proto.st.failed)
      ensures notes == if old(dropDeferred) then old(notes) else old(notes) + [Delivered(text, data)]
      ensures ok && !dropDeferred ==> Alike(proto, PlayActs(old(proto), script.acts))
    {
      if dropDeferred { return true; }
      notes := notes + [Delivered(text, data)];
      ghost var calm := Contained(script);
      ok := !script.raises;
    }

    // was is the story at the start of the read, i frames ago.
    ghost predicate Telling(was: seq<Note>, turns: seq<Turn>, i: nat)
      requires i <= |turns|
      reads this
    {
      && was <= notes <= was + Heard(turns)
      && (dropDeferred || notes + Heard(if proto.st.drain then [] else turns[i..]) == was + Heard(turns))
    }

    // The machine's own answer to a frame, queued.
    method Answer(cmd: M.Command)
      requires Standing() && hasProto && !cmd.SendClose?
      modifies this
      ensures cmd == M.SendPing([]) && !proto.st.closeSent ==>
                proto.outb.log == old(proto.outb.log) + [M.Sent(OP_PING, [], 0)]
      ensures Standing() && SameFlags() && SameClocks() && dropDeferred == old(dropDeferred) && excuse == old(excuse)
      ensures old(proto.outb.queue) <= proto.outb.queue && old(proto.outb.log) <= proto.outb.log &&
              proto.st == old(proto.st)
      ensures proto == M.Do(SERVER, old(proto), cmd)
    {
      DoFramed(proto, cmd);
      proto := M.Do(SERVER, proto, cmd);
    }

    // The peer's close is taken, and answered unless a close went out.
    twostate predicate Answered()
      reads this, t
    {
      && SameFlags() && SameClocks() && dropDeferred == old(dropDeferred) && excuse == old(excuse) && unchanged(t)
      && M.CloseDone(proto)
      && proto.st.failed == old(proto.st.failed) && proto.st.drain && |old(proto.outb.queue)| <= |proto.outb.queue|
      && (!old(proto.st.closeSent) ==> |old(proto.outb.queue)| < |proto.outb.queue| <= |old(proto.outb.queue)| + 127)
    }

    // An incoming close frame.
    method TakeClose(code: M.word, reason: bytes)
      requires Standing() && hasProto && !proto.st.drain
      modifies this
      ensures Standing() && Answered() && old(proto.outb.log) <= proto.outb.log
      ensures proto == M.PeerClose(SERVER, old(proto), code, reason)
    {
      PeerCloseFramed(proto, code, reason);
      proto := M.PeerClose(SERVER, proto, code, reason);
    }

    // A frame the machine fails the connection for.
    method TakeBroken(code: M.word, why: string)
      requires Standing() && hasProto && !proto.st.drain
      modifies this
      ensures Standing() && SameFlags() && SameClocks() && dropDeferred == old(dropDeferred) && excuse == old(excuse)
      ensures old(proto.outb.log) <= proto.outb.log && proto.st.drain && proto.st.failed
      ensures proto == M.Fail(SERVER, old(proto), code, why)
      ensures old(proto.outb.queue) <= proto.outb.queue
    {
      FailFramed(proto, code, why);
      proto := M.Fail(SERVER, proto, code, why);
    }

    // One frame. False: its handler raised.
    method TakeTurn(turn: Turn) returns (calm: bool)
      requires Standing() && inDelivery && hasProto && !state.Handshake? && !faulted && !committed && !proto.st.drain
      modifies this, t
      ensures Standing() && inDelivery && hasProto && !state.Handshake? && !committed && Onward()
      ensures dropPending == old(dropPending) && (old(dropDeferred) ==> dropDeferred) && faulted == !calm
      ensures proto.st.drain == (turn.PeerClose? || turn.Broken?)
      ensures turn.PeerClose? ==> Answered()
      ensures calm && !dropDeferred ==> Alike(proto, Play(old(proto), turn))
      ensures notes == if turn.Arrive? &&
              !old(dropDeferred) then old(notes) + [Delivered(turn.text, turn.data)] else old(notes)
    {
      calm := true;
      match turn {
        case Reply(pong) =>
          Answer(M.SendPong(pong));
        case Arrive(text, data, script) =>
          calm := ProtoMessage(text, data, script);
        case PeerClose(code, reason) =>
          TakeClose(code, reason);
        case Broken(code, why) =>
          TakeBroken(code, why);
      }
    }

    method TakeNext(turns: seq<Turn>, i: nat, ghost was: seq<Note>, ghost goal: M.Machine) returns (calm: bool)
      requires Standing() && inDelivery && hasProto && !state.Handshake? && !faulted && !committed && !proto.st.drain
      requires i < |turns| && Telling(was, turns, i)
      requires dropDeferred || Alike(PlayAll(proto, turns[i..]), goal)
      modifies this, t
      ensures Standing() && inDelivery && hasProto && !state.Handshake? && !committed && Onward()
      ensures dropPending == old(dropPending) && faulted == !calm
      ensures proto.st.drain == (turns[i].PeerClose? || turns[i].Broken?)
      ensures turns[i].PeerClose? ==> Answered()
      ensures was <= notes <= was + Heard(turns) && (calm ==> Telling(was, turns, i + 1))
      ensures calm && !dropDeferred ==> Alike(PlayAll(proto, turns[i + 1..]), goal)
    {
      ghost var now := proto;
      if !dropDeferred {
        HeardNext(was, notes, turns, i);
      }
      calm := TakeTurn(turns[i]);
      if calm && !dropDeferred {
        PlayNext(now, turns, i, proto, goal);
      }
    }

    // What the frames of one read bring about. False: the machine has failed,
    // or a handler raised and the frames behind are not looked at.
    method Ingest(turns: seq<Turn>) returns (ok: bool)
      requires Standing() && inDelivery && hasProto && !state.Handshake? && !faulted && !committed
      modifies this, t
      ensures Standing() && inDelivery && hasProto && !state.Handshake? && !committed && Onward()
      ensures dropPending == old(dropPending) && ok == !(faulted || proto.st.failed)
      ensures old(proto.st.drain) ==> Same() && unchanged(t)
      ensures turns != [] && turns[0].PeerClose? && !old(proto.st.drain) ==> Answered()
      ensures old(notes) <= notes <= old(notes) + Heard(turns)
      ensures !old(proto.st.drain) && !faulted && !dropDeferred ==> notes == old(notes) + Heard(turns)
      ensures !faulted && !dropDeferred ==> Alike(proto, PlayAll(old(proto), turns))
    {
      if proto.st.drain { return !proto.st.failed; }
      var i := 0;
      ghost var goal := PlayAll(proto, turns);
      assert Telling(notes, turns, 0) && PlayAll(proto, turns[0..]) == goal by {
        assert turns[0..] == turns;
      }
      while i < |turns| && !proto.st.drain
        invariant Standing() && inDelivery && hasProto && !state.Handshake? && !faulted && !committed && Onward()
        invariant dropPending == old(dropPending) && i <= |turns|
        invariant i == 0 ==> Same() && unchanged(t)
        invariant i > 0 && turns[0].PeerClose? ==> Answered()
        invariant Telling(old(notes), turns, i)
        invariant dropDeferred || Alike(PlayAll(proto, turns[i..]), goal)
      {
        var calm := TakeNext(turns, i, old(notes), goal);
        if !calm { return false; }
        i := i + 1;
      }
      assert PlayAll(proto, turns[i..]) == proto;
      ok := !proto.st.failed;
    }

    // No close has passed, no cap is set, and the next offer meets a full
    // socket.
    ghost predicate Blocked()
      reads this, t
    {
      !proto.st.drain && !proto.st.closeSent && settings.maxPending <= 0 && t.fate != [] && t.fate[0].WouldBlock?
    }

    // The answer to the peer's close is stuck: the connection drains.
    twostate predicate Stuck()
      reads this, t
    {
      !freed && dropPending && hasProto && state == old(state) &&
      0 < |proto.outb.queue| <= |old(proto.outb.queue)| + 127 &&
      old(t.fate) != [] && t.fate == old(t.fate)[1..]
    }

    // The read has settled: its failure, its answers, its close.
    method AfterIngest(ok: bool) returns (r: bool)
      requires Standing() && !inDelivery && !dropDeferred && !committed && !faulted && hasProto && !state.Handshake?
      requires ok == !proto.st.failed
      modifies this, t
      ensures if freed then Over(old(notes)) && !r else Quiet() && notes == old(notes) && Onward() && !Stranded()
      ensures old(Stranded()) ==> freed
      ensures old(dropPending) && !freed ==> deadline == old(deadline)
      ensures !ok ==> Drained()
      ensures ok && old(M.CloseDone(proto)) && !old(Fails(t.fate, |proto.outb.queue|)) ==>
                && (freed <==> old(Offer(t.fate, |proto.outb.queue|).took == |proto.outb.queue|))
                && (!freed ==> dropPending && state == old(state) && |proto.outb.queue| <= |old(proto.outb.queue)|)
                && t.fate == old(Offer(t.fate, |proto.outb.queue|).rest)
      ensures r ==> !freed && !faulted
      ensures faulted == old(faulted) && Alike(proto, old(proto))
    {
      if !ok {
        DrainThenDrop();
        return false;
      }
      r := FlushConn();
      if !r { return; }
      if M.CloseDone(proto) {
        if proto.outb.queue == [] {
          r := DropConn();
          return;
        }
        BeginDrain();
      }
    }

    // A read on an open connection. told is the story up to its end.
    method IngestAndFlush(turns: seq<Turn>) returns (r: bool, ghost told: seq<Note>)
      requires Quiet() && hasProto && !state.Handshake? && !faulted
      modifies this, t
      ensures if freed then Over(told) && !r else Quiet() && notes == told && Onward() && !Stranded()
      ensures old(Stranded()) ==> freed
      ensures old(dropPending) && !freed ==> deadline == old(deadline)
      ensures turns != [] && turns[0].PeerClose? && old(Blocked()) ==> Stuck()
      ensures old(notes) <= told <= old(notes) + Heard(turns)
      ensures r ==> !freed && !faulted && (!old(proto.st.drain) ==> told == old(notes) + Heard(turns))
      ensures Unhindered() && !old(proto.st.drain) ==> told == old(notes) + Heard(turns)
      ensures Unhindered() ==> Alike(proto, PlayAll(old(proto), turns))
    {
      Guard(true);
      var ok := Ingest(turns);
      Guard(false);
      told := notes;
      r := SettleDelivery();
      if r {
        assert turns != [] && turns[0].PeerClose? && old(Blocked()) ==>
            ok && Offer(t.fate, |proto.outb.queue|) == Outcome(0, false, old(t.fate)[1..]);
        r := AfterIngest(ok);
      }
    }

    // -- the opening handshake ---------------------------------------------

    // A fresh protocol object with a response in its queue.
    method StartProto(rng: M.Rng, response: bytes)
      requires Quiet() && !hasProto && response != []
      modifies this
      ensures Standing() && hasProto && proto == M.QueueRaw(M.Init(rng), response) && proto.outb.queue == response
      ensures !inDelivery && !dropDeferred && !committed
      ensures hist == old(hist) && state.Handshake? && !dropPending && excuse == old(excuse)
      ensures faulted == old(faulted) && notes == old(notes) && proto.outb.log == [M.Raw(response)]
    {
      ResponseFramed(rng, response);
      proto := M.QueueRaw(M.Init(rng), response);
      hasProto := true;
    }

    // A handler that does nothing.
    predicate Idle(script: Script) {
      script.acts == [] && !script.raises
    }

    // Open, the response on its way and nothing queued behind it.
    twostate predicate Welcomed(response: bytes)
      reads this, t
    {
      && !freed && state.Open? && hasProto && !dropPending && !proto.st.drain && !proto.st.closeSent
      && t.fate == Offer(old(t.fate), |response|).rest
      && Leaves(response, Offer(old(t.fate), |response|).took, proto.outb.queue)
    }

    // The machine behind an upgrade, its open handler's sends made.
    ghost function Greeted(rng: M.Rng, response: bytes, onOpen: Script): M.Machine {
      PlayActs(M.QueueRaw(M.Init(rng), response), onOpen.acts)
    }

    // The clocks of an open connection start, and OnOpen is due.
    method BecomeOpen()
      requires Standing() && !inDelivery && !dropDeferred && !committed && state.Handshake? && hasProto && Poised()
      requires !dropPending && !faulted && !proto.st.drain && !proto.st.closeSent
      modifies this
      ensures Quiet() && state.Open? && notes == old(notes) + [Opened] && proto == old(proto) && !dropPending
      ensures hist.closeArms == old(hist.closeArms) && hist.drainArms == old(hist.drainArms) && Onward()
    {
      state := Open;
      NoteActivity();
      notes := notes + [Opened];
    }

    // The 101 goes out first: a peer lost over it never opened.
    method Accept(response: bytes, onOpen: Script, rng: M.Rng) returns (r: bool, ghost told: seq<Note>)
      requires Quiet() && state.Handshake? && !hasProto && response != []
      modifies this, t
      ensures if freed then Over(told) && !r else Quiet() && notes == told && Onward() && !Stranded()
      ensures told == if old(Fails(t.fate, |response|)) then [] else [Opened]
      ensures !freed ==> proto.outb.log != [] && proto.outb.log[0] == M.Raw(response)
      ensures r ==> told == [Opened] && !faulted && !freed && !proto.st.drain && state.Open? == !Closes(onOpen.acts)
      ensures Unhindered() ==> r
      ensures r ==> Alike(proto, Greeted(rng, response, onOpen))
      ensures Idle(onOpen) && told != [] ==> r && Welcomed(response)
    {
      told := [];
      StartProto(rng, response);
      ghost var start := proto;
      r := FlushConn();
      if !r { return; }
      BecomeOpen();
      told := notes;
      PlayActsAlike(proto, start, onOpen.acts);
      r := DeliverContained(onOpen);
    }

    // A refusal is offered once, whatever comes of it.
    twostate predicate Refused(response: bytes)
      reads this, t
    {
      freed && (!t.dead ==> t.wire == response[..Offer(old(t.fate), |response|).took])
    }

    // A request that opens nothing is refused, or has its answer drained.
    twostate predicate Dismissed(answer: Answer)
      reads this, t
    {
      match answer
      case Upgrade(_, _) => true
      case Refuse(response) => Refused(response)
      case Respond(response) =>
        && proto.outb.log == [M.Raw(response)]
        && (freed <==> t.dead || Offer(old(t.fate), |response|).took == |response|)
        && (freed && !t.dead ==> t.wire == response)
    }

    // The request is complete. True: the connection has opened and stands.
    method FinishHandshake(answer: Answer, rng: M.Rng) returns (r: bool, ghost told: seq<Note>)
      requires Quiet() && state.Handshake? && !hasProto
      requires answer.response != []
      modifies this, t
      ensures if freed then Over(told) && !r else Quiet() && notes == told && Onward() && !Stranded()
      ensures told == if answer.Upgrade? && !old(Fails(t.fate, |answer.response|)) then [Opened] else []
      ensures !freed ==> proto.outb.log != [] && proto.outb.log[0] == M.Raw(answer.response)
      ensures r ==> answer.Upgrade? && told == [Opened] && !faulted && !freed && !proto.st.drain &&
                    state.Open? == !Closes(answer.onOpen.acts)
      ensures answer.Upgrade? && Unhindered() ==> r
      ensures Dismissed(answer)
      ensures r ==> Alike(proto, Greeted(rng, answer.response, answer.onOpen))
      ensures answer.Upgrade? && Idle(answer.onOpen) && told != [] ==> r && Welcomed(answer.response)
    {
      told := [];
      match answer {
        case Refuse(response) =>
          var took := t.SubmitSend(response);
          r := DropConn();
        case Respond(response) =>
          OneRaw(response);
          StartProto(rng, response);
          DrainThenDrop();
          r := false;
        case Upgrade(response, onOpen) =>
          r, told := Accept(response, onOpen, rng);
      }
    }

    // -- the transport's events --------------------------------------------

    predicate ClosesFirst(input: Input) {
      input.Frames? && input.turns != [] && input.turns[0].PeerClose?
    }

    // An upgrade with nothing behind it, and a handler that does nothing.
    predicate OnlyUpgrades(input: Input) {
      input.Request? && input.answer.Upgrade? && input.pipelined == [] && Idle(input.answer.onOpen)
    }

    // The frames made are the machine's: the response, the open handler's
    // sends and, unless it closed, the frames behind the request played.
    ghost predicate Upgraded(input: Input, rng: M.Rng)
      requires input.Request? && input.answer.Upgrade?
      reads this
    {
      var open := Greeted(rng, input.answer.response, input.answer.onOpen);
      Alike(proto, if Closes(input.answer.onOpen.acts) then open else PlayAll(open, input.pipelined))
    }

    // A read ahead of the upgrade.
    method HandleRequest(input: Input, rng: M.Rng) returns (ghost told: seq<Note>)
      requires Quiet() && state.Handshake? && !dropPending && (input.Request? ==> input.answer.response != [])
      modifies this, t
      ensures if freed then Over(told) else Quiet() && notes == told && Onward() && !Stranded()
      ensures OnlyUpgrades(input) ==>
                old(Fails(t.fate, |input.answer.response|)) || Welcomed(input.answer.response)
      ensures input.Request? && input.answer.Upgrade? && Unhindered() ==>
                told == [Opened] + if Closes(input.answer.onOpen.acts) then [] else Heard(input.pipelined)
      ensures input.Request? && input.answer.Upgrade? && Unhindered() ==> Upgraded(input, rng)
      ensures if input.TooLarge? then Refused(input.response) else input.Request? ==> Dismissed(input.answer)
    {
      told := notes;
      match input {
        case Partial => return;
        case Frames(_) => return;
        case TooLarge(response) =>
          var took := t.SubmitSend(response);
          var gone := DropConn();
        case Request(answer, pipelined) =>
          var open;
          open, told := FinishHandshake(answer, rng);
          if open && state.Open? {
            PlayAllAlike(proto, Greeted(rng, answer.response, answer.onOpen), pipelined);
          }
          if open && state.Open? && pipelined != [] {
            open, told := IngestAndFlush(pipelined);
          }
      }
    }

    method HandleData(input: Input, rng: M.Rng) returns (ghost told: seq<Note>)
      requires Quiet() && (input.Request? ==> input.answer.response != [])
      modifies this, t
      ensures if freed then Over(told) else Quiet() && notes == told && Onward() && !Stranded()
      ensures old(Stranded()) ==> freed
      ensures old(dropPending) && !freed ==> deadline == old(deadline)
      ensures !old(state.Handshake? || faulted) && ClosesFirst(input) && old(Blocked()) ==> Stuck()
      ensures old(state.Handshake? && !hasProto) && OnlyUpgrades(input) ==>
                old(Fails(t.fate, |input.answer.response|)) || Welcomed(input.answer.response)
      ensures old(notes) <= told
      ensures !old(state.Handshake? || faulted || proto.st.drain) && Unhindered() ==>
                told == old(notes) + Heard(if input.Frames? then input.turns else [])
      ensures !old(state.Handshake? || faulted) && Unhindered() ==>
                Alike(proto, PlayAll(old(proto), if input.Frames? then input.turns else []))
      ensures old(state.Handshake? && !dropPending) && input.Request? && input.answer.Upgrade? && Unhindered() ==>
                told == [Opened] + if Closes(input.answer.onOpen.acts) then [] else Heard(input.pipelined)
      ensures old(state.Handshake? && !dropPending) && input.Request? && input.answer.Upgrade? && Unhindered() ==>
                Upgraded(input, rng)
      ensures old(state.Handshake? && !dropPending) ==>
                if input.TooLarge? then Refused(input.response) else input.Request? ==> Dismissed(input.answer)
    {
      told := notes;
      if state.Handshake? {
        if dropPending { return; }
        told := HandleRequest(input, rng);
      } else {
        if faulted { return; }
        NoteActivity();
        var alive;
        alive, told := IngestAndFlush(if input.Frames? then input.turns else []);
      }
    }

    // The queue was offered once: the connection is gone exactly when that
    // failed, or took all and nothing but output was waited for.
    twostate predicate Emptied()
      reads this, t
    {
      var n := |old(proto.outb.queue)|;
      var o := Offer(old(t.fate), n);
      && (freed <==> old(Fails(t.fate, |proto.outb.queue|)) || (old(dropPending || M.CloseDone(proto)) && o.took == n))
      && (!freed ==> Leaves(old(proto.outb.queue), o.took, proto.outb.queue) && proto.outb.log == old(proto.outb.log))
    }

    method HandleSendReady()
      requires Standing() && !inDelivery && !dropDeferred && !committed && (faulted ==> dropPending)
      requires hasProto && state.Handshake? ==> dropPending
      requires hasProto && !dropPending && settings.maxPending > 0 ==> |proto.outb.queue| <= settings.maxPending
      modifies this, t
      ensures if freed then Over(old(notes)) else Standing() && notes == old(notes) && Onward()
      ensures !freed && (hasProto && proto.st.drain ==> dropPending) ==> Quiet()
      ensures !freed && hasProto && (dropPending || M.CloseDone(proto)) ==> proto.outb.queue != []
      ensures !freed ==> SameFlags() && SameInput()
      ensures old(Stranded()) ==> freed
      ensures if old(hasProto) then Emptied() else Same() && unchanged(t)
    {
      if !hasProto { return; }
      var alive := FlushConn();
      if !alive { return; }
      if dropPending && proto.outb.queue == [] {
        alive := DropConn();
        return;
      }
      if M.CloseDone(proto) && proto.outb.queue == [] {
        alive := DropConn();
      }
    }

    // EPOLLOUT fired: the interest is withdrawn, then the session told.
    method Writable()
      requires Quiet()
      modifies this, t
      ensures if freed then Over(old(notes)) else Quiet() && notes == old(notes) && Onward() && !Stranded()
      ensures old(Stranded()) ==> freed
      ensures if old(hasProto) then Emptied() else !freed
    {
      t.wantWrite := false;
      t.ApplyInterest();
      HandleSendReady();
    }

    // The transport lost the peer.
    method HandleClosed()
      requires Quiet()
      modifies this, t
      ensures Released() && notes == Ended(old(notes)) && excuse.PeerLost? && proto == old(proto) && unchanged(t)
      ensures hasProto == old(hasProto)
    {
      attached := false;
      dropping := true;
      excuse := PeerLost;
      ReleaseConn();
    }

    // What an open connection says when its deadline runs out.
    ghost function Parting(): seq<M.Sent>
      reads this
    {
      if state.Open? && !proto.st.closeSent
      then [M.Sent(OP_CLOSE, M.ClosePayload(1001, Ascii("idle timeout")), 0)] else []
    }

    method Farewell(now: nat)
      requires Almost() && inDelivery && committed && state.Open? && clock == now && now != 0
      requires Keepalive() && !dropPending ==>
                 hist.pinged && hist.activity <= hist.pingAt && hist.pingAt + (settings.idleMs - settings.pingMs) <= now
      modifies this
      ensures Standing() && hasProto && inDelivery && committed && notes == old(notes) && faulted == old(faulted)
      ensures clock == now && proto.outb.log == old(proto.outb.log) + old(Parting())
      ensures dropDeferred == old(dropDeferred) && excuse == old(excuse) &&
              hist == old(hist).(idleAt := if old(dropPending) then old(hist.idleAt) else now)
    {
      ghost var idle := !dropPending;
      SayClose(1001, Ascii("idle timeout"));
      if idle {
        hist := hist.(idleAt := now);
      }
    }

    // The deadline is spent; the drop is certain from here.
    method Doom(now: nat)
      requires Standing() && inDelivery && !dropDeferred && !committed && deadline != 0 && clock == now >= deadline
      requires Keepalive() && state.Open? && !dropPending ==> pingDue == 0
      modifies this
      ensures Standing() && inDelivery && committed && !dropDeferred && notes == old(notes) && faulted == old(faulted)
      ensures old(state.Open?) ==> hasProto
      ensures clock == now && proto.outb.log == old(proto.outb.log) + old(Parting())
      ensures hist == old(hist).(idleAt := hist.idleAt, lapsedAt := now) && excuse.Lapsed?
      ensures hist.idleAt == if old(state.Open? && !dropPending) then now else old(hist.idleAt)
    {
      deadline := 0;
      committed := true;
      excuse := Lapsed;
      hist := hist.(lapsedAt := now);
      if state.Open? {
        Farewell(now);
      }
    }

    // The deadline has run out: a connection that never opened goes in
    // silence, an open one with a goodbye it does not wait for.
    method Lapse(now: nat)
      requires Standing() && inDelivery && !dropDeferred && !committed && deadline != 0 && clock == now >= deadline
      requires Keepalive() && state.Open? && !dropPending ==> pingDue == 0
      modifies this, t
      ensures Standing() && inDelivery && dropDeferred && !committed && notes == old(notes) && faulted == old(faulted)
      ensures hist == old(hist).(idleAt := hist.idleAt, lapsedAt := now)
      ensures hist.idleAt == if old(state.Open? && !dropPending) then now else old(hist.idleAt)
      ensures clock == now && proto.outb.log == old(proto.outb.log) + old(Parting())
    {
      var open := state.Open?;
      Doom(now);
      var alive := true;
      if open {
        alive := FlushConn();
      }
      if alive {
        alive := DropConn();
      }
      committed := false;
    }

    // The deadline, when it has run out.
    method CheckDeadline(now: nat)
      requires Standing() && inDelivery && !dropDeferred && !committed && clock == now
      requires pingDue == 0 || now < pingDue
      modifies this, t
      ensures Standing() && inDelivery && !committed && notes == old(notes) && faulted == old(faulted) && clock == now
      ensures dropDeferred <==> old(deadline) != 0 && now >= old(deadline)
      ensures !dropDeferred ==> Same() && unchanged(t)
      ensures hist.idleAt != old(hist.idleAt) ==> dropDeferred && old(state.Open? && !dropPending)
      ensures hist == old(hist).(idleAt := hist.idleAt, lapsedAt := hist.lapsedAt)
      ensures old(proto.outb.log) <= proto.outb.log
      ensures hist.lapsedAt == if dropDeferred then now else old(hist.lapsedAt)
    {
      if deadline != 0 && now >= deadline {
        Lapse(now);
      }
    }

    // The deadline as a ping falling due leaves it.
    ghost function Extended(now: nat): nat
      reads this
    {
      if state.Open? && deadline != 0 && 0 < settings.pingMs < settings.idleMs
      then Max(deadline, now + (settings.idleMs - settings.pingMs)) else deadline
    }

    // A check at that time pings.
    ghost predicate PingFalls(now: nat)
      reads this
    {
      pingDue != 0 && now >= pingDue && state.Open? && (Extended(now) == 0 || now < Extended(now))
    }

    // The ping falls due: the deadline leaves its answer time.
    method ExtendAnswer(now: nat)
      requires Standing() && !dropDeferred && !committed && pingDue != 0 && clock == now >= pingDue
      modifies this
      ensures SameFlags() && proto == old(proto) && dropDeferred == old(dropDeferred) && excuse == old(excuse)
      ensures clock == old(clock) && hist == old(hist) && pingDue == 0 && sweepAt == Earliest(deadline, pingDue)
      ensures deadline >= old(deadline) && (!state.Open? ==> deadline == old(deadline))
      ensures state.Open? && Keepalive() ==> deadline >= now + (settings.idleMs - settings.pingMs)
      ensures deadline == old(Extended(now))
    {
      pingDue := 0;
      if state.Open? && deadline != 0 && settings.pingMs > 0 && settings.idleMs > settings.pingMs {
        var answerBy := now + (settings.idleMs - settings.pingMs);
        if answerBy > deadline {
          deadline := answerBy;
        }
      }
      Reschedule();
    }

    method SendKeepalive(now: nat)
      requires Almost() && inDelivery && !dropDeferred && !committed && Poised() && !dropPending
      requires state.Open? && !proto.st.drain && clock == now && pingDue == 0
      requires Keepalive() ==> deadline >= now + (settings.idleMs - settings.pingMs)
      modifies this, t
      ensures Standing() && SameFlags() && SameInput() && (!dropDeferred ==> Poised())
      ensures pingDue == old(pingDue) && sweepAt == old(sweepAt)
      ensures hist == old(hist).(pinged := true, pingAt := now) && deadline == old(deadline) && clock == old(clock)
      ensures proto.outb.log == old(proto.outb.log) + [M.Sent(OP_PING, [], 0)]
    {
      hist := hist.(pinged := true, pingAt := now);
      Answer(M.SendPing([]));
      var alive := FlushConn();
    }

    // Whether a ping is due comes first, the deadline second. True: one was
    // queued.
    method CheckPing(now: nat) returns (pinged: bool)
      requires Standing() && inDelivery && !dropDeferred && !committed && Poised() && clock == now
      requires hasProto && (proto.st.drain || state.Handshake?) ==> dropPending
      modifies this, t
      ensures SameFlags() && SameInput() && clock == now
      ensures hist == old(hist).(pinged := hist.pinged, pingAt := hist.pingAt)
      ensures Standing() && (!dropDeferred ==> Poised())
      ensures if pinged then !old(dropPending) && proto.outb.log == old(proto.outb.log) + [M.Sent(OP_PING, [], 0)]
              else !dropDeferred && proto == old(proto) && unchanged(t) && hist == old(hist)
      ensures !dropDeferred ==> (pingDue == 0 || now < pingDue) && (pinged ==> deadline == 0 || now < deadline)
      ensures old(dropPending) ==> deadline == old(deadline)
      ensures pinged <==> old(PingFalls(now))
      ensures pinged ==> hist == old(hist).(pinged := true, pingAt := now)
    {
      pinged := false;
      if pingDue != 0 && now >= pingDue {
        ExtendAnswer(now);
        if state.Open? && (deadline == 0 || now < deadline) {
          SendKeepalive(now);
          pinged := true;
        }
      }
    }

    // The ping, then the deadline, judged at now.
    method Judge(now: nat)
      requires Standing() && inDelivery && !dropDeferred && !committed && Poised() && clock == now
      requires hasProto && (proto.st.drain || state.Handshake?) ==> dropPending
      modifies this, t
      ensures Standing() && inDelivery && !committed && notes == old(notes) && faulted == old(faulted)
      ensures !dropDeferred ==> Poised() && SameFlags() && SameInput() && (sweepAt == 0 || clock < sweepAt)
      ensures old(hist.idleAt) == 0 && hist.idleAt != 0 ==> dropDeferred && old(state.Open? && !dropPending)
      ensures hist.activity == old(hist.activity) && old(proto.outb.log) <= proto.outb.log
      ensures !dropDeferred ==> Onward()
      ensures if old(PingFalls(now))
              then proto.outb.log == old(proto.outb.log) + [M.Sent(OP_PING, [], 0)] && hist.pinged && hist.pingAt == now
              else hist.pinged == old(hist.pinged) && hist.pingAt == old(hist.pingAt)
      ensures old(dropPending) ==> (dropDeferred <==> old(deadline) != 0 && clock >= old(deadline))
      ensures old(dropPending) && !dropDeferred ==> proto == old(proto) && unchanged(t)
      ensures clock == now
    {
      var pinged := CheckPing(now);
      if !pinged {
        CheckDeadline(now);
      }
    }

    // Posted by the sweeper, judged however late it runs. A connection it
    // does not give up keeps its state, no clock of it lapsed; one it gives
    // up is marked to drop.
    method CheckClock()
      requires Standing() && inDelivery && !dropDeferred && !committed && Poised()
      requires hasProto && (proto.st.drain || state.Handshake?) ==> dropPending
      modifies this, t, sweep
      ensures Standing() && inDelivery && !committed && notes == old(notes) && faulted == old(faulted)
      ensures !dropDeferred ==> Poised() && SameFlags() && SameInput() && (sweepAt == 0 || clock < sweepAt)
      ensures old(hist.idleAt) == 0 && hist.idleAt != 0 ==> dropDeferred && old(state.Open? && !dropPending)
      ensures hist.activity == old(hist.activity) && old(proto.outb.log) <= proto.outb.log
      ensures !dropDeferred ==> Onward()
      ensures var now := clock;
              if old(PingFalls(now))
              then proto.outb.log == old(proto.outb.log) + [M.Sent(OP_PING, [], 0)] && hist.pinged && hist.pingAt == now
              else hist.pinged == old(hist.pinged) && hist.pingAt == old(hist.pingAt)
      ensures old(dropPending) ==> (dropDeferred <==> old(deadline) != 0 && clock >= old(deadline))
      ensures old(dropPending) && !dropDeferred ==> proto == old(proto) && unchanged(t)
      ensures !sweep.posted && sweep.due == old(sweep.due)
    {
      sweep.posted := false;
      if dropping { return; }
      var now := Now();
      Judge(now);
    }

    method DeliverCheck() returns (r: bool)
      requires Quiet()
      modifies this, t, sweep
      ensures if freed then Released() && notes == Ended(old(notes)) && !excuse.PeerLost?
              else Quiet() && notes == old(notes) && Onward()
      ensures old(proto.outb.log) <= proto.outb.log && (old(hasProto) ==> hasProto)
      ensures !sweep.posted && sweep.due == old(sweep.due)
      ensures !freed ==> sweepAt == 0 || clock < sweepAt
      ensures old(Stranded()) ==> (freed <==> old(deadline) != 0 && clock >= old(deadline))
      ensures !freed ==> Stranded() == old(Stranded())
    {
      Guard(true);
      CheckClock();
      Guard(false);
      r := SettleDelivery();
    }

    // The sweeper's look at this connection: a lapsed clock gets its check,
    // one at a time.
    method Sweep()
      requires sweep.Valid()
      modifies this, sweep
      ensures SameFlags() && deadline == old(deadline) && pingDue == old(pingDue) && sweepAt == old(sweepAt)
      ensures hist == old(hist) && proto == old(proto) && dropDeferred == old(dropDeferred) && old(clock) <= clock
      ensures excuse == old(excuse)
      ensures sweep.Valid() && (sweep.posted <==> old(sweep.posted) || (sweepAt != 0 && clock >= sweepAt))
    {
      var now := Now();
      if sweepAt == 0 || now < sweepAt || sweep.posted { return; }
      sweep.posted := true;
      sweep.due := sweep.due + 1;
    }

    // A send or a close from outside any callback of this connection.
    method OwnerCall(act: Act) returns (r: bool)
      requires Quiet()
      modifies this, t
      ensures if freed then Over(old(notes)) else Quiet() && notes == old(notes) && Onward()
      ensures r <==> !freed
      ensures !old(Stranded()) ==>
                (!freed && Stranded() <==> old(Draining() && Empties([act], t.fate, |proto.outb.queue|)))
      ensures old(Stranded()) ==> !freed && Stranded()
      ensures r && old(!state.Handshake?) ==> Did(CommandOf(act))
      ensures r && old(state.Open? && !proto.st.closeSent) ==>
                proto.outb.log == old(proto.outb.log) + [match act
                                                         case Text(data) => M.Sent(OP_TEXT, data, 0)
                                                         case Binary(data) => M.Sent(OP_BINARY, data, 0)
                                                         case Goodbye(code, reason) =>
                                                           M.Sent(OP_CLOSE, M.ClosePayload(code, reason), 0)]
    {
      r := DoAct(act);
    }

    // What ends a stranded connection, its drain done: the peer is heard
    // from or gone, a stale send-ready event, a posted procedure that raises,
    // a check that finds the deadline lapsed.
    ghost predicate Rescues(e: Event, due: nat, deadline: nat, now: nat) {
      match e
      case Data(_, _) => true
      case Ready => true
      case Hangup => true
      case Posted(Proc(script)) => script.raises
      case Posted(Check) => due > 0 && deadline != 0 && now >= deadline
      case Owner(_) => false
      case Swept => false
    }

    // An event of the transport, or a call of the owner's.
    method Deliver(e: Event)
      requires Quiet() && (e.Data? && e.input.Request? ==> e.input.answer.response != [])
      requires !e.Swept? && e != Posted(Check)
      modifies this, t
      ensures (if freed then Released() else Quiet()) && old(proto.outb.log) <= proto.outb.log
      ensures old(hasProto) ==> hasProto
      ensures !old(Stranded()) ==> (!freed && Stranded() <==> old(Strands(e)))
      ensures old(Stranded()) ==> (freed <==> Rescues(e, 0, 0, 0)) && (!freed ==> Stranded())
      ensures e.Data? && old(dropPending) && !freed ==> deadline == old(deadline)
      ensures freed ==> !excuse.Lapsed? && (excuse.PeerLost? <==> e.Hangup?)
    {
      match e {
        case Data(input, rng) => ghost var told := HandleData(input, rng);
        case Ready => Writable();
        case Hangup => HandleClosed();
        case Posted(Proc(script)) => var calm := DeliverContained(script);
        case Owner(act) => var alive := OwnerCall(act);
      }
    }

    // The sweeper's look between two events.
    method TakeSweep()
      requires Quiet() && sweep.Valid()
      modifies this, sweep
      ensures Quiet() && proto == old(proto) && hasProto == old(hasProto) && Stranded() == old(Stranded())
      ensures sweep.Valid()
      ensures (old(sweep.posted) ==> sweep.posted) && (sweepAt != 0 && clock >= sweepAt ==> sweep.posted)
    {
      Sweep();
    }

    // The sweeper's check, when one is on its way.
    method TakeCheck()
      requires Quiet() && sweep.Valid()
      modifies this, t, sweep
      ensures (if freed then Released() else Quiet()) && old(proto.outb.log) <= proto.outb.log
      ensures old(hasProto) ==> hasProto
      ensures sweep.Valid() && (old(sweep.posted) && !freed ==> sweepAt == 0 || clock < sweepAt)
      ensures old(Stranded()) ==> (freed <==> old(sweep.due) > 0 && old(deadline) != 0 && clock >= old(deadline))
      ensures !freed ==> Stranded() == old(Stranded())
      ensures freed ==> !excuse.PeerLost?
    {
      if !sweep.posted { return; }
      sweep.due := sweep.due - 1;
      var alive := DeliverCheck();
    }

    // One event. A check comes only when the sweeper posted it.
    method Take(e: Event)
      requires Quiet() && sweep.Valid() && (e.Data? && e.input.Request? ==> e.input.answer.response != [])
      modifies this, t, sweep
      ensures (if freed then Released() else Quiet()) && old(proto.outb.log) <= proto.outb.log
      ensures old(hasProto) ==> hasProto
      ensures !old(Stranded()) ==> (!freed && Stranded() <==> old(Strands(e)))
      ensures old(Stranded()) ==> (freed <==> Rescues(e, old(sweep.due), old(deadline), clock))
      ensures old(Stranded()) && !freed ==> Stranded()
      ensures e.Data? && old(dropPending) && !freed ==> deadline == old(deadline)
      ensures freed ==> (excuse.PeerLost? ==> e.Hangup?) && (excuse.Lapsed? ==> e == Posted(Check))
      ensures sweep.Valid() && (e.Swept? && sweepAt != 0 && clock >= sweepAt ==> sweep.posted)
      ensures e != Posted(Check) && old(sweep.posted) ==> sweep.posted
      ensures e == Posted(Check) && old(sweep.posted) && !freed ==> sweepAt == 0 || clock < sweepAt
    {
      if e == Posted(Check) {
        TakeCheck();
      } else if e.Swept? {
        TakeSweep();
      } else {
        Deliver(e);
      }
    }

    // Any run of events. Once released the object hears of none.
    method Run(events: seq<Event>)
      requires Quiet() && sweep.Valid()
      requires forall i :: 0 <= i < |events| && events[i].Data? && events[i].input.Request? ==>
                             events[i].input.answer.response != []
      modifies this, t, sweep
      ensures freed ==> Released()
      ensures !freed ==> Quiet() && sweep.Valid()
      ensures old(proto.outb.log) <= proto.outb.log && (old(hasProto) ==> hasProto)
      ensures hasProto && !t.dead ==> t.wire + proto.outb.queue == M.EncodeAll(M.Server, proto.outb.log)
      ensures freed && hasProto && !t.dead && excuse.NoExcuse? ==> t.wire == M.EncodeAll(M.Server, proto.outb.log)
      ensures !freed && hasProto && proto.outb.queue != [] ==> t.interest.output
      ensures !freed && Stranded() ==> !t.interest.output && (settings.closeMs <= 0 ==> deadline == 0)
    {
      var i := 0;
      while i < |events|
        invariant i <= |events|
        invariant (freed ==> Released()) && old(proto.outb.log) <= proto.outb.log && (old(hasProto) ==> hasProto)
        invariant !freed ==> Quiet() && sweep.Valid()
      {
        if attached {
          Take(events[i]);
        }
        i := i + 1;
      }
    }
  }

  // A connection opened by a one-byte response, the socket as given then.
  method OpenOver(socket: seq<Sys>, rng: M.Rng) returns (c: Conn)
    ensures c.Quiet() && c.sweep.Valid() && c.state.Open? && c.hasProto && !c.dropPending && !c.faulted
    ensures !c.proto.st.drain && !c.proto.st.closeSent && c.proto.outb.queue == [] && c.t.fate == socket
    ensures c.settings == Settings(0, 0, 0, 0, 0, 0) && fresh(c) && fresh(c.t) && fresh(c.sweep)
  {
    var idle := Script([], false, []);
    var t := new EpollConn([Took(1)] + socket);
    c := new Conn(t, Settings(0, 0, 0, 0, 0, 0), idle);
    assert Offer([Took(1)] + socket, 1) == Outcome(1, false, socket);
    ghost var greeted := c.HandleData(Request(Upgrade([0], idle), []), rng);
  }

  // A run that strands a connection: the peer's close is answered into a
  // full socket, and then the owner sends.
  method OwnerStrands(rng: M.Rng) returns (c: Conn)
    ensures !c.freed && c.Quiet() && c.Stranded() && !c.t.interest.output && c.deadline == 0
  {
    c := OpenOver([WouldBlock, Took(1000)], rng);
    ghost var answered := c.HandleData(Frames([PeerClose(1000, [])]), rng);
    assert c.t.fate == [Took(1000)] && c.t.fate[1..] == [];
    assert Offer(c.t.fate, |c.proto.outb.queue|).took == |c.proto.outb.queue|;
    assert c.Strands(Owner(Text([])));
    c.Take(Owner(Text([])));
  }
}
