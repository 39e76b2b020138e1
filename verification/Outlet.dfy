// FlushConn and HandleSendReady of source/units/WS.Server.pas over the
// completion-port transport: a send takes what its buffer holds, and the
// completions fetch what is left.

module Outlet {
  import opened Bytes
  import opened Iocp
  import M = Machine
  import Session

  // What drives it: a send or a close of the owner, and the completion of
  // the send in flight. closed is what a handler told of the loss does.
  datatype Event = Issue(cmd: M.Command) | Done(count: nat, ok: bool, closed: seq<Act>)

  class Outlet {
    const t: IocpConn
    var proto: M.Machine

    // The session has the connection, and what it consumed of its queue is
    // what the transport took.
    ghost predicate Valid()
      reads this, t, t.sendBuffer
    {
      && t.Valid() && !t.handedBack && Session.Framed(proto)
      && (!t.dead ==> proto.outb.taken == t.accepted && (proto.outb.queue != [] ==> t.sendInFlight))
    }

    // Between events of the transport. A dead connection was told or will be
    // dropped; nothing is claimed for its bytes.
    ghost predicate Quiet()
      reads this, t, t.sendBuffer
    {
      if t.freed then t.Gone() else t.Quiet() && (!t.dead ==> Valid())
    }

    ghost function InFlight(): bytes
      reads t
    {
      if t.sendInFlight && t.sendOffset <= |t.owned| then t.owned[t.sendOffset..] else []
    }

    // Everything framed is on the wire, in flight or queued, in that order.
    ghost predicate Conserved()
      reads this, t
    {
      t.done + InFlight() + proto.outb.queue == M.EncodeAll(M.Server, proto.outb.log)
    }

    constructor (t: IocpConn, rng: M.Rng)
      requires t.Quiet() && !t.dead && !t.handedBack && t.accepted == []
      ensures this.t == t && Quiet() && proto == M.Init(rng)
    {
      this.t, proto := t, M.Init(rng);
      new;
      Session.FreshFramed(rng);
    }

    lemma ValidConserves()
      requires Valid() && !t.dead
      ensures Conserved()
    {
      assert t.accepted + proto.outb.queue == M.EncodeAll(M.Server, proto.outb.log);
    }

    // False: the connection is dead, and the session drops it.
    method Flush() returns (r: bool)
      requires t.Valid() && !t.handedBack && Session.Framed(proto) && (!t.dead ==> proto.outb.taken == t.accepted)
      modifies this, t, t.sendBuffer
      ensures Valid() && proto.st == old(proto.st) && proto.outb.log == old(proto.outb.log)
      ensures t.pins == old(t.pins) && t.receiving == old(t.receiving) && t.sendBuffer == old(t.sendBuffer)
      ensures t.outstanding >= old(t.outstanding) && (old(t.dead) ==> t.dead) && (!r ==> t.dead)
    {
      if proto.outb.queue == [] { return true; }
      var w := t.RawSend(proto.outb.queue);
      if w < 0 { return false; }
      Session.TakeFramed(proto, w);
      proto := M.Take(proto, w);
      r := true;
    }

    method Send(cmd: M.Command) returns (r: bool)
      requires Quiet() && !t.freed && !t.dead
      modifies this, t, t.sendBuffer
      ensures Quiet() && !t.freed && t.sendBuffer == old(t.sendBuffer)
      ensures proto.outb.log == M.Do(Session.SERVER, old(proto), cmd).outb.log
      ensures !t.dead ==> Conserved()
    {
      Session.DoFramed(proto, cmd);
      proto := M.Do(Session.SERVER, proto, cmd);
      r := Flush();
      if !t.dead {
        ValidConserves();
      }
    }

    // The send completed: the transport sends its tail, or OnSendReady
    // flushes the queue.
    method Completed(count: nat, ok: bool, closed: seq<Act>)
      requires Quiet() && !t.freed && !t.dead && t.sendInFlight && count <= t.sendPosted - t.sendOffset
      modifies this, t, t.sendBuffer
      ensures Quiet() && t.sendBuffer == old(t.sendBuffer) && proto.outb.log == old(proto.outb.log)
      ensures !t.dead ==> Conserved()
      ensures ok && old(t.Accepts()) && old(t.sendOffset) + count < old(t.sendPosted) ==>
                proto == old(proto) && t.Resumed(count)
    {
      var again, ready := t.Completed(count, ok, closed);
      if !again {
        if ready {
          var alive := Flush();
        }
        t.LetGo();
      }
      if !t.dead {
        ValidConserves();
      }
    }

    // Any run: while the connection lives, every byte framed is done, in
    // flight or queued, in order, and what is queued has a completion due.
    method Run(events: seq<Event>)
      requires Quiet() && !t.freed && !t.dead
      modifies this, t, t.sendBuffer
      ensures Quiet()
      ensures !t.dead ==> Conserved() && (proto.outb.queue != [] ==> t.sendInFlight)
    {
      ValidConserves();
      var i := 0;
      while i < |events| && !t.dead
        invariant i <= |events| && Quiet() && t.sendBuffer == old(t.sendBuffer) && (!t.dead ==> Conserved() && !t.freed)
      {
        match events[i] {
          case Issue(cmd) => var alive := Send(cmd);
          case Done(count, ok, closed) =>
            if t.sendInFlight && count <= t.sendPosted - t.sendOffset { Completed(count, ok, closed); }
        }
        i := i + 1;
      }
    }
  }
}
