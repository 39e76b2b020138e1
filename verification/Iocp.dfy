// The plaintext lifetime and send path of a connection of the IOCP transport
// (source/units/WS.Transport.Iocp.pas). The kernel's answers, the order of
// completions and what callbacks do are inputs.

module Iocp {
  import opened Bytes

  // What a callback does to the connection it is given. It stops once it
  // has handed the connection back.
  datatype Act = Send(data: bytes) | Close

  // An overlapped call: accepted (at once or pending), or refused.
  datatype Post = Posted | Refused

  // What reaches a connection: completions of its two operations, the
  // close-drain deadline, a call from outside its callbacks. acts and closed
  // are what the callbacks it may lead to do.
  datatype Event = Received(data: bytes, ok: bool, acts: seq<Act>, closed: seq<Act>)
                 | Sent(count: nat, ok: bool, acts: seq<Act>, closed: seq<Act>)
                 | Expired
                 | Outside(acts: seq<Act>)

  // A callback's acts up to the first close, which is its last.
  function UpToClose(acts: seq<Act>): (done: seq<Act>) {
    if acts == [] then [] else [acts[0]] + if acts[0].Close? then [] else UpToClose(acts[1..])
  }

  // What an event has the session do: in a callback that is called or not,
  // and when it is told the end.
  function Said(called: bool, acts: seq<Act>, told: bool, closed: seq<Act>): (done: seq<Act>) {
    if !called then if told then UpToClose(closed) else []
    else if told then UpToClose(acts) + UpToClose(closed) else UpToClose(acts)
  }

  lemma CalledThenTold(was: seq<Act>, acts: seq<Act>, told: bool, closed: seq<Act>)
    ensures (was + UpToClose(acts)) + (if told then UpToClose(closed) else []) == was + Said(true, acts, told, closed)
  {
  }

  lemma ActNext(did: seq<Act>, acts: seq<Act>, i: nat)
    requires i < |acts|
    ensures did + UpToClose(acts[i..]) ==
            (did + [acts[i]]) + if acts[i].Close? then [] else UpToClose(acts[i + 1..])
  {
    assert acts[i..][0] == acts[i] && acts[i..][1..] == acts[i + 1..];
  }

  // The bytes that successful receives brought.
  function Brought(events: seq<Event>): (ds: seq<bytes>) {
    if events == [] then [] else
    var e := events[|events| - 1];
    Brought(events[..|events| - 1]) + if e.Received? && e.ok && e.data != [] then [e.data] else []
  }

  lemma BroughtNext(was: seq<bytes>, events: seq<Event>, i: nat)
    requires i < |events|
    ensures (was + Brought(events[..i])) + Brought([events[i]]) == was + Brought(events[..i + 1])
  {
    var e := events[i];
    assert events[..i + 1][..i] == events[..i] && [e][..0] == [];
    assert Brought([e]) == [] + if e.Received? && e.ok && e.data != [] then [e.data] else [];
  }

  function One(b: bool): nat {
    if b then 1 else 0
  }

  class IocpConn {
    var sendBuffer: array<byte>
    var outstanding: int
    var sendInFlight: bool
    var sendPosted: nat          // bytes posted in the current send
    var sendOffset: nat          // bytes of them completed
    var dead: bool
    var closeRequested: bool
    var sentAny: bool
    var finSent: bool
    var closing: bool
    var timed: bool
    var aborted: bool            // the close-drain deadline reset it
    var receiving: bool          // the kernel's side: a receive is armed
    var handedBack: bool         // the session's side: SubmitClose was called
    var posts: seq<Post>         // the kernel's next answers; past its end it accepts

    ghost var pins: nat          // holds on the stack: callbacks and completions under way
    ghost var freed: bool
    ghost var told: nat          // times OnClosed fired
    ghost var accepted: bytes    // all RawSend took
    ghost var done: bytes        // all that completions reported sent
    ghost var owned: bytes       // what the kernel was given to send
    ghost var refusedSend: bool  // RawSend has answered -1 over a refused post
    ghost var refusedTail: bool  // the tail of a short send was refused
    ghost var heard: seq<bytes>  // what OnData was called with
    ghost var readied: nat       // times OnSendReady fired
    ghost var did: seq<Act>      // what the session did, inside callbacks and out

    // The session knows that the connection is over: it was told, it handed
    // the connection back, or a send of its own was answered so.
    ghost predicate Known()
      reads this
    {
      told == 1 || handedBack || refusedSend
    }

    ghost predicate Held()
      reads this, sendBuffer
    {
      && !freed && outstanding == One(receiving) + One(sendInFlight) + pins
      && 0 < sendBuffer.Length && sendOffset <= sendPosted <= sendBuffer.Length
      && (sendInFlight ==> owned == sendBuffer[..sendPosted])
      && (sendInFlight ==> done + owned[sendOffset..] == accepted)
      && (!sendInFlight ==> done <= accepted)
      && (closing ==> handedBack) && (finSent ==> closing)
      && (closing && sendInFlight ==> closeRequested) && (closeRequested ==> handedBack)
      && (told > 0 ==> dead) && told <= 1 && (dead ==> Known() || refusedTail)
    }

    ghost predicate Books()
      reads this, sendBuffer
    {
      Held() && (!sendInFlight && !dead ==> done == accepted)
    }

    // Every operation outstanding is the armed receive, the send in flight
    // or a pin; what was accepted is done or in the send buffer, untouched.
    ghost predicate Valid()
      reads this, sendBuffer
    {
      Books() && (handedBack ==> closing || dead)
    }

    // The kernel's next answer.
    ghost predicate Accepts()
      reads this
    {
      posts == [] || posts[0].Posted?
    }

    // Between events: nothing on the stack; a live connection is being read,
    // a dead one waits for an operation still out.
    ghost predicate Quiet()
      reads this, sendBuffer
    {
      && Valid() && pins == 0
      && (dead ==> outstanding > 0) && (!dead ==> receiving)
    }

    // An accepted socket, held by nothing yet.
    constructor (bufferSize: nat, posts: seq<Post>)
      requires bufferSize > 0
      ensures Valid() && !dead && !handedBack && !receiving && pins == 0 && told == 0 && fresh(sendBuffer)
      ensures heard == [] && readied == 0 && did == []
    {
      sendBuffer := new byte[bufferSize](_ => 0);
      outstanding, sendInFlight, sendPosted, sendOffset := 0, false, 0, 0;
      dead, closeRequested, sentAny, finSent, closing, timed := false, false, false, false, false, false;
      aborted, refusedSend, refusedTail := false, false, false;
      this.posts := posts;
      receiving, pins, freed, handedBack, told := false, 0, false, false, 0;
      accepted, done, owned := [], [], [];
      heard, readied, did := [], 0, [];
    }

    // No callback was made and the session did nothing.
    twostate predicate SameSession()
      reads this
    {
      heard == old(heard) && readied == old(readied) && did == old(did)
    }

    // No callback was made but OnClosed, if the session was told.
    twostate predicate OnlyClosed(acts: seq<Act>)
      reads this
    {
      && heard == old(heard) && readied == old(readied) && old(told) <= told && (old(handedBack) ==> handedBack)
      && did == old(did) + if told > old(told) then UpToClose(acts) else []
    }

    twostate predicate SameStream()
      reads this
    {
      && accepted == old(accepted) && done == old(done) && owned == old(owned) && sendBuffer == old(sendBuffer)
      && sendInFlight == old(sendInFlight) && sendPosted == old(sendPosted) && sendOffset == old(sendOffset)
    }

    // What the owner of the bytes may count on: nothing accepted is lost
    // from the books, and what was done stays done.
    twostate predicate StreamGrew()
      reads this
    {
      sendBuffer == old(sendBuffer) && old(accepted) <= accepted && old(done) <= done
    }

    twostate predicate Same()
      reads this
    {
      && SameStream() && outstanding == old(outstanding) && dead == old(dead) && closeRequested == old(closeRequested)
      && sentAny == old(sentAny) && finSent == old(finSent) && closing == old(closing) && timed == old(timed)
      && receiving == old(receiving) && pins == old(pins) && handedBack == old(handedBack) && told == old(told)
      && aborted == old(aborted) && refusedSend == old(refusedSend) && refusedTail == old(refusedTail)
      && SameSession()
    }

    method NextPost() returns (r: Post)
      modifies this
      ensures Same() && freed == old(freed) && (r.Posted? <==> old(Accepts()))
    {
      if posts == [] { return Posted; }
      r := posts[0];
      posts := posts[1..];
    }

    // What the session's acts may have changed.
    twostate predicate Acted()
      reads this, sendBuffer
    {
      && Valid() && pins == old(pins) && receiving == old(receiving) && told == old(told)
      && refusedTail == old(refusedTail) && StreamGrew() && (old(dead) ==> dead) && outstanding >= old(outstanding)
      && (old(dead) ==> SameStream() && outstanding == old(outstanding)) && (old(handedBack) ==> handedBack)
    }

    // A callback, or a call from outside one: its acts done up to its close.
    twostate predicate Called(acts: seq<Act>)
      reads this, sendBuffer
    {
      Acted() && did == old(did) + UpToClose(acts)
    }

    // What the session has been told, and may still be.
    twostate predicate SameNews()
      reads this
    {
      told == old(told) && refusedSend == old(refusedSend) && refusedTail == old(refusedTail) && SameSession()
    }

    // Freed with nothing outstanding, the session told at most once.
    ghost predicate Gone()
      reads this
    {
      && freed && dead && outstanding == 0 && !receiving && !sendInFlight && pins == 0 && told <= 1
      && (Known() || refusedTail)
    }

    // Frees a dead connection with nothing outstanding.
    method TryFinalize()
      requires Held()
      modifies this
      ensures freed == (dead && outstanding == 0) && (!freed ==> Held()) && Same()
      ensures freed ==> Gone()
    {
      if !dead || outstanding != 0 { return; }
      freed := true;
    }

    method HardClose()
      requires Held() && (!dead ==> handedBack)
      modifies this
      ensures SameStream() && SameNews() && dead && finSent == old(finSent) && aborted == old(aborted)
      ensures freed == (old(outstanding) == 0) && (freed ==> Gone())
      ensures !freed ==> Valid() && pins == old(pins) && receiving == old(receiving) && outstanding == old(outstanding)
      ensures handedBack == old(handedBack) && closing == old(closing)
    {
      if !dead {
        dead := true;
        timed := false;
      }
      TryFinalize();
    }

    // The session is done with the connection; no callback fires from here.
    method BeginCloseDrain()
      requires !freed && handedBack
      modifies this
      ensures SameStream() && outstanding == old(outstanding) && dead == old(dead) &&
              closeRequested == old(closeRequested)
      ensures closing && handedBack && finSent == old(finSent) && receiving == old(receiving) &&
              pins == old(pins) && !freed && SameNews() && aborted == old(aborted)
      ensures if old(closing) then timed == old(timed) else timed
    {
      if closing { return; }
      closing := true;
      timed := true;
    }

    method BeginGracefulClose()
      requires Books() && handedBack && (!sendInFlight || closeRequested)
      modifies this
      ensures Valid() && SameStream() && outstanding == old(outstanding) && dead == old(dead) && (!dead ==> closing)
      ensures receiving == old(receiving) && pins == old(pins) && SameNews() && handedBack
      ensures !dead ==> finSent && (!old(closing) ==> timed)
    {
      if dead || finSent { return; }
      BeginCloseDrain();
      finSent := true;
    }

    twostate predicate SameAround()
      reads this
    {
      && receiving == old(receiving) && pins == old(pins) && handedBack == old(handedBack) && told == old(told)
      && refusedTail == old(refusedTail) && sendBuffer == old(sendBuffer) && done == old(done) && SameSession()
    }

    // A send of n bytes about to be posted.
    ghost predicate Posting(n: nat)
      reads this, sendBuffer
    {
      && !freed && !dead && !handedBack && !closing && !closeRequested && !finSent && told == 0
      && outstanding == One(receiving) + 1 + pins && 0 < sendBuffer.Length
      && sendInFlight && sendOffset == 0 && sendPosted == n <= sendBuffer.Length && done == accepted
    }

    // The post was refused: the connection is dead.
    method Withdraw(n: nat)
      requires Posting(n)
      modifies this
      ensures Valid() && SameAround() && dead && !closing && accepted == old(accepted)
      ensures outstanding == old(outstanding) - 1
    {
      outstanding := outstanding - 1;
      sendInFlight := false;
      dead := true;
      refusedSend := true;
    }

    // The kernel took the whole of data, the front of the send buffer.
    method Given(data: bytes)
      requires Posting(|data|) && sendBuffer[..|data|] == data
      modifies this
      ensures Valid() && SameAround() && !dead && !closing && sendInFlight && accepted == old(accepted) + data
      ensures outstanding == old(outstanding)
    {
      accepted := accepted + data;
      owned := data;
      assert owned[0..] == owned;
    }

    // Posts the front of the send buffer, which holds data.
    method PostSend(data: bytes) returns (r: int)
      requires Valid() && !handedBack && !dead && !sendInFlight
      requires |data| <= sendBuffer.Length && sendBuffer[..|data|] == data
      modifies this
      ensures Valid() && SameAround() && closing == old(closing) && outstanding >= old(outstanding)
      ensures if old(Accepts()) then !dead && r == |data| && sendInFlight && accepted == old(accepted) + data
              else dead && r == -1 && accepted == old(accepted)
    {
      sendPosted := |data|;
      sendOffset := 0;
      sendInFlight := true;
      outstanding := outstanding + 1;
      var post := NextPost();
      if post.Refused? {
        Withdraw(|data|);
        return -1;
      }
      Given(data);
      r := |data|;
    }

    // Copies into the send buffer and posts it; 0 while a send owns the
    // buffer, -1 on a dead connection.
    method RawSend(data: bytes) returns (r: int)
      requires Valid() && !handedBack
      modifies this, sendBuffer
      ensures Valid() && receiving == old(receiving) && pins == old(pins) && handedBack == old(handedBack) &&
              told == old(told) && refusedTail == old(refusedTail)
      ensures StreamGrew() && (r == -1 <==> dead) && (old(dead) ==> dead) && closing == old(closing)
      ensures r != -1 ==> 0 <= r <= |data| && accepted == old(accepted) + data[..r]
      ensures r == -1 ==> accepted == old(accepted)
      ensures old(sendInFlight) ==> r <= 0 && SameStream() && sendBuffer[..] == old(sendBuffer[..])
      ensures 0 <= r < |data| ==> sendInFlight
      ensures outstanding >= old(outstanding) && (old(dead) ==> SameStream() && outstanding == old(outstanding))
      ensures heard == old(heard) && readied == old(readied) && did == old(did) + [Send(data)]
    {
      did := did + [Send(data)];
      if dead { return -1; }
      if sendInFlight { return 0; }
      if data == [] { return 0; }
      var n := Min(|data|, sendBuffer.Length);
      Place(sendBuffer, 0, data[..n]);
      r := PostSend(data[..n]);
    }

    // The unsent tail posted again, the completed operation's pin carried
    // over.
    method ResumeSend() returns (r: bool)
      requires !freed
      modifies this
      ensures r == old(Accepts())
      ensures if r then dead == old(dead) && refusedTail == old(refusedTail) else dead && refusedTail
      ensures SameStream() && outstanding == old(outstanding) && closeRequested == old(closeRequested) &&
              closing == old(closing)
      ensures receiving == old(receiving) && pins == old(pins) && handedBack == old(handedBack) && told == old(told)
      ensures finSent == old(finSent) && aborted == old(aborted) && refusedSend == old(refusedSend) && !freed
      ensures SameSession()
    {
      var post := NextPost();
      r := true;
      if post.Refused? {
        dead := true;
        refusedTail := true;
        r := false;
      }
    }

    // A send in flight goes first, the FIN behind it; a peer that was sent
    // something gets a FIN, any other a reset.
    method SubmitClose()
      requires Valid() && !handedBack
      modifies this
      ensures SameStream() && handedBack && told == old(told) && refusedSend == old(refusedSend)
      ensures refusedTail == old(refusedTail)
      ensures heard == old(heard) && readied == old(readied) && did == old(did) + [Close]
      ensures old(!dead && sendInFlight) ==> !freed && !dead && closeRequested && timed && !finSent
      ensures old(!dead && !sendInFlight && sentAny) ==> !freed && !dead && finSent && timed
      ensures old(dead || (!sendInFlight && !sentAny)) ==> dead && !finSent
      ensures freed ==> old(outstanding) == 0 && Gone()
      ensures !freed ==> Valid() && pins == old(pins) && receiving == old(receiving) && (old(dead) ==> dead)
      ensures !freed ==> outstanding == old(outstanding) && (dead ==> outstanding > 0)
    {
      did := did + [Close];
      handedBack := true;
      if sendInFlight && !dead {
        closeRequested := true;
        BeginCloseDrain();
        return;
      }
      if !dead && sentAny {
        BeginGracefulClose();
      } else {
        HardClose();
      }
    }

    method Perform(act: Act)
      requires Valid() && !handedBack && outstanding > 0
      modifies this, sendBuffer
      ensures Acted() && heard == old(heard) && readied == old(readied)
      ensures did == old(did) + [act] && handedBack == act.Close?
    {
      match act {
        case Send(data) => var took := RawSend(data);
        case Close => SubmitClose();
      }
    }

    // A callback runs, or the session calls in. The connection is the
    // session's until it is handed back, and no callback is made after that.
    method Callback(acts: seq<Act>)
      requires Valid() && !handedBack && outstanding > 0
      modifies this, sendBuffer
      ensures Called(acts) && heard == old(heard) && readied == old(readied)
    {
      var i := 0;
      assert acts[0..] == acts;
      while i < |acts| && !handedBack
        invariant i <= |acts| && Acted() && heard == old(heard) && readied == old(readied)
        invariant old(did) + UpToClose(acts) == did + if handedBack then [] else UpToClose(acts[i..])
      {
        ActNext(did, acts, i);
        Perform(acts[i]);
        i := i + 1;
      }
    }

    // OnData.
    method Data(data: bytes, acts: seq<Act>)
      requires Valid() && !handedBack && outstanding > 0
      modifies this, sendBuffer
      ensures Called(acts) && heard == old(heard) + [data] && readied == old(readied)
    {
      heard := heard + [data];
      Callback(acts);
    }

    // OnSendReady.
    method SendReady(acts: seq<Act>)
      requires Valid() && !handedBack && outstanding > 0
      modifies this, sendBuffer
      ensures Called(acts) && heard == old(heard) && readied == old(readied) + 1
    {
      readied := readied + 1;
      Callback(acts);
    }

    // OnClosed, under a pin.
    method TellClosed(acts: seq<Act>)
      requires Held() && !dead && !handedBack
      modifies this, sendBuffer
      ensures Valid() && dead && SameStream() && pins == old(pins) && receiving == old(receiving)
      ensures outstanding == old(outstanding) && told == old(told) + 1 && OnlyClosed(acts)
    {
      dead := true;
      timed := false;
      outstanding := outstanding + 1;
      pins := pins + 1;
      told := told + 1;
      Callback(acts);
      outstanding := outstanding - 1;
      pins := pins - 1;
    }

    // The peer is gone. A connection handed back goes silently, another one
    // tells the session, once, pinned while it does.
    method RemoteClosed(acts: seq<Act>)
      requires Held() && (handedBack ==> closing || dead) && (dead ==> outstanding > 0)
      modifies this, sendBuffer
      ensures SameStream()
      ensures freed == (old(outstanding) == 0) && (freed ==> Gone())
      ensures !freed ==>
                Valid() && dead && pins == old(pins) && receiving == old(receiving) && outstanding == old(outstanding)
      ensures told == old(told) + (if old(dead || closing) then 0 else 1)
      ensures OnlyClosed(acts)
    {
      if dead { return; }
      if closing {
        HardClose();
        return;
      }
      TellClosed(acts);
      TryFinalize();
    }

    method ArmReceive(acts: seq<Act>)
      requires Valid() && !dead && !receiving
      modifies this, sendBuffer
      ensures SameStream()
      ensures freed ==> Gone()
      ensures !freed ==> Valid() && pins == old(pins) && (dead ==> outstanding > 0) && (!dead ==> receiving)
      ensures old(handedBack) ==> told == old(told)
      ensures OnlyClosed(acts)
    {
      outstanding := outstanding + 1;
      receiving := true;
      var post := NextPost();
      if post.Refused? {
        outstanding := outstanding - 1;
        receiving := false;
        RemoteClosed(acts);
      }
    }

    // -- what reaches the connection ---------------------------------------

    // The pin of a callback or a completed receive is let go.
    method Unpin(closed: seq<Act>)
      requires Valid() && pins == 1 && !receiving
      modifies this, sendBuffer
      ensures SameStream() && if freed then Gone() else Quiet()
      ensures old(handedBack || dead) ==> told == old(told)
      ensures OnlyClosed(closed) && (old(dead) ==> dead)
    {
      outstanding := outstanding - 1;
      pins := pins - 1;
      if dead {
        TryFinalize();
      } else {
        ArmReceive(closed);
      }
    }

    // OnAccept under a pin, then the first receive.
    method HandleAccept(acts: seq<Act>, closed: seq<Act>)
      requires Valid() && !dead && !handedBack && !receiving && pins == 0
      modifies this, sendBuffer
      ensures if freed then Gone() else Quiet()
      ensures heard == old(heard) && readied == old(readied)
      ensures did == old(did) + Said(true, acts, told > old(told), closed)
    {
      outstanding := outstanding + 1;
      pins := pins + 1;
      Callback(acts);
      Unpin(closed);
      CalledThenTold(old(did), acts, told > old(told), closed);
    }

    // OnData, unless the peer or the session is gone.
    method OnReceived(data: bytes, ok: bool, acts: seq<Act>, closed: seq<Act>)
      requires Valid() && pins == 1 && !receiving && outstanding > 0
      modifies this, sendBuffer
      ensures Valid() && pins == 1 && !receiving && StreamGrew() && readied == old(readied)
      ensures (old(handedBack) ==> handedBack) && (old(dead) ==> dead)
      ensures var hears := ok && data != [] && old(!dead && !closing);
              && heard == old(heard) + (if hears then [data] else [])
              && did == old(did) + (if hears then UpToClose(acts)
                                    else if told > old(told) then UpToClose(closed) else [])
              && told == old(told) + One((!ok || data == []) && old(!dead && !closing))
    {
      if !dead {
        if !ok || data == [] {
          RemoteClosed(closed);
        } else if !closing {
          Data(data, acts);
        }
      }
    }

    // A completed receive, and the next one armed.
    method HandleReceived(data: bytes, ok: bool, acts: seq<Act>, closed: seq<Act>)
      requires Quiet() && receiving
      modifies this, sendBuffer
      ensures StreamGrew() && if freed then Gone() else Quiet()
      ensures old(handedBack) ==> told == old(told)
      ensures old(told) <= told && readied == old(readied)
      ensures var hears := ok && data != [] && old(!dead && !closing);
              && heard == old(heard) + (if hears then [data] else [])
              && did == old(did) + Said(hears, acts, told > old(told), closed)
      ensures (old(handedBack) ==> handedBack) && (old(dead) ==> dead)
    {
      receiving := false;
      pins := pins + 1;
      OnReceived(data, ok, acts, closed);
      Unpin(closed);
      CalledThenTold(old(did), acts, told > old(told), closed);
    }

    // The rest of what the kernel was given, and nothing else, is in flight.
    twostate predicate Resumed(count: nat)
      reads this
    {
      && sendInFlight && sendOffset == old(sendOffset) + count && sendPosted == old(sendPosted) && owned == old(owned)
      && accepted == old(accepted) && dead == old(dead) && told == old(told) && sendBuffer == old(sendBuffer)
    }

    // The send is over: the loss of the peer told, a deferred close ended, or
    // OnSendReady due.
    method SendOver(ok: bool, closed: seq<Act>) returns (ready: bool)
      requires Held() && (handedBack ==> closing || dead) && pins == 1 && !sendInFlight && (!dead ==> receiving)
      requires (ok && !dead ==> done == accepted) && (closing ==> closeRequested)
      modifies this, sendBuffer
      ensures Valid() && pins == 1 && receiving == old(receiving) && SameStream() && (!dead ==> receiving)
      ensures old(handedBack || dead) ==> told == old(told)
      ensures old(dead) ==> dead && refusedTail == old(refusedTail)
      ensures ready == (ok && old(!dead && !closeRequested))
      ensures ready ==> !dead && !handedBack && told == old(told)
      ensures ok && old(!dead && closeRequested) ==> !dead && finSent
      ensures !ready ==> dead || finSent
      ensures (!dead ==> handedBack == old(handedBack)) && OnlyClosed(closed)
    {
      ready := false;
      if !dead {
        if !ok {
          RemoteClosed(closed);
        } else if closeRequested {
          BeginGracefulClose();
        } else {
          ready := true;
        }
      } else if closeRequested {
        HardClose();
      }
    }

    // count more bytes are done; again: the rest is on its way once more.
    method Advance(count: nat) returns (again: bool)
      requires Quiet() && sendInFlight && !dead && count <= sendPosted - sendOffset
      modifies this
      ensures again ==> Quiet() && Resumed(count)
      ensures again <==> old(sendOffset) + count < old(sendPosted) && old(Accepts())
      ensures !again && old(sendOffset) + count < old(sendPosted) ==> dead && refusedTail
      ensures old(sendOffset) + count == old(sendPosted) ==> !dead
      ensures closeRequested == old(closeRequested)
      ensures Held() && (handedBack ==> closing || dead) && pins == 0 && sendInFlight && sendBuffer == old(sendBuffer)
      ensures owned == old(owned) && done == old(done + owned[sendOffset..sendOffset + count]) &&
              accepted == old(accepted)
      ensures !again && !dead ==> done == accepted
      ensures receiving == old(receiving) && told == old(told) && handedBack == old(handedBack) && (!dead ==> receiving)
      ensures SameSession()
    {
      sentAny := true;
      assert owned[sendOffset..] == owned[sendOffset..sendOffset + count] + owned[sendOffset + count..];
      done := done + owned[sendOffset..sendOffset + count];
      sendOffset := sendOffset + count;
      again := false;
      if sendOffset < sendPosted {
        again := ResumeSend();
      }
    }

    // A completed send up to its callback. again: the rest is on its way;
    // ready: OnSendReady is due, under a pin.
    method Completed(count: nat, ok: bool, closed: seq<Act>) returns (again: bool, ready: bool)
      requires Quiet() && sendInFlight && count <= sendPosted - sendOffset
      modifies this, sendBuffer
      ensures StreamGrew() && accepted == old(accepted)
      ensures if again then Quiet() && !ready && Resumed(count) else Valid() && pins == 1 && (!dead ==> receiving)
      ensures old(handedBack || dead) ==> told == old(told)
      ensures ready ==> !dead && !sendInFlight && !handedBack && done == accepted && told == old(told)
      ensures again <==> ok && old(!dead && Accepts()) && old(sendOffset) + count < old(sendPosted)
      ensures ok && old(!dead && !Accepts()) && old(sendOffset) + count < old(sendPosted) ==>
                dead && refusedTail && told == old(told)
      ensures ready <==> ok && old(!dead && !handedBack) && old(sendOffset) + count == old(sendPosted)
      ensures ok && old(!dead && closeRequested) && old(sendOffset) + count == old(sendPosted) ==>
                !dead && !ready && finSent && done == accepted
      ensures ok && old(!dead) && !dead ==> again || ready || finSent
      ensures !again && !ready ==> dead || finSent
      ensures (!dead ==> handedBack == old(handedBack)) && OnlyClosed(closed)
      ensures old(dead) ==> dead
    {
      ready := false;
      if ok && !dead {
        again := Advance(count);
        if again { return; }
      }
      again := false;
      sendInFlight := false;
      pins := pins + 1;
      ready := SendOver(ok, closed);
    }

    // The pin of a completed send is let go.
    method LetGo()
      requires Valid() && pins == 1 && (!dead ==> receiving)
      modifies this
      ensures SameStream() && SameNews() && dead == old(dead) && finSent == old(finSent)
      ensures if freed then Gone() else Quiet()
      ensures (!dead ==> !freed) && handedBack == old(handedBack)
    {
      outstanding := outstanding - 1;
      pins := pins - 1;
      if dead {
        TryFinalize();
      }
    }

    // A completed send: the tail again when it fell short, then the end of a
    // deferred close or OnSendReady.
    method HandleSent(count: nat, ok: bool, acts: seq<Act>, closed: seq<Act>)
      requires Quiet() && sendInFlight && count <= sendPosted - sendOffset
      modifies this, sendBuffer
      ensures StreamGrew() && if freed then Gone() else Quiet()
      ensures old(handedBack) ==> told == old(told)
      ensures ok && old(!dead) && old(sendOffset) + count < old(sendPosted) ==>
                if old(Accepts()) then !freed && Resumed(count) else dead && refusedTail && told == old(told)
      ensures ok && old(!dead && closeRequested) && old(sendOffset) + count == old(sendPosted) ==>
                !freed && !dead && finSent && done == accepted == old(accepted)
      ensures heard == old(heard) && old(told) <= told
      ensures var fires := ok && old(!dead && !handedBack) && old(sendOffset) + count == old(sendPosted);
              && readied == old(readied) + One(fires)
              && did == old(did) + Said(fires, acts, told > old(told), closed)
      ensures (old(handedBack) ==> handedBack) && (old(dead) ==> dead)
    {
      var again, ready := Completed(count, ok, closed);
      if again { return; }
      if ready {
        SendReady(acts);
      }
      LetGo();
    }

    // The socket is reset, whatever is still in flight cancelled.
    method ExpireCloseDrain()
      requires Quiet() && closing
      modifies this
      ensures SameStream() && SameNews() && dead && (!old(dead) ==> aborted) && handedBack == old(handedBack)
      ensures if freed then Gone() else Quiet()
    {
      if !dead {
        aborted := true;
      }
      HardClose();
    }

    // A deferred close has waited its time.
    method HandleExpired()
      requires Quiet()
      modifies this
      ensures SameStream() && if freed then Gone() else Quiet()
      ensures if old(timed && closing && !dead) then dead && aborted else !freed && Same()
      ensures SameSession() && handedBack == old(handedBack)
    {
      if timed && closing && !dead {
        ExpireCloseDrain();
      }
    }

    // A call from outside the connection's callbacks, a posted procedure's.
    method HandleOutside(acts: seq<Act>)
      requires Quiet()
      modifies this, sendBuffer
      ensures StreamGrew() && Quiet() && heard == old(heard) && readied == old(readied)
      ensures did == old(did) + if old(dead || closing) then [] else UpToClose(acts)
      ensures (old(handedBack) ==> handedBack) && (old(dead) ==> dead)
    {
      if dead || closing { return; }
      Callback(acts);
    }

    lemma Conserved()
      requires Quiet()
      ensures accepted == done + if sendInFlight then owned[sendOffset..] else accepted[|done|..]
    {
    }

    // One event. A completion comes only of what was posted.
    method Take(e: Event)
      requires Quiet()
      modifies this, sendBuffer
      ensures StreamGrew() && if freed then Gone() else Quiet()
      ensures (old(handedBack) ==> handedBack) && (old(dead) ==> dead)
      ensures heard == old(heard) + if old(dead || handedBack) then [] else Brought([e])
    {
      match e {
        case Received(data, ok, acts, closed) =>
          if receiving { HandleReceived(data, ok, acts, closed); }
        case Sent(count, ok, acts, closed) =>
          if sendInFlight && count <= sendPosted - sendOffset { HandleSent(count, ok, acts, closed); }
        case Expired => HandleExpired();
        case Outside(acts) => HandleOutside(acts);
      }
    }

    // Any run of events; the kernel completes only what it was given. Until
    // the connection is lost or handed back, at events[live..], the session
    // hears all that was received, in order, and after that nothing.
    method Run(events: seq<Event>) returns (ghost live: nat)
      requires Quiet()
      modifies this, sendBuffer
      ensures if freed then Gone() else Quiet()
      ensures !freed ==> outstanding == One(receiving) + One(sendInFlight)
      ensures !freed ==> accepted == done + (if sendInFlight then owned[sendOffset..] else accepted[|done|..])
      ensures StreamGrew()
      ensures live <= |events| && heard == old(heard) + Brought(events[..live])
      ensures live == |events| || dead || handedBack
    {
      var i := 0;
      live := 0;
      while i < |events| && !(dead && outstanding == 0)
        invariant live <= i <= |events| && (if freed then Gone() else Quiet()) && StreamGrew()
        invariant heard == old(heard) + Brought(events[..live]) && (live == i || dead || handedBack)
      {
        if !dead && !handedBack {
          BroughtNext(old(heard), events, i);
          live := i + 1;
        }
        Take(events[i]);
        i := i + 1;
      }
      if !freed {
        Conserved();
      }
    }
  }

  // The transport's table of live connections, FLive: swap-removal after a
  // search.
  class LiveTable {
    var live: array<IocpConn?>
    var count: nat

    ghost predicate Valid()
      reads this, live
    {
      && count <= live.Length
      && (forall i :: 0 <= i < count ==> live[i] != null)
      && (forall i, j :: 0 <= i < j < count ==> live[i] != live[j])
    }

    ghost function Contents(): set<IocpConn?>
      requires count <= live.Length
      reads this, live
    {
      set i | 0 <= i < count :: live[i]
    }

    constructor ()
      ensures Valid() && Contents() == {} && fresh(live)
    {
      live := new IocpConn?[0];
      count := 0;
    }

    method Grow()
      requires Valid()
      modifies this
      ensures Valid() && Contents() == old(Contents()) && count == old(count) && count < live.Length && fresh(live)
      ensures forall i :: 0 <= i < count ==> live[i] == old(live[i])
    {
      var bigger := new IocpConn?[count + 64](_ => null);
      var i := 0;
      while i < count
        invariant i <= count && forall j :: 0 <= j < i ==> bigger[j] == live[j]
        modifies bigger
      {
        bigger[i] := live[i];
        i := i + 1;
      }
      live := bigger;
    }

    method Track(c: IocpConn)
      requires Valid() && c !in Contents()
      modifies this, live
      ensures Valid() && Contents() == old(Contents()) + {c} && (live == old(live) || fresh(live))
    {
      ghost var was := Contents();
      if count == live.Length {
        Grow();
      }
      ghost var before := live[..count];
      assert forall x :: x in was <==> x in before;
      live[count] := c;
      count := count + 1;
      assert live[..count] == before + [c];
      assert forall x :: x in Contents() <==> x in live[..count];
    }

    method Untrack(c: IocpConn)
      requires Valid()
      modifies this, live
      ensures Valid() && Contents() == old(Contents()) - {c} && live == old(live)
    {
      ghost var was := Contents();
      var i := 0;
      while i < count
        invariant i <= count && c !in live[..i]
      {
        if live[i] == c {
          live[i] := live[count - 1];
          live[count - 1] := null;
          count := count - 1;
          assert forall x :: x in was && x != c ==> x in Contents() by {
            forall x | x in was && x != c ensures x in Contents() {
              var k :| 0 <= k < old(count) && old(live[k]) == x;
              assert live[if k == old(count) - 1 then i else k] == x;
            }
          }
          return;
        }
        i := i + 1;
      }
    }
  }
}
