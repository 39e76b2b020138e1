// The plaintext send path of the epoll transport
// (source/units/WS.Transport.Epoll.pas). The socket is a script of system
// call results; what it took is kept in wire.

module Epoll {
  import opened Bytes

  // One send or sendmsg on a non-blocking socket.
  datatype Sys = Took(n: nat) | Interrupted | WouldBlock | Broken

  // The events registered for the descriptor.
  datatype Interest = Interest(input: bool, output: bool)

  // What an offer comes to: the bytes taken, whether the connection was lost
  // over it, the results still to come.
  datatype Outcome = Outcome(took: nat, lost: bool, rest: seq<Sys>) {
    // The same behind n bytes taken earlier.
    function Plus(n: nat): Outcome {
      this.(took := took + n)
    }
  }

  // n bytes offered to a live socket, system call by system call, until it
  // has them all, is full or breaks.
  function Offer(fate: seq<Sys>, n: nat): (o: Outcome)
    ensures o.took <= n
    decreases |fate|
  {
    if n == 0 || fate == [] then Outcome(0, false, fate)
    else
      match fate[0]
      case Took(k) =>
        var now := Max(1, Min(k, n));
        Offer(fate[1..], n - now).Plus(now)
      case Interrupted => Offer(fate[1..], n)
      case WouldBlock => Outcome(0, false, fate[1..])
      case Broken => Outcome(0, true, fate[1..])
  }

  // Bytes that calls took: one at least each time they took any.
  function Given(calls: seq<Sys>): (n: nat) {
    if calls == [] then 0 else
    Given(calls[..|calls| - 1]) + match calls[|calls| - 1] case Took(k) => Max(1, k) case _ => 0
  }

  lemma {:induction false} GivenFirst(calls: seq<Sys>)
    requires calls != []
    ensures Given(calls) == (match calls[0] case Took(k) => Max(1, k) case _ => 0) + Given(calls[1..])
    decreases |calls|
  {
    if |calls| == 1 {
      assert calls[..0] == [] && calls[1..] == [];
    } else {
      var l := calls[..|calls| - 1];
      GivenFirst(l);
      assert l[1..] == calls[1..][..|calls| - 2];
    }
  }

  // An offer ends with the call that took the last of it, found the socket
  // full or broke it: its first k calls.
  lemma {:induction false} OfferEnds(fate: seq<Sys>, n: nat) returns (k: nat)
    ensures var o := Offer(fate, n);
            && k <= |fate| && o.rest == fate[k..] && o.took == Min(n, Given(fate[..k]))
            && (forall i :: 0 <= i < k - 1 ==> !fate[i].WouldBlock? && !fate[i].Broken?)
            && (o.lost <==> k > 0 && fate[k - 1].Broken?)
            && (o.took < n ==> k == |fate| || (k > 0 && (fate[k - 1].WouldBlock? || fate[k - 1].Broken?)))
            && (k > 0 ==> Given(fate[..k - 1]) < n)
    decreases |fate|
  {
    k := 0;
    if n > 0 && fate != [] {
      var left := match fate[0] case Took(j) => n - Max(1, Min(j, n)) case _ => n;
      if fate[0].WouldBlock? || fate[0].Broken? {
        k := 1;
        assert fate[..1][..0] == [] && fate[..1] == [fate[0]];
      } else {
        var j := OfferEnds(fate[1..], left);
        k := j + 1;
        assert fate[..k][0] == fate[0] && fate[..k][1..] == fate[1..][..j];
        GivenFirst(fate[..k]);
        if j > 0 {
          assert fate[..k - 1][0] == fate[0] && fate[..k - 1][1..] == fate[1..][..j - 1];
          GivenFirst(fate[..k - 1]);
        }
      }
    }
  }

  lemma Slid(data: bytes, r: nat, n: nat)
    requires r + n <= |data|
    ensures data[..r] + data[r..][..n] == data[..r + n]
  {
  }

  // What two buffers still hold r bytes on.
  function Iov(first: bytes, second: bytes, r: nat): (v: bytes)
    requires r <= |first| + |second|
    ensures v == (first + second)[r..]
  {
    if r < |first| then first[r..] + second else second[r - |first|..]
  }

  class EpollConn {
    var dead: bool
    var wantWrite: bool
    var interest: Interest
    var fate: seq<Sys>          // results still to come; past its end the socket is full
    ghost var wire: bytes       // everything the socket took

    // What is registered is what is wanted: EPOLLOUT is armed exactly while
    // output waits for it.
    ghost predicate Valid()
      reads this
    {
      interest == Interest(true, wantWrite)
    }

    constructor (fate: seq<Sys>)
      ensures Valid() && !dead && !wantWrite && wire == [] && this.fate == fate
    {
      dead, wantWrite, interest := false, false, Interest(true, false);
      this.fate := fate;
      wire := [];
    }

    method ApplyInterest()
      modifies this
      ensures Valid() && wantWrite == old(wantWrite) && dead == old(dead) && wire == old(wire) && fate == old(fate)
    {
      var ev := Interest(true, wantWrite);
      if ev == interest { return; }
      interest := ev;
    }

    // The kernel: at least one byte and at most what was offered, or why not.
    method Send(data: bytes) returns (r: Sys)
      requires data != []
      modifies this
      ensures r.Took? ==> 1 <= r.n <= |data| && wire == old(wire) + data[..r.n]
      ensures !r.Took? ==> wire == old(wire)
      ensures r.Interrupted? ==> |fate| < |old(fate)|
      ensures Offer(old(fate), |data|) ==
              match r
              case Took(n) => Offer(fate, |data| - n).Plus(n)
              case Interrupted => Offer(fate, |data|)
              case WouldBlock => Outcome(0, false, fate)
              case Broken => Outcome(0, true, fate)
      ensures dead == old(dead) && wantWrite == old(wantWrite) && interest == old(interest)
    {
      if fate == [] { return WouldBlock; }
      r := fate[0];
      fate := fate[1..];
      if r.Took? {
        r := Took(Max(1, Min(r.n, |data|)));
        wire := wire + data[..r.n];
      }
    }

    // A send failed otherwise than by a signal, `taken` bytes into the offer.
    method SendFailed(why: Sys, taken: nat) returns (r: int)
      requires Valid() && (why.WouldBlock? || why.Broken?)
      modifies this
      ensures Valid() && wire == old(wire) && fate == old(fate)
      ensures why.WouldBlock? ==> r == taken && wantWrite && dead == old(dead)
      ensures why.Broken? ==> r == -1 && dead && wantWrite == old(wantWrite)
    {
      if why.Broken? {
        dead := true;
        return -1;
      }
      if !wantWrite {
        wantWrite := true;
        ApplyInterest();
      }
      r := taken;
    }

    method SendDrained()
      requires Valid()
      modifies this
      ensures Valid() && !wantWrite && wire == old(wire) && dead == old(dead) && fate == old(fate)
    {
      if wantWrite {
        wantWrite := false;
        ApplyInterest();
      }
    }

    // What an offer of data came to: r bytes taken, or the connection dead,
    // as the results to come have it. An offer cut short leaves EPOLLOUT
    // armed.
    twostate predicate Offered(data: bytes, r: int)
      reads this
    {
      && Valid()
      && (r == -1 <==> dead) && (old(dead) ==> dead)
      && (r == -1 ==> old(wire) <= wire <= old(wire) + data)
      && (r != -1 ==> 0 <= r <= |data| && wire == old(wire) + data[..r])
      && (0 <= r < |data| ==> wantWrite)
      && (if old(dead) then fate == old(fate)
          else var o := Offer(old(fate), |data|); fate == o.rest && r == if o.lost then -1 else o.took)
    }

    method RawSend(data: bytes) returns (r: int)
      requires Valid()
      modifies this
      ensures Offered(data, r)
      ensures r == |data| ==> wantWrite == old(wantWrite)
    {
      if dead { return -1; }
      r := 0;
      while r < |data|
        invariant Valid() && !dead && 0 <= r <= |data| && wire == old(wire) + data[..r]
        invariant Offer(old(fate), |data|) == Offer(fate, |data| - r).Plus(r)
        invariant wantWrite == old(wantWrite)
        decreases |data| - r, |fate|
      {
        var sent := Send(data[r..]);
        if sent.Interrupted? { continue; }
        if !sent.Took? {
          r := SendFailed(sent, r);
          return;
        }
        Slid(data, r, sent.n);
        r := r + sent.n;
      }
    }

    method SubmitSend(data: bytes) returns (r: int)
      requires Valid()
      modifies this
      ensures Offered(data, r) && (r == |data| ==> !wantWrite)
    {
      if dead { return -1; }
      r := RawSend(data);
      if r >= |data| {
        SendDrained();
      }
    }

    // Both buffers in one system call; to the stream it is one offer of
    // first + second.
    method SubmitSendV(first: bytes, second: bytes) returns (r: int)
      requires Valid()
      modifies this
      ensures Offered(first + second, r) && (r == |first + second| ==> !wantWrite)
    {
      if dead { return -1; }
      ghost var data := first + second;
      var total := |first| + |second|;
      r := 0;
      while r < total
        invariant Valid() && !dead && 0 <= r <= total == |data| && wire == old(wire) + data[..r]
        invariant Offer(old(fate), |data|) == Offer(fate, |data| - r).Plus(r)
        decreases total - r, |fate|
      {
        var sent := Send(Iov(first, second, r));
        if sent.Interrupted? { continue; }
        if !sent.Took? {
          r := SendFailed(sent, r);
          return;
        }
        Slid(data, r, sent.n);
        r := r + sent.n;
      }
      SendDrained();
    }
  }
}
