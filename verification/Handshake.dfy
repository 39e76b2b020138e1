// The opening handshake's accumulator: the incremental search for the end of
// the header block (source/units/WS.Handshake.pas) and what the server makes
// of each read (source/units/WS.Server.pas, HandleData).

module Handshake {
  import opened Bytes

  const MAX_HANDSHAKE: nat := 16 * 1024

  // CR LF CR LF lies at i.
  predicate EndAt(s: bytes, i: nat) {
    i + 4 <= |s| && s[i] == 13 && s[i + 1] == 10 && s[i + 2] == 13 && s[i + 3] == 10
  }

  // The offset just past the first CR LF CR LF at or behind i, 0 without one.
  function EndFrom(s: bytes, i: nat): (end: nat)
    decreases |s| - i
  {
    if i + 4 > |s| then 0 else if EndAt(s, i) then i + 4 else EndFrom(s, i + 1)
  }

  // EndFrom is the first one: it is 0 exactly when there is none.
  lemma {:induction false} EndFromIsFirst(s: bytes, i: nat)
    ensures var e := EndFrom(s, i);
            if e == 0 then forall j :: i <= j ==> !EndAt(s, j)
            else i + 4 <= e <= |s| && EndAt(s, e - 4) && forall j :: i <= j < e - 4 ==> !EndAt(s, j)
    decreases |s| - i
  {
    if i + 4 <= |s| && !EndAt(s, i) {
      EndFromIsFirst(s, i + 1);
    }
  }

  // looked counts the places the loop tried.
  method HandshakeFindEnd(s: bytes, start: nat) returns (end: nat, ghost looked: nat)
    requires start <= |s|
    ensures end == EndFrom(s, start)
    ensures looked <= |s| - start
  {
    var i := start;
    looked := 0;
    while i + 4 <= |s|
      invariant start <= i <= |s| && EndFrom(s, start) == EndFrom(s, i) && looked == i - start
    {
      looked := looked + 1;
      if s[i] == 13 && s[i + 1] == 10 && s[i + 2] == 13 && s[i + 3] == 10 {
        return i + 4, looked;
      }
      i := i + 1;
    }
    end := 0;
  }

  lemma Resume(s: bytes, scanned: nat, start: nat)
    requires scanned <= |s| && EndFrom(s[..scanned], 0) == 0
    requires start == if scanned < 3 then 0 else scanned - 3
    ensures EndFrom(s, 0) == EndFrom(s, start)
  {
    EndFromIsFirst(s[..scanned], 0);
    EndFromIsFirst(s, 0);
    EndFromIsFirst(s, start);
    var e := EndFrom(s, 0);
    if e != 0 && e - 4 < start {
      assert EndAt(s[..scanned], e - 4);
    }
  }

  // Nothing was found in the first `scanned` bytes: the search resumes three
  // bytes before their end and finds what a full search would.
  method HandshakeFindEndFrom(s: bytes, scanned: nat) returns (end: nat, ghost looked: nat)
    requires scanned <= |s| && EndFrom(s[..scanned], 0) == 0
    ensures end == EndFrom(s, 0)
    ensures looked <= |s| - scanned + 3
  {
    var start := if scanned < 3 then 0 else scanned - 3;
    Resume(s, scanned, start);
    if start >= |s| { return 0, 0; }
    end, looked := HandshakeFindEnd(s, start);
  }

  // -- the server's decision -----------------------------------------------

  // Still reading; refused with 431; the request complete, the bytes behind
  // it the first frames.
  datatype Decision = Wait | TooLarge | Complete(end: nat, frames: bytes)

  // What a stream of bytes amounts to, however it was cut into reads.
  function Decide(s: bytes): (d: Decision) {
    var e := EndFrom(s, 0);
    if e > MAX_HANDSHAKE || (e == 0 && |s| > MAX_HANDSHAKE) then TooLarge
    else if e == 0 then Wait
    else EndFromIsFirst(s, 0); Complete(e, s[e..])
  }

  // A decision stands: later bytes are frames, or fall on deaf ears.
  lemma DecisionStands(s: bytes, more: bytes)
    ensures match Decide(s)
            case Wait => true
            case TooLarge => Decide(s + more) == TooLarge
            case Complete(e, frames) => Decide(s + more) == Complete(e, frames + more)
  {
    EndFromIsFirst(s, 0);
    EndFromIsFirst(s + more, 0);
    var e, f := EndFrom(s, 0), EndFrom(s + more, 0);
    if e != 0 {
      assert EndAt(s + more, e - 4);
      if f < e {
        assert EndAt(s, f - 4);
      }
      assert e == f && (s + more)[e..] == s[e..] + more;
    } else if f != 0 && f <= |s| {
      assert EndAt(s, f - 4);
    }
  }

  class Accumulator {
    var hsBuf: bytes
    ghost var scanned: nat       // places tried by every search together
    ghost var calls: nat

    ghost predicate Valid()
      reads this
    {
      EndFrom(hsBuf, 0) == 0 && |hsBuf| <= MAX_HANDSHAKE && scanned <= |hsBuf| + 3 * calls
    }

    constructor ()
      ensures Valid() && hsBuf == [] && calls == 0
    {
      hsBuf, scanned, calls := [], 0, 0;
    }

    // One read ahead of the upgrade.
    method HandleData(p: bytes) returns (d: Decision)
      requires Valid()
      modifies this
      ensures d == Decide(old(hsBuf) + p) && hsBuf == old(hsBuf) + p && calls == old(calls) + 1
      ensures d.Wait? ==> Valid()
      ensures scanned <= |hsBuf| + 3 * calls
    {
      var off := |hsBuf|;
      hsBuf := hsBuf + p;
      assert hsBuf[..off] == old(hsBuf);
      var end, looked := HandshakeFindEndFrom(hsBuf, off);
      EndFromIsFirst(hsBuf, 0);
      scanned := scanned + looked;
      calls := calls + 1;
      if (end == 0 && |hsBuf| > MAX_HANDSHAKE) || end > MAX_HANDSHAKE { return TooLarge; }
      if end == 0 { return Wait; }
      d := Complete(end, hsBuf[end..]);
    }

    // Any cut of a stream into reads: the decision and the frames behind the
    // request are those of the stream, and the searches cost its length and
    // three bytes a read.
    method ReadAll(chunks: seq<bytes>) returns (d: Decision)
      requires Valid() && hsBuf == [] && calls == 0 && scanned == 0
      modifies this
      ensures d == Decide(Concat(chunks))
      ensures scanned <= |Concat(chunks)| + 3 * |chunks|
    {
      var i := 0;
      d := Wait;
      while i < |chunks| && d.Wait?
        invariant i <= |chunks| && d == Decide(hsBuf) && (d.Wait? ==> Valid())
        invariant hsBuf == Concat(chunks[..i]) && calls == i && scanned <= |hsBuf| + 3 * calls
      {
        ConcatSnoc(chunks[..i], chunks[i]);
        assert chunks[..i + 1] == chunks[..i] + [chunks[i]];
        d := HandleData(chunks[i]);
        i := i + 1;
      }
      ghost var k := i;
      while i < |chunks|
        invariant k <= i <= |chunks| && |hsBuf| <= |Concat(chunks[..i])|
        invariant d == Decide(Concat(chunks[..i])) && (i < |chunks| ==> !d.Wait?)
        modifies {}
      {
        ConcatSnoc(chunks[..i], chunks[i]);
        assert chunks[..i + 1] == chunks[..i] + [chunks[i]];
        DecisionStands(Concat(chunks[..i]), chunks[i]);
        d := if d.Complete? then Complete(d.end, d.frames + chunks[i]) else d;
        i := i + 1;
      }
      assert chunks[..|chunks|] == chunks;
    }
  }
}
