// Which frame headers a machine lets pass, bit by bit on the wire: section
// 5.2 of RFC 6455 as source/units/WS.Protocol.pas enforces it.

module Policing {
  import opened Bytes
  import opened Frame
  import opened Machine
  import opened Segmentation
  import opened Peers
  import opened Replies

  // -- the header as it lies on the wire -----------------------------------

  // Bytes of the header, as the second of them announces.
  function HeaderSize(b: bytes): (n: nat)
    requires |b| >= 2
  {
    2 + (if b[1] % 128 == 126 then 2 else if b[1] % 128 == 127 then 8 else 0) + if b[1] >= 128 then 4 else 0
  }

  function TwoBytes(b: bytes, i: nat): (n: nat)
    requires i + 2 <= |b|
  {
    var hi: int, lo: int := b[i], b[i + 1];
    0x100 * hi + lo
  }

  // The payload length, its extension most significant byte first.
  function WireLen(b: bytes): (n: nat)
    requires |b| >= 2 && |b| >= HeaderSize(b)
  {
    if b[1] % 128 < 126 then b[1] % 128
    else if b[1] % 128 == 126 then TwoBytes(b, 2)
    else 0x1_0000_0000_0000 * TwoBytes(b, 2) + 0x1_0000_0000 * TwoBytes(b, 4) + 0x1_0000 * TwoBytes(b, 6) +
         TwoBytes(b, 8)
  }

  // No opcode, or a control frame fragmented or too long: refused on sight of
  // two bytes.
  predicate Hopeless(b: bytes)
    requires |b| >= 2
  {
    b[0] % 16 !in {0, 1, 2, 8, 9, 10} || (b[0] % 16 >= 8 && (b[0] < 128 || b[1] % 128 > 125))
  }

  // No reserved bit is set, exactly clients mask, the length is in its
  // shortest form.
  predicate Lawful(role: Role, b: bytes)
    requires |b| >= 2 && |b| >= HeaderSize(b)
  {
    && !Hopeless(b) && b[0] / 16 % 8 == 0 && (b[1] >= 128) == role.Client?
    && (b[1] % 128 == 126 ==> WireLen(b) >= 126)
    && (b[1] % 128 == 127 ==> 0x1_0000 <= WireLen(b) < 0x8000_0000_0000_0000)
  }

  // The mask key's bytes, ahead of the payload.
  function KeyOnWire(b: bytes): (k: bytes)
    requires |b| >= 2 && |b| >= HeaderSize(b) && b[1] >= 128
    ensures |k| == 4
  {
    b[HeaderSize(b) - 4..HeaderSize(b)]
  }

  lemma BELast(b: bytes, i: nat, j: nat)
    requires i <= j < |b|
    ensures FromBE(b[i..j + 1]) == 0x100 * FromBE(b[i..j]) + b[j]
  {
    var x := b[i..j + 1];
    assert x[..|x| - 1] == b[i..j];
  }

  lemma BEMore(b: bytes, i: nat, j: nat)
    requires i <= j && j + 2 <= |b|
    ensures FromBE(b[i..j + 2]) == 0x1_0000 * FromBE(b[i..j]) + TwoBytes(b, j)
  {
    BELast(b, i, j);
    BELast(b, i, j + 1);
  }

  lemma BETwo(b: bytes, i: nat)
    requires i + 2 <= |b|
    ensures FromBE(b[i..i + 2]) == TwoBytes(b, i)
  {
    assert b[i..i] == [];
    BEMore(b, i, i);
  }

  lemma BEEight(b: bytes)
    requires |b| >= 10
    ensures FromBE(b[2..10]) ==
            0x1_0000_0000_0000 * TwoBytes(b, 2) + 0x1_0000_0000 * TwoBytes(b, 4) + 0x1_0000 * TwoBytes(b, 6) +
            TwoBytes(b, 8)
  {
    BETwo(b, 2);
    BEMore(b, 2, 4);
    BEMore(b, 2, 6);
    BEMore(b, 2, 8);
  }

  lemma LengthRead(b: bytes)
    requires |b| >= 2 && |b| >= HeaderSize(b)
    ensures var code, ext := b[1] % 128, b[2..2 + ExtLen(b[1] % 128)];
            DecodeLen(code, ext) ==
            if (code == 126 && WireLen(b) < 126) ||
               (code == 127 && !(0x1_0000 <= WireLen(b) < 0x8000_0000_0000_0000)) then Length.None
            else Length.Some(WireLen(b))
  {
    if b[1] % 128 == 126 {
      BETwo(b, 2);
    } else if b[1] % 128 == 127 {
      BEEight(b);
    }
  }

  lemma ReservedBits(b0: byte)
    ensures b0 / 16 % 8 == 0 <==> !Bit(b0, 64) && !Bit(b0, 32) && !Bit(b0, 16)
  {
  }

  // What the police makes of a buffer with a whole header in it.
  lemma Policed(c: Config, b: bytes)
    requires |b| >= 2 && (Hopeless(b) || |b| >= HeaderSize(b))
    ensures if Hopeless(b) then Police(c, b).Bad? && Police(c, b).code == 1002
            else if !Lawful(Other(c.role), b) then Police(c, b).Bad? && Police(c, b).code == 1002
            else if b[0] % 16 < 8 && WireLen(b) > c.cap then Police(c, b).Bad? && Police(c, b).code == 1009
            else if b[0] % 16 >= 8 && |b| < HeaderSize(b) + WireLen(b) then Police(c, b).Wait?
            else Police(c, b) == Good(Header(b[0] >= 128, false, false, false, b[0] % 16, b[1] >= 128,
                                             if b[1] >= 128 then KeyFrom(KeyOnWire(b)) else 0,
                                             WireLen(b), HeaderSize(b)))
  {
    if !Hopeless(b) {
      LengthRead(b);
      ReservedBits(b[0]);
    }
  }

  // -- what follows --------------------------------------------------------

  // The machine has failed with this code, told so, and closed with it.
  ghost predicate Refused(m: Machine, r: Machine, code: word) {
    && r.st.failed && |r.trace| == |m.trace| + 1 && r.trace[|m.trace|].Closed?
    && ClosedWith(m, r, code, CloseBytes(code, r.trace[|m.trace|].reason))
  }

  lemma RoundRefused(c: Config, m: Machine, b: bytes, r: Machine, rest: bytes, code: word)
    requires BetweenFrames(m) && b != [] && Step(c, m, b) == Round(r, rest, false) && Refused(m, r, code)
    ensures Refused(m, Ingest(c, m, b), code)
  {
    assert [] + b == b && m.(inb := m.inb.(carry := [])) == m;
    assert Loop(c, r, rest) == r;
  }

  // A header that breaks the rules fails the connection with 1002, whatever
  // stands behind it.
  lemma HeaderRefused(c: Config, m: Machine, b: bytes)
    requires BetweenFrames(m) && |b| >= 2
    requires Hopeless(b) || (|b| >= HeaderSize(b) && !Lawful(Other(c.role), b))
    ensures Refused(m, Ingest(c, m, b), 1002)
  {
    Policed(c, b);
    FailCloses(c, m, 1002, Police(c, b).reason);
    RoundRefused(c, m, b, Fail(c, m, 1002, Police(c, b).reason), [], 1002);
  }

  // A data frame longer than the cap fails it with 1009 before its payload
  // has come.
  lemma FrameTooBig(c: Config, m: Machine, b: bytes)
    requires BetweenFrames(m) && |b| >= 2 && |b| >= HeaderSize(b) && Lawful(Other(c.role), b)
    requires b[0] % 16 < 8 && WireLen(b) > c.cap
    ensures Refused(m, Ingest(c, m, b), 1009)
  {
    Policed(c, b);
    FailCloses(c, m, 1009, Police(c, b).reason);
    RoundRefused(c, m, b, Fail(c, m, 1009, Police(c, b).reason), [], 1009);
  }

  // A data frame whose header is let pass, and refused by the message it
  // comes in.
  lemma DataRefused(c: Config, m: Machine, b: bytes, code: word, why: string)
    requires BetweenFrames(m) && b != [] && Police(c, b).Good? && !Police(c, b).h.IsControl()
    requires BeginData(c, m, Police(c, b).h) == Fail(c, m, code, why)
    ensures Refused(m, Ingest(c, m, b), code)
  {
    GoodSpan(c, b);
    FailView(c, m, code, why);
    FailCloses(c, m, code, why);
    RoundRefused(c, m, b, Fail(c, m, code, why), b[Span(Police(c, b).h)..], code);
  }

  // A continuation where nothing is to be continued, or a new message inside
  // another one.
  lemma FrameMisplaced(c: Config, m: Machine, b: bytes)
    requires BetweenFrames(m) && |b| >= 2 && |b| >= HeaderSize(b) && Lawful(Other(c.role), b)
    requires b[0] % 16 < 8 && WireLen(b) <= c.cap && (b[0] % 16 == 0) != m.inb.inMessage
    ensures Refused(m, Ingest(c, m, b), 1002)
  {
    Policed(c, b);
    if b[0] % 16 == 0 {
      DataRefused(c, m, b, 1002, "continuation without a message");
    } else {
      DataRefused(c, m, b, 1002, "new data opcode inside a fragmented message");
    }
  }

  // A message that grows beyond the cap.
  lemma MessageTooBig(c: Config, m: Machine, b: bytes)
    requires BetweenFrames(m) && |b| >= 2 && |b| >= HeaderSize(b) && Lawful(Other(c.role), b)
    requires b[0] % 16 == 0 && WireLen(b) <= c.cap && m.inb.inMessage && |m.inb.msg| + WireLen(b) > c.cap
    ensures Refused(m, Ingest(c, m, b), 1009)
  {
    Policed(c, b);
    DataRefused(c, m, b, 1009, "message too big");
  }
}
