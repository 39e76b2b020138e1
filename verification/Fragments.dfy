// Messages in several frames (section 5.4 of RFC 6455): what a machine tells
// of a message sent in fragments, with control frames between them.

module Fragments {
  import opened Bytes
  import opened Frame
  import opened Mask
  import opened Utf8
  import opened Machine
  import opened Segmentation
  import opened Peers

  // A fragment, or a ping or pong sent between two of them.
  datatype Piece = Part(data: bytes, key: u32) | Aside(pong: bool, data: bytes, key: u32)

  // A frame as one side of the given role writes it.
  function FrameBytes(role: Role, fin: bool, op: byte, p: bytes, key: u32): (b: bytes) {
    if role.Client? then HeaderBytes(fin, false, op, true, key, |p|) + Masked(p, key, 0)
    else HeaderBytes(fin, false, op, false, 0, |p|) + p
  }

  // The pieces on the wire: the first fragment has the message's opcode, the
  // others are continuations; the last piece is final if asked for.
  function Wire(role: Role, op: byte, ps: seq<Piece>, fin: bool): (b: bytes) {
    if ps == [] then [] else
    match ps[0]
    case Part(d, key) => FrameBytes(role, fin && |ps| == 1, op, d, key) + Wire(role, 0x0, ps[1..], fin)
    case Aside(pong, d, key) => FrameBytes(role, true, if pong then 0xA else 0x9, d, key) + Wire(role, op, ps[1..], fin)
  }

  function Parts(ps: seq<Piece>): (ds: seq<bytes>) {
    if ps == [] then [] else if ps[0].Part? then [ps[0].data] + Parts(ps[1..]) else Parts(ps[1..])
  }

  function AsideOf(p: Piece): (e: Event)
    requires p.Aside?
  {
    if p.pong then Pong(p.data) else Ping(p.data)
  }

  function Asides(ps: seq<Piece>): (es: seq<Event>) {
    if ps == [] then [] else if ps[0].Aside? then [AsideOf(ps[0])] + Asides(ps[1..]) else Asides(ps[1..])
  }

  predicate Sendable(p: Piece) {
    |p.data| < if p.Part? then 0x8000_0000_0000_0000 else 126
  }

  // -- what is told --------------------------------------------------------

  // More bytes could still make it well-formed.
  ghost predicate Completable(d: bytes) {
    exists e: bytes :: WellFormed(d + e)
  }

  // What a fragment that brings a message of this kind from got to got + d
  // has told at once: its end, its failure, or nothing yet.
  ghost function PartTold(cap: nat, text: bool, got: bytes, d: bytes, fin: bool): (es: seq<Event>) {
    if |d| > cap then [Closed(1009, Ascii("frame exceeds message cap"))]
    else if |got| + |d| > cap then [Closed(1009, Ascii("message too big"))]
    else if text && !Completable(got + d) then [Closed(1007, Ascii("invalid UTF-8"))]
    else if !fin then []
    else if text && !WellFormed(got + d) then [Closed(1007, Ascii("truncated UTF-8 at message end"))]
    else [Message(text, got + d)]
  }

  ghost function Told(cap: nat, text: bool, got: bytes, ps: seq<Piece>, fin: bool): (es: seq<Event>)
    decreases |ps|
  {
    if ps == [] then [] else
    match ps[0]
    case Aside(_, _, _) => [AsideOf(ps[0])] + Told(cap, text, got, ps[1..], fin)
    case Part(d, _) =>
      var now := PartTold(cap, text, got, d, fin && |ps| == 1);
      if now != [] then now else Told(cap, text, got + d, ps[1..], fin)
  }

  // -- one fragment --------------------------------------------------------

  function Checked(text: bool, got: bytes): (u: State) {
    if text then Advance(ACCEPT, got) else ACCEPT
  }

  // Waiting for a frame of opcode op: at rest, or with got of a message of
  // this kind assembled.
  ghost predicate Amid(c: Config, m: Machine, op: byte, text: bool, got: bytes) {
    && BetweenFrames(m) && |got| <= c.cap
    && (if op == OP_CONT then
          m.inb.inMessage && m.inb.text == text && m.inb.msg == got && m.inb.utf8 == Checked(text, got) != REJECT
        else AtRest(m) && got == [] && op == DataOpcode(text))
  }

  lemma AmidSettled(c: Config, m: Machine, op: byte, text: bool, got: bytes)
    requires Amid(c, m, op, text, got)
    ensures Core(c, m) && Settled(c, m)
  {
    assert m.(inb := m.inb.(carry := [])) == m;
    assert Police(c, []).Wait?;
  }

  function HeaderFor(role: Role, fin: bool, op: byte, d: bytes, key: u32): (h: Header) {
    var k: u32 := if role.Client? then key else 0;
    Header(fin, false, false, false, op, role.Client?, k, |d|, |HeaderBytes(fin, false, op, role.Client?, k, |d|)|)
  }

  lemma PartHead(c: Config, fin: bool, op: byte, d: bytes, key: u32)
    requires op in {0x0, 0x1, 0x2} && |d| < 0x8000_0000_0000_0000
    ensures var role := Other(c.role);
            var b, h := FrameBytes(role, fin, op, d, key), HeaderFor(role, fin, op, d, key);
            && b != [] && h.headerLen <= |b|
            && b[h.headerLen..] == (if role.Client? then Masked(d, key, 0) else d)
            && Police(c, b) == if |d| > c.cap then Bad(1009, "frame exceeds message cap") else Good(h)
  {
    var role := Other(c.role);
    var h := HeaderFor(role, fin, op, d, key);
    var body := if role.Client? then Masked(d, key, 0) else d;
    ParseInvertsWrite(fin, false, op, role.Client?, h.key, |d|, body);
    assert FrameBytes(role, fin, op, d, key) == HeaderBytes(fin, false, op, role.Client?, h.key, |d|) + body;
  }

  // The message grown by d, no payload under way.
  function Grown(m: Machine, text: bool, whole: bytes): (r: Machine) {
    m.(inb := m.inb.(inMessage := true, text := text, msg := whole, utf8 := Checked(text, whole), stream := Idle))
  }

  // What the rounds of a fragment leave behind.
  function Ended(c: Config, m: Machine, text: bool, whole: bytes, fin: bool): (r: Machine) {
    if fin then Finish(c, Grown(m, text, whole), whole) else Grown(m, text, whole)
  }

  lemma HeaderEnds(c: Config, m: Machine, op: byte, text: bool, got: bytes, fin: bool, key: u32)
    requires op in {0x0, 0x1, 0x2} && Amid(c, m, op, text, got)
    ensures Step(c, m, FrameBytes(Other(c.role), fin, op, [], key)) == Round(Ended(c, m, text, got, fin), [], false)
  {
    PartHead(c, fin, op, [], key);
    var h := HeaderFor(Other(c.role), fin, op, [], key);
    assert BeginData(c, m, h) == Grown(m, text, got);
  }

  function Opened(m: Machine, text: bool, got: bytes, h: Header): (r: Machine) {
    var g := Grown(m, text, got);
    g.(inb := g.inb.(stream := Streaming(h.len, h.fin, h.masked, h.key, 0)))
  }

  lemma HeaderOpens(c: Config, m: Machine, op: byte, text: bool, got: bytes, fin: bool, d: bytes, key: u32)
    requires op in {0x0, 0x1, 0x2} && Amid(c, m, op, text, got)
    requires 0 < |d| < 0x8000_0000_0000_0000 && |got| + |d| <= c.cap
    ensures var role := Other(c.role);
            Step(c, m, FrameBytes(role, fin, op, d, key)) ==
            Round(Opened(m, text, got, HeaderFor(role, fin, op, d, key)),
                  if role.Client? then Masked(d, key, 0) else d, false)
  {
    PartHead(c, fin, op, d, key);
  }

  // The payload, unmasked, joins what was assembled.
  lemma PayloadJoins(c: Config, m: Machine, op: byte, text: bool, got: bytes, fin: bool, d: bytes, key: u32)
    requires Amid(c, m, op, text, got) && 0 < |d| && |got| + |d| <= c.cap
    ensures var role := Other(c.role);
            var m1 := Opened(m, text, got, HeaderFor(role, fin, op, d, key));
            Step(c, m1, if role.Client? then Masked(d, key, 0) else d) ==
            Round(if Checked(text, got + d) == REJECT then Fail(c, m1, 1007, "invalid UTF-8")
                  else Ended(c, m, text, got + d, fin), [], false)
  {
    var role := Other(c.role);
    var m1 := Opened(m, text, got, HeaderFor(role, fin, op, d, key));
    var w := if role.Client? then Masked(d, key, 0) else d;
    MaskInvolution(d, key, 0);
    assert w[..|w|] == w && w[|w|..] == [] && Unmask(m1.inb.stream, w) == d;
    AdvanceSplit(ACCEPT, got, d);
    assert Core(c, m1);
    ChunkIsAssembly(c, m1, w);
    assert Checked(text, got + d) != REJECT ==> Assembled(m1, w) == Grown(m, text, got + d);
  }

  // What a fragment ends in.
  ghost predicate Landed(c: Config, m: Machine, r: Machine, text: bool, whole: bytes, fin: bool, told: seq<Event>) {
    && r.trace == m.trace + told
    && (if told != [] && told[0].Closed? then Shut(r) && r.st.failed
        else if fin then AtRest(r) else Amid(c, r, OP_CONT, text, whole))
  }

  lemma Completes(d: bytes)
    ensures Completable(d) <==> Advance(ACCEPT, d) != REJECT
  {
    RejectsExactlyHopeless(d);
  }

  lemma EndLands(c: Config, m: Machine, text: bool, whole: bytes, fin: bool)
    requires BetweenFrames(m) && |whole| <= c.cap && Checked(text, whole) != REJECT
    ensures Landed(c, m, Ended(c, m, text, whole, fin), text, whole, fin, PartTold(c.cap, text, whole, [], fin))
  {
    assert whole + [] == whole;
    Completes(whole);
    AcceptsWellFormed(whole);
    if fin {
      var g := Grown(m, text, whole);
      if text && Checked(text, whole) != ACCEPT {
        FailView(c, g, 1007, "truncated UTF-8 at message end");
      } else {
        Delivered(c, g, whole);
      }
    }
  }

  lemma RoundLands(c: Config, m: Machine, b: bytes, r: Machine, rest: bytes, text: bool, whole: bytes, fin: bool,
      told: seq<Event>)
    requires BetweenFrames(m) && b != [] && Step(c, m, b) == Round(r, rest, false) && r.st.drain
    requires Landed(c, m, r, text, whole, fin, told)
    ensures Landed(c, m, Ingest(c, m, b), text, whole, fin, told)
  {
    assert [] + b == b && m.(inb := m.inb.(carry := [])) == m;
    assert Loop(c, r, rest) == r;
  }

  lemma TooBigLands(c: Config, m: Machine, op: byte, text: bool, got: bytes, fin: bool, d: bytes, key: u32)
    requires op in {0x0, 0x1, 0x2} && Amid(c, m, op, text, got)
    requires |d| < 0x8000_0000_0000_0000 && |got| + |d| > c.cap
    ensures Landed(c, m, Ingest(c, m, FrameBytes(Other(c.role), fin, op, d, key)), text, got + d, fin,
                   PartTold(c.cap, text, got, d, fin))
  {
    var role := Other(c.role);
    var b := FrameBytes(role, fin, op, d, key);
    PartHead(c, fin, op, d, key);
    var why := if |d| > c.cap then "frame exceeds message cap" else "message too big";
    FailView(c, m, 1009, why);
    var rest := if |d| > c.cap then [] else b[HeaderFor(role, fin, op, d, key).headerLen..];
    RoundLands(c, m, b, Fail(c, m, 1009, why), rest, text, got + d, fin, PartTold(c.cap, text, got, d, fin));
  }

  lemma PayloadLands(c: Config, m: Machine, op: byte, text: bool, got: bytes, fin: bool, d: bytes, key: u32)
    requires op in {0x0, 0x1, 0x2} && Amid(c, m, op, text, got)
    requires 0 < |d| < 0x8000_0000_0000_0000 && |got| + |d| <= c.cap
    ensures Landed(c, m, Ingest(c, m, FrameBytes(Other(c.role), fin, op, d, key)), text, got + d, fin,
                   PartTold(c.cap, text, got, d, fin))
  {
    var role := Other(c.role);
    var b := FrameBytes(role, fin, op, d, key);
    var m1 := Opened(m, text, got, HeaderFor(role, fin, op, d, key));
    var w := if role.Client? then Masked(d, key, 0) else d;
    PartHead(c, fin, op, d, key);
    Completes(got + d);
    HeaderOpens(c, m, op, text, got, fin, d, key);
    PayloadJoins(c, m, op, text, got, fin, d, key);
    if Checked(text, got + d) == REJECT {
      FailView(c, m1, 1007, "invalid UTF-8");
      TwoRounds(c, m, b, m1, w, Fail(c, m1, 1007, "invalid UTF-8"));
    } else {
      assert got + d + [] == got + d;
      EndLands(c, m, text, got + d, fin);
      TwoRounds(c, m, b, m1, w, Ended(c, m, text, got + d, fin));
    }
  }

  // One data frame, whatever comes of it.
  lemma PartLands(c: Config, m: Machine, op: byte, text: bool, got: bytes, fin: bool, d: bytes, key: u32)
    requires op in {0x0, 0x1, 0x2} && Amid(c, m, op, text, got) && |d| < 0x8000_0000_0000_0000
    ensures Landed(c, m, Ingest(c, m, FrameBytes(Other(c.role), fin, op, d, key)), text, got + d, fin,
                   PartTold(c.cap, text, got, d, fin))
  {
    if |got| + |d| > c.cap {
      TooBigLands(c, m, op, text, got, fin, d, key);
    } else if d == [] {
      assert got + d == got;
      PartHead(c, fin, op, d, key);
      HeaderEnds(c, m, op, text, got, fin, key);
      EndLands(c, m, text, got, fin);
      OneRound(c, m, FrameBytes(Other(c.role), fin, op, d, key), Ended(c, m, text, got, fin));
    } else {
      PayloadLands(c, m, op, text, got, fin, d, key);
    }
  }

  // -- the pieces in a row -------------------------------------------------

  predicate EndsBadly(told: seq<Event>) {
    told != [] && told[|told| - 1].Closed?
  }

  ghost predicate Outcome(c: Config, r: Machine, op: byte, text: bool, whole: bytes, fin: bool, told: seq<Event>) {
    if EndsBadly(told) then Shut(r) && r.st.failed else if fin then AtRest(r) else Amid(c, r, op, text, whole)
  }

  lemma AsideLands(c: Config, m: Machine, op: byte, text: bool, got: bytes, p: Piece)
    requires Amid(c, m, op, text, got) && p.Aside? && Sendable(p)
    ensures var r := Ingest(c, m, FrameBytes(Other(c.role), true, if p.pong then 0xA else 0x9, p.data, p.key));
            r.trace == m.trace + [AsideOf(p)] && Amid(c, r, op, text, got)
  {
    var e := Sent(if p.pong then OP_PONG else OP_PING, p.data, p.key);
    assert Encode(Other(c.role), e) == FrameBytes(Other(c.role), true, if p.pong then 0xA else 0x9, p.data, p.key);
    ControlFrame(Other(c.role), c, m, e);
  }

  // A shut machine hears nothing of the rest.
  lemma RestUnheard(c: Config, m: Machine, a: bytes, b: bytes)
    requires Settled(c, m) && Shut(Ingest(c, m, a))
    ensures Ingest(c, m, a + b) == Ingest(c, m, a)
  {
    SegmentationInvariance(c, m, a, b);
  }

  lemma AsideFirst(c: Config, m: Machine, op: byte, text: bool, got: bytes, ps: seq<Piece>, fin: bool)
    requires op in {0x0, 0x1, 0x2} && Amid(c, m, op, text, got) && ps != [] && ps[0].Aside? && Sendable(ps[0])
    ensures var role := Other(c.role);
            var m1 := Ingest(c, m, Wire(role, op, ps[..1], false));
            && m1.trace == m.trace + [AsideOf(ps[0])] && Amid(c, m1, op, text, got)
            && Ingest(c, m, Wire(role, op, ps, fin)) == Ingest(c, m1, Wire(role, op, ps[1..], fin))
  {
    var role := Other(c.role);
    var b := FrameBytes(role, true, if ps[0].pong then 0xA else 0x9, ps[0].data, ps[0].key);
    assert ps[..1][1..] == [] && Wire(role, op, ps[..1], false) == b + [] == b;
    AsideLands(c, m, op, text, got, ps[0]);
    AmidSettled(c, m, op, text, got);
    SegmentationInvariance(c, m, b, Wire(role, op, ps[1..], fin));
  }

  lemma PartFirst(c: Config, m: Machine, op: byte, text: bool, got: bytes, ps: seq<Piece>, fin: bool)
    requires op in {0x0, 0x1, 0x2} && Amid(c, m, op, text, got) && ps != [] && ps[0].Part? && Sendable(ps[0])
    ensures var role := Other(c.role);
            var last := fin && |ps| == 1;
            var m1 := Ingest(c, m, FrameBytes(role, last, op, ps[0].data, ps[0].key));
            var now := PartTold(c.cap, text, got, ps[0].data, last);
            && Landed(c, m, m1, text, got + ps[0].data, last, now)
            && (EndsBadly(now) ==> Ingest(c, m, Wire(role, op, ps, fin)) == m1)
            && Ingest(c, m, Wire(role, op, ps, fin)) == Ingest(c, m1, Wire(role, 0x0, ps[1..], fin))
  {
    var role := Other(c.role);
    var b := FrameBytes(role, fin && |ps| == 1, op, ps[0].data, ps[0].key);
    PartLands(c, m, op, text, got, fin && |ps| == 1, ps[0].data, ps[0].key);
    AmidSettled(c, m, op, text, got);
    SegmentationInvariance(c, m, b, Wire(role, 0x0, ps[1..], fin));
  }

  lemma PartMore(ps: seq<Piece>, got: bytes)
    requires ps != [] && ps[0].Part?
    ensures got + Concat(Parts(ps)) == (got + ps[0].data) + Concat(Parts(ps[1..])) && Asides(ps) == Asides(ps[1..])
  {
    var d, more := ps[0].data, Parts(ps[1..]);
    assert Parts(ps) == [d] + more && ([d] + more)[1..] == more;
    assert (got + d) + Concat(more) == got + (d + Concat(more));
  }

  lemma LastPart(ps: seq<Piece>, got: bytes)
    requires |ps| == 1 && ps[0].Part?
    ensures got + Concat(Parts(ps)) == got + ps[0].data && Asides(ps) == []
  {
    PartMore(ps, got);
    assert ps[1..] == [] && Parts(ps[1..]) == [];
  }

  // r is what the pieces make of m, got of the message assembled before them.
  ghost predicate Lands(c: Config, m: Machine, r: Machine, op: byte, text: bool, got: bytes, ps: seq<Piece>,
      fin: bool) {
    var told := Told(c.cap, text, got, ps, fin);
    && r.trace == m.trace + told
    && Outcome(c, r, if Parts(ps) == [] then op else 0x0, text, got + Concat(Parts(ps)), fin, told)
  }

  lemma Regrouped(a: seq<Event>, b: seq<Event>, c: seq<Event>)
    ensures (a + b) + c == a + (b + c)
  {
  }

  lemma EndsLater(e: Event, told: seq<Event>)
    requires !e.Closed?
    ensures EndsBadly([e] + told) == EndsBadly(told)
  {
    if told != [] {
      assert ([e] + told)[|told|] == told[|told| - 1];
    }
  }

  lemma AsideThenRest(c: Config, m: Machine, m1: Machine, r: Machine, op: byte, text: bool, got: bytes,
      ps: seq<Piece>, fin: bool)
    requires ps != [] && ps[0].Aside? && m1.trace == m.trace + [AsideOf(ps[0])]
    requires Lands(c, m1, r, op, text, got, ps[1..], fin)
    ensures Lands(c, m, r, op, text, got, ps, fin)
  {
    var told := Told(c.cap, text, got, ps[1..], fin);
    assert Told(c.cap, text, got, ps, fin) == [AsideOf(ps[0])] + told && Parts(ps) == Parts(ps[1..]);
    Regrouped(m.trace, [AsideOf(ps[0])], told);
    EndsLater(AsideOf(ps[0]), told);
  }

  lemma PartThenRest(c: Config, m: Machine, m1: Machine, r: Machine, op: byte, text: bool, got: bytes,
      ps: seq<Piece>, fin: bool)
    requires |ps| > 1 && ps[0].Part? && m1.trace == m.trace && PartTold(c.cap, text, got, ps[0].data, false) == []
    requires Lands(c, m1, r, 0x0, text, got + ps[0].data, ps[1..], fin)
    ensures Lands(c, m, r, op, text, got, ps, fin)
  {
    var d, more := ps[0].data, Parts(ps[1..]);
    assert Parts(ps) == [d] + more && ([d] + more)[1..] == more;
    assert (got + d) + Concat(more) == got + Concat(Parts(ps));
    assert Told(c.cap, text, got, ps, fin) == Told(c.cap, text, got + d, ps[1..], fin);
  }

  lemma PartAlone(c: Config, m: Machine, r: Machine, op: byte, text: bool, got: bytes, ps: seq<Piece>, fin: bool)
    requires ps != [] && ps[0].Part?
    requires var last := fin && |ps| == 1;
             var now := PartTold(c.cap, text, got, ps[0].data, last);
             Landed(c, m, r, text, got + ps[0].data, last, now) && (EndsBadly(now) || |ps| == 1)
    ensures Lands(c, m, r, op, text, got, ps, fin)
  {
    var d, now := ps[0].data, PartTold(c.cap, text, got, ps[0].data, fin && |ps| == 1);
    assert Told(c.cap, text, got, ps, fin) == now;
    if |ps| == 1 {
      LastPart(ps, got);
    }
  }

  // What is read, piece by piece.
  lemma {:induction false} PiecesLand(c: Config, m: Machine, op: byte, text: bool, got: bytes, ps: seq<Piece>,
      fin: bool)
    requires op in {0x0, 0x1, 0x2} && Amid(c, m, op, text, got)
    requires (forall i :: 0 <= i < |ps| ==> Sendable(ps[i])) && (fin ==> ps != [] && ps[|ps| - 1].Part?)
    ensures Lands(c, m, Ingest(c, m, Wire(Other(c.role), op, ps, fin)), op, text, got, ps, fin)
    decreases |ps|
  {
    var role := Other(c.role);
    var r := Ingest(c, m, Wire(role, op, ps, fin));
    if ps == [] {
      assert got + [] == got && m.trace + [] == m.trace;
    } else if ps[0].Aside? {
      var m1 := Ingest(c, m, Wire(role, op, ps[..1], false));
      AsideFirst(c, m, op, text, got, ps, fin);
      PiecesLand(c, m1, op, text, got, ps[1..], fin);
      AsideThenRest(c, m, m1, r, op, text, got, ps, fin);
    } else {
      var last, d := fin && |ps| == 1, ps[0].data;
      var m1 := Ingest(c, m, FrameBytes(role, last, op, d, ps[0].key));
      PartFirst(c, m, op, text, got, ps, fin);
      if EndsBadly(PartTold(c.cap, text, got, d, last)) || |ps| == 1 {
        PartAlone(c, m, m1, op, text, got, ps, fin);
      } else {
        PiecesLand(c, m1, 0x0, text, got + d, ps[1..], fin);
        PartThenRest(c, m, m1, r, op, text, got, ps, fin);
      }
    }
  }

  // -- the whole message ---------------------------------------------------

  lemma PrefixCompletable(d: bytes, rest: bytes)
    requires WellFormed(d + rest)
    ensures Completable(d)
  {
  }

  ghost predicate Faulty(cap: nat, text: bool, whole: bytes) {
    |whole| > cap || (text && !WellFormed(whole))
  }

  // A fragment of a good message.
  lemma PartGood(cap: nat, text: bool, got: bytes, d: bytes, rest: bytes, fin: bool)
    requires !Faulty(cap, text, got + d + rest) && (fin ==> rest == [])
    ensures PartTold(cap, text, got, d, fin) == if fin then [Message(text, got + d)] else []
  {
    if text {
      PrefixCompletable(got + d, rest);
    }
    if fin {
      assert got + d + rest == got + d;
    }
  }

  lemma {:induction false} ToldJoined(cap: nat, text: bool, got: bytes, ps: seq<Piece>, whole: bytes)
    requires ps != [] && ps[|ps| - 1].Part? && whole == got + Concat(Parts(ps)) && !Faulty(cap, text, whole)
    ensures Told(cap, text, got, ps, true) == Asides(ps) + [Message(text, whole)]
    decreases |ps|
  {
    if ps[0].Aside? {
      assert Parts(ps) == Parts(ps[1..]);
      ToldJoined(cap, text, got, ps[1..], whole);
      Regrouped([AsideOf(ps[0])], Asides(ps[1..]), [Message(text, whole)]);
    } else {
      PartMore(ps, got);
      PartGood(cap, text, got, ps[0].data, Concat(Parts(ps[1..])), |ps| == 1);
      if |ps| > 1 {
        ToldJoined(cap, text, got + ps[0].data, ps[1..], whole);
      } else {
        LastPart(ps, got);
      }
    }
  }

  // The codes a bad message may be refused with: 1009 for its size, 1007 for
  // its text.
  ghost predicate Fault(cap: nat, text: bool, whole: bytes, told: seq<Event>) {
    && EndsBadly(told)
    && var code := told[|told| - 1].code;
       (code == 1009 && |whole| > cap) || (code == 1007 && text && !WellFormed(whole))
  }

  lemma FaultLater(cap: nat, text: bool, whole: bytes, before: seq<Event>, told: seq<Event>)
    requires Fault(cap, text, whole, told)
    ensures Fault(cap, text, whole, before + told)
  {
    assert (before + told)[|before + told| - 1] == told[|told| - 1];
  }

  // A fragment that is told at once of a bad message.
  lemma FaultNow(cap: nat, text: bool, got: bytes, d: bytes, rest: bytes, fin: bool)
    requires Faulty(cap, text, got + d + rest)
    requires fin ==> rest == []
    requires fin || EndsBadly(PartTold(cap, text, got, d, fin))
    ensures Fault(cap, text, got + d + rest, PartTold(cap, text, got, d, fin))
  {
    var whole := got + d + rest;
    if text && WellFormed(whole) {
      PrefixCompletable(got + d, rest);
    }
    if fin {
      assert whole == got + d;
    }
  }

  lemma {:induction false} ToldFaulty(cap: nat, text: bool, got: bytes, ps: seq<Piece>, whole: bytes)
    requires ps != [] && ps[|ps| - 1].Part? && whole == got + Concat(Parts(ps)) && Faulty(cap, text, whole)
    ensures Fault(cap, text, whole, Told(cap, text, got, ps, true))
    decreases |ps|
  {
    if ps[0].Aside? {
      assert Parts(ps) == Parts(ps[1..]);
      ToldFaulty(cap, text, got, ps[1..], whole);
      FaultLater(cap, text, whole, [AsideOf(ps[0])], Told(cap, text, got, ps[1..], true));
    } else {
      PartMore(ps, got);
      if |ps| == 1 {
        LastPart(ps, got);
        assert whole == got + ps[0].data + [];
        FaultNow(cap, text, got, ps[0].data, [], true);
      } else if EndsBadly(PartTold(cap, text, got, ps[0].data, false)) {
        FaultNow(cap, text, got, ps[0].data, Concat(Parts(ps[1..])), false);
      } else {
        ToldFaulty(cap, text, got + ps[0].data, ps[1..], whole);
      }
    }
  }

  // A message in any number of fragments, each under its own key, pings and
  // pongs between them: its payloads joined are told as one message, exactly
  // when they are within the cap and, of a text, well-formed; otherwise the
  // connection fails, with 1009 only for size and with 1007 only for text.
  lemma FragmentsJoined(c: Config, m: Machine, text: bool, ps: seq<Piece>)
    requires AtRest(m) && ps != [] && ps[|ps| - 1].Part? && forall i :: 0 <= i < |ps| ==> Sendable(ps[i])
    ensures var r := Ingest(c, m, Wire(Other(c.role), DataOpcode(text), ps, true));
            var whole := Concat(Parts(ps));
            if !Faulty(c.cap, text, whole)
            then r.trace == m.trace + Asides(ps) + [Message(text, whole)] && AtRest(r)
            else Shut(r) && r.st.failed && |m.trace| < |r.trace| && r.trace[..|m.trace|] == m.trace &&
                 Fault(c.cap, text, whole, r.trace[|m.trace|..])
  {
    var whole := Concat(Parts(ps));
    assert [] + whole == whole;
    PiecesLand(c, m, DataOpcode(text), text, [], ps, true);
    if !Faulty(c.cap, text, whole) {
      ToldJoined(c.cap, text, [], ps, whole);
      var told := Told(c.cap, text, [], ps, true);
      assert told[|told| - 1] == Message(text, whole);
      assert m.trace + (Asides(ps) + [Message(text, whole)]) == m.trace + Asides(ps) + [Message(text, whole)];
    } else {
      ToldFaulty(c.cap, text, [], ps, whole);
      assert (m.trace + Told(c.cap, text, [], ps, true))[|m.trace|..] == Told(c.cap, text, [], ps, true);
    }
  }

  // As long as none of the fragments is final, the asides are all that is
  // told, and the machine waits for a continuation.
  lemma {:induction false} ToldOpen(cap: nat, text: bool, got: bytes, ps: seq<Piece>)
    requires |got + Concat(Parts(ps))| <= cap && (text ==> Completable(got + Concat(Parts(ps))))
    ensures Told(cap, text, got, ps, false) == Asides(ps)
    decreases |ps|
  {
    if ps != [] {
      if ps[0].Aside? {
        assert Parts(ps) == Parts(ps[1..]);
        ToldOpen(cap, text, got, ps[1..]);
      } else {
        var d, rest := ps[0].data, Concat(Parts(ps[1..]));
        PartMore(ps, got);
        if text {
          var e :| WellFormed(got + Concat(Parts(ps)) + e);
          assert got + Concat(Parts(ps)) + e == (got + d) + (rest + e);
          PrefixCompletable(got + d, rest + e);
        }
        ToldOpen(cap, text, got + d, ps[1..]);
      }
    }
  }

  lemma {:induction false} AsidesOnly(ps: seq<Piece>)
    ensures forall i :: 0 <= i < |Asides(ps)| ==> !Asides(ps)[i].Closed?
    decreases |ps|
  {
    if ps != [] {
      AsidesOnly(ps[1..]);
    }
  }

  lemma FragmentsOpen(c: Config, m: Machine, text: bool, ps: seq<Piece>)
    requires AtRest(m) && (forall i :: 0 <= i < |ps| ==> Sendable(ps[i]))
    requires |Concat(Parts(ps))| <= c.cap && (text ==> Completable(Concat(Parts(ps))))
    ensures var r := Ingest(c, m, Wire(Other(c.role), DataOpcode(text), ps, false));
            && r.trace == m.trace + Asides(ps) && BetweenFrames(r)
            && (Parts(ps) != [] ==> r.inb.inMessage && r.inb.msg == Concat(Parts(ps)))
  {
    assert [] + Concat(Parts(ps)) == Concat(Parts(ps));
    PiecesLand(c, m, DataOpcode(text), text, [], ps, false);
    ToldOpen(c.cap, text, [], ps);
    AsidesOnly(ps);
  }
}
