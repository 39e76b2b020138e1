// Streaming UTF-8 validation (source/units/WS.Utf8.pas): the byte automaton,
// its meaning against the UTF-8 grammar of RFC 3629, and the word-at-a-time
// ASCII fast path.

module Utf8 {
  import opened Bytes

  const ACCEPT: State := 0
  const REJECT: State := 12

  // Byte -> character class, the table's twelve ranges.
  function Class(b: byte): (c: nat)
    ensures c < 12
  {
    if b < 0x80 then 0
    else if b < 0x90 then 1
    else if b < 0xA0 then 9
    else if b < 0xC0 then 7
    else if b < 0xC2 then 8
    else if b < 0xE0 then 2
    else if b == 0xE0 then 10
    else if b == 0xED then 4
    else if b < 0xF0 then 3
    else if b == 0xF0 then 11
    else if b < 0xF4 then 6
    else if b == 0xF4 then 5
    else 8
  }

  predicate IsState(s: nat) {
    s == 0 || s == 12 || s == 24 || s == 36 || s == 48 || s == 60 || s == 72 || s == 84 || s == 96
  }

  type State = s: nat | IsState(s)

  // (state, class) -> state, row by row.
  function Next(s: State, b: byte): (t: State) {
    var c := Class(b);
    match s
    case 0 =>
      if c == 0 then 0 else if c == 2 then 24 else if c == 3 then 36 else if c == 4 then 72
      else if c == 5 then 96 else if c == 6 then 48 else if c == 10 then 60 else if c == 11 then 84 else REJECT
    case 24 => if c == 1 || c == 7 || c == 9 then 0 else REJECT
    case 36 => if c == 1 || c == 7 || c == 9 then 24 else REJECT
    case 48 => if c == 1 || c == 7 || c == 9 then 36 else REJECT
    case 60 => if c == 7 then 24 else REJECT
    case 72 => if c == 1 || c == 9 then 24 else REJECT
    case 84 => if c == 7 || c == 9 then 36 else REJECT
    case 96 => if c == 1 then 36 else REJECT
    case _ => REJECT
  }

  // The automaton over a run of bytes.
  function Advance(s: State, data: bytes): (t: State)
    decreases |data|
  {
    if data == [] then s else Advance(Next(s, data[0]), data[1..])
  }

  lemma {:induction false} RejectAbsorbs(data: bytes)
    ensures Advance(REJECT, data) == REJECT
    decreases |data|
  {
    if data != [] {
      RejectAbsorbs(data[1..]);
    }
  }

  // The state survives any cut of the byte stream.
  lemma {:induction false} AdvanceSplit(s: State, a: bytes, b: bytes)
    ensures Advance(s, a + b) == Advance(Advance(s, a), b)
    decreases |a|
  {
    if a == [] {
      assert a + b == b;
    } else {
      assert (a + b)[1..] == a[1..] + b;
      AdvanceSplit(Next(s, a[0]), a[1..], b);
    }
  }

  // -- what the automaton accepts ------------------------------------------

  predicate Tail(b: byte) {
    0x80 <= b < 0xC0
  }

  // Length of the well-formed character at the head of data, 0 if there is
  // none: the productions UTF8-1 .. UTF8-4 of section 4 of RFC 3629.
  function CharLen(d: bytes): (n: nat)
    ensures n <= |d|
  {
    if |d| >= 1 && d[0] < 0x80 then 1
    else if |d| >= 2 && 0xC2 <= d[0] < 0xE0 && Tail(d[1]) then 2
    else if |d| >= 3 && Tail(d[2]) &&
            ((d[0] == 0xE0 && 0xA0 <= d[1] < 0xC0) ||
             (0xE1 <= d[0] < 0xED && Tail(d[1])) ||
             (d[0] == 0xED && 0x80 <= d[1] < 0xA0) ||
             (0xEE <= d[0] < 0xF0 && Tail(d[1]))) then 3
    else if |d| >= 4 && Tail(d[2]) && Tail(d[3]) &&
            ((d[0] == 0xF0 && 0x90 <= d[1] < 0xC0) ||
             (0xF1 <= d[0] < 0xF4 && Tail(d[1])) ||
             (d[0] == 0xF4 && 0x80 <= d[1] < 0x90)) then 4
    else 0
  }

  predicate WellFormed(d: bytes)
    decreases |d|
  {
    d == [] || (CharLen(d) > 0 && WellFormed(d[CharLen(d)..]))
  }

  lemma {:induction false} Unroll(s: State, d: bytes, n: nat)
    requires n <= |d|
    ensures Advance(s, d) == Advance(Advance(s, d[..n]), d[n..])
  {
    assert d == d[..n] + d[n..];
    AdvanceSplit(s, d[..n], d[n..]);
  }

  lemma StepLast(s: State, d: bytes, i: nat)
    requires i < |d|
    ensures Advance(s, d[..i + 1]) == Next(Advance(s, d[..i]), d[i])
  {
    assert d[..i + 1] == d[..i] + [d[i]];
    AdvanceSplit(s, d[..i], [d[i]]);
    assert Advance(Advance(s, d[..i]), [d[i]]) == Advance(Next(Advance(s, d[..i]), d[i]), []);
  }

  lemma AdvanceFew(s: State, d: bytes)
    ensures |d| >= 1 ==> Advance(s, d[..1]) == Next(s, d[0])
    ensures |d| >= 2 ==> Advance(s, d[..2]) == Next(Next(s, d[0]), d[1])
    ensures |d| >= 3 ==> Advance(s, d[..3]) == Next(Next(Next(s, d[0]), d[1]), d[2])
    ensures |d| >= 4 ==> Advance(s, d[..4]) == Next(Next(Next(Next(s, d[0]), d[1]), d[2]), d[3])
  {
    if |d| >= 1 { StepLast(s, d, 0); assert d[..0] == []; }
    if |d| >= 2 { StepLast(s, d, 1); }
    if |d| >= 3 { StepLast(s, d, 2); }
    if |d| >= 4 { StepLast(s, d, 3); }
  }

  lemma RejectStays(s0: State, d: bytes, i: nat)
    requires i <= |d| && Advance(s0, d[..i]) == REJECT
    ensures Advance(s0, d) == REJECT
  {
    Unroll(s0, d, i);
    RejectAbsorbs(d[i..]);
  }

  // The first character, if there is one, takes ACCEPT back to ACCEPT; if
  // there is none, the data as a whole does not.
  lemma HeadChar(d: bytes)
    requires d != []
    ensures CharLen(d) > 0 ==> Advance(ACCEPT, d[..CharLen(d)]) == ACCEPT
    ensures CharLen(d) == 0 ==> Advance(ACCEPT, d) != ACCEPT
  {
    AdvanceFew(ACCEPT, d);
    if CharLen(d) == 0 {
      if |d| >= 4 {
        assert Advance(ACCEPT, d[..1]) == REJECT || Advance(ACCEPT, d[..2]) == REJECT ||
               Advance(ACCEPT, d[..3]) == REJECT || Advance(ACCEPT, d[..4]) == REJECT;
      }
      for n := 1 to 5
        invariant forall m :: 1 <= m < n && m <= |d| && Advance(ACCEPT, d[..m]) == REJECT ==>
                                Advance(ACCEPT, d) == REJECT
      {
        if n <= |d| && Advance(ACCEPT, d[..n]) == REJECT {
          RejectStays(ACCEPT, d, n);
        }
      }
      assert d[..|d|] == d;
    }
  }

  // Whole-message validation: ACCEPT at the end exactly on well-formed UTF-8.
  lemma {:induction false} AcceptsWellFormed(d: bytes)
    ensures Advance(ACCEPT, d) == ACCEPT <==> WellFormed(d)
    decreases |d|
  {
    if d != [] {
      HeadChar(d);
      var n := CharLen(d);
      if n > 0 {
        Unroll(ACCEPT, d, n);
        AcceptsWellFormed(d[n..]);
      }
    }
  }

  // Bytes that finish a character begun in state s.
  function Completion(s: State): (c: bytes) {
    match s
    case 24 => [0x80]
    case 36 => [0x80, 0x80]
    case 48 => [0x80, 0x80, 0x80]
    case 60 => [0xA0, 0x80]
    case 72 => [0x80, 0x80]
    case 84 => [0x90, 0x80, 0x80]
    case 96 => [0x80, 0x80, 0x80]
    case _ => []
  }

  lemma CompletionWorks(s: State)
    requires s != REJECT
    ensures Advance(s, Completion(s)) == ACCEPT
  {
    var c := Completion(s);
    AdvanceFew(s, c);
    assert Class(0x80) == 1 && Class(0x90) == 9 && Class(0xA0) == 7;
    assert c[..|c|] == c;
    assert IsState(s);
  }

  // Fail-fast is exact: the automaton rejects a prefix the moment no
  // continuation could make the message well-formed, and never earlier.
  lemma RejectsExactlyHopeless(d: bytes)
    ensures Advance(ACCEPT, d) != REJECT <==> exists e: bytes :: WellFormed(d + e)
  {
    var s := Advance(ACCEPT, d);
    if s != REJECT {
      CompletionWorks(s);
      AdvanceSplit(ACCEPT, d, Completion(s));
      AcceptsWellFormed(d + Completion(s));
      assert WellFormed(d + Completion(s));
    }
    if e: bytes :| WellFormed(d + e) {
      AcceptsWellFormed(d + e);
      AdvanceSplit(ACCEPT, d, e);
      if s == REJECT {
        RejectAbsorbs(e);
      }
    }
  }

  // -- the fast path -------------------------------------------------------

  lemma {:induction false} AsciiKeepsAccept(d: bytes)
    requires forall i :: 0 <= i < |d| ==> d[i] < 0x80
    ensures Advance(ACCEPT, d) == ACCEPT
    decreases |d|
  {
    if d != [] {
      AsciiKeepsAccept(d[1..]);
    }
  }

  lemma AsciiBlock(d: bytes, i: nat)
    requires i + 8 <= |d| && d[i] < 0x80 && d[i + 1] < 0x80 && d[i + 2] < 0x80 && d[i + 3] < 0x80
    requires d[i + 4] < 0x80 && d[i + 5] < 0x80 && d[i + 6] < 0x80 && d[i + 7] < 0x80
    ensures Advance(ACCEPT, d[i..i + 8]) == ACCEPT
  {
    assert d[i..i + 8] == [d[i], d[i + 1], d[i + 2], d[i + 3], d[i + 4], d[i + 5], d[i + 6], d[i + 7]];
    AsciiKeepsAccept(d[i..i + 8]);
  }

  lemma AdvanceMore(s0: State, d: bytes, i: nat, n: nat)
    requires i + n <= |d|
    ensures Advance(s0, d[..i + n]) == Advance(Advance(s0, d[..i]), d[i..i + n])
  {
    assert d[..i + n] == d[..i] + d[i..i + n];
    AdvanceSplit(s0, d[..i], d[i..i + n]);
  }

  // From ACCEPT at i, the position the run of eight-byte ASCII blocks ends at.
  method SkipAscii(ghost state: State, a: array<byte>, at: nat, len: nat, i0: nat) returns (i: nat)
    requires at + len <= a.Length && i0 <= len && Advance(state, a[at..at + len][..i0]) == ACCEPT
    ensures i0 <= i <= len && Advance(state, a[at..at + len][..i]) == ACCEPT
  {
    ghost var d := a[at..at + len];
    assert |d| == len;
    i := i0;
    while len - i >= 8 && a[at + i] < 0x80 && a[at + i + 1] < 0x80 && a[at + i + 2] < 0x80 && a[at + i + 3] < 0x80
          && a[at + i + 4] < 0x80 && a[at + i + 5] < 0x80 && a[at + i + 6] < 0x80 && a[at + i + 7] < 0x80
      invariant i0 <= i <= len && Advance(state, d[..i]) == ACCEPT
      decreases len - i
    {
      AdvanceMore(state, d, i, 8);
      AsciiBlock(d, i);
      i := i + 8;
    }
  }

  // The automaton run over a[at..at + len]; ok: it did not reject. From
  // ACCEPT, ASCII goes eight bytes a step.
  method Utf8Advance(state: State, a: array<byte>, at: nat, len: nat) returns (ok: bool, s: State)
    requires at + len <= a.Length
    ensures s == Advance(state, a[at..at + len])
    ensures ok == (len == 0 || s != REJECT)
  {
    ghost var d := a[at..at + len];
    assert |d| == len;
    s := state;
    var i := 0;
    while i < len
      invariant i <= len && s == Advance(state, d[..i])
      invariant i > 0 ==> s != REJECT
    {
      if s == ACCEPT {
        i := SkipAscii(state, a, at, len, i);
        if i == len { break; }
      }
      StepLast(state, d, i);
      s := Next(s, a[at + i]);
      if s == REJECT {
        RejectStays(state, d, i + 1);
        return false, s;
      }
      i := i + 1;
    }
    assert d[..len] == d;
    ok := true;
  }
}
