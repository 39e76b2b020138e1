// Framing (source/units/WS.Frame.pas): the header codec of section 5.2 of
// RFC 6455. A header is parsed out of a byte sequence and written into a
// caller-owned buffer; the payload is not touched here.

module Frame {
  import opened Bytes

  const OP_CONT: byte := 0x0
  const OP_TEXT: byte := 0x1
  const OP_BINARY: byte := 0x2
  const OP_CLOSE: byte := 0x8
  const OP_PING: byte := 0x9
  const OP_PONG: byte := 0xA
  const MAX_HEADER := 14

  datatype Header = Header(fin: bool, rsv1: bool, rsv2: bool, rsv3: bool,
                           opcode: byte, masked: bool, key: u32,
                           len: nat, headerLen: nat)
  {
    predicate IsControl() {
      opcode >= 8
    }
  }

  datatype ParseResult = NeedMore | ProtocolError | Parsed(header: Header)

  function DataOpcode(text: bool): byte {
    if text then OP_TEXT else OP_BINARY
  }

  predicate KnownOpcode(op: int) {
    op == OP_CONT || op == OP_TEXT || op == OP_BINARY ||
    op == OP_CLOSE || op == OP_PING || op == OP_PONG
  }

  // Is the bit of the given weight set in b?
  predicate Bit(b: byte, weight: nat)
    requires weight > 0
  {
    b / weight % 2 == 1
  }

  // Bytes of extended length the 7-bit length code announces.
  function ExtLen(lenCode: nat): (n: nat) {
    if lenCode == 126 then 2 else if lenCode == 127 then 8 else 0
  }

  // Four bytes as a 32-bit word, lowest first: the mask key's wire order.
  function KeyFrom(b: bytes): (key: u32)
    requires |b| == 4
  {
    var k0: int, k1: int, k2: int, k3: int := b[0], b[1], b[2], b[3];
    k0 + 0x100 * k1 + 0x1_0000 * k2 + 0x100_0000 * k3
  }

  // Base-256 digit j of n, lowest first.
  function Digit(n: nat, j: nat): (b: byte) {
    if j == 0 then n % 256 else Digit(n / 256, j - 1)
  }

  function KeyByte(key: u32, i: nat): (b: byte) {
    Digit(key, i % 4)
  }

  function KeyBytes(key: u32): (b: bytes)
    ensures |b| == 4
  {
    [KeyByte(key, 0), KeyByte(key, 1), KeyByte(key, 2), KeyByte(key, 3)]
  }

  // The payload length out of its code and extension; None marks an
  // encoding that is not minimal or has the top bit set.
  datatype Length = None | Some(value: nat)

  function DecodeLen(lenCode: nat, ext: bytes): (r: Length)
    requires lenCode < 128 && |ext| == ExtLen(lenCode)
  {
    if lenCode == 126 then
      if FromBE(ext) < 126 then None else Some(FromBE(ext))
    else if lenCode == 127 then
      if FromBE(ext) >= 0x8000_0000_0000_0000 || FromBE(ext) < 65536 then None else Some(FromBE(ext))
    else Some(lenCode)
  }

  function LenCode(len: nat): (c: byte)
    ensures c < 128
  {
    if len < 126 then len else if len < 65536 then 126 else 127
  }

  function EncodeLen(len: nat): (ext: bytes)
    ensures |ext| == ExtLen(LenCode(len))
  {
    if len < 126 then [] else if len < 65536 then ToBE(len, 2) else ToBE(len, 8)
  }

  function ParseHeader(b: bytes): (r: ParseResult) {
    if |b| < 2 then NeedMore else
    var op := b[0] % 16;
    var code := b[1] % 128;
    if !KnownOpcode(op) then ProtocolError else
    if op >= 8 && (b[0] < 128 || code > 125) then ProtocolError else
    var keyAt := 2 + ExtLen(code);
    var need := if b[1] >= 128 then keyAt + 4 else keyAt;
    if |b| < need then NeedMore else
    match DecodeLen(code, b[2..keyAt])
    case None => ProtocolError
    case Some(len) =>
      Parsed(Header(b[0] >= 128, Bit(b[0], 64), Bit(b[0], 32), Bit(b[0], 16), op, b[1] >= 128,
                    if b[1] >= 128 then KeyFrom(b[keyAt..need]) else 0, len, need))
  }

  function FirstByte(fin: bool, rsv1: bool, opcode: byte): (b: byte) {
    opcode % 16 + (if fin then 128 else 0) + (if rsv1 then 64 else 0)
  }

  // What WriteFrameHeader puts on the wire.
  function HeaderBytes(fin: bool, rsv1: bool, opcode: byte, masked: bool, key: u32, len: nat): (b: bytes)
    ensures 2 <= |b| <= MAX_HEADER
  {
    [FirstByte(fin, rsv1, opcode), LenCode(len) + (if masked then 128 else 0)]
    + EncodeLen(len) + (if masked then KeyBytes(key) else [])
  }

  // -- the codec's laws ----------------------------------------------------

  lemma KeyDigits(key: u32)
    ensures KeyBytes(key) == [key % 256, key / 0x100 % 256, key / 0x1_0000 % 256, key / 0x100_0000]
  {
    var k1 := key / 0x100;
    var k2 := k1 / 0x100;
    var k3 := k2 / 0x100;
    assert k2 == key / 0x1_0000 && k3 == key / 0x100_0000;
    assert Digit(key, 1) == Digit(k1, 0);
    assert Digit(key, 2) == Digit(k1, 1) == Digit(k2, 0);
    assert Digit(key, 3) == Digit(k1, 2) == Digit(k2, 1) == Digit(k3, 0);
  }

  lemma KeyRoundTrip(key: u32)
    ensures KeyFrom(KeyBytes(key)) == key
  {
    KeyDigits(key);
    assert key / 0x1_0000 == key / 0x100 / 0x100;
    assert key / 0x100_0000 == key / 0x1_0000 / 0x100;
  }

  lemma KeyCanonical(b: bytes)
    requires |b| == 4
    ensures KeyBytes(KeyFrom(b)) == b
  {
    var k := KeyFrom(b);
    KeyDigits(k);
    var b1: int, b2: int, b3: int := b[1], b[2], b[3];
    assert k / 0x100 == b1 + 0x100 * b2 + 0x1_0000 * b3;
    assert k / 0x1_0000 == b2 + 0x100 * b3;
  }

  lemma Pow256Values()
    ensures Pow256(2) == 0x1_0000
    ensures Pow256(8) == 0x1_0000_0000_0000_0000
  {
    assert Pow256(2) == 0x1_0000;
    assert Pow256(4) == 0x1_0000 * Pow256(2);
    assert Pow256(6) == 0x1_0000 * Pow256(4);
    assert Pow256(8) == 0x1_0000 * Pow256(6);
  }

  lemma LenRoundTrip(len: nat)
    requires len < 0x8000_0000_0000_0000
    ensures DecodeLen(LenCode(len), EncodeLen(len)) == Some(len)
  {
    Pow256Values();
    if 126 <= len < 65536 {
      FromToBE(len, 2);
    } else if len >= 65536 {
      FromToBE(len, 8);
    }
  }

  lemma LenCanonical(lenCode: byte, ext: bytes)
    requires lenCode < 128 && |ext| == ExtLen(lenCode) && DecodeLen(lenCode, ext).Some?
    ensures var len := DecodeLen(lenCode, ext).value;
            len < 0x8000_0000_0000_0000 && LenCode(len) == lenCode && EncodeLen(len) == ext
  {
    Pow256Values();
    ToFromBE(ext);
  }

  lemma FirstByteBits(fin: bool, rsv1: bool, opcode: byte)
    requires opcode < 16
    ensures var b := FirstByte(fin, rsv1, opcode);
            (b >= 128) == fin && Bit(b, 64) == rsv1 && !Bit(b, 32) && !Bit(b, 16) && b % 16 == opcode
  {
  }

  // Parsing inverts writing, whatever follows the header.
  lemma ParseInvertsWrite(fin: bool, rsv1: bool, opcode: byte, masked: bool, key: u32, len: nat, tail: bytes)
    requires KnownOpcode(opcode) && len < 0x8000_0000_0000_0000
    requires opcode >= 8 ==> fin && len <= 125
    requires !masked ==> key == 0
    ensures var w := HeaderBytes(fin, rsv1, opcode, masked, key, len);
            ParseHeader(w + tail) == Parsed(Header(fin, rsv1, false, false, opcode, masked, key, len, |w|))
  {
    var w := HeaderBytes(fin, rsv1, opcode, masked, key, len);
    var b := w + tail;
    LenRoundTrip(len);
    KeyRoundTrip(key);
    var keyAt := 2 + ExtLen(LenCode(len));
    assert b[1] % 128 == LenCode(len) && (b[1] >= 128) == masked;
    assert b[2..keyAt] == EncodeLen(len);
    if masked {
      assert b[keyAt..keyAt + 4] == KeyBytes(key);
    }
    FirstByteBits(fin, rsv1, opcode);
    assert b[0] == FirstByte(fin, rsv1, opcode);
  }

  // Encodings are canonical: an accepted header without RSV2/RSV3 is
  // reproduced byte for byte by writing what was parsed.
  lemma WriteReproducesParsed(b: bytes)
    requires ParseHeader(b).Parsed?
    requires !ParseHeader(b).header.rsv2 && !ParseHeader(b).header.rsv3
    ensures var h := ParseHeader(b).header;
            h.headerLen <= |b| &&
            HeaderBytes(h.fin, h.rsv1, h.opcode, h.masked, h.key, h.len) == b[..h.headerLen]
  {
    var h := ParseHeader(b).header;
    var keyAt := 2 + ExtLen(b[1] % 128);
    LenCanonical(b[1] % 128, b[2..keyAt]);
    assert b[0] == FirstByte(h.fin, h.rsv1, h.opcode);
    if h.masked {
      KeyCanonical(b[keyAt..keyAt + 4]);
      assert b[..h.headerLen] == [b[0], b[1]] + b[2..keyAt] + b[keyAt..keyAt + 4];
    } else {
      assert b[..h.headerLen] == [b[0], b[1]] + b[2..keyAt] + [];
    }
  }

  // More bytes never change a verdict that was already reached.
  lemma VerdictStable(b: bytes, more: bytes)
    requires !ParseHeader(b).NeedMore?
    ensures ParseHeader(b + more) == ParseHeader(b)
    ensures ParseHeader(b).Parsed? ==> 2 <= ParseHeader(b).header.headerLen <= |b|
  {
    var c := b + more;
    var keyAt := 2 + ExtLen(b[1] % 128);
    if |b| >= keyAt {
      assert c[2..keyAt] == b[2..keyAt];
      if |b| >= keyAt + 4 {
        assert c[keyAt..keyAt + 4] == b[keyAt..keyAt + 4];
      }
    }
  }

  // A header still incomplete is shorter than the longest one, and an
  // accepted control header is at most 6 bytes ahead of at most 125.
  lemma HeaderBounds(b: bytes)
    ensures ParseHeader(b).NeedMore? ==> |b| < MAX_HEADER
    ensures ParseHeader(b).Parsed? ==>
              var h := ParseHeader(b).header;
              h.len < 0x8000_0000_0000_0000 && h.headerLen <= MAX_HEADER &&
              (h.IsControl() ==> h.fin && h.len <= 125 && h.headerLen <= 6)
  {
    if ParseHeader(b).Parsed? {
      LenCanonical(b[1] % 128, b[2..2 + ExtLen(b[1] % 128)]);
    }
  }

  // -- the writer ----------------------------------------------------------

  lemma LastTwo(n: nat, width: nat)
    requires width >= 2
    ensures ToBE(n, width) == ToBE(n / 0x1_0000, width - 2) + [n / 0x100 % 256, n % 256]
  {
    assert n / 0x100 / 0x100 == n / 0x1_0000;
    assert ToBE(n / 256, width - 1) == ToBE(n / 256 / 256, width - 2) + [n / 256 % 256];
  }

  lemma Divisions(n: nat)
    ensures n / 0x1_0000 / 0x100 == n / 0x100_0000
    ensures n / 0x1_0000 / 0x1_0000 == n / 0x1_0000_0000
    ensures n / 0x1_0000_0000 / 0x100 == n / 0x100_0000_0000
    ensures n / 0x1_0000_0000 / 0x1_0000 == n / 0x1_0000_0000_0000
    ensures n / 0x1_0000_0000_0000 / 0x100 == n / 0x100_0000_0000_0000
  {
  }

  lemma BytesOfWord(n: nat)
    ensures ToBE(n, 8) == [n / 0x100_0000_0000_0000 % 256, n / 0x1_0000_0000_0000 % 256,
                           n / 0x100_0000_0000 % 256, n / 0x1_0000_0000 % 256,
                           n / 0x100_0000 % 256, n / 0x1_0000 % 256, n / 0x100 % 256, n % 256]
  {
    Divisions(n);
    LastTwo(n, 8);
    LastTwo(n / 0x1_0000, 6);
    LastTwo(n / 0x1_0000_0000, 4);
    LastTwo(n / 0x1_0000_0000_0000, 2);
  }

  // The length code and its extension, behind the first byte.
  method WriteLength(buf: array<byte>, len: nat) returns (n: nat)
    requires buf.Length >= MAX_HEADER
    modifies buf
    ensures n <= MAX_HEADER - 4 && buf[..n] == [old(buf[0]), LenCode(len)] + EncodeLen(len)
  {
    if len < 126 {
      buf[1] := len;
      n := 2;
    } else if len < 65536 {
      LastTwo(len, 2);
      buf[1] := 126;
      buf[2] := len / 0x100;
      buf[3] := len % 256;
      n := 4;
    } else {
      BytesOfWord(len);
      buf[1] := 127;
      buf[2] := len / 0x100_0000_0000_0000 % 256;
      buf[3] := len / 0x1_0000_0000_0000 % 256;
      buf[4] := len / 0x100_0000_0000 % 256;
      buf[5] := len / 0x1_0000_0000 % 256;
      buf[6] := len / 0x100_0000 % 256;
      buf[7] := len / 0x1_0000 % 256;
      buf[8] := len / 0x100 % 256;
      buf[9] := len % 256;
      n := 10;
      assert buf[2..10] == ToBE(len, 8);
    }
  }

  method WriteKey(buf: array<byte>, n: nat, key: u32)
    requires n + 4 <= buf.Length
    modifies buf
    ensures buf[..n + 4] == old(buf[..n]) + KeyBytes(key)
  {
    KeyDigits(key);
    buf[n] := key % 256;
    buf[n + 1] := key / 0x100 % 256;
    buf[n + 2] := key / 0x1_0000 % 256;
    buf[n + 3] := key / 0x100_0000;
  }

  method WriteFrameHeader(buf: array<byte>, fin: bool, rsv1: bool, opcode: byte,
                          masked: bool, key: u32, len: nat)
    returns (n: nat)
    requires buf.Length >= MAX_HEADER
    modifies buf
    ensures n <= MAX_HEADER && buf[..n] == HeaderBytes(fin, rsv1, opcode, masked, key, len)
  {
    buf[0] := opcode % 16;
    if fin { buf[0] := buf[0] + 0x80; }
    if rsv1 { buf[0] := buf[0] + 0x40; }
    n := WriteLength(buf, len);
    if masked {
      buf[1] := buf[1] + 0x80;
      assert buf[..n] == [FirstByte(fin, rsv1, opcode), LenCode(len) + 128] + EncodeLen(len);
      WriteKey(buf, n, key);
      n := n + 4;
    }
  }
}
