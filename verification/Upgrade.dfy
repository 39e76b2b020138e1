// The upgrade request and its answer: what each side writes and how the
// other reads it (source/units/WS.Handshake.pas).

module Upgrade {
  import opened Text

  datatype Option<T> = None | Some(value: T)

  // TWSDeflateParams.
  datatype Deflate = Deflate(enabled: bool, serverNoTakeover: bool, clientNoTakeover: bool, serverMaxBits: int,
                             clientMaxBits: int)

  const RESET := Deflate(false, false, false, 15, 15)

  // Windows both ends can keep to.
  predicate Honoured(d: Deflate) {
    9 <= d.serverMaxBits <= 15 && 9 <= d.clientMaxBits <= 15
  }

  // What the run-time library and SHA-1 supply: TryStrToInt and ComputeAccept.
  datatype Rtl = Rtl(toInt: string -> Option<int>, accept: string -> string)

  // Decimal numerals of 32-bit integers read as themselves, larger ones and
  // an empty text as none; an accept value is base64, no blank or control
  // character in it.
  ghost predicate Sane(rtl: Rtl) {
    && (forall n: nat :: rtl.toInt(Decimal(n)) == if n < 0x8000_0000 then Some(n) else None)
    && rtl.toInt("") == None
    && (forall k: string, i :: 0 <= i < |rtl.accept(k)| ==> rtl.accept(k)[i] > ' ')
  }

  // -- token lists and parameter lists -------------------------------------

  // The part before the first separator, and the part behind it.
  function Head(s: string, c: char): string {
    s[..IndexOf(s, c)]
  }

  function Tail(s: string, c: char): (t: string)
    ensures s != "" ==> |t| < |s|
  {
    var i := IndexOf(s, c);
    if i < |s| then s[i + 1..] else ""
  }

  predicate TokenListHas(value: string, token: string)
    decreases |value|
  {
    value != "" && (SameText(Trim(Head(value, ',')), token) || TokenListHas(Tail(value, ','), token))
  }

  method HasToken(value: string, token: string) returns (has: bool)
    ensures has == TokenListHas(value, token)
  {
    var rest := value;
    while rest != ""
      invariant TokenListHas(value, token) == TokenListHas(rest, token)
      decreases |rest|
    {
      if SameText(Trim(Head(rest, ',')), token) { return true; }
      rest := Tail(rest, ',');
    }
    has := false;
  }

  function StripQuotes(s: string): string {
    var t := Trim(s);
    if |t| >= 2 && t[0] == '"' && t[|t| - 1] == '"' then t[1..|t| - 1] else t
  }

  // Parameters read so far, and which names were seen.
  datatype Params = Params(d: Deflate, serverNT: bool, clientNT: bool, serverMB: bool, clientMB: bool)

  const SERVER_NT := "server_no_context_takeover"
  const CLIENT_NT := "client_no_context_takeover"
  const SERVER_MB := "server_max_window_bits"
  const CLIENT_MB := "client_max_window_bits"
  const EXTENSION := "permessage-deflate"

  function Bits(rtl: Rtl, value: string): Option<int> {
    match rtl.toInt(value)
    case Some(b) => if 9 <= b <= 15 then Some(b) else None
    case None => None
  }

  function ParamName(item: string): string {
    var eq := IndexOf(item, '=');
    Lower(if eq == |item| then item else Trim(item[..eq]))
  }

  function ParamValue(item: string): string {
    var eq := IndexOf(item, '=');
    if eq == |item| then "" else StripQuotes(item[eq + 1..])
  }

  datatype Name = ServerNT | ClientNT | ServerMB | ClientMB | Unknown

  function NameOf(name: string): (n: Name) {
    if name == SERVER_NT then ServerNT
    else if name == CLIENT_NT then ClientNT
    else if name == SERVER_MB then ServerMB
    else if name == CLIENT_MB then ClientMB
    else Unknown
  }

  // One parameter; None makes an offer unacceptable and a response fatal.
  function ApplyParam(rtl: Rtl, name: Name, value: string, isResponse: bool, p: Params): (r: Option<Params>)
    ensures r.Some? && Honoured(p.d) ==> Honoured(r.value.d)
  {
    match name
    case ServerNT =>
      if value != "" || p.serverNT then None else Some(p.(serverNT := true, d := p.d.(serverNoTakeover := true)))
    case ClientNT =>
      if value != "" || p.clientNT then None else Some(p.(clientNT := true, d := p.d.(clientNoTakeover := true)))
    case ServerMB =>
      if p.serverMB || Bits(rtl, value) == None then None
      else Some(p.(serverMB := true, d := p.d.(serverMaxBits := Bits(rtl, value).value)))
    case ClientMB =>
      if p.clientMB then None
      else if value == "" then if isResponse then None else Some(p.(clientMB := true))
      else if Bits(rtl, value) == None then None
      else Some(p.(clientMB := true, d := p.d.(clientMaxBits := Bits(rtl, value).value)))
    case Unknown => None
  }

  function ReadParams(rtl: Rtl, s: string, isResponse: bool, p: Params): (r: Option<Params>)
    ensures r.Some? && Honoured(p.d) ==> Honoured(r.value.d)
    decreases |s|
  {
    if s == "" then Some(p) else
    var item := Trim(Head(s, ';'));
    if item == "" then ReadParams(rtl, Tail(s, ';'), isResponse, p) else
    match ApplyParam(rtl, NameOf(ParamName(item)), ParamValue(item), isResponse, p)
    case None => None
    case Some(q) => ReadParams(rtl, Tail(s, ';'), isResponse, q)
  }

  function Start(d: Deflate): Params {
    Params(d, false, false, false, false)
  }

  method ParseDeflateParams(rtl: Rtl, s: string, isResponse: bool, d0: Deflate) returns (ok: bool, d: Deflate)
    ensures ok == ReadParams(rtl, s, isResponse, Start(d0)).Some?
    ensures ok ==> d == ReadParams(rtl, s, isResponse, Start(d0)).value.d
  {
    var rest, p := s, Start(d0);
    while rest != ""
      invariant ReadParams(rtl, s, isResponse, Start(d0)) == ReadParams(rtl, rest, isResponse, p)
      decreases |rest|
    {
      var item := Trim(Head(rest, ';'));
      rest := Tail(rest, ';');
      if item == "" { continue; }
      var r := ApplyParam(rtl, NameOf(ParamName(item)), ParamValue(item), isResponse, p);
      if r.None? { return false, d0; }
      p := r.value;
    }
    return true, p.d;
  }

  // One element of an extension list: its name and its parameters.
  function ExtName(offer: string): string {
    Lower(Trim(Head(offer, ';')))
  }

  function Offer(rtl: Rtl, offer: string): (r: Option<Deflate>)
    ensures r.Some? ==> Honoured(r.value) && r.value.enabled
  {
    if ExtName(offer) != EXTENSION then None else
    match ReadParams(rtl, Tail(offer, ';'), false, Start(RESET))
    case None => None
    case Some(p) => Some(p.d.(enabled := true))
  }

  // What the list grants: its first offer that can be honoured.
  function FirstOffer(rtl: Rtl, value: string): (d: Deflate)
    ensures Honoured(d) && (!d.enabled ==> d == RESET)
    decreases |value|
  {
    if value == "" then RESET else
    var offer := Trim(Head(value, ','));
    if offer != "" && Offer(rtl, offer).Some? then Offer(rtl, offer).value
    else FirstOffer(rtl, Tail(value, ','))
  }

  method NegotiateDeflate(rtl: Rtl, value: string) returns (ok: bool, d: Deflate)
    ensures d == FirstOffer(rtl, value) && ok == d.enabled
  {
    var rest := value;
    d := RESET;
    while rest != ""
      invariant FirstOffer(rtl, value) == FirstOffer(rtl, rest) && d == RESET
      decreases |rest|
    {
      var offer := Trim(Head(rest, ','));
      rest := Tail(rest, ',');
      if offer == "" || ExtName(offer) != EXTENSION { continue; }
      var good, trial := ParseDeflateParams(rtl, Tail(offer, ';'), false, RESET);
      if good {
        return true, trial.(enabled := true);
      }
    }
    ok := false;
  }

  // -- the server's walk over a header block -------------------------------

  datatype Header = Header(value: string, seen: bool)

  // The ten headers the server cares about, by slot.
  datatype Headers = Headers(slots: seq<Header>, obsFold: bool)

  const NAMES: seq<string> := ["Upgrade", "Connection", "Sec-WebSocket-Version", "Sec-WebSocket-Key", "Host",
                               "Sec-WebSocket-Protocol", "Sec-WebSocket-Extensions", "Content-Length",
                               "Transfer-Encoding", "Origin"]

  const ABSENT := Header("", false)
  const ACCEPT := "Sec-WebSocket-Accept"

  const NOTHING: seq<Header> := [ABSENT, ABSENT, ABSENT, ABSENT, ABSENT, ABSENT, ABSENT, ABSENT, ABSENT, ABSENT]

  function SlotOf(name: string, k: nat): (i: nat)
    requires k <= |NAMES|
    ensures k <= i <= |NAMES|
    decreases |NAMES| - k
  {
    if k == |NAMES| || SameText(name, NAMES[k]) then k else SlotOf(name, k + 1)
  }

  function Join(was: string, value: string): string {
    if was == "" then value else was + ", " + value
  }

  function PutHeader(h: Headers, name: string, value: string): (r: Headers)
    requires |h.slots| == |NAMES|
    ensures |r.slots| == |NAMES|
  {
    var k := SlotOf(name, 0);
    if k == |NAMES| then h else h.(slots := h.slots[k := Header(Join(h.slots[k].value, value), true)])
  }

  function AddLine(h: Headers, line: string): (r: Headers)
    requires |h.slots| == |NAMES| && line != ""
    ensures |r.slots| == |NAMES|
  {
    if Blank(line[0]) then h.(obsFold := true) else
    var c := IndexOf(line, ':');
    if c == |line| then h else PutHeader(h, StripRight(line[..c], Blank), Strip(line[c + 1..], Blank))
  }

  // Lines up to the first empty one.
  function Collect(s: string, h: Headers): (r: Headers)
    requires |h.slots| == |NAMES|
    ensures |r.slots| == |NAMES|
    decreases |s|
  {
    if s == "" then h else
    var line := ChopCR(Head(s, '\n'));
    if line == "" then h else Collect(Tail(s, '\n'), AddLine(h, line))
  }

  lemma HeadAndTail(raw: string, p: nat, e: nat)
    requires p <= |raw| && e == p + IndexOf(raw[p..], '\n')
    ensures Head(raw[p..], '\n') == raw[p..e]
    ensures Tail(raw[p..], '\n') == raw[if e < |raw| then e + 1 else |raw|..]
  {
  }

  method CollectServerHeaders(raw: string) returns (h: Headers)
    ensures h == Collect(Tail(raw, '\n'), Headers(NOTHING, false))
  {
    h := Headers(NOTHING, false);
    var e := Find(raw, '\n', 0);
    var p := if e < |raw| then e + 1 else |raw|;
    assert raw[0..] == raw && raw[p..] == Tail(raw, '\n');
    while p < |raw|
      invariant p <= |raw| && |h.slots| == |NAMES|
      invariant Collect(Tail(raw, '\n'), Headers(NOTHING, false)) == Collect(raw[p..], h)
    {
      var lineEnd := Find(raw, '\n', p);
      var line := ChopCR(raw[p..lineEnd]);
      HeadAndTail(raw, p, lineEnd);
      p := if lineEnd < |raw| then lineEnd + 1 else |raw|;
      if line == "" { break; }
      h := AddLine(h, line);
    }
  }

  // -- the client's lookup -------------------------------------------------

  // What a line adds to the values of a header.
  function Gather(line: string, name: string, acc: string): string {
    var c := IndexOf(line, ':');
    if c < |line| && SameText(Trim(line[..c]), name) then Join(acc, Trim(line[c + 1..])) else acc
  }

  function Gatherer(name: string): (string, string) -> string {
    (line, acc) => Gather(line, name, acc)
  }

  // The terminated lines up to the first empty one, taken in turn.
  function Lines(s: string, acc: string, take: (string, string) -> string): string
    decreases |s|
  {
    var e := IndexOf(s, '\n');
    if e == |s| || |ChopCR(s[..e])| == 0 then acc else Lines(s[e + 1..], take(ChopCR(s[..e]), acc), take)
  }

  // Every value of a header, joined; only terminated lines count.
  function Values(s: string, name: string, acc: string): string {
    Lines(s, acc, Gatherer(name))
  }

  lemma {:induction false} LinesFirst(s: string, e: nat, acc: string, take: (string, string) -> string,
      line: string, rest: string)
    requires e == IndexOf(s, '\n') < |s| && line == ChopCR(s[..e]) && rest == s[e + 1..]
    ensures Lines(s, acc, take) == if |line| == 0 then acc else Lines(rest, take(line, acc), take)
  {
  }

  lemma {:induction false} Slices(s: string, p: nat, i: nat)
    requires p + i < |s|
    ensures s[p..][..i] == s[p..p + i] && s[p..][i + 1..] == s[p + i + 1..]
  {
  }

  // Lines, one line on: open unless that line is unterminated or empty.
  lemma {:induction false} LinesAt(raw: string, p: nat, e: nat, line: string, acc: string,
      take: (string, string) -> string)
    requires p <= |raw| && e == p + IndexOf(raw[p..], '\n')
    requires line == if e < |raw| then ChopCR(raw[p..e]) else ""
    ensures |line| > 0 ==> e < |raw|
    ensures Lines(raw[p..], acc, take) == if |line| == 0 then acc else Lines(raw[e + 1..], take(line, acc), take)
  {
    if e < |raw| {
      Slices(raw, p, e - p);
      LinesFirst(raw[p..], e - p, acc, take, line, raw[e + 1..]);
    }
  }

  method TakeLine(raw: string, p: nat, acc: string, take: (string, string) -> string)
    returns (open: bool, next: nat, v: string)
    requires p <= |raw|
    ensures p <= next <= |raw| && (open ==> p < next)
    ensures Lines(raw[p..], acc, take) == if open then Lines(raw[next..], v, take) else v
  {
    var e := Find(raw, '\n', p);
    var line := if e < |raw| then ChopCR(raw[p..e]) else "";
    LinesAt(raw, p, e, line, acc, take);
    open := |line| > 0;
    next := if open then e + 1 else p;
    v := if open then take(line, acc) else acc;
  }

  method HeaderValue(raw: string, name: string) returns (v: string)
    ensures v == Values(raw, name, "")
  {
    v := "";
    var p, open, take := 0, true, Gatherer(name);
    assert raw[0..] == raw;
    while open
      invariant p <= |raw|
      invariant Values(raw, name, "") == if open then Lines(raw[p..], v, take) else v
      decreases open, |raw| - p
    {
      open, p, v := TakeLine(raw, p, v, take);
    }
  }

  // -- what is written -----------------------------------------------------

  type Field = (string, string)

  // Header lines and the empty line behind them.
  function FieldText(fs: seq<Field>): string {
    if fs == [] then CRLF else fs[0].0 + ": " + fs[0].1 + CRLF + FieldText(fs[1..])
  }

  lemma Regroup(t: string, a: string, b: string, c: string, d: string, rest: string)
    ensures t + (a + b + c + d + rest) == t + a + b + c + d + rest
  {
  }

  method AppFields(b: StrBuilder, fs: seq<Field>)
    requires b.Valid()
    modifies b, b.buf, b.heap
    ensures b.Valid() && b.text == old(b.text) + FieldText(fs)
  {
    var i := 0;
    ghost var goal := b.text + FieldText(fs);
    assert fs[0..] == fs;
    while i < |fs|
      invariant i <= |fs| && b.Valid() && b.text + FieldText(fs[i..]) == goal
      invariant b.heap == old(b.heap) || fresh(b.heap)
    {
      ghost var t, rest := b.text, FieldText(fs[i + 1..]);
      assert fs[i..][0] == fs[i] && fs[i..][1..] == fs[i + 1..];
      b.App(fs[i].0);
      b.App(": ");
      b.App(fs[i].1);
      b.App(CRLF);
      Regroup(t, fs[i].0, ": ", fs[i].1, CRLF, rest);
      i := i + 1;
    }
    b.App(CRLF);
  }

  // Parameters behind an extension's name.
  function ItemText(items: seq<string>): string {
    if items == [] then "" else "; " + items[0] + ItemText(items[1..])
  }

  function RequestFields(host: string, key: string, offer: bool): (fs: seq<Field>) {
    [(NAMES[4], host), (NAMES[0], "websocket"), (NAMES[1], "Upgrade"), (NAMES[3], key), (NAMES[2], Decimal(13))]
    + if offer then [(NAMES[6], EXTENSION + ItemText([CLIENT_MB]))] else []
  }

  const GET := "GET"

  function RequestLine(path: string): string {
    GET + " " + path + " " + HTTP
  }

  method AppWord(b: StrBuilder, word: string)
    requires b.Valid()
    modifies b, b.buf, b.heap
    ensures b.Valid() && b.text == old(b.text) + word + " " && (b.heap == old(b.heap) || fresh(b.heap))
  {
    b.App(word);
    b.App(" ");
  }

  method AppRequestLine(b: StrBuilder, path: string)
    requires b.Valid() && b.text == ""
    modifies b, b.buf, b.heap
    ensures b.Valid() && b.text == RequestLine(path) + CRLF && (b.heap == old(b.heap) || fresh(b.heap))
  {
    AppWord(b, GET);
    AppWord(b, path);
    b.App(HTTP);
    b.App(CRLF);
  }

  method ClientBuildRequest(host: string, path: string, key: string, offer: bool) returns (text: string)
    ensures text == RequestLine(path) + CRLF + FieldText(RequestFields(host, key, offer))
  {
    var b := new StrBuilder();
    AppRequestLine(b, path);
    AppFields(b, RequestFields(host, key, offer));
    text := b.Done();
  }

  // The parameters the server answers with: the window it was held to only
  // when it was.
  function ServerItems(d: Deflate): seq<string> {
    if d.serverNoTakeover then [SERVER_NT] else []
  }

  function ClientItems(d: Deflate): seq<string> {
    if d.clientNoTakeover then [CLIENT_NT] else []
  }

  function WindowItems(d: Deflate): seq<string>
    requires 0 <= d.serverMaxBits
  {
    if d.serverMaxBits < 15 then [SERVER_MB + "=" + Decimal(d.serverMaxBits)] else []
  }

  function Items(d: Deflate): (items: seq<string>)
    requires 0 <= d.serverMaxBits
  {
    ServerItems(d) + ClientItems(d) + WindowItems(d)
  }

  function ResponseFields(rtl: Rtl, key: string, d: Deflate): (fs: seq<Field>)
    requires 0 <= d.serverMaxBits
  {
    [(NAMES[0], "websocket"), (NAMES[1], "Upgrade"), (ACCEPT, rtl.accept(key))]
    + if d.enabled then [(NAMES[6], EXTENSION + ItemText(Items(d)))] else []
  }

  const HTTP := "HTTP/1.1"
  const SWITCHING := "Switching Protocols"
  const STATUS_LINE := HTTP + " 101 " + SWITCHING

  method ServerBuildResponse(rtl: Rtl, key: string, d: Deflate) returns (text: string)
    requires 0 <= d.serverMaxBits
    ensures text == STATUS_LINE + CRLF + FieldText(ResponseFields(rtl, key, d))
  {
    var b := new StrBuilder();
    b.App(STATUS_LINE);
    b.App(CRLF);
    AppFields(b, ResponseFields(rtl, key, d));
    text := b.Done();
  }

  // -- how it is read ------------------------------------------------------

  datatype Kind = Noise | WebSocket | PlainRequest

  // TWSServerHandshake; failure is empty exactly on success.
  datatype Request = Request(verb: string, path: string, host: string, key: string, version: int, protocols: string,
                             origin: string, deflate: Deflate, kind: Kind, failure: string)

  const NO_REQUEST := Request("", "", "", "", 0, "", "", RESET, Noise, "malformed request line")

  function Classify(verb: string, httpVersion: string, h: Headers): (k: Kind)
    requires |h.slots| == |NAMES|
  {
    if TokenListHas(h.slots[0].value, "websocket") then WebSocket
    else if (SameText(verb, GET) || SameText(verb, "HEAD")) && (httpVersion == HTTP || httpVersion == "HTTP/1.0")
            && !h.obsFold && !h.slots[7].seen && !h.slots[8].seen then PlainRequest
    else Noise
  }

  // Verb, target and version of a request line.
  function RequestParts(raw: string): (parts: Option<(string, string, string)>) {
    var eol := FindCRLF(raw);
    if eol == |raw| then None else
    var line := raw[..eol];
    var sp1 := IndexOf(line, ' ');
    if sp1 == |line| then None else
    var rest := line[sp1 + 1..];
    var sp2 := IndexOf(rest, ' ');
    if sp2 == |rest| then None else Some((line[..sp1], rest[..sp2], rest[sp2 + 1..]))
  }

  function Validate(rtl: Rtl, r: Request, h: Headers, allowDeflate: bool): Request
    requires |h.slots| == |NAMES|
  {
    if !SameText(r.verb, GET) then r.(failure := "method must be GET")
    else if !r.kind.WebSocket? then r.(failure := "missing Upgrade: websocket")
    else if !TokenListHas(h.slots[1].value, "Upgrade") then r.(failure := "missing Connection: Upgrade")
    else
      var version := match rtl.toInt(h.slots[2].value) case Some(v) => v case None => -1;
      if version != 13 then r.(version := version, failure := "unsupported version")
      else if |h.slots[3].value| != 24 then
        r.(version := 13, key := h.slots[3].value, failure := "bad Sec-WebSocket-Key")
      else r.(version := 13, key := h.slots[3].value, protocols := h.slots[5].value, origin := h.slots[9].value,
              deflate := if allowDeflate then FirstOffer(rtl, h.slots[6].value) else RESET, failure := "")
  }

  function ServerParseRequest(rtl: Rtl, raw: string, allowDeflate: bool): (r: Request) {
    match RequestParts(raw)
    case None => NO_REQUEST
    case Some(parts) =>
      var h := Collect(Tail(raw, '\n'), Headers(NOTHING, false));
      var r := NO_REQUEST.(verb := parts.0, path := parts.1, host := h.slots[4].value,
                           kind := Classify(parts.0, parts.2, h));
      Validate(rtl, r, h, allowDeflate)
  }

  datatype Answer = Accepted(d: Deflate) | Refused(why: string)

  // The headers of a 101.
  function Judge(rtl: Rtl, upgrade: string, connection: string, accept: string, extensions: string, key: string,
      offered: bool): (a: Answer)
  {
    if !TokenListHas(upgrade, "websocket") then Refused("missing Upgrade: websocket")
    else if !TokenListHas(connection, "Upgrade") then Refused("missing Connection: Upgrade")
    else if Trim(accept) != rtl.accept(key) then Refused("Sec-WebSocket-Accept mismatch")
    else
      var ext := Trim(extensions);
      if ext == "" then Accepted(RESET)
      else if !offered then Refused("server selected unoffered extension: " + ext)
      else if ExtName(ext) != EXTENSION then Refused("server selected unoffered extension: " + ExtName(ext))
      else match ReadParams(rtl, Tail(ext, ';'), true, Start(RESET))
           case None => Refused("bad permessage-deflate response params")
           case Some(p) => Accepted(p.d.(enabled := true))
  }

  function ClientParseResponse(rtl: Rtl, raw: string, key: string, offered: bool): (a: Answer) {
    var eol := FindCRLF(raw);
    if eol == |raw| then Refused("malformed status line")
    else if !HasSub(raw[..eol], " 101 ") then Refused("expected 101, got: " + raw[..eol])
    else Judge(rtl, Values(raw, NAMES[0], ""), Values(raw, NAMES[1], ""), Values(raw, ACCEPT, ""),
               Values(raw, NAMES[6], ""), key, offered)
  }
}
