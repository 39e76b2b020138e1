// Each side of the opening handshake reads what the other writes
// (source/units/WS.Handshake.pas).

module HandshakeTrip {
  import opened Text
  import opened Upgrade

  // -- literals ------------------------------------------------------------

  lemma Differ(a: string, b: string)
    requires |a| != |b| || exists i :: 0 <= i < |a| && LowerChar(a[i]) != LowerChar(b[i])
    ensures !SameText(a, b)
  {
    if |a| == |b| {
      var i :| 0 <= i < |a| && LowerChar(a[i]) != LowerChar(b[i]);
      assert Lower(a)[i] != Lower(b)[i];
    }
  }

  lemma NamesDiffer(k: nat, j: nat)
    requires j < k < |NAMES|
    ensures !SameText(NAMES[k], NAMES[j])
  {
    assert |NAMES[0]| == 7 && |NAMES[1]| == 10 && |NAMES[2]| == 21 && |NAMES[3]| == 17 && |NAMES[4]| == 4;
    assert |NAMES[5]| == 22 && |NAMES[6]| == 24 && |NAMES[7]| == 14 && |NAMES[8]| == 17 && |NAMES[9]| == 6;
    if k == 8 && j == 3 {
      assert LowerChar(NAMES[8][0]) != LowerChar(NAMES[3][0]);
    }
    Differ(NAMES[k], NAMES[j]);
  }

  lemma {:induction false} OwnSlotFrom(k: nat, j: nat)
    requires j <= k < |NAMES|
    ensures SlotOf(NAMES[k], j) == k
    decreases k - j
  {
    if j < k {
      NamesDiffer(k, j);
      OwnSlotFrom(k, j + 1);
    }
  }

  // Every name finds its own slot.
  lemma OwnSlot(k: nat)
    requires k < |NAMES|
    ensures SlotOf(NAMES[k], 0) == k
  {
    OwnSlotFrom(k, 0);
  }

  // -- header lines --------------------------------------------------------

  // A field both walks take apart as it was put together.
  ghost predicate Clean(f: Field) {
    && f.0 != "" && Tight(f.0, Control) && ':' !in f.0 && '\n' !in f.0
    && Tight(f.1, Blank) && '\n' !in f.1 && '\r' !in f.0
  }

  lemma TightBlank(s: string)
    requires Tight(s, Control)
    ensures Tight(s, Blank)
  {
  }

  lemma {:induction false} FieldParts(f: Field)
    requires Clean(f)
    ensures var line := f.0 + ": " + f.1;
            && IndexOf(line, ':') == |f.0| < |line| && line[..|f.0|] == f.0
            && line[|f.0| + 1..] == " " + f.1 && line[0] == f.0[0]
  {
    assert f.0 + ": " + f.1 == f.0 + [':'] + (" " + f.1);
    CutAt(f.0, ':', " " + f.1);
  }

  lemma OneLine(f: Field)
    requires Clean(f)
    ensures '\n' !in f.0 + ": " + f.1 && f.0 + ": " + f.1 != ""
  {
  }

  lemma FieldLine(f: Field, h: Headers)
    requires Clean(f) && |h.slots| == |NAMES|
    ensures var line := f.0 + ": " + f.1;
            line != "" && '\n' !in line && AddLine(h, line) == PutHeader(h, f.0, f.1)
  {
    OneLine(f);
    FieldParts(f);
    StripSpace(f.1, Blank);
    TightBlank(f.0);
  }

  lemma LineOff(line: string, rest: string)
    requires '\n' !in line
    ensures var s := line + CRLF + rest;
            s != "" && ChopCR(Head(s, '\n')) == line && Tail(s, '\n') == rest
  {
    CutLine(line, rest);
  }

  function PutAll(h: Headers, fs: seq<Field>): (r: Headers)
    requires |h.slots| == |NAMES|
    ensures |r.slots| == |NAMES|
    decreases |fs|
  {
    if fs == [] then h else PutAll(PutHeader(h, fs[0].0, fs[0].1), fs[1..])
  }

  // The server's walk collects the fields and stops at the empty line.
  lemma {:induction false} CollectFields(fs: seq<Field>, h: Headers)
    requires |h.slots| == |NAMES| && forall i :: 0 <= i < |fs| ==> Clean(fs[i])
    ensures Collect(FieldText(fs), h) == PutAll(h, fs)
    decreases |fs|
  {
    if fs == [] {
      LineOff("", "");
      assert CRLF == "" + CRLF + "";
    } else {
      var line := fs[0].0 + ": " + fs[0].1;
      FieldLine(fs[0], h);
      LineOff(line, FieldText(fs[1..]));
      CollectFields(fs[1..], PutHeader(h, fs[0].0, fs[0].1));
    }
  }

  lemma FieldGathered(f: Field, name: string, acc: string)
    requires Clean(f) && Tight(f.1, Control)
    ensures Gather(f.0 + ": " + f.1, name, acc) == if SameText(f.0, name) then Join(acc, f.1) else acc
  {
    FieldParts(f);
    StripSpace(f.1, Control);
    StripTight(f.0, Control);
  }

  function GatherAll(fs: seq<Field>, name: string, acc: string): (v: string)
    decreases |fs|
  {
    if fs == [] then acc else GatherAll(fs[1..], name, if SameText(fs[0].0, name) then Join(acc, fs[0].1) else acc)
  }

  lemma ValuesFirst(line: string, rest: string, name: string, acc: string)
    requires '\n' !in line
    ensures Values(line + CRLF + rest, name, acc) ==
            if line == "" then acc else Values(rest, name, Gather(line, name, acc))
  {
    var s := line + CRLF + rest;
    CutLine(line, rest);
    assert s[..|line| + 1] == line + "\r";
  }

  // The client's lookup gathers the values of its name.
  lemma {:induction false} ValuesOfFields(fs: seq<Field>, name: string, acc: string)
    requires forall i :: 0 <= i < |fs| ==> Clean(fs[i]) && Tight(fs[i].1, Control)
    ensures Values(FieldText(fs), name, acc) == GatherAll(fs, name, acc)
    decreases |fs|
  {
    if fs == [] {
      ValuesFirst("", "", name, acc);
      assert "" + CRLF + "" == CRLF;
    } else {
      OneLine(fs[0]);
      ValuesFirst(fs[0].0 + ": " + fs[0].1, FieldText(fs[1..]), name, acc);
      FieldGathered(fs[0], name, acc);
      ValuesOfFields(fs[1..], name, if SameText(fs[0].0, name) then Join(acc, fs[0].1) else acc);
    }
  }

  // -- the request ---------------------------------------------------------

  // What section 4.1 of RFC 6455 lets a client put in a request line and
  // its headers; a key is 16 bytes in base64.
  ghost predicate Sendable(host: string, path: string, key: string) {
    && '\r' !in path && '\n' !in path && ' ' !in path
    && '\n' !in host && Tight(host, Blank)
    && |key| == 24 && '\n' !in key && Tight(key, Blank)
  }

  lemma NamesClean(k: nat)
    requires k < |NAMES|
    ensures NAMES[k] != "" && Tight(NAMES[k], Control) && ':' !in NAMES[k] && '\n' !in NAMES[k] && '\r' !in NAMES[k]
  {
  }

  lemma PutSlot(h: Headers, k: nat, value: string)
    requires k < |NAMES| == |h.slots| && h.slots[k].value == ""
    ensures PutHeader(h, NAMES[k], value) == h.(slots := h.slots[k := Header(value, true)])
  {
    OwnSlot(k);
  }

  // The slots filled from the request's fields.
  function Filled(host: string, key: string, offer: bool): (h: Headers)
    ensures |h.slots| == |NAMES|
  {
    var s := NOTHING[4 := Header(host, true)][0 := Header("websocket", true)][1 := Header("Upgrade", true)]
                    [3 := Header(key, true)][2 := Header(Decimal(13), true)];
    Headers(if offer then s[6 := Header(EXTENSION + ItemText([CLIENT_MB]), true)] else s, false)
  }

  lemma PutStep(h: Headers, fs: seq<Field>, i: nat)
    requires |h.slots| == |NAMES| && i < |fs|
    ensures PutAll(h, fs[i..]) == PutAll(PutHeader(h, fs[i].0, fs[i].1), fs[i + 1..])
  {
    assert fs[i..][1..] == fs[i + 1..];
  }

  lemma RequestFilled(host: string, key: string, offer: bool)
    ensures PutAll(Headers(NOTHING, false), RequestFields(host, key, offer)) == Filled(host, key, offer)
  {
    var fs := RequestFields(host, key, offer);
    var h0 := Headers(NOTHING, false);
    PutSlot(h0, 4, host);
    var h1 := PutHeader(h0, NAMES[4], host);
    PutSlot(h1, 0, "websocket");
    var h2 := PutHeader(h1, NAMES[0], "websocket");
    PutSlot(h2, 1, "Upgrade");
    var h3 := PutHeader(h2, NAMES[1], "Upgrade");
    PutSlot(h3, 3, key);
    var h4 := PutHeader(h3, NAMES[3], key);
    PutSlot(h4, 2, Decimal(13));
    var h5 := PutHeader(h4, NAMES[2], Decimal(13));
    PutSlot(h5, 6, EXTENSION + ItemText([CLIENT_MB]));
    assert fs[0..] == fs;
    PutStep(h0, fs, 0);
    PutStep(h1, fs, 1);
    PutStep(h2, fs, 2);
    PutStep(h3, fs, 3);
    PutStep(h4, fs, 4);
    if offer {
      assert fs[5..] == [(NAMES[6], EXTENSION + ItemText([CLIENT_MB]))] && fs[5..][1..] == [];
    }
  }

  // A value that is the one token asked for.
  lemma {:induction false} OwnToken(token: string)
    requires token != "" && ',' !in token && Tight(token, Control)
    ensures TokenListHas(token, token)
  {
    IndexOfAt(token, ',', |token|);
    assert Head(token, ',') == token;
    StripTight(token, Control);
  }

  lemma {:induction false} OwnTokens()
    ensures TokenListHas("websocket", "websocket") && TokenListHas("Upgrade", "Upgrade")
  {
    OwnToken("websocket");
    OwnToken("Upgrade");
  }

  predicate Small(s: string) {
    forall i :: 0 <= i < |s| ==> !('A' <= s[i] <= 'Z')
  }

  lemma LowerSmall(s: string)
    requires Small(s)
    ensures Lower(s) == s
  {
  }

  // -- parameter lists -----------------------------------------------------

  ghost predicate CleanItem(item: string) {
    item != "" && ';' !in item && Tight(item, Control)
  }

  // What stands behind the first semicolon.
  function Body(items: seq<string>): string {
    if items == [] then "" else " " + items[0] + ItemText(items[1..])
  }

  lemma Semicolon(a: string, item: string, more: string)
    ensures a + ("; " + item + more) == a + [';'] + (" " + item + more)
  {
    assert "; " == [';'] + " ";
  }

  lemma BodySplit(items: seq<string>)
    requires items != [] && CleanItem(items[0])
    ensures Body(items) != "" && Head(Body(items), ';') == " " + items[0] && Tail(Body(items), ';') == Body(items[1..])
  {
    var a := " " + items[0];
    var rest := items[1..];
    if rest == [] {
      assert Body(items) == a;
      IndexOfAt(a, ';', |a|);
    } else {
      Semicolon(a, rest[0], ItemText(rest[1..]));
      CutAt(a, ';', Body(rest));
    }
  }

  lemma ReadItem(rtl: Rtl, items: seq<string>, isResponse: bool, p: Params)
    requires items != [] && CleanItem(items[0])
    ensures ReadParams(rtl, Body(items), isResponse, p) ==
            match ApplyParam(rtl, NameOf(ParamName(items[0])), ParamValue(items[0]), isResponse, p)
            case None => None
            case Some(q) => ReadParams(rtl, Body(items[1..]), isResponse, q)
  {
    BodySplit(items);
    StripSpace(items[0], Control);
  }

  // A name with its parameters comes apart at the first semicolon.
  lemma NameSplit(name: string, items: seq<string>)
    requires ';' !in name && Tight(name, Control)
    ensures var v := name + ItemText(items); ExtName(v) == Lower(name) && Tail(v, ';') == Body(items)
  {
    var v := name + ItemText(items);
    StripTight(name, Control);
    if items == [] {
      assert v == name;
      IndexOfAt(v, ';', |v|);
    } else {
      Semicolon(name, items[0], ItemText(items[1..]));
      CutAt(name, ';', Body(items));
    }
  }

  lemma ExtensionClean()
    ensures ';' !in EXTENSION && ',' !in EXTENSION && '\n' !in EXTENSION && Small(EXTENSION) &&
            Tight(EXTENSION, Control) && EXTENSION != ""
  {
  }

  // A bare name.
  lemma BareName(item: string)
    requires '=' !in item && Small(item)
    ensures ParamName(item) == item && ParamValue(item) == ""
  {
    IndexOfAt(item, '=', |item|);
    LowerSmall(item);
  }

  lemma OwnNames()
    ensures NameOf(SERVER_NT) == ServerNT && NameOf(CLIENT_NT) == ClientNT &&
            NameOf(SERVER_MB) == ServerMB && NameOf(CLIENT_MB) == ClientMB
  {
    assert SERVER_NT[0] != CLIENT_NT[0] && SERVER_MB[0] != CLIENT_MB[0];
    assert |SERVER_NT| == |CLIENT_NT| == 26 && |SERVER_MB| == |CLIENT_MB| == 22;
  }

  ghost predicate Bare(name: string) {
    name != "" && Small(name) && Tight(name, Control) && ';' !in name && '=' !in name && ',' !in name && '\n' !in name
  }

  lemma ServerFlag()
    ensures Bare(SERVER_NT)
  {
  }

  lemma ClientFlag()
    ensures Bare(CLIENT_NT)
  {
  }

  lemma FlagsBare()
    ensures Bare(SERVER_NT) && Bare(CLIENT_NT)
  {
    ServerFlag();
    ClientFlag();
  }

  lemma ServerBits()
    ensures Bare(SERVER_MB)
  {
  }

  lemma ClientBits()
    ensures Bare(CLIENT_MB)
  {
  }

  lemma BitsBare()
    ensures Bare(SERVER_MB) && Bare(CLIENT_MB)
  {
    ServerBits();
    ClientBits();
  }

  // An extension list of one element.
  lemma OneOffer(rtl: Rtl, v: string)
    requires ',' !in v && v != "" && Tight(v, Control)
    ensures FirstOffer(rtl, v) == (match Offer(rtl, v) case Some(d) => d case None => RESET)
  {
    IndexOfAt(v, ',', |v|);
    assert Head(v, ',') == v && Tail(v, ',') == "";
    StripTight(v, Control);
  }

  lemma {:induction false} ItemsFree(items: seq<string>, c: char)
    requires c != ';' && c != ' ' && forall i :: 0 <= i < |items| ==> c !in items[i]
    ensures c !in ItemText(items)
    decreases |items|
  {
    if items != [] {
      ItemsFree(items[1..], c);
    }
  }

  lemma Reassociate(name: string, item: string, rest: string)
    ensures name + "; " + item + rest == name + ("; " + item + rest)
  {
  }

  lemma TightMore(name: string, item: string)
    requires name != "" && Tight(name, Control) && item != "" && Tight(item, Control)
    ensures Tight(name + "; " + item, Control)
  {
  }

  lemma {:induction false} ItemsTight(name: string, items: seq<string>)
    requires name != "" && Tight(name, Control) && forall i :: 0 <= i < |items| ==> CleanItem(items[i])
    ensures Tight(name + ItemText(items), Control)
    decreases |items|
  {
    if items != [] {
      TightMore(name, items[0]);
      ItemsTight(name + "; " + items[0], items[1..]);
      Reassociate(name, items[0], ItemText(items[1..]));
    } else {
      assert name + ItemText(items) == name;
    }
  }

  lemma NamedClean(k: nat, value: string)
    requires k < |NAMES| && '\n' !in value && Tight(value, Blank)
    ensures Clean((NAMES[k], value))
  {
    NamesClean(k);
  }

  lemma OfferClean()
    ensures var offer := EXTENSION + ItemText([CLIENT_MB]); '\n' !in offer && Tight(offer, Blank)
  {
    BitsBare();
    ExtensionClean();
    ItemsFree([CLIENT_MB], '\n');
    ItemsTight(EXTENSION, [CLIENT_MB]);
    TightBlank(EXTENSION + ItemText([CLIENT_MB]));
  }

  lemma {:induction false} RequestClean(host: string, path: string, key: string, offer: bool, i: nat)
    requires Sendable(host, path, key) && i < |RequestFields(host, key, offer)|
    ensures Clean(RequestFields(host, key, offer)[i])
  {
    assert Decimal(13) == "13";
    NamedClean(4, host);
    NamedClean(0, "websocket");
    NamedClean(1, "Upgrade");
    NamedClean(3, key);
    NamedClean(2, Decimal(13));
    OfferClean();
    NamedClean(6, EXTENSION + ItemText([CLIENT_MB]));
  }

  lemma OfferParams(rtl: Rtl)
    ensures ReadParams(rtl, Body([CLIENT_MB]), false, Start(RESET)) == Some(Start(RESET).(clientMB := true))
  {
    var items := [CLIENT_MB];
    OwnNames();
    BitsBare();
    BareName(CLIENT_MB);
    ReadItem(rtl, items, false, Start(RESET));
    var offered := Start(RESET).(clientMB := true);
    assert items[1..] == [] && ReadParams(rtl, "", false, offered) == Some(offered);
  }

  lemma OfferShape()
    ensures var v := EXTENSION + ItemText([CLIENT_MB]);
            v != "" && ',' !in v && Tight(v, Control) && ExtName(v) == EXTENSION && Tail(v, ';') == Body([CLIENT_MB])
  {
    BitsBare();
    ExtensionClean();
    NameSplit(EXTENSION, [CLIENT_MB]);
    LowerSmall(EXTENSION);
    ItemsFree([CLIENT_MB], ',');
    ItemsTight(EXTENSION, [CLIENT_MB]);
  }

  // The client's only offer.
  lemma OfferRead(rtl: Rtl)
    ensures FirstOffer(rtl, EXTENSION + ItemText([CLIENT_MB])) == Deflate(true, false, false, 15, 15)
  {
    OfferShape();
    OfferParams(rtl);
    OneOffer(rtl, EXTENSION + ItemText([CLIENT_MB]));
  }

  // -- the theorems --------------------------------------------------------

  lemma VerbAndVersion()
    ensures '\r' !in GET && '\n' !in GET && ' ' !in GET && '\r' !in HTTP && '\n' !in HTTP
  {
  }

  lemma ThreeParts(a: string, b: string, c: string)
    requires ' ' !in a && ' ' !in b
    ensures var line := a + " " + b + " " + c;
            && IndexOf(line, ' ') == |a| < |line| && line[..|a|] == a
            && var rest := line[|a| + 1..];
               IndexOf(rest, ' ') == |b| < |rest| && rest[..|b|] == b && rest[|b| + 1..] == c
  {
    assert a + " " + b + " " + c == a + [' '] + (b + " " + c);
    CutAt(a, ' ', b + " " + c);
    assert b + " " + c == b + [' '] + c;
    CutAt(b, ' ', c);
  }

  // A first line that is no header.
  lemma FirstLine(line: string, rest: string)
    requires '\r' !in line
    ensures var raw := line + CRLF + rest; FindCRLF(raw) == |line| < |raw| && raw[..|line|] == line
  {
    FindCRLFAt(line, rest);
    assert (line + CRLF + rest)[..|line|] == line;
  }

  lemma RequestLineParts(path: string, rest: string)
    requires '\r' !in path && '\n' !in path && ' ' !in path
    ensures var raw := RequestLine(path) + CRLF + rest;
            RequestParts(raw) == Some((GET, path, HTTP)) && Tail(raw, '\n') == rest
  {
    var line := RequestLine(path);
    VerbAndVersion();
    FirstLine(line, rest);
    LineOff(line, rest);
    ThreeParts(GET, path, HTTP);
  }

  lemma FilledSlots(host: string, key: string, offer: bool)
    ensures var s := Filled(host, key, offer).slots;
            && s[0].value == "websocket" && s[1].value == "Upgrade" && s[2].value == Decimal(13) && s[3].value == key
            && s[4].value == host && s[5].value == "" && s[9].value == ""
            && s[6].value == if offer then EXTENSION + ItemText([CLIENT_MB]) else ""
  {
  }

  // Headers that say what a client's do are accepted.
  lemma HeadersAccepted(rtl: Rtl, r: Request, h: Headers, allow: bool)
    requires |h.slots| == |NAMES| && r.verb == GET && r.kind.WebSocket?
    requires TokenListHas(h.slots[1].value, "Upgrade") && rtl.toInt(h.slots[2].value) == Some(13)
    requires |h.slots[3].value| == 24 && h.slots[5].value == h.slots[9].value == ""
    ensures Validate(rtl, r, h, allow) ==
            r.(version := 13, key := h.slots[3].value, protocols := "", origin := "", failure := "",
              deflate := if allow then FirstOffer(rtl, h.slots[6].value) else RESET)
  {
  }

  // The parse, its header walk done.
  lemma ServerReads(rtl: Rtl, raw: string, path: string, h: Headers, allow: bool)
    requires |h.slots| == |NAMES| && RequestParts(raw) == Some((GET, path, HTTP))
    requires Collect(Tail(raw, '\n'), Headers(NOTHING, false)) == h
    requires TokenListHas(h.slots[0].value, "websocket") && TokenListHas(h.slots[1].value, "Upgrade")
    requires rtl.toInt(h.slots[2].value) == Some(13) && |h.slots[3].value| == 24 &&
             h.slots[5].value == h.slots[9].value == ""
    ensures ServerParseRequest(rtl, raw, allow) ==
            Request(GET, path, h.slots[4].value, h.slots[3].value, 13, "", "",
                    if allow then FirstOffer(rtl, h.slots[6].value) else RESET, WebSocket, "")
  {
    var r := NO_REQUEST.(verb := GET, path := path, host := h.slots[4].value, kind := WebSocket);
    HeadersAccepted(rtl, r, h, allow);
  }

  lemma FilledAccepted(rtl: Rtl, host: string, key: string, offer: bool)
    requires Sane(rtl)
    ensures var s := Filled(host, key, offer).slots;
            && TokenListHas(s[0].value, "websocket") && TokenListHas(s[1].value, "Upgrade")
            && rtl.toInt(s[2].value) == Some(13)
            && FirstOffer(rtl, s[6].value) == if offer then Deflate(true, false, false, 15, 15) else RESET
  {
    FilledSlots(host, key, offer);
    OwnTokens();
    OfferRead(rtl);
  }

  // The server recovers what the client put in, and negotiates its offer.
  lemma RequestRoundTrip(rtl: Rtl, host: string, path: string, key: string, offer: bool, allow: bool)
    requires Sane(rtl) && Sendable(host, path, key)
    ensures ServerParseRequest(rtl, RequestLine(path) + CRLF + FieldText(RequestFields(host, key, offer)), allow) ==
            Request(GET, path, host, key, 13, "", "",
                    if offer && allow then Deflate(true, false, false, 15, 15) else RESET, WebSocket, "")
  {
    var fs := RequestFields(host, key, offer);
    RequestLineParts(path, FieldText(fs));
    forall i | 0 <= i < |fs| ensures Clean(fs[i]) {
      RequestClean(host, path, key, offer, i);
    }
    CollectFields(fs, Headers(NOTHING, false));
    RequestFilled(host, key, offer);
    FilledSlots(host, key, offer);
    FilledAccepted(rtl, host, key, offer);
    ServerReads(rtl, RequestLine(path) + CRLF + FieldText(fs), path, Filled(host, key, offer), allow);
  }

  // -- the response --------------------------------------------------------

  function ApplyAll(rtl: Rtl, items: seq<string>, isResponse: bool, p: Params): (r: Option<Params>)
    decreases |items|
  {
    if items == [] then Some(p) else
    match ApplyParam(rtl, NameOf(ParamName(items[0])), ParamValue(items[0]), isResponse, p)
    case None => None
    case Some(q) => ApplyAll(rtl, items[1..], isResponse, q)
  }

  lemma {:induction false} ReadAll(rtl: Rtl, items: seq<string>, isResponse: bool, p: Params)
    requires forall i :: 0 <= i < |items| ==> CleanItem(items[i])
    ensures ReadParams(rtl, Body(items), isResponse, p) == ApplyAll(rtl, items, isResponse, p)
    decreases |items|
  {
    if items != [] {
      ReadItem(rtl, items, isResponse, p);
      var r := ApplyParam(rtl, NameOf(ParamName(items[0])), ParamValue(items[0]), isResponse, p);
      if r.Some? {
        ReadAll(rtl, items[1..], isResponse, r.value);
      }
    }
  }

  lemma {:induction false} ApplyAppend(rtl: Rtl, a: seq<string>, b: seq<string>, isResponse: bool, p: Params)
    ensures ApplyAll(rtl, a + b, isResponse, p) ==
            (match ApplyAll(rtl, a, isResponse, p) case None => None case Some(q) => ApplyAll(rtl, b, isResponse, q))
    decreases |a|
  {
    if a == [] {
      assert a + b == b;
    } else {
      assert (a + b)[1..] == a[1..] + b;
      var r := ApplyParam(rtl, NameOf(ParamName(a[0])), ParamValue(a[0]), isResponse, p);
      if r.Some? {
        ApplyAppend(rtl, a[1..], b, isResponse, r.value);
      }
    }
  }

  lemma DecimalTight(n: nat)
    ensures Tight(Decimal(n), Control) && ';' !in Decimal(n) && '\n' !in Decimal(n) && Decimal(n) != "" &&
            Decimal(n)[0] != '"'
  {
    DecimalDigits(n);
    var v := Decimal(n);
    assert Digit(v[0]) && Digit(v[|v| - 1]);
  }

  // name=value with a decimal value.
  lemma ValuedName(name: string, n: nat)
    requires Bare(name)
    ensures var item := name + "=" + Decimal(n);
            ParamName(item) == name && ParamValue(item) == Decimal(n) && CleanItem(item) && '\n' !in item
  {
    var v := Decimal(n);
    DecimalTight(n);
    assert name + "=" + v == name + ['='] + v;
    CutAt(name, '=', v);
    StripTight(name, Control);
    LowerSmall(name);
    StripTight(v, Control);
  }

  lemma ApplyOne(rtl: Rtl, item: string, isResponse: bool, p: Params)
    ensures ApplyAll(rtl, [item], isResponse, p) ==
            ApplyParam(rtl, NameOf(ParamName(item)), ParamValue(item), isResponse, p)
  {
    assert [item][1..] == [];
  }

  lemma ServerApplied(rtl: Rtl, d: Deflate, p: Params)
    requires !p.serverNT && !p.d.serverNoTakeover
    ensures var r := ApplyAll(rtl, ServerItems(d), true, p);
            r.Some? && r.value.(serverNT := false) == p.(d := p.d.(serverNoTakeover := d.serverNoTakeover))
  {
    if d.serverNoTakeover {
      OwnNames();
      FlagsBare();
      BareName(SERVER_NT);
      ApplyOne(rtl, SERVER_NT, true, p);
    }
  }

  lemma ClientApplied(rtl: Rtl, d: Deflate, p: Params)
    requires !p.clientNT && !p.d.clientNoTakeover
    ensures var r := ApplyAll(rtl, ClientItems(d), true, p);
            r.Some? && r.value.(clientNT := false) == p.(d := p.d.(clientNoTakeover := d.clientNoTakeover))
  {
    if d.clientNoTakeover {
      OwnNames();
      FlagsBare();
      BareName(CLIENT_NT);
      ApplyOne(rtl, CLIENT_NT, true, p);
    }
  }

  lemma WindowApplied(rtl: Rtl, d: Deflate, p: Params)
    requires Sane(rtl) && 9 <= d.serverMaxBits <= 15 && !p.serverMB && p.d.serverMaxBits == 15
    ensures var r := ApplyAll(rtl, WindowItems(d), true, p);
            r.Some? && r.value.(serverMB := false) == p.(d := p.d.(serverMaxBits := d.serverMaxBits))
  {
    if d.serverMaxBits < 15 {
      OwnNames();
      BitsBare();
      ValuedName(SERVER_MB, d.serverMaxBits);
      ApplyOne(rtl, SERVER_MB + "=" + Decimal(d.serverMaxBits), true, p);
    }
  }

  lemma ItemsClean(d: Deflate, i: nat)
    requires 0 <= d.serverMaxBits && i < |Items(d)|
    ensures CleanItem(Items(d)[i]) && '\n' !in Items(d)[i]
  {
    FlagsBare();
    BitsBare();
    ValuedName(SERVER_MB, d.serverMaxBits);
  }

  // The client reads the parameters the server wrote.
  lemma ItemsApplied(rtl: Rtl, d: Deflate)
    requires Sane(rtl) && 9 <= d.serverMaxBits <= 15
    ensures var r := ApplyAll(rtl, Items(d), true, Start(RESET));
            r.Some? && r.value.d == Deflate(false, d.serverNoTakeover, d.clientNoTakeover, d.serverMaxBits, 15)
  {
    var p0 := Start(RESET);
    ServerApplied(rtl, d, p0);
    var p1 := ApplyAll(rtl, ServerItems(d), true, p0).value;
    ClientApplied(rtl, d, p1);
    ApplyAppend(rtl, ServerItems(d), ClientItems(d), true, p0);
    var p2 := ApplyAll(rtl, ClientItems(d), true, p1).value;
    WindowApplied(rtl, d, p2);
    ApplyAppend(rtl, ServerItems(d) + ClientItems(d), WindowItems(d), true, p0);
  }

  lemma AnswerNames()
    ensures |NAMES[0]| == 7 && |NAMES[1]| == 10 && |ACCEPT| == 20 && |NAMES[6]| == 24
    ensures ACCEPT != "" && Tight(ACCEPT, Control) && ':' !in ACCEPT && '\n' !in ACCEPT && '\r' !in ACCEPT
  {
  }

  lemma AcceptTight(rtl: Rtl, key: string)
    requires Sane(rtl)
    ensures Tight(rtl.accept(key), Control) && '\n' !in rtl.accept(key)
  {
  }

  // The value of the extension header is whole.
  lemma ExtensionValue(d: Deflate)
    requires 0 <= d.serverMaxBits
    ensures var v := EXTENSION + ItemText(Items(d)); v != "" && Tight(v, Control) && '\n' !in v
  {
    ExtensionClean();
    forall i | 0 <= i < |Items(d)| ensures CleanItem(Items(d)[i]) && '\n' !in Items(d)[i] {
      ItemsClean(d, i);
    }
    ItemsFree(Items(d), '\n');
    ItemsTight(EXTENSION, Items(d));
  }

  lemma ResponseClean(rtl: Rtl, key: string, d: Deflate, i: nat)
    requires Sane(rtl) && 0 <= d.serverMaxBits && i < |ResponseFields(rtl, key, d)|
    ensures var f := ResponseFields(rtl, key, d)[i]; Clean(f) && Tight(f.1, Control)
  {
    if i == 0 {
      NamedClean(0, "websocket");
    } else if i == 1 {
      NamedClean(1, "Upgrade");
    } else if i == 2 {
      AnswerNames();
      AcceptTight(rtl, key);
      TightBlank(rtl.accept(key));
    } else {
      ExtensionValue(d);
      TightBlank(EXTENSION + ItemText(Items(d)));
      NamedClean(6, EXTENSION + ItemText(Items(d)));
    }
  }

  lemma StatusShape()
    ensures '\r' !in STATUS_LINE && '\n' !in STATUS_LINE && ':' !in STATUS_LINE && STATUS_LINE != ""
    ensures HasSub(STATUS_LINE, " 101 ")
  {
    HasSubAt(HTTP, " 101 ", SWITCHING);
  }

  lemma NoHeader(line: string, rest: string, name: string)
    requires '\n' !in line && ':' !in line && line != ""
    ensures Values(line + CRLF + rest, name, "") == Values(rest, name, "")
  {
    IndexOfAt(line, ':', |line|);
    ValuesFirst(line, rest, name, "");
  }

  lemma {:induction false} GatherNamed(fs: seq<Field>, name: string, k: nat, acc: string, from: nat)
    requires from <= |fs| && forall i, j :: 0 <= i < j < |fs| ==> |fs[i].0| != |fs[j].0|
    requires k < |fs| ==> name == fs[k].0
    requires k >= |fs| ==> forall i :: 0 <= i < |fs| ==> |fs[i].0| != |name|
    requires from <= k ==> acc == ""
    ensures GatherAll(fs[from..], name, acc) == if from <= k < |fs| then fs[k].1 else acc
    decreases |fs| - from
  {
    if from < |fs| {
      assert fs[from..][0] == fs[from] && fs[from..][1..] == fs[from + 1..];
      if from != k {
        assert |fs[from].0| != |name|;
        Differ(fs[from].0, name);
      }
      GatherNamed(fs, name, k, if from == k then fs[k].1 else acc, from + 1);
    }
  }

  // Four fields at most, every name its own.
  lemma GatherFour(fs: seq<Field>, name: string, k: nat)
    requires |fs| <= 4 && forall i, j :: 0 <= i < j < |fs| ==> |fs[i].0| != |fs[j].0|
    requires k < |fs| ==> name == fs[k].0
    requires k >= |fs| ==> forall i :: 0 <= i < |fs| ==> |fs[i].0| != |name|
    ensures GatherAll(fs, name, "") == if k < |fs| then fs[k].1 else ""
  {
    GatherNamed(fs, name, k, "", 0);
    assert fs[0..] == fs;
  }

  lemma FieldsGathered(rtl: Rtl, key: string, d: Deflate)
    requires 0 <= d.serverMaxBits
    ensures var fs := ResponseFields(rtl, key, d);
            && GatherAll(fs, NAMES[0], "") == "websocket" && GatherAll(fs, NAMES[1], "") == "Upgrade"
            && GatherAll(fs, ACCEPT, "") == rtl.accept(key)
            && GatherAll(fs, NAMES[6], "") == if d.enabled then EXTENSION + ItemText(Items(d)) else ""
  {
    var fs := ResponseFields(rtl, key, d);
    AnswerNames();
    GatherFour(fs, NAMES[0], 0);
    GatherFour(fs, NAMES[1], 1);
    GatherFour(fs, ACCEPT, 2);
    GatherFour(fs, NAMES[6], 3);
  }

  lemma {:induction false} Judged(rtl: Rtl, key: string, d: Deflate, offered: bool)
    requires Sane(rtl) && 9 <= d.serverMaxBits <= 15
    ensures var value := if d.enabled then EXTENSION + ItemText(Items(d)) else "";
            Judge(rtl, "websocket", "Upgrade", rtl.accept(key), value, key, offered) ==
            if !d.enabled then Accepted(RESET)
            else if offered then Accepted(Deflate(true, d.serverNoTakeover, d.clientNoTakeover, d.serverMaxBits, 15))
            else Refused("server selected unoffered extension: " + (EXTENSION + ItemText(Items(d))))
  {
    OwnTokens();
    AcceptTight(rtl, key);
    StripTight(rtl.accept(key), Control);
    if d.enabled {
      var v := EXTENSION + ItemText(Items(d));
      ExtensionValue(d);
      StripTight(v, Control);
      ExtensionClean();
      NameSplit(EXTENSION, Items(d));
      LowerSmall(EXTENSION);
      forall i | 0 <= i < |Items(d)| ensures CleanItem(Items(d)[i]) {
        ItemsClean(d, i);
      }
      ReadAll(rtl, Items(d), true, Start(RESET));
      ItemsApplied(rtl, d);
    }
  }

  lemma Looked(fs: seq<Field>, line: string, name: string)
    requires '\n' !in line && ':' !in line && line != ""
    requires forall i :: 0 <= i < |fs| ==> Clean(fs[i]) && Tight(fs[i].1, Control)
    ensures Values(line + CRLF + FieldText(fs), name, "") == GatherAll(fs, name, "")
  {
    NoHeader(line, FieldText(fs), name);
    ValuesOfFields(fs, name, "");
  }

  lemma AnswerRead(rtl: Rtl, key: string, d: Deflate, offered: bool)
    requires Sane(rtl) && 9 <= d.serverMaxBits <= 15
    ensures ClientParseResponse(rtl, STATUS_LINE + CRLF + FieldText(ResponseFields(rtl, key, d)), key, offered) ==
            if !d.enabled then Accepted(RESET)
            else if offered then Accepted(Deflate(true, d.serverNoTakeover, d.clientNoTakeover, d.serverMaxBits, 15))
            else Refused("server selected unoffered extension: " + (EXTENSION + ItemText(Items(d))))
  {
    var fs := ResponseFields(rtl, key, d);
    var rest := FieldText(fs);
    StatusShape();
    FirstLine(STATUS_LINE, rest);
    forall i | 0 <= i < |fs| ensures Clean(fs[i]) && Tight(fs[i].1, Control) {
      ResponseClean(rtl, key, d, i);
    }
    Looked(fs, STATUS_LINE, NAMES[0]);
    Looked(fs, STATUS_LINE, NAMES[1]);
    Looked(fs, STATUS_LINE, ACCEPT);
    Looked(fs, STATUS_LINE, NAMES[6]);
    FieldsGathered(rtl, key, d);
    Judged(rtl, key, d, offered);
  }

  // Whatever extensions a client asked for, it accepts the server's answer,
  // agrees with it on both takeover flags and the server's window, and
  // refuses an extension exactly when it asked for none.
  lemma ResponseRoundTrip(rtl: Rtl, key: string, extensions: string, offered: bool)
    requires Sane(rtl)
    ensures var d := FirstOffer(rtl, extensions);
            var text := STATUS_LINE + CRLF + FieldText(ResponseFields(rtl, key, d));
            var a := ClientParseResponse(rtl, text, key, offered);
            && (a.Accepted? <==> (d.enabled ==> offered))
            && (a.Accepted? ==> a.d == Deflate(d.enabled, d.serverNoTakeover, d.clientNoTakeover, d.serverMaxBits, 15))
  {
    var d := FirstOffer(rtl, extensions);
    AnswerRead(rtl, key, d, offered);
  }
}
