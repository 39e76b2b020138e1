// Which requests a server upgrades and which answers a client accepts, in
// terms of what is written in them (source/units/WS.Handshake.pas).

module Judgement {
  import opened Text
  import opened Upgrade
  import opened HandshakeTrip
  import opened Offers

  // -- comma-separated tokens ----------------------------------------------

  function CommaList(ts: seq<string>): string {
    if ts == [] then "" else if |ts| == 1 then ts[0] else ts[0] + ", " + CommaList(ts[1..])
  }

  predicate Elements(ts: seq<string>) {
    forall i :: 0 <= i < |ts| ==> Token(ts[i])
  }

  // One of them, in any case.
  predicate Lists(ts: seq<string>, token: string) {
    exists i :: 0 <= i < |ts| && SameText(ts[i], token)
  }

  lemma ElementFirst(ts: seq<string>)
    requires ts != [] && Elements(ts)
    ensures var s := CommaList(ts);
            && s != "" && Trim(Head(s, ',')) == ts[0]
            && Tail(s, ',') == if |ts| == 1 then "" else " " + CommaList(ts[1..])
  {
    TokenTight(ts[0]);
    StripTight(ts[0], Control);
    if |ts| == 1 {
      HeadAlone(ts[0]);
    } else {
      HeadOfMore(ts[0], CommaList(ts[1..]));
    }
  }

  lemma BlankBefore(ts: seq<string>, token: string)
    requires ts != [] && Elements(ts)
    ensures TokenListHas(" " + CommaList(ts), token) == TokenListHas(CommaList(ts), token)
  {
    var s := CommaList(ts);
    ElementFirst(ts);
    BlankHead(s);
    StripBlank(Head(s, ','));
  }

  lemma ListsFirst(ts: seq<string>, token: string)
    requires ts != []
    ensures Lists(ts, token) <==> SameText(ts[0], token) || Lists(ts[1..], token)
  {
    var rest := ts[1..];
    assert forall i :: 0 <= i < |rest| ==> rest[i] == ts[i + 1];
    if Lists(ts, token) && !SameText(ts[0], token) {
      var i :| 0 <= i < |ts| && SameText(ts[i], token);
      assert SameText(rest[i - 1], token);
    }
  }

  // A token list has the tokens it was written with, and no others.
  lemma {:induction false} TokensRead(ts: seq<string>, token: string)
    requires Elements(ts)
    ensures TokenListHas(CommaList(ts), token) <==> Lists(ts, token)
    decreases |ts|
  {
    if ts != [] {
      ElementFirst(ts);
      ListsFirst(ts, token);
      TokensRead(ts[1..], token);
      if |ts| > 1 {
        BlankBefore(ts[1..], token);
      }
    }
  }

  // -- the request ---------------------------------------------------------

  // The headers of a request that bear on the upgrade.
  datatype Headers = Headers(host: string, upgrade: seq<string>, connection: seq<string>, key: string,
                             version: string, offers: seq<Wish>)

  function Numbered(h: Headers): (kv: seq<(nat, string)>) {
    [(4, h.host), (0, CommaList(h.upgrade)), (1, CommaList(h.connection)), (3, h.key), (2, h.version),
     (6, ListText(h.offers))]
  }

  function Fields(kv: seq<(nat, string)>): (fs: seq<Field>)
    requires forall i :: 0 <= i < |kv| ==> kv[i].0 < |NAMES|
    ensures |fs| == |kv|
  {
    if kv == [] then [] else [(NAMES[kv[0].0], kv[0].1)] + Fields(kv[1..])
  }

  function RequestText(verb: string, path: string, h: Headers): string {
    verb + " " + path + " " + HTTP + CRLF + FieldText(Fields(Numbered(h)))
  }

  predicate Line(s: string) {
    '\n' !in s && Tight(s, Blank)
  }

  // What section 4.1 of RFC 6455 lets stand in a request, whether or not it
  // asks for an upgrade.
  ghost predicate WellWritten(verb: string, path: string, h: Headers) {
    && Token(verb) && ' ' !in path && '\r' !in path && '\n' !in path
    && Line(h.host) && Line(h.key) && Line(h.version)
    && Elements(h.upgrade) && Elements(h.connection) && forall i :: 0 <= i < |h.offers| ==> Writable(h.offers[i])
  }

  // The slots with each of the numbered values in its own.
  function Slotted(slots: seq<Header>, kv: seq<(nat, string)>): (r: seq<Header>)
    requires |slots| == |NAMES| && forall i :: 0 <= i < |kv| ==> kv[i].0 < |NAMES|
    ensures |r| == |NAMES|
    decreases |kv|
  {
    if kv == [] then slots else Slotted(slots[kv[0].0 := Header(kv[0].1, true)], kv[1..])
  }

  lemma {:induction false} FieldsPut(h: Upgrade.Headers, kv: seq<(nat, string)>)
    requires |h.slots| == |NAMES| && forall i :: 0 <= i < |kv| ==> kv[i].0 < |NAMES|
    requires forall i :: 0 <= i < |kv| ==> h.slots[kv[i].0].value == ""
    requires forall i, j :: 0 <= i < j < |kv| ==> kv[i].0 != kv[j].0
    ensures PutAll(h, Fields(kv)) == h.(slots := Slotted(h.slots, kv))
    decreases |kv|
  {
    if kv != [] {
      assert Fields(kv)[1..] == Fields(kv[1..]);
      PutSlot(h, kv[0].0, kv[0].1);
      FieldsPut(PutHeader(h, NAMES[kv[0].0], kv[0].1), kv[1..]);
    }
  }

  lemma {:induction false} SlotKept(slots: seq<Header>, kv: seq<(nat, string)>, k: nat)
    requires |slots| == |NAMES| && k < |NAMES| && forall j :: 0 <= j < |kv| ==> kv[j].0 < |NAMES| && kv[j].0 != k
    ensures Slotted(slots, kv)[k] == slots[k]
    decreases |kv|
  {
    if kv != [] {
      SlotKept(slots[kv[0].0 := Header(kv[0].1, true)], kv[1..], k);
    }
  }

  lemma {:induction false} SlotFilled(slots: seq<Header>, kv: seq<(nat, string)>, i: nat)
    requires |slots| == |NAMES| && i < |kv| && forall j :: 0 <= j < |kv| ==> kv[j].0 < |NAMES|
    requires forall j, k :: 0 <= j < k < |kv| ==> kv[j].0 != kv[k].0
    ensures Slotted(slots, kv)[kv[i].0] == Header(kv[i].1, true)
    decreases |kv|
  {
    var put := slots[kv[0].0 := Header(kv[0].1, true)];
    if i == 0 {
      SlotKept(put, kv[1..], kv[0].0);
    } else {
      SlotFilled(put, kv[1..], i - 1);
    }
  }

  lemma NumberedApart(h: Headers)
    ensures var kv := Numbered(h);
            && (forall i :: 0 <= i < |kv| ==> kv[i].0 < |NAMES| && NOTHING[kv[i].0].value == "")
            && (forall i, j :: 0 <= i < j < |kv| ==> kv[i].0 != kv[j].0)
  {
  }

  // Every value finds its slot; a body is announced in none.
  lemma HeadersSlotted(h: Headers)
    ensures var s := Slotted(NOTHING, Numbered(h));
            && s[0].value == CommaList(h.upgrade) && s[1].value == CommaList(h.connection)
            && s[2].value == h.version && s[3].value == h.key && s[4].value == h.host
            && s[6].value == ListText(h.offers) && !s[7].seen && !s[8].seen
  {
    NumberedApart(h);
    var kv := Numbered(h);
    SlotFilled(NOTHING, kv, 0);
    SlotFilled(NOTHING, kv, 1);
    SlotFilled(NOTHING, kv, 2);
    SlotFilled(NOTHING, kv, 3);
    SlotFilled(NOTHING, kv, 4);
    SlotFilled(NOTHING, kv, 5);
    SlotKept(NOTHING, kv, 7);
    SlotKept(NOTHING, kv, 8);
  }

  lemma TokenLine(t: string)
    requires Token(t)
    ensures Line(t)
  {
  }

  lemma JoinedLine(a: string, b: string)
    requires a != "" && b != "" && Line(a) && Line(b) && Tight(a, Control) && Tight(b, Control)
    ensures Line(a + ", " + b) && Tight(a + ", " + b, Control)
  {
  }

  lemma {:induction false} ListLine(ts: seq<string>)
    requires Elements(ts)
    ensures Line(CommaList(ts)) && Tight(CommaList(ts), Control)
    decreases |ts|
  {
    if ts != [] {
      TokenTight(ts[0]);
      TokenLine(ts[0]);
      if |ts| > 1 {
        ListLine(ts[1..]);
        ElementFirst(ts[1..]);
        JoinedLine(ts[0], CommaList(ts[1..]));
      }
    }
  }

  lemma AskLine(a: Ask)
    requires Token(a.name)
    ensures '\n' !in AskText(a)
  {
    TokenLine(a.name);
    if a.value.Number? {
      DecimalTight(a.value.n);
    }
  }

  lemma WishLine(w: Wish)
    requires Writable(w)
    ensures Line(WishText(w)) && Tight(WishText(w), Control) && WishText(w) != ""
  {
    var items := AskTexts(w.asks);
    WishWhole(w);
    TokenLine(w.ext);
    forall i | 0 <= i < |items| ensures '\n' !in items[i] {
      AskClean(w.asks, i);
      AskLine(w.asks[i]);
    }
    ItemsFree(items, '\n');
    TightBlank(WishText(w));
  }

  lemma {:induction false} OffersLine(ws: seq<Wish>)
    requires forall i :: 0 <= i < |ws| ==> Writable(ws[i])
    ensures Line(ListText(ws)) && Tight(ListText(ws), Control)
    decreases |ws|
  {
    if ws != [] {
      WishLine(ws[0]);
      if |ws| > 1 {
        OffersLine(ws[1..]);
        ListFirst(ws[1..]);
        JoinedLine(WishText(ws[0]), ListText(ws[1..]));
      }
    }
  }

  lemma {:induction false} FieldAt(kv: seq<(nat, string)>, i: nat)
    requires i < |kv| && forall j :: 0 <= j < |kv| ==> kv[j].0 < |NAMES|
    ensures Fields(kv)[i] == (NAMES[kv[i].0], kv[i].1)
    decreases i
  {
    var rest := kv[1..];
    assert Fields(kv) == [(NAMES[kv[0].0], kv[0].1)] + Fields(rest);
    if i > 0 {
      assert rest[i - 1] == kv[i];
      FieldAt(rest, i - 1);
    }
  }

  lemma FieldsClean(verb: string, path: string, h: Headers, i: nat)
    requires WellWritten(verb, path, h) && i < 6
    ensures Clean(Fields(Numbered(h))[i])
  {
    var kv := Numbered(h);
    FieldAt(kv, i);
    ListLine(h.upgrade);
    ListLine(h.connection);
    OffersLine(h.offers);
    NamedClean(kv[i].0, kv[i].1);
  }

  lemma LineParts(verb: string, path: string, rest: string)
    requires Token(verb) && ' ' !in path && '\r' !in path && '\n' !in path
    ensures var raw := verb + " " + path + " " + HTTP + CRLF + rest;
            RequestParts(raw) == Some((verb, path, HTTP)) && Tail(raw, '\n') == rest
  {
    var line := verb + " " + path + " " + HTTP;
    VerbAndVersion();
    assert '\r' !in line && '\n' !in line && ' ' !in verb;
    FirstLine(line, rest);
    LineOff(line, rest);
    ThreeParts(verb, path, HTTP);
  }

  lemma HeadersCollected(verb: string, path: string, h: Headers)
    requires WellWritten(verb, path, h)
    ensures var raw := RequestText(verb, path, h);
            && RequestParts(raw) == Some((verb, path, HTTP))
            && Collect(Tail(raw, '\n'), Upgrade.Headers(NOTHING, false)) ==
               Upgrade.Headers(Slotted(NOTHING, Numbered(h)), false)
  {
    var kv, h0 := Numbered(h), Upgrade.Headers(NOTHING, false);
    var fs := Fields(kv);
    LineParts(verb, path, FieldText(fs));
    forall i | 0 <= i < |fs| ensures Clean(fs[i]) {
      FieldsClean(verb, path, h, i);
    }
    CollectFields(fs, h0);
    NumberedApart(h);
    FieldsPut(h0, kv);
  }

  lemma Validated(rtl: Rtl, r: Request, hs: Upgrade.Headers, allow: bool)
    requires |hs.slots| == |NAMES|
    ensures var v := Validate(rtl, r, hs, allow);
            var asks := SameText(r.verb, "GET") && r.kind.WebSocket? && TokenListHas(hs.slots[1].value, "Upgrade");
            var version := rtl.toInt(hs.slots[2].value);
            && v.verb == r.verb && v.path == r.path && v.host == r.host && v.kind == r.kind
            && (v.failure == "" <==> asks && version == Some(13) && |hs.slots[3].value| == 24)
            && (v.failure == "unsupported version" <==> asks && version != Some(13))
            && (v.failure == "" ==>
                  && v.key == hs.slots[3].value && v.version == 13
                  && v.deflate == if allow then FirstOffer(rtl, hs.slots[6].value) else RESET)
  {
    assert |"unsupported version"| == 19 && |"method must be GET"| == 18 && |"missing Upgrade: websocket"| == 26;
    assert |"missing Connection: Upgrade"| == 27 && |"bad Sec-WebSocket-Key"| == 21;
  }

  // The server upgrades exactly a GET that asks for websocket, with the
  // connection for it, version 13 and a key of 24 characters, whatever else
  // it lists; the key comes back and the extensions are granted as offered.
  // A GET or HEAD that asks for no websocket is left to plain HTTP.
  lemma RequestJudged(rtl: Rtl, verb: string, path: string, h: Headers, allow: bool)
    requires Sane(rtl) && WellWritten(verb, path, h)
    ensures var r := ServerParseRequest(rtl, RequestText(verb, path, h), allow);
            var asks := SameText(verb, "GET") && Lists(h.upgrade, "websocket") && Lists(h.connection, "Upgrade");
            && r.verb == verb && r.path == path && r.host == h.host
            && (r.kind.WebSocket? <==> Lists(h.upgrade, "websocket"))
            && (r.kind.PlainRequest? <==>
                  !Lists(h.upgrade, "websocket") && (SameText(verb, "GET") || SameText(verb, "HEAD")))
            && (r.failure == "" <==> asks && rtl.toInt(h.version) == Some(13) && |h.key| == 24)
            && (r.failure == "unsupported version" <==> asks && rtl.toInt(h.version) != Some(13))
            && (r.failure == "" ==>
                  && r.key == h.key && r.version == 13
                  && if allow then Granted(h.offers, r.deflate) else r.deflate == RESET)
  {
    var hs := Upgrade.Headers(Slotted(NOTHING, Numbered(h)), false);
    HeadersCollected(verb, path, h);
    HeadersSlotted(h);
    TokensRead(h.upgrade, "websocket");
    TokensRead(h.connection, "Upgrade");
    OffersGranted(rtl, h.offers);
    var r0 := NO_REQUEST.(verb := verb, path := path, host := h.host, kind := Classify(verb, HTTP, hs));
    Validated(rtl, r0, hs, allow);
    assert ServerParseRequest(rtl, RequestText(verb, path, h), allow) == Validate(rtl, r0, hs, allow);
  }

  // -- the answer ----------------------------------------------------------

  // A 101, or what pretends to be one: its extension header, if any, names
  // one extension.
  function AnswerFields(upgrade: seq<string>, connection: seq<string>, accept: string, ext: Option<Wish>):
      (fs: seq<Field>) {
    [(NAMES[0], CommaList(upgrade)), (NAMES[1], CommaList(connection)), (ACCEPT, accept)]
    + match ext case None => [] case Some(w) => [(NAMES[6], WishText(w))]
  }

  lemma AnswerClean(upgrade: seq<string>, connection: seq<string>, accept: string, ext: Option<Wish>, i: nat)
    requires Elements(upgrade) && Elements(connection) && Tight(accept, Control) && '\n' !in accept
    requires (ext.Some? ==> Writable(ext.value)) && i < |AnswerFields(upgrade, connection, accept, ext)|
    ensures var f := AnswerFields(upgrade, connection, accept, ext)[i]; Clean(f) && Tight(f.1, Control)
  {
    ListLine(upgrade);
    ListLine(connection);
    NamedClean(0, CommaList(upgrade));
    NamedClean(1, CommaList(connection));
    AnswerNames();
    TightBlank(accept);
    if ext.Some? {
      WishLine(ext.value);
      NamedClean(6, WishText(ext.value));
    }
  }

  lemma AnswerLooked(line: string, upgrade: seq<string>, connection: seq<string>, accept: string, ext: Option<Wish>)
    requires '\r' !in line && '\n' !in line && ':' !in line && line != ""
    requires Elements(upgrade) && Elements(connection) && Tight(accept, Control) && '\n' !in accept
    requires ext.Some? ==> Writable(ext.value)
    ensures var raw := line + CRLF + FieldText(AnswerFields(upgrade, connection, accept, ext));
            && FindCRLF(raw) == |line| < |raw| && raw[..|line|] == line
            && Values(raw, NAMES[0], "") == CommaList(upgrade) && Values(raw, NAMES[1], "") == CommaList(connection)
            && Values(raw, ACCEPT, "") == accept
            && Values(raw, NAMES[6], "") == match ext case None => "" case Some(w) => WishText(w)
  {
    var fs := AnswerFields(upgrade, connection, accept, ext);
    FirstLine(line, FieldText(fs));
    forall i | 0 <= i < |fs| ensures Clean(fs[i]) && Tight(fs[i].1, Control) {
      AnswerClean(upgrade, connection, accept, ext, i);
    }
    AnswerNames();
    Looked(fs, line, NAMES[0]);
    Looked(fs, line, NAMES[1]);
    Looked(fs, line, ACCEPT);
    Looked(fs, line, NAMES[6]);
    GatherFour(fs, NAMES[0], 0);
    GatherFour(fs, NAMES[1], 1);
    GatherFour(fs, ACCEPT, 2);
    GatherFour(fs, NAMES[6], 3);
  }

  lemma ExtensionJudged(rtl: Rtl, upgrade: string, connection: string, accept: string, w: Wish, key: string,
      offered: bool)
    requires Sane(rtl) && Writable(w) && Trim(accept) == rtl.accept(key)
    requires TokenListHas(upgrade, "websocket") && TokenListHas(connection, "Upgrade")
    ensures var a := Judge(rtl, upgrade, connection, accept, WishText(w), key, offered);
            (a.Accepted? <==> offered && Fine(w, true)) && (a.Accepted? ==> Grants(w.asks, a.d))
  {
    WishLine(w);
    WishWhole(w);
    StripTight(WishText(w), Control);
    WishRead(rtl, w, true);
    ExtensionClean();
  }

  // The client accepts exactly a 101 that upgrades to websocket, proves it
  // saw the key, and grants no extension but the one offered, with
  // parameters an answer may have; it takes those at their word.
  lemma AnswerJudged(rtl: Rtl, line: string, upgrade: seq<string>, connection: seq<string>, accept: string,
      ext: Option<Wish>, key: string, offered: bool)
    requires Sane(rtl) && '\r' !in line && '\n' !in line && ':' !in line && line != ""
    requires Elements(upgrade) && Elements(connection) && Tight(accept, Control) && '\n' !in accept
    requires ext.Some? ==> Writable(ext.value)
    ensures var raw := line + CRLF + FieldText(AnswerFields(upgrade, connection, accept, ext));
            var a := ClientParseResponse(rtl, raw, key, offered);
            && (a.Accepted? <==>
                  && HasSub(line, " 101 ") && Lists(upgrade, "websocket") && Lists(connection, "Upgrade")
                  && accept == rtl.accept(key) && (ext.Some? ==> offered && Fine(ext.value, true)))
            && (a.Accepted? ==> if ext.None? then a.d == RESET else Grants(ext.value.asks, a.d))
  {
    AnswerLooked(line, upgrade, connection, accept, ext);
    TokensRead(upgrade, "websocket");
    TokensRead(connection, "Upgrade");
    StripTight(accept, Control);
    if ext.Some? && HasSub(line, " 101 ") && Lists(upgrade, "websocket") && Lists(connection, "Upgrade") &&
       accept == rtl.accept(key) {
      ExtensionJudged(rtl, CommaList(upgrade), CommaList(connection), accept, ext.value, key, offered);
    }
  }
}
