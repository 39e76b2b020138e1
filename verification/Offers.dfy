// What the server grants of an extension list, in terms of what stands in it
// (NegotiateDeflate of source/units/WS.Handshake.pas).

module Offers {
  import opened Text
  import opened Upgrade
  import opened HandshakeTrip

  // A parameter as a client writes it: a name in any case, alone or with a
  // number, which may stand in quotes.
  datatype Value = Nothing | Number(n: nat, quoted: bool)
  datatype Ask = Ask(name: string, value: Value)

  // One element of the list.
  datatype Wish = Wish(ext: string, asks: seq<Ask>)

  function Numeral(v: Value): string
    requires v.Number?
  {
    if v.quoted then "\"" + Decimal(v.n) + "\"" else Decimal(v.n)
  }

  function AskText(a: Ask): string {
    if a.value.Nothing? then a.name else a.name + "=" + Numeral(a.value)
  }

  function AskTexts(asks: seq<Ask>): (items: seq<string>)
    ensures |items| == |asks|
  {
    if asks == [] then [] else [AskText(asks[0])] + AskTexts(asks[1..])
  }

  function WishText(w: Wish): string {
    w.ext + ItemText(AskTexts(w.asks))
  }

  function ListText(ws: seq<Wish>): string {
    if ws == [] then "" else if |ws| == 1 then WishText(ws[0]) else WishText(ws[0]) + ", " + ListText(ws[1..])
  }

  // Nothing in it that the lists are cut at.
  predicate Token(s: string) {
    s != "" && forall i :: 0 <= i < |s| ==> s[i] > ' ' && s[i] !in {';', ',', '=', '"'}
  }

  predicate Writable(w: Wish) {
    Token(w.ext) && forall i :: 0 <= i < |w.asks| ==> Token(w.asks[i].name)
  }

  // -- what is acceptable --------------------------------------------------

  function Called(a: Ask): string {
    Lower(a.name)
  }

  // A flag without a value, a window between 9 and 15; an offer, not an
  // answer, may name the client's window without one.
  predicate Good(a: Ask, answer: bool) {
    if Called(a) == "server_no_context_takeover" || Called(a) == "client_no_context_takeover" then a.value.Nothing?
    else if Called(a) == "server_max_window_bits" then a.value.Number? && 9 <= a.value.n <= 15
    else Called(a) == "client_max_window_bits" && if a.value.Number? then 9 <= a.value.n <= 15 else !answer
  }

  predicate Named(asks: seq<Ask>, name: string) {
    exists i :: 0 <= i < |asks| && Called(asks[i]) == name
  }

  // No name twice.
  predicate Distinct(asks: seq<Ask>) {
    forall i, j :: 0 <= i < j < |asks| ==> Called(asks[i]) != Called(asks[j])
  }

  predicate Acceptable(asks: seq<Ask>, answer: bool) {
    Distinct(asks) && forall i :: 0 <= i < |asks| ==> Good(asks[i], answer)
  }

  // The window asked for under a name, and the one given where none is.
  predicate WindowIs(asks: seq<Ask>, name: string, given: int, bits: int) {
    && (forall i :: 0 <= i < |asks| && Called(asks[i]) == name && asks[i].value.Number? ==> bits == asks[i].value.n)
    && ((forall i :: 0 <= i < |asks| && Called(asks[i]) == name ==> asks[i].value.Nothing?) ==> bits == given)
  }

  // What the parameters ask for is what is granted.
  predicate Grants(asks: seq<Ask>, d: Deflate) {
    && d.enabled
    && d.serverNoTakeover == Named(asks, "server_no_context_takeover")
    && d.clientNoTakeover == Named(asks, "client_no_context_takeover")
    && WindowIs(asks, "server_max_window_bits", 15, d.serverMaxBits)
    && WindowIs(asks, "client_max_window_bits", 15, d.clientMaxBits)
  }

  predicate Fine(w: Wish, answer: bool) {
    Lower(w.ext) == "permessage-deflate" && Acceptable(w.asks, answer)
  }

  // -- one parameter -------------------------------------------------------

  lemma TokenTight(s: string)
    requires Token(s)
    ensures Tight(s, Control) && ';' !in s && ',' !in s && '=' !in s
  {
  }

  lemma NumeralClean(v: Value)
    requires v.Number?
    ensures var t := Numeral(v);
            t != "" && Tight(t, Control) && ';' !in t && ',' !in t && StripQuotes(t) == Decimal(v.n)
  {
    DecimalTight(v.n);
    DecimalDigits(v.n);
    var d, t := Decimal(v.n), Numeral(v);
    StripTight(t, Control);
    if v.quoted {
      assert t[1..|t| - 1] == d;
    }
  }

  lemma AskRead(a: Ask)
    requires Token(a.name)
    ensures var t := AskText(a);
            && CleanItem(t) && ',' !in t && ParamName(t) == Called(a)
            && ParamValue(t) == if a.value.Nothing? then "" else Decimal(a.value.n)
  {
    TokenTight(a.name);
    StripTight(a.name, Control);
    if a.value.Nothing? {
      IndexOfAt(a.name, '=', |a.name|);
    } else {
      var v := Numeral(a.value);
      NumeralClean(a.value);
      assert AskText(a) == a.name + ['='] + v;
      CutAt(a.name, '=', v);
    }
  }

  // The parameter's name has come before.
  predicate Seen(p: Params, name: string) {
    || (p.serverNT && name == "server_no_context_takeover") || (p.clientNT && name == "client_no_context_takeover")
    || (p.serverMB && name == "server_max_window_bits") || (p.clientMB && name == "client_max_window_bits")
  }

  function Noted(p: Params, a: Ask): (q: Params) {
    if Called(a) == "server_no_context_takeover" then p.(serverNT := true, d := p.d.(serverNoTakeover := true))
    else if Called(a) == "client_no_context_takeover" then p.(clientNT := true, d := p.d.(clientNoTakeover := true))
    else if Called(a) == "server_max_window_bits" then
      p.(serverMB := true, d := if a.value.Number? then p.d.(serverMaxBits := a.value.n) else p.d)
    else p.(clientMB := true, d := if a.value.Number? then p.d.(clientMaxBits := a.value.n) else p.d)
  }

  lemma NumberRead(rtl: Rtl, n: nat)
    requires Sane(rtl)
    ensures Bits(rtl, Decimal(n)) == if 9 <= n <= 15 then Some(n) else None
    ensures Decimal(n) != ""
  {
    DecimalDigits(n);
  }

  lemma NameKnown(name: string)
    ensures NameOf(name) == ServerNT <==> name == "server_no_context_takeover"
    ensures NameOf(name) == ClientNT <==> name == "client_no_context_takeover"
    ensures NameOf(name) == ServerMB <==> name == "server_max_window_bits"
    ensures NameOf(name) == ClientMB <==> name == "client_max_window_bits"
  {
    OwnNames();
  }

  lemma AskApplied(rtl: Rtl, a: Ask, answer: bool, p: Params)
    requires Sane(rtl) && Token(a.name)
    ensures ApplyParam(rtl, NameOf(ParamName(AskText(a))), ParamValue(AskText(a)), answer, p) ==
            if Good(a, answer) && !Seen(p, Called(a)) then Some(Noted(p, a)) else None
  {
    AskRead(a);
    NameKnown(Called(a));
    if a.value.Number? {
      NumberRead(rtl, a.value.n);
    }
  }

  // -- the parameters of an offer ------------------------------------------

  predicate Fresh(p: Params, asks: seq<Ask>) {
    forall i :: 0 <= i < |asks| ==> !Seen(p, Called(asks[i]))
  }

  function NoteAll(p: Params, asks: seq<Ask>): (q: Params)
    decreases |asks|
  {
    if asks == [] then p else NoteAll(Noted(p, asks[0]), asks[1..])
  }

  lemma AcceptableFirst(asks: seq<Ask>, answer: bool)
    requires asks != []
    ensures Acceptable(asks, answer) <==>
            Good(asks[0], answer) && Acceptable(asks[1..], answer) && !Named(asks[1..], Called(asks[0]))
  {
    var rest := asks[1..];
    assert forall i :: 0 <= i < |rest| ==> rest[i] == asks[i + 1];
    if Good(asks[0], answer) && Acceptable(rest, answer) && !Named(rest, Called(asks[0])) {
      forall i, j | 0 <= i < j < |asks| ensures Called(asks[i]) != Called(asks[j]) {
        assert asks[j] == rest[j - 1];
        if i > 0 {
          assert asks[i] == rest[i - 1];
        }
      }
      forall i | 0 <= i < |asks| ensures Good(asks[i], answer) {
        assert i > 0 ==> asks[i] == rest[i - 1];
      }
    }
  }

  lemma SeenMore(p: Params, a: Ask, answer: bool, name: string)
    requires Good(a, answer)
    ensures Seen(Noted(p, a), name) <==> Seen(p, name) || name == Called(a)
  {
    OwnNames();
  }

  lemma FreshFirst(p: Params, asks: seq<Ask>, answer: bool)
    requires asks != [] && Good(asks[0], answer)
    ensures Fresh(p, asks) && !Named(asks[1..], Called(asks[0])) <==>
            !Seen(p, Called(asks[0])) && Fresh(Noted(p, asks[0]), asks[1..])
  {
    var rest := asks[1..];
    forall i | 0 <= i < |rest|
      ensures rest[i] == asks[i + 1]
      ensures Seen(Noted(p, asks[0]), Called(rest[i])) <==>
              Seen(p, Called(asks[i + 1])) || Called(rest[i]) == Called(asks[0])
    {
      SeenMore(p, asks[0], answer, Called(rest[i]));
    }
    if !Seen(p, Called(asks[0])) && Fresh(Noted(p, asks[0]), rest) {
      forall i | 0 <= i < |asks| ensures !Seen(p, Called(asks[i])) {
        if i > 0 {
          assert !Seen(Noted(p, asks[0]), Called(rest[i - 1]));
        }
      }
    }
  }

  lemma {:induction false} AsksApplied(rtl: Rtl, asks: seq<Ask>, answer: bool, p: Params)
    requires Sane(rtl) && forall i :: 0 <= i < |asks| ==> Token(asks[i].name)
    ensures ApplyAll(rtl, AskTexts(asks), answer, p) ==
            if Acceptable(asks, answer) && Fresh(p, asks) then Some(NoteAll(p, asks)) else None
    decreases |asks|
  {
    if asks != [] {
      assert AskTexts(asks)[1..] == AskTexts(asks[1..]);
      AskApplied(rtl, asks[0], answer, p);
      AcceptableFirst(asks, answer);
      if Good(asks[0], answer) {
        FreshFirst(p, asks, answer);
        if !Seen(p, Called(asks[0])) {
          AsksApplied(rtl, asks[1..], answer, Noted(p, asks[0]));
        }
      }
    }
  }

  lemma NamedFirst(asks: seq<Ask>, name: string)
    requires asks != []
    ensures Named(asks, name) <==> Called(asks[0]) == name || Named(asks[1..], name)
  {
    var rest := asks[1..];
    assert forall i :: 0 <= i < |rest| ==> rest[i] == asks[i + 1];
    if Named(asks, name) && Called(asks[0]) != name {
      var i :| 0 <= i < |asks| && Called(asks[i]) == name;
      assert Called(rest[i - 1]) == name;
    }
  }

  lemma WindowFirst(asks: seq<Ask>, name: string, given: int, mid: int, bits: int)
    requires asks != [] && Distinct(asks)
    requires mid == if Called(asks[0]) == name && asks[0].value.Number? then asks[0].value.n else given
    requires WindowIs(asks[1..], name, mid, bits)
    ensures WindowIs(asks, name, given, bits)
  {
    var rest := asks[1..];
    assert forall i :: 0 <= i < |rest| ==> rest[i] == asks[i + 1];
    forall i | 0 <= i < |asks| && Called(asks[i]) == name && asks[i].value.Number? ensures bits == asks[i].value.n {
      if i > 0 {
        assert asks[i] == rest[i - 1];
      }
    }
    if forall i :: 0 <= i < |asks| && Called(asks[i]) == name ==> asks[i].value.Nothing? {
      assert Called(asks[0]) == name ==> asks[0].value.Nothing?;
    }
  }

  // d is was with the parameters taken in.
  predicate Reflects(asks: seq<Ask>, was: Deflate, d: Deflate) {
    && d.enabled == was.enabled
    && d.serverNoTakeover == (was.serverNoTakeover || Named(asks, "server_no_context_takeover"))
    && d.clientNoTakeover == (was.clientNoTakeover || Named(asks, "client_no_context_takeover"))
    && WindowIs(asks, "server_max_window_bits", was.serverMaxBits, d.serverMaxBits)
    && WindowIs(asks, "client_max_window_bits", was.clientMaxBits, d.clientMaxBits)
  }

  lemma NotedOnce(p: Params, a: Ask, answer: bool)
    requires Good(a, answer)
    ensures var d := Noted(p, a).d;
            && d.enabled == p.d.enabled
            && d.serverNoTakeover == (p.d.serverNoTakeover || Called(a) == "server_no_context_takeover")
            && d.clientNoTakeover == (p.d.clientNoTakeover || Called(a) == "client_no_context_takeover")
            && d.serverMaxBits == (if Called(a) == "server_max_window_bits" && a.value.Number? then a.value.n
                                   else p.d.serverMaxBits)
            && d.clientMaxBits == (if Called(a) == "client_max_window_bits" && a.value.Number? then a.value.n
                                   else p.d.clientMaxBits)
  {
    OwnNames();
  }

  lemma ReflectsFirst(p: Params, asks: seq<Ask>, answer: bool, d: Deflate)
    requires asks != [] && Acceptable(asks, answer) && Reflects(asks[1..], Noted(p, asks[0]).d, d)
    ensures Reflects(asks, p.d, d)
  {
    var q := Noted(p, asks[0]).d;
    AcceptableFirst(asks, answer);
    NotedOnce(p, asks[0], answer);
    NamedFirst(asks, "server_no_context_takeover");
    NamedFirst(asks, "client_no_context_takeover");
    WindowFirst(asks, "server_max_window_bits", p.d.serverMaxBits, q.serverMaxBits, d.serverMaxBits);
    WindowFirst(asks, "client_max_window_bits", p.d.clientMaxBits, q.clientMaxBits, d.clientMaxBits);
  }

  lemma {:induction false} NotesTaken(p: Params, asks: seq<Ask>, answer: bool)
    requires Acceptable(asks, answer)
    ensures Reflects(asks, p.d, NoteAll(p, asks).d)
    decreases |asks|
  {
    if asks != [] {
      AcceptableFirst(asks, answer);
      NotesTaken(Noted(p, asks[0]), asks[1..], answer);
      ReflectsFirst(p, asks, answer, NoteAll(p, asks).d);
    }
  }

  // -- the offers of a list ------------------------------------------------

  lemma {:induction false} AskClean(asks: seq<Ask>, i: nat)
    requires i < |asks| && forall j :: 0 <= j < |asks| ==> Token(asks[j].name)
    ensures AskTexts(asks)[i] == AskText(asks[i])
    ensures CleanItem(AskTexts(asks)[i]) && ',' !in AskTexts(asks)[i]
    decreases |asks|
  {
    AskRead(asks[0]);
    if i > 0 {
      AskClean(asks[1..], i - 1);
    }
  }

  // An element of the list comes off whole and comes apart into its name and
  // its parameters.
  lemma WishWhole(w: Wish)
    requires Writable(w)
    ensures var v := WishText(w);
            && v != "" && ',' !in v && Tight(v, Control) && ExtName(v) == Lower(w.ext)
            && Tail(v, ';') == HandshakeTrip.Body(AskTexts(w.asks))
  {
    var items := AskTexts(w.asks);
    forall i | 0 <= i < |items| ensures CleanItem(items[i]) && ',' !in items[i] {
      AskClean(w.asks, i);
    }
    TokenTight(w.ext);
    NameSplit(w.ext, items);
    ItemsFree(items, ',');
    ItemsTight(w.ext, items);
  }

  // The parameters of an offer or an answer, read.
  lemma WishRead(rtl: Rtl, w: Wish, answer: bool)
    requires Sane(rtl) && Writable(w)
    ensures var r := ReadParams(rtl, Tail(WishText(w), ';'), answer, Start(RESET));
            && (r.Some? <==> Acceptable(w.asks, answer))
            && (r.Some? ==> Grants(w.asks, r.value.d.(enabled := true)))
  {
    var items := AskTexts(w.asks);
    forall i | 0 <= i < |items| ensures CleanItem(items[i]) {
      AskClean(w.asks, i);
    }
    WishWhole(w);
    ReadAll(rtl, items, answer, Start(RESET));
    AsksApplied(rtl, w.asks, answer, Start(RESET));
    if Acceptable(w.asks, answer) {
      NotesTaken(Start(RESET), w.asks, answer);
    }
  }

  lemma WishOffered(rtl: Rtl, w: Wish)
    requires Sane(rtl) && Writable(w)
    ensures var o := Offer(rtl, WishText(w));
            (o.Some? <==> Fine(w, false)) && (o.Some? ==> Grants(w.asks, o.value))
  {
    WishWhole(w);
    WishRead(rtl, w, false);
  }

  lemma Comma(a: string, b: string)
    ensures a + ", " + b == a + [','] + (" " + b)
  {
    assert ", " == [','] + " ";
  }

  lemma HeadAlone(v: string)
    requires ',' !in v
    ensures Head(v, ',') == v && Tail(v, ',') == ""
  {
    IndexOfAt(v, ',', |v|);
  }

  lemma HeadOfMore(v: string, rest: string)
    requires ',' !in v
    ensures Head(v + ", " + rest, ',') == v && Tail(v + ", " + rest, ',') == " " + rest
  {
    Comma(v, rest);
    CutAt(v, ',', " " + rest);
  }

  lemma ListFirst(ws: seq<Wish>)
    requires ws != [] && Writable(ws[0])
    ensures var s := ListText(ws);
            && s != "" && Trim(Head(s, ',')) == WishText(ws[0])
            && Tail(s, ',') == if |ws| == 1 then "" else " " + ListText(ws[1..])
  {
    var v := WishText(ws[0]);
    WishWhole(ws[0]);
    StripTight(v, Control);
    if |ws| == 1 {
      HeadAlone(v);
    } else {
      HeadOfMore(v, ListText(ws[1..]));
    }
  }

  lemma BlankHead(s: string)
    ensures Head(" " + s, ',') == " " + Head(s, ',') && Tail(" " + s, ',') == Tail(s, ',')
  {
    var t := " " + s;
    assert t[1..] == s;
  }

  lemma StripBlank(s: string)
    ensures Trim(" " + s) == Trim(s)
  {
    assert (" " + s)[1..] == s;
  }

  // A blank ahead of the list does not count.
  lemma BlankFirst(rtl: Rtl, ws: seq<Wish>)
    requires ws != [] && Writable(ws[0])
    ensures FirstOffer(rtl, " " + ListText(ws)) == FirstOffer(rtl, ListText(ws))
  {
    var s, v := ListText(ws), WishText(ws[0]);
    ListFirst(ws);
    WishWhole(ws[0]);
    BlankHead(s);
    StripBlank(Head(s, ','));
  }

  // The first offer of the list that is fine.
  predicate First(ws: seq<Wish>, i: nat)
    requires i < |ws|
  {
    Fine(ws[i], false) && forall j :: 0 <= j < i ==> !Fine(ws[j], false)
  }

  // d is what the list comes to.
  ghost predicate Granted(ws: seq<Wish>, d: Deflate) {
    && (d.enabled <==> exists i :: 0 <= i < |ws| && Fine(ws[i], false)) && (!d.enabled ==> d == RESET)
    && forall i :: 0 <= i < |ws| && First(ws, i) ==> Grants(ws[i].asks, d)
  }

  lemma GrantedNow(ws: seq<Wish>, d: Deflate)
    requires ws != [] && Fine(ws[0], false) && Grants(ws[0].asks, d)
    ensures Granted(ws, d)
  {
  }

  lemma FirstLater(ws: seq<Wish>, i: nat)
    requires i < |ws| && First(ws, i) && !Fine(ws[0], false)
    ensures i > 0 && ws[1..][i - 1] == ws[i] && First(ws[1..], i - 1)
  {
    forall j | 0 <= j < i - 1 ensures !Fine(ws[1..][j], false) {
      assert ws[1..][j] == ws[j + 1];
    }
  }

  lemma FineLater(ws: seq<Wish>)
    requires ws != [] && !Fine(ws[0], false)
    ensures (exists i :: 0 <= i < |ws| && Fine(ws[i], false)) <==>
            exists i :: 0 <= i < |ws[1..]| && Fine(ws[1..][i], false)
  {
    if i :| 0 <= i < |ws| && Fine(ws[i], false) {
      assert ws[1..][i - 1] == ws[i];
    }
    if i :| 0 <= i < |ws[1..]| && Fine(ws[1..][i], false) {
      assert ws[1..][i] == ws[i + 1];
    }
  }

  lemma GrantedLater(ws: seq<Wish>, d: Deflate)
    requires ws != [] && !Fine(ws[0], false) && Granted(ws[1..], d)
    ensures Granted(ws, d)
  {
    FineLater(ws);
    forall i | 0 <= i < |ws| && First(ws, i) ensures Grants(ws[i].asks, d) {
      FirstLater(ws, i);
    }
  }

  lemma OfferOrRest(rtl: Rtl, ws: seq<Wish>)
    requires ws != [] && forall i :: 0 <= i < |ws| ==> Writable(ws[i])
    ensures FirstOffer(rtl, ListText(ws)) ==
            match Offer(rtl, WishText(ws[0])) case Some(d) => d case None => FirstOffer(rtl, ListText(ws[1..]))
  {
    ListFirst(ws);
    WishWhole(ws[0]);
    if |ws| > 1 {
      BlankFirst(rtl, ws[1..]);
    }
  }

  // What the server grants: of any extension list, its first permessage-
  // deflate offer all of whose parameters are known, named once and within
  // bounds, taken at its word; without one, nothing.
  lemma {:induction false} OffersGranted(rtl: Rtl, ws: seq<Wish>)
    requires Sane(rtl) && forall i :: 0 <= i < |ws| ==> Writable(ws[i])
    ensures Granted(ws, FirstOffer(rtl, ListText(ws)))
    decreases |ws|
  {
    if ws != [] {
      OfferOrRest(rtl, ws);
      WishOffered(rtl, ws[0]);
      if Fine(ws[0], false) {
        GrantedNow(ws, FirstOffer(rtl, ListText(ws)));
      } else {
        OffersGranted(rtl, ws[1..]);
        GrantedLater(ws, FirstOffer(rtl, ListText(ws[1..])));
      }
    }
  }

  // The client that offered the list is answered with what it is granted, and
  // reads it so.
  lemma GrantAnswered(rtl: Rtl, key: string, ws: seq<Wish>)
    requires Sane(rtl) && forall i :: 0 <= i < |ws| ==> Writable(ws[i])
    ensures var d := FirstOffer(rtl, ListText(ws));
            var a := ClientParseResponse(rtl, STATUS_LINE + CRLF + FieldText(ResponseFields(rtl, key, d)), key, true);
            && a.Accepted? && (a.d.enabled <==> exists i :: 0 <= i < |ws| && Fine(ws[i], false))
            && Granted(ws, a.d.(clientMaxBits := d.clientMaxBits))
  {
    OffersGranted(rtl, ws);
    ResponseRoundTrip(rtl, key, ListText(ws), true);
  }
}
