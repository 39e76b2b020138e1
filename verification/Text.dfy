// String helpers of the handshake (source/units/WS.Handshake.pas and the
// Pascal run-time library it leans on), and its string builder.

module Text {
  const CRLF: string := "\r\n"

  function LowerChar(c: char): char {
    if 'A' <= c <= 'Z' then c - 'A' + 'a' else c
  }

  // LowerCase: ASCII only.
  function Lower(s: string): (r: string)
    ensures |r| == |s|
  {
    seq(|s|, i requires 0 <= i < |s| => LowerChar(s[i]))
  }

  predicate SameText(a: string, b: string) {
    Lower(a) == Lower(b)
  }

  // NameIsCI.
  method NameIsCI(a: string, b: string) returns (same: bool)
    ensures same == SameText(a, b)
  {
    if |a| != |b| { return false; }
    var i := 0;
    while i < |a|
      invariant i <= |a| && forall j :: 0 <= j < i ==> LowerChar(a[j]) == LowerChar(b[j])
    {
      if LowerChar(a[i]) != LowerChar(b[i]) {
        assert Lower(a)[i] != Lower(b)[i];
        return false;
      }
      i := i + 1;
    }
    assert Lower(a) == Lower(b);
    same := true;
  }

  // What Trim strips, and what the header walk strips.
  predicate Control(c: char) { c <= ' ' }
  predicate Blank(c: char) { c == ' ' || c == '\t' }

  function StripLeft(s: string, blank: char -> bool): string
    decreases |s|
  {
    if s != "" && blank(s[0]) then StripLeft(s[1..], blank) else s
  }

  function StripRight(s: string, blank: char -> bool): string
    decreases |s|
  {
    if s != "" && blank(s[|s| - 1]) then StripRight(s[..|s| - 1], blank) else s
  }

  function Strip(s: string, blank: char -> bool): string {
    StripRight(StripLeft(s, blank), blank)
  }

  function Trim(s: string): string {
    Strip(s, Control)
  }

  // Letters apart by case alone.
  predicate CaseApart(a: char, b: char) {
    'A' <= a <= 'Z' && b as int == a as int + 32
  }

  // The comparison sees no difference but that of case.
  lemma CaseBlind(a: string, b: string)
    ensures SameText(a, b) <==>
            |a| == |b| &&
            forall i :: 0 <= i < |a| ==> a[i] == b[i] || CaseApart(a[i], b[i]) || CaseApart(b[i], a[i])
  {
    forall i | 0 <= i < |a| == |b|
      ensures LowerChar(a[i]) == LowerChar(b[i]) <==>
              a[i] == b[i] || CaseApart(a[i], b[i]) || CaseApart(b[i], a[i])
    {
    }
    if SameText(a, b) {
      forall i | 0 <= i < |a| ensures LowerChar(a[i]) == LowerChar(b[i]) {
        assert Lower(a)[i] == Lower(b)[i];
      }
    }
  }

  // Nothing to strip at either end.
  predicate Tight(s: string, blank: char -> bool) {
    s == "" || (!blank(s[0]) && !blank(s[|s| - 1]))
  }

  lemma {:induction false} LeftStripped(s: string, blank: char -> bool) returns (a: string)
    ensures s == a + StripLeft(s, blank) && forall c :: c in a ==> blank(c)
    ensures StripLeft(s, blank) == "" || !blank(StripLeft(s, blank)[0])
    decreases |s|
  {
    a := "";
    if s != "" && blank(s[0]) {
      a := LeftStripped(s[1..], blank);
      a := [s[0]] + a;
    }
  }

  lemma {:induction false} RightStripped(s: string, blank: char -> bool) returns (b: string)
    ensures s == StripRight(s, blank) + b && forall c :: c in b ==> blank(c)
    ensures var r := StripRight(s, blank); r == "" || (!blank(r[|r| - 1]) && r[0] == s[0])
    decreases |s|
  {
    b := "";
    if s != "" && blank(s[|s| - 1]) {
      b := RightStripped(s[..|s| - 1], blank);
      b := b + [s[|s| - 1]];
    }
  }

  // Blanks come off both ends, and nothing else comes off.
  lemma Stripped(s: string, blank: char -> bool) returns (a: string, b: string)
    ensures s == a + Strip(s, blank) + b && Tight(Strip(s, blank), blank)
    ensures forall c :: c in a + b ==> blank(c)
  {
    a := LeftStripped(s, blank);
    b := RightStripped(StripLeft(s, blank), blank);
  }

  lemma StripTight(s: string, blank: char -> bool)
    requires Tight(s, blank)
    ensures Strip(s, blank) == s
  {
  }

  lemma StripSpace(s: string, blank: char -> bool)
    requires Tight(s, blank) && blank(' ')
    ensures Strip(" " + s, blank) == s
  {
    assert (" " + s)[1..] == s;
    StripTight(s, blank);
  }

  // Pos of one character, from 0; the length when there is none.
  function IndexOf(s: string, c: char): (i: nat)
    ensures i <= |s|
    decreases |s|
  {
    if s == "" || s[0] == c then 0 else 1 + IndexOf(s[1..], c)
  }

  lemma {:induction false} IndexOfAt(s: string, c: char, i: nat)
    requires i <= |s| && c !in s[..i] && (i < |s| ==> s[i] == c)
    ensures IndexOf(s, c) == i
    decreases |s|
  {
    if i > 0 {
      assert s[0] == s[..i][0] && s[1..][..i - 1] == s[..i][1..];
      IndexOfAt(s[1..], c, i - 1);
    }
  }

  lemma {:induction false} IndexOfFirst(s: string, c: char)
    ensures var i := IndexOf(s, c); c !in s[..i] && (i < |s| ==> s[i] == c)
    decreases |s|
  {
    if s != "" && s[0] != c {
      IndexOfFirst(s[1..], c);
      var i := IndexOf(s, c);
      assert s[..i] == [s[0]] + s[1..][..i - 1];
    }
  }

  // a, then the separator, then b.
  lemma CutAt(a: string, c: char, b: string)
    requires c !in a
    ensures var s := a + [c] + b; IndexOf(s, c) == |a| && s[..|a|] == a && s[|a| + 1..] == b
  {
    var s := a + [c] + b;
    assert s[..|a|] == a && s[|a|] == c && s[|a| + 1..] == b;
    IndexOfAt(s, c, |a|);
  }

  method Find(s: string, c: char, from: nat) returns (i: nat)
    requires from <= |s|
    ensures i == from + IndexOf(s[from..], c)
  {
    i := from;
    while i < |s| && s[i] != c
      invariant from <= i <= |s| && from + IndexOf(s[from..], c) == i + IndexOf(s[i..], c)
    {
      assert s[i..][1..] == s[i + 1..];
      i := i + 1;
    }
  }

  predicate HasSub(s: string, sub: string)
    decreases |s|
  {
    |s| >= |sub| && (s[..|sub|] == sub || (s != "" && HasSub(s[1..], sub)))
  }

  lemma {:induction false} HasSubAt(a: string, sub: string, b: string)
    ensures HasSub(a + sub + b, sub)
    decreases |a|
  {
    var s := a + sub + b;
    if a == "" {
      assert s[..|sub|] == sub;
    } else {
      assert s[1..] == a[1..] + sub + b;
      HasSubAt(a[1..], sub, b);
    }
  }

  // Offset of the first CR LF, the length when there is none.
  function FindCRLF(s: string): (i: nat)
    ensures i <= |s|
    decreases |s|
  {
    if |s| < 2 then |s| else if s[0] == '\r' && s[1] == '\n' then 0 else 1 + FindCRLF(s[1..])
  }

  lemma {:induction false} FindCRLFAt(a: string, b: string)
    requires '\r' !in a
    ensures FindCRLF(a + CRLF + b) == |a|
    decreases |a|
  {
    var s := a + CRLF + b;
    if a != "" {
      assert s[0] == a[0] && s[1..] == a[1..] + CRLF + b;
      FindCRLFAt(a[1..], b);
    }
  }

  // The text up to the next LF, one CR before it dropped.
  function ChopCR(s: string): string {
    if s != "" && s[|s| - 1] == '\r' then s[..|s| - 1] else s
  }

  // A line of our own making comes off whole.
  lemma CutLine(line: string, rest: string)
    requires '\n' !in line
    ensures var s := line + CRLF + rest;
            && IndexOf(s, '\n') == |line| + 1 && ChopCR(s[..|line| + 1]) == line && s[|line| + 2..] == rest
  {
    var s := line + CRLF + rest;
    assert s == (line + "\r") + ['\n'] + rest;
    CutAt(line + "\r", '\n', rest);
  }

  // IntToStr.
  function Decimal(n: nat): string {
    if n < 10 then [n as char + '0'] else Decimal(n / 10) + [(n % 10) as char + '0']
  }

  predicate Digit(c: char) { '0' <= c <= '9' }

  lemma {:induction false} DecimalDigits(n: nat)
    ensures Decimal(n) != "" && forall i :: 0 <= i < |Decimal(n)| ==> Digit(Decimal(n)[i])
  {
    if n >= 10 {
      DecimalDigits(n / 10);
    }
  }

  // A numeral's value, base ten.
  function ValueOf(s: string): (n: int) {
    if s == "" then 0 else 10 * ValueOf(s[..|s| - 1]) + (s[|s| - 1] as int - '0' as int)
  }

  // Without leading zeros it is the one numeral of its number.
  lemma {:induction false} DecimalValue(n: nat)
    ensures ValueOf(Decimal(n)) == n && (n > 0 ==> Decimal(n)[0] != '0')
  {
    var s := Decimal(n);
    if n < 10 {
      assert s[..0] == "";
    } else {
      DecimalValue(n / 10);
      DecimalDigits(n / 10);
      assert s[..|s| - 1] == Decimal(n / 10);
    }
  }

  const BUILDER_STACK: nat := 2048

  method Put(a: array<char>, at: nat, s: string)
    requires at + |s| <= a.Length
    modifies a
    ensures a[..at + |s|] == old(a[..at]) + s
  {
    ghost var was := a[..at];
    var i := 0;
    while i < |s|
      invariant i <= |s| && a[..at + i] == was + s[..i]
    {
      a[at + i] := s[i];
      assert a[..at + i + 1] == a[..at + i] + [s[i]];
      i := i + 1;
    }
  }

  // TWSStrBuilder: a fixed buffer until the text outgrows it, then a heap
  // buffer that doubles.
  class StrBuilder {
    const buf: array<char>
    var heap: array?<char>
    var cap: nat
    var len: nat
    ghost var text: string

    ghost predicate Valid()
      reads this, buf, heap
    {
      && buf.Length == BUILDER_STACK && len <= cap && cap >= BUILDER_STACK
      && (heap == null ==> cap == BUILDER_STACK && text == buf[..len])
      && (heap != null ==> heap != buf && cap == heap.Length && text == heap[..len])
    }

    constructor ()
      ensures Valid() && text == "" && heap == null && fresh(buf)
    {
      buf := new char[BUILDER_STACK](_ => ' ');
      heap := null;
      cap, len, text := BUILDER_STACK, 0, "";
    }

    method Grow(need: nat)
      requires Valid() && need > cap
      modifies this
      ensures Valid() && text == old(text) && len == old(len) && cap >= need && heap != null && fresh(heap)
    {
      var newCap := cap;
      while newCap < need
        invariant newCap >= cap > 0
        decreases need - newCap
      {
        newCap := newCap * 2;
      }
      var bigger := new char[newCap](_ => ' ');
      Put(bigger, 0, if heap == null then buf[..len] else heap[..len]);
      heap := bigger;
      cap := newCap;
    }

    method App(s: string)
      requires Valid()
      modifies this, buf, heap
      ensures Valid() && text == old(text) + s && (heap == old(heap) || fresh(heap))
    {
      if s == "" { return; }
      if |s| > cap - len {
        Grow(len + |s|);
      }
      if heap == null {
        Put(buf, len, s);
      } else {
        Put(heap, len, s);
      }
      len := len + |s|;
      text := text + s;
    }

    method Done() returns (s: string)
      requires Valid()
      ensures s == text
    {
      s := if heap == null then buf[..len] else heap[..len];
    }
  }
}
