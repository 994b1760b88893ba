// Textual IP addresses: the grammar of section 3.2.2 of RFC 3986, as syntax trees that carry the bytes they
// denote.

module InetGrammar {

  import opened Basics

  // ---------------------------------------------------------------- digits and numerals

  predicate IsDigit(c: char) { '0' <= c <= '9' }

  predicate IsHex(c: char) { '0' <= c <= '9' || 'a' <= c <= 'f' || 'A' <= c <= 'F' }

  /** The value of `c` as a hexadecimal digit, or -1. */
  function HexDigitValue(c: char): (v: int)
    ensures v >= 0 <==> IsHex(c)
    ensures -1 <= v < 16
  {
    if '0' <= c <= '9' then c as int - '0' as int
    else if 'a' <= c <= 'f' then c as int - 'a' as int + 10
    else if 'A' <= c <= 'F' then c as int - 'A' as int + 10
    else -1
  }

  /** It is the position of `c` among the digits, which have two cases. */
  lemma HexDigitValueIsPosition(c: char, d: nat)
    requires d < 16
    ensures HexDigitValue(c) == d <==> c == "0123456789abcdef"[d] || c == "0123456789ABCDEF"[d]
  {
  }

  predicate AllHex(s: string) { forall i :: 0 <= i < |s| ==> IsHex(s[i]) }

  predicate AllDigits(s: string) { forall i :: 0 <= i < |s| ==> IsDigit(s[i]) }

  function HexValue(s: string): nat
    requires AllHex(s)
  {
    if s == "" then 0 else HexValue(s[..|s| - 1]) * 16 + HexDigitValue(s[|s| - 1])
  }

  function DecValue(s: string): nat
    requires AllDigits(s)
  {
    if s == "" then 0 else DecValue(s[..|s| - 1]) * 10 + (s[|s| - 1] as int - '0' as int)
  }

  function Power16(n: nat): nat { if n == 0 then 1 else 16 * Power16(n - 1) }

  lemma {:induction false} HexValueBound(s: string)
    requires AllHex(s)
    ensures HexValue(s) < Power16(|s|)
  {
    if s != "" { HexValueBound(s[..|s| - 1]); }
  }

  // h16 = 1*4HEXDIG
  predicate H16(s: string) { 1 <= |s| <= 4 && AllHex(s) }

  lemma H16Value(s: string)
    requires H16(s)
    ensures HexValue(s) < 0x1_0000
  {
    HexValueBound(s);
    assert Power16(4) == 16 * Power16(3);
    assert Power16(2) == 16 * Power16(1);
    assert Power16(|s|) <= 0x1_0000;
  }

  // dec-octet = DIGIT / %x31-39 DIGIT / "1" 2DIGIT / "2" %x30-34 DIGIT / "25" %x30-35
  predicate DecOctet(s: string) {
    || (|s| == 1 && IsDigit(s[0]))
    || (|s| == 2 && '1' <= s[0] <= '9' && IsDigit(s[1]))
    || (|s| == 3 && s[0] == '1' && IsDigit(s[1]) && IsDigit(s[2]))
    || (|s| == 3 && s[0] == '2' && '0' <= s[1] <= '4' && IsDigit(s[2]))
    || (|s| == 3 && s[0] == '2' && s[1] == '5' && '0' <= s[2] <= '5')
  }

  lemma DecOctetValue(s: string)
    requires DecOctet(s)
    ensures AllDigits(s) && AllHex(s) && DecValue(s) < 256
  {
    if |s| >= 2 {
      var t := s[..|s| - 1];
      var u := t[..|t| - 1];
      assert DecValue(t) == DecValue(u) * 10 + (t[|t| - 1] as int - '0' as int);
      if |s| == 3 { assert DecValue(u) == DecValue(u[..0]) * 10 + (s[0] as int - '0' as int); }
    }
  }

  // ---------------------------------------------------------------- IPv4address

  // IPv4address = dec-octet "." dec-octet "." dec-octet "." dec-octet
  datatype Quad = Quad(a: string, b: string, c: string, d: string) {

    predicate Valid() { DecOctet(a) && DecOctet(b) && DecOctet(c) && DecOctet(d) }

    function Text(): string { a + "." + b + "." + c + "." + d }

    function Bytes(): (r: Bytes)
      requires Valid()
      ensures |r| == 4
    {
      DecOctetValue(a); DecOctetValue(b); DecOctetValue(c); DecOctetValue(d);
      [DecValue(a), DecValue(b), DecValue(c), DecValue(d)]
    }
  }

  /** `s` is an IPv4address and denotes the four bytes `r`. */
  ghost predicate IPv4Denotes(s: string, r: Bytes) {
    exists q: Quad :: q.Valid() && q.Text() == s && q.Bytes() == r
  }

  // ---------------------------------------------------------------- IPv6address

  function Join(pieces: seq<string>): string {
    if |pieces| == 0 then ""
    else if |pieces| == 1 then pieces[0]
    else pieces[0] + ":" + Join(pieces[1..])
  }

  function WordBytes(w: nat): Bytes
    requires w < 0x1_0000
  {
    [w / 256, w % 256]
  }

  predicate AllH16(hs: seq<string>) { forall i :: 0 <= i < |hs| ==> H16(hs[i]) }

  /** Each group in network order. */
  function GroupBytes(hs: seq<string>): (r: Bytes)
    requires AllH16(hs)
    ensures |r| == 2 * |hs|
  {
    if hs == [] then [] else
      H16Value(hs[0]);
      WordBytes(HexValue(hs[0])) + GroupBytes(hs[1..])
  }

  /** In a group of four digits the first two are its first byte. */
  lemma {:induction false} GroupsInNetworkOrder(hs: seq<string>, i: nat)
    requires AllH16(hs) && i < |hs| && |hs[i]| == 4
    ensures GroupBytes(hs)[2 * i] == HexValue(hs[i][..2]) && GroupBytes(hs)[2 * i + 1] == HexValue(hs[i][2..])
  {
    if i == 0 {
      FourDigits(hs[0]);
    } else {
      assert hs[1..][i - 1] == hs[i];
      GroupsInNetworkOrder(hs[1..], i - 1);
    }
  }

  lemma FourDigits(h: string)
    requires |h| == 4 && AllHex(h)
    ensures HexValue(h) == HexValue(h[..2]) * 256 + HexValue(h[2..]) && HexValue(h[..2]) < 256 && HexValue(h[2..]) < 256
  {
    TwoDigits(h[..2]);
    TwoDigits(h[2..]);
    assert h[..3][..2] == h[..2];
    assert HexValue(h[..3]) == HexValue(h[..2]) * 16 + HexDigitValue(h[2]);
  }

  lemma TwoDigits(h: string)
    requires |h| == 2 && AllHex(h)
    ensures HexValue(h) == HexDigitValue(h[0]) * 16 + HexDigitValue(h[1]) && HexValue(h) < 256
  {
    assert h[..1][..0] == "";
    assert HexValue(h[..1]) == HexDigitValue(h[0]);
  }

  /** Groups separated by single colons, the last two of which may be written as a dotted quad. */
  datatype Part = Part(hs: seq<string>, quad: Option<Quad>) {

    predicate Valid() { AllH16(hs) && (quad.Some? ==> quad.value.Valid()) }

    function Units(): nat { |hs| + if quad.Some? then 2 else 0 }

    function Pieces(): seq<string> { if quad.Some? then hs + [quad.value.Text()] else hs }

    function Bytes(): (r: Bytes)
      requires Valid()
      ensures |r| == 2 * Units()
    {
      GroupBytes(hs) + if quad.Some? then quad.value.Bytes() else []
    }
  }

  datatype Tree =
    | Full(all: Part)
    | Elided(left: seq<string>, right: Part)
  {
    predicate Valid() {
      match this
      case Full(p) => p.Valid() && p.Units() == 8
      case Elided(l, r) => AllH16(l) && r.Valid() && |l| + r.Units() <= 7
    }

    function Text(): string {
      match this
      case Full(p) => Join(p.Pieces())
      case Elided(l, r) => Join(l) + "::" + Join(r.Pieces())
    }

    /** The groups before "::", then zeros, then the groups after it. */
    function Bytes(): (b: Bytes)
      requires Valid()
      ensures |b| == 16
    {
      match this
      case Full(p) => p.Bytes()
      case Elided(l, r) => GroupBytes(l) + Zeros(16 - 2 * |l| - 2 * r.Units()) + r.Bytes()
    }
  }

  /** `s` is an IPv6address and denotes the sixteen bytes `b`. */
  ghost predicate IPv6Denotes(s: string, b: Bytes) {
    exists t: Tree :: t.Valid() && t.Text() == s && t.Bytes() == b
  }

  // ---------------------------------------------------------------- facts about Join

  predicate NoneEmpty(pieces: seq<string>) { forall i :: 0 <= i < |pieces| ==> pieces[i] != "" }

  lemma JoinNonempty(pieces: seq<string>)
    requires NoneEmpty(pieces)
    ensures Join(pieces) == "" <==> pieces == []
  {
  }

  lemma {:induction false} JoinSnoc(pieces: seq<string>, last: string)
    ensures Join(pieces + [last]) == if pieces == [] then last else Join(pieces) + ":" + last
  {
    if |pieces| == 0 {
      assert pieces + [last] == [last];
    } else {
      JoinSnoc(pieces[1..], last);
      assert (pieces + [last])[1..] == pieces[1..] + [last];
      if |pieces| > 1 {
        assert pieces[0] + ":" + (Join(pieces[1..]) + ":" + last) == Join(pieces) + ":" + last;
      }
    }
  }

  lemma {:induction false} JoinLength(pieces: seq<string>)
    requires forall i :: 0 <= i < |pieces| ==> |pieces[i]| <= 4
    ensures |Join(pieces)| <= if pieces == [] then 0 else 5 * |pieces| - 1
  {
    if |pieces| > 1 { JoinLength(pieces[1..]); }
  }

  lemma QuadTextRight(q: Quad)
    ensures q.Text() == q.a + "." + (q.b + "." + (q.c + "." + q.d))
  {
  }

  lemma LeadingGapText(r: Part)
    ensures Elided([], r).Text() == "::" + Join(r.Pieces())
  {
    assert "" + "::" == "::";
  }
}
