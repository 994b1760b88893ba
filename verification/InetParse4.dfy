// inet_pton4, trusted/inet_pton_ntop.c:27-61: it accepts exactly the grammar's IPv4address, stores the bytes
// that the text denotes, and is the inverse of printing.

module InetParse4 {

  import opened Basics
  import opened InetGrammar

  /** What inet_pton4 makes of `rest` once it holds the octets `done` and, in `*tp`, `cur`. */
  function Scan4(done: Bytes, cur: byte, saw: bool, rest: string): Option<Bytes>
    requires |done| <= 3
    requires !saw ==> cur == 0
    decreases |rest|
  {
    if rest == "" then
      if saw && |done| == 3 then Some(done + [cur]) else None
    else if IsDigit(rest[0]) then
      var next := cur * 10 + (rest[0] as int - '0' as int);
      if (saw && cur == 0) || next > 255 then None else Scan4(done, next, true, rest[1..])
    else if rest[0] == '.' && saw then
      if |done| == 3 then None else Scan4(done + [cur], 0, false, rest[1..])
    else None
  }

  function Parse4(s: string): Option<Bytes> { Scan4([], 0, false, s) }

  /** The decimal text of a byte, as printf's "%u" writes it. */
  function Dec(n: byte): (s: string) {
    if n < 10 then [DecDigit(n)]
    else if n < 100 then [DecDigit(n / 10), DecDigit(n % 10)]
    else [DecDigit(n / 100), DecDigit(n / 10 % 10), DecDigit(n % 10)]
  }

  function DecDigit(d: int): char
    requires 0 <= d < 10
  {
    '0' + d as char
  }

  function QuadOf(b: Bytes): Quad
    requires |b| == 4
  {
    Quad(Dec(b[0]), Dec(b[1]), Dec(b[2]), Dec(b[3]))
  }

  /** Without leading zeros every octet has one text: a dec-octet is the text of its own value. */
  lemma {:induction false} DecOctetIsCanonical(s: string)
    ensures DecOctet(s) <==> exists n: byte :: s == Dec(n)
    ensures DecOctet(s) ==> AllDigits(s) && 0 <= DecValue(s) < 256 && s == Dec(DecValue(s))
  {
    if DecOctet(s) { DecOfDecValue(s); }
    if n: byte :| s == Dec(n) { DecIsDecOctet(n); }
  }

  lemma DecOfDecValue(s: string)
    requires DecOctet(s)
    ensures AllDigits(s) && 0 <= DecValue(s) < 256 && s == Dec(DecValue(s))
  {
    DecOctetValue(s);
    DecValueUnfolded(s);
    hide DecValue;
    var z := s[|s| - 1] as int - 48;
    if |s| == 2 {
      DecOfTwo(s[0] as int - 48, z);
    } else if |s| == 3 {
      DecOfThree(s[0] as int - 48, s[1] as int - 48, z);
    }
  }

  lemma DecOfTwo(y: nat, z: nat)
    requires 1 <= y < 10 && z < 10
    ensures 10 * y + z < 256 && Dec(10 * y + z) == [DecDigit(y), DecDigit(z)]
  {
  }

  lemma DecOfThree(x: nat, y: nat, z: nat)
    requires 1 <= x < 10 && y < 10 && z < 10 && 100 * x + 10 * y + z < 256
    ensures Dec(100 * x + 10 * y + z) == [DecDigit(x), DecDigit(y), DecDigit(z)]
  {
    var n := 100 * x + 10 * y + z;
    assert n / 100 == x && n / 10 == 10 * x + y && n % 10 == z;
  }

  lemma DecValueUnfolded(s: string)
    requires DecOctet(s) && AllDigits(s)
    ensures |s| == 1 ==> DecValue(s) == s[0] as int - 48
    ensures |s| == 2 ==> DecValue(s) == 10 * (s[0] as int - 48) + (s[1] as int - 48)
    ensures |s| == 3 ==>
      DecValue(s) == 100 * (s[0] as int - 48) + 10 * (s[1] as int - 48) + (s[2] as int - 48)
  {
    if |s| >= 2 {
      var t := s[..|s| - 1];
      var u := t[..|t| - 1];
      assert DecValue(t) == DecValue(u) * 10 + (t[|t| - 1] as int - '0' as int);
      if |s| == 3 { assert DecValue(u) == DecValue(u[..0]) * 10 + (s[0] as int - '0' as int); }
    }
  }

  lemma DecIsDecOctet(n: byte)
    ensures DecOctet(Dec(n)) && AllDigits(Dec(n)) && DecValue(Dec(n)) == n
  {
    hide DecValue;
    assert DecOctet(Dec(n));
    DecOctetValue(Dec(n));
    DecValueUnfolded(Dec(n));
  }

  lemma QuadOfBytes(b: Bytes)
    requires |b| == 4
    ensures QuadOf(b).Valid() && QuadOf(b).Bytes() == b
  {
    DecIsDecOctet(b[0]); DecIsDecOctet(b[1]); DecIsDecOctet(b[2]); DecIsDecOctet(b[3]);
  }

  lemma QuadIsCanonical(q: Quad)
    requires q.Valid()
    ensures q == QuadOf(q.Bytes())
  {
    DecOctetIsCanonical(q.a); DecOctetIsCanonical(q.b);
    DecOctetIsCanonical(q.c); DecOctetIsCanonical(q.d);
  }

  // The part of the text already read in the state (done, cur, saw).
  function Read4(done: Bytes, cur: byte, saw: bool): string {
    Dotted(DecAll(done)) + if saw then Dec(cur) else ""
  }

  function DecAll(done: Bytes): (texts: seq<string>)
    ensures |texts| == |done| && forall i :: 0 <= i < |done| ==> texts[i] == Dec(done[i])
  {
    seq(|done|, i requires 0 <= i < |done| => Dec(done[i]))
  }

  function Dotted(texts: seq<string>): string {
    if texts == [] then "" else Dotted(texts[..|texts| - 1]) + texts[|texts| - 1] + "."
  }

  lemma DecAppendDigit(cur: byte, saw: bool, c: char)
    requires IsDigit(c) && (!saw ==> cur == 0) && !(saw && cur == 0)
    requires cur * 10 + (c as int - '0' as int) < 256
    ensures Dec(cur * 10 + (c as int - '0' as int)) == (if saw then Dec(cur) else "") + [c]
  {
    var next := cur * 10 + (c as int - '0' as int);
    assert DecDigit(c as int - '0' as int) == c;
    if saw {
      assert next / 10 == cur && next % 10 == c as int - '0' as int && next / 100 == cur / 10;
    }
  }

  lemma DottedSnoc(texts: seq<string>, t: string)
    ensures Dotted(texts + [t]) == Dotted(texts) + t + "."
  {
    assert (texts + [t])[..|texts|] == texts;
  }

  lemma DottedIsQuadText(texts: seq<string>, q: Quad)
    requires texts == [q.a, q.b, q.c]
    ensures Dotted(texts) + q.d == q.Text()
  {
    DottedSnoc([], q.a);
    DottedSnoc([q.a], q.b);
    DottedSnoc([q.a, q.b], q.c);
    assert [] + [q.a] == [q.a] && [q.a] + [q.b] == [q.a, q.b] && [q.a, q.b] + [q.c] == texts;
    assert Dotted([q.a]) == q.a + ".";
  }

  lemma {:induction false} Scan4Sound(done: Bytes, cur: byte, saw: bool, rest: string, b: Bytes)
    requires |done| <= 3 && (!saw ==> cur == 0)
    requires Scan4(done, cur, saw, rest) == Some(b)
    ensures |b| == 4 && Read4(done, cur, saw) + rest == QuadOf(b).Text()
    decreases |rest|
  {
    if rest == "" {
      assert DecAll(done) == [Dec(b[0]), Dec(b[1]), Dec(b[2])];
      DottedIsQuadText(DecAll(done), QuadOf(b));
    } else {
      var c, t := rest[0], rest[1..];
      assert Read4(done, cur, saw) + [c] + t == Read4(done, cur, saw) + rest;
      if IsDigit(c) {
        var next := cur * 10 + (c as int - '0' as int);
        Scan4Sound(done, next, true, t, b);
        Read4Digit(done, cur, saw, c);
      } else {
        Scan4Sound(done + [cur], 0, false, t, b);
        Read4Dot(done, cur);
      }
    }
  }

  lemma Read4Digit(done: Bytes, cur: byte, saw: bool, c: char)
    requires IsDigit(c) && (!saw ==> cur == 0) && !(saw && cur == 0)
    requires cur * 10 + (c as int - '0' as int) < 256
    ensures Read4(done, cur * 10 + (c as int - '0' as int), true) == Read4(done, cur, saw) + [c]
  {
    DecAppendDigit(cur, saw, c);
    var read, d := Dotted(DecAll(done)), if saw then Dec(cur) else "";
    assert read + (d + [c]) == read + d + [c];
  }

  lemma Read4Dot(done: Bytes, cur: byte)
    ensures Read4(done + [cur], 0, false) == Read4(done, cur, true) + ['.']
  {
    assert DecAll(done + [cur]) == DecAll(done) + [Dec(cur)];
    DottedSnoc(DecAll(done), Dec(cur));
  }

  lemma Step4Digit(done: Bytes, cur: byte, saw: bool, rest: string)
    requires |done| <= 3 && (!saw ==> cur == 0) && !(saw && cur == 0)
    requires rest != "" && IsDigit(rest[0]) && cur * 10 + (rest[0] as int - '0' as int) < 256
    ensures Scan4(done, cur, saw, rest) == Scan4(done, cur * 10 + (rest[0] as int - '0' as int), true, rest[1..])
  {
  }

  lemma Scan4Digit(done: Bytes, cur: byte, saw: bool, d: nat, t: string)
    requires |done| <= 3 && (!saw ==> cur == 0) && !(saw && cur == 0)
    requires d < 10 && cur * 10 + d < 256
    ensures Scan4(done, cur, saw, [DecDigit(d)] + t) == Scan4(done, cur * 10 + d, true, t)
  {
    var s := [DecDigit(d)] + t;
    assert s[1..] == t && s[0] as int - '0' as int == d;
  }

  lemma Scan4TwoDigits(done: Bytes, x: nat, y: nat, t: string)
    requires |done| <= 3 && 1 <= x < 10 && y < 10
    ensures Scan4(done, 0, false, [DecDigit(x), DecDigit(y)] + t) == Scan4(done, 10 * x + y, true, t)
  {
    var t1 := [DecDigit(y)] + t;
    assert [DecDigit(x), DecDigit(y)] + t == [DecDigit(x)] + t1;
    Scan4Digit(done, 0, false, x, t1);
    Scan4Digit(done, x, true, y, t);
  }

  lemma Scan4ThreeDigits(done: Bytes, x: nat, y: nat, z: nat, t: string)
    requires |done| <= 3 && 1 <= x < 10 && y < 10 && z < 10 && 100 * x + 10 * y + z < 256
    ensures Scan4(done, 0, false, [DecDigit(x), DecDigit(y), DecDigit(z)] + t)
         == Scan4(done, 100 * x + 10 * y + z, true, t)
  {
    var t1 := [DecDigit(z)] + t;
    assert [DecDigit(x), DecDigit(y), DecDigit(z)] + t == [DecDigit(x), DecDigit(y)] + t1;
    Scan4TwoDigits(done, x, y, t1);
    Scan4Digit(done, 10 * x + y, true, z, t);
  }

  lemma Scan4Octet(done: Bytes, n: byte, t: string)
    requires |done| <= 3
    ensures Scan4(done, 0, false, Dec(n) + t) == Scan4(done, n, true, t)
  {
    if n < 10 {
      Scan4Digit(done, 0, false, n, t);
    } else if n < 100 {
      Scan4TwoDigits(done, n / 10, n % 10, t);
    } else {
      assert 100 * (n / 100) + 10 * (n / 10 % 10) + n % 10 == n;
      Scan4ThreeDigits(done, n / 100, n / 10 % 10, n % 10, t);
    }
  }

  lemma Scan4OctetDot(done: Bytes, n: byte, t: string)
    requires |done| <= 2
    ensures Scan4(done, 0, false, Dec(n) + "." + t) == Scan4(done + [n], 0, false, t)
  {
    hide Dec;
    assert Dec(n) + "." + t == Dec(n) + ("." + t);
    Scan4Octet(done, n, "." + t);
    assert ("." + t)[1..] == t;
  }

  lemma Scan4Complete(b: Bytes)
    requires |b| == 4
    ensures Parse4(QuadOf(b).Text()) == Some(b)
  {
    hide Dec;
    var t2 := Dec(b[2]) + "." + Dec(b[3]);
    var t1 := Dec(b[1]) + "." + t2;
    var t0 := Dec(b[0]) + "." + t1;
    QuadTextRight(QuadOf(b));
    Scan4OctetDot([], b[0], t1);
    Scan4OctetDot([b[0]], b[1], t2);
    Scan4OctetDot([b[0], b[1]], b[2], Dec(b[3]));
    Scan4Octet([b[0], b[1], b[2]], b[3], "");
    assert Dec(b[3]) + "" == Dec(b[3]);
    assert [] + [b[0]] == [b[0]] && [b[0]] + [b[1]] == [b[0], b[1]]
        && [b[0], b[1]] + [b[2]] == [b[0], b[1], b[2]];
    assert b == [b[0], b[1], b[2]] + [b[3]];
  }

  /** The scan succeeds exactly on the IPv4address texts, and then yields the bytes they denote. */
  lemma Parse4IsTheGrammar(s: string, b: Bytes)
    ensures Parse4(s) == Some(b) <==> IPv4Denotes(s, b)
  {
    if Parse4(s) == Some(b) {
      Scan4Sound([], 0, false, s, b);
      assert Read4([], 0, false) + s == s;
      QuadOfBytes(b);
    }
    if IPv4Denotes(s, b) {
      var q: Quad :| q.Valid() && q.Text() == s && q.Bytes() == b;
      QuadIsCanonical(q);
      Scan4Complete(b);
    }
  }

  /** inet_pton4 and the text of inet_ntop4 are inverse bijections. */
  lemma Parse4InvertsPrinting(s: string, b: Bytes)
    ensures Parse4(s) == Some(b) <==> |b| == 4 && s == Dec(b[0]) + "." + Dec(b[1]) + "." + Dec(b[2]) + "." + Dec(b[3])
  {
    if Parse4(s) == Some(b) {
      Scan4Sound([], 0, false, s, b);
      assert Read4([], 0, false) + s == s;
    }
    if |b| == 4 { Scan4Complete(b); }
  }

  lemma DropOne(s: string, i: nat)
    requires i < |s|
    ensures s[i..][0] == s[i] && s[i..][1..] == s[i + 1..]
  {
  }

  /**
   * inet_pton4: scans `src[from..]` and, only on success, stores four bytes at `dst[at..]`.
   * The write index `tp` never leaves 0..3, so the `octets > 4` test can never fire.
   */
  method Pton4(src: string, from: nat, dst: array<byte>, at: nat) returns (ok: bool)
    requires from <= |src| && at + 4 <= dst.Length
    modifies dst
    ensures Parse4(src[from..]) == if ok then Some(dst[at..at + 4]) else None
    ensures ok ==> IPv4Denotes(src[from..], dst[at..at + 4])
    ensures !ok ==> forall b :: !IPv4Denotes(src[from..], b)
    ensures dst[..at] == old(dst[..at]) && dst[at + 4..] == old(dst[at + 4..])
    ensures !ok ==> dst[..] == old(dst[..])
  {
    forall b ensures Parse4(src[from..]) == Some(b) <==> IPv4Denotes(src[from..], b) {
      Parse4IsTheGrammar(src[from..], b);
    }
    var tmp := new byte[4];
    var tp, sawDigit, octets, i := 0, false, 0, from;
    tmp[0] := 0;
    while i < |src|
      invariant from <= i <= |src| && 0 <= tp <= 3 && fresh(tmp) && tmp.Length == 4
      invariant octets == tp + if sawDigit then 1 else 0
      invariant !sawDigit ==> tmp[tp] == 0
      invariant Parse4(src[from..]) == Scan4(tmp[..tp], tmp[tp], sawDigit, src[i..])
      invariant dst[..] == old(dst[..])
    {
      var ch := src[i];
      DropOne(src, i);
      i := i + 1;
      if '0' <= ch <= '9' {
        var next := tmp[tp] * 10 + (ch as int - '0' as int);
        if sawDigit && tmp[tp] == 0 { return false; }
        if next > 255 { return false; }
        Step4Digit(tmp[..tp], tmp[tp], sawDigit, src[i - 1..]);
        ghost var done := tmp[..tp];
        tmp[tp] := next;
        assert tmp[..tp] == done;
        if !sawDigit {
          octets := octets + 1;
          assert octets <= 4;
          sawDigit := true;
        }
      } else if ch == '.' && sawDigit {
        if octets == 4 { return false; }
        ghost var done := tmp[..tp] + [tmp[tp]];
        tp := tp + 1;
        tmp[tp] := 0;
        assert tmp[..tp] == done;
        sawDigit := false;
      } else {
        return false;
      }
    }
    assert src[i..] == "";
    if octets < 4 { return false; }
    assert tmp[..] == tmp[..3] + [tmp[3]];
    CopyFour(tmp, dst, at);
    return true;
  }

  // memcpy(dst, tmp, NS_INADDRSZ)
  method CopyFour(tmp: array<byte>, dst: array<byte>, at: nat)
    requires tmp.Length == 4 && at + 4 <= dst.Length && tmp != dst
    modifies dst
    ensures dst[at..at + 4] == tmp[..]
    ensures dst[..at] == old(dst[..at]) && dst[at + 4..] == old(dst[at + 4..])
  {
    forall k | 0 <= k < 4 { dst[at + k] := tmp[k]; }
  }
}
