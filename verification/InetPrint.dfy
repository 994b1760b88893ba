// The text that inet_ntop6 is to write, trusted/inet_pton_ntop.c:222-308: the run of zeros it shortens, the
// syntax tree it prints, and the round trip through the scanner.

module InetPrint {

  import opened Basics
  import opened InetGrammar
  import opened InetParse4
  import opened InetParse6

  // ---------------------------------------------------------------- the sixteen bytes as eight words

  function Words(b: Bytes): (w: seq<nat>)
    requires |b| == 16
    ensures |w| == 8 && forall i :: 0 <= i < 8 ==> w[i] == b[2 * i] as nat * 256 + b[2 * i + 1] as nat < 0x1_0000
  {
    seq(8, i requires 0 <= i < 8 => b[2 * i] as nat * 256 + b[2 * i + 1] as nat)
  }

  // printf's "%x"
  function Hex(w: nat): (s: string)
    requires w < 0x1_0000
    ensures 1 <= |s|
    decreases w
  {
    if w < 16 then [HexDigit(w)] else Hex(w / 16) + [HexDigit(w % 16)]
  }

  function HexDigit(d: nat): char
    requires d < 16
  {
    if d < 10 then '0' + d as char else 'a' + (d - 10) as char
  }

  lemma {:induction false} HexIsH16(w: nat)
    requires w < 0x1_0000
    ensures H16(Hex(w)) && HexValue(Hex(w)) == w
  {
    HexRoundTrip(w, 4);
  }

  lemma {:induction false} HexRoundTrip(w: nat, digits: nat)
    requires 1 <= digits <= 4 && w < 0x1_0000 && w < Power16(digits)
    ensures |Hex(w)| <= digits && AllHex(Hex(w)) && HexValue(Hex(w)) == w
    decreases digits
  {
    if w < 16 {
      assert Hex(w)[..0] == "";
    } else {
      assert Power16(digits) == 16 * Power16(digits - 1);
      HexRoundTrip(w / 16, digits - 1);
      assert Hex(w)[..|Hex(w)| - 1] == Hex(w / 16);
    }
  }

  predicate LowerCase(s: string) { forall i :: 0 <= i < |s| ==> !('A' <= s[i] <= 'F') }

  predicate NoLeadingZero(s: string) { |s| > 1 ==> s[0] != '0' }

  /** Sections 4.1 and 4.3 of RFC 5952: of the texts of a word, "%x" picks the one without leading zeros in lower case. */
  lemma HexIsCanonical(w: nat, s: string)
    requires w < 0x1_0000
    ensures s == Hex(w) <==> H16(s) && HexValue(s) == w && NoLeadingZero(s) && LowerCase(s)
  {
    HexIsH16(w);
    HexLooks(w);
    if H16(s) && HexValue(s) == w && NoLeadingZero(s) && LowerCase(s) { HexOfValue(s); }
  }

  lemma {:induction false} HexLooks(w: nat)
    requires w < 0x1_0000
    ensures LowerCase(Hex(w)) && NoLeadingZero(Hex(w)) && (w > 0 ==> Hex(w)[0] != '0')
    decreases w
  {
    if w >= 16 { HexLooks(w / 16); }
  }

  lemma {:induction false} HexOfValue(s: string)
    requires s != "" && AllHex(s) && HexValue(s) < 0x1_0000 && NoLeadingZero(s) && LowerCase(s)
    ensures Hex(HexValue(s)) == s
    decreases |s|
  {
    var n := |s| - 1;
    var d := HexDigitValue(s[n]);
    assert HexDigit(d) == s[n];
    if n == 0 {
      assert s[..n] == "";
    } else {
      HexOfValue(s[..n]);
      assert HexValue(s) / 16 == HexValue(s[..n]) && HexValue(s) % 16 == d;
      assert HexValue(s[..n]) != 0;
      assert s == s[..n] + [s[n]];
    }
  }

  function HexGroups(words: seq<nat>): (hs: seq<string>)
    requires forall i :: 0 <= i < |words| ==> words[i] < 0x1_0000
    ensures |hs| == |words| && forall i :: 0 <= i < |hs| ==> hs[i] == Hex(words[i])
  {
    seq(|words|, i requires 0 <= i < |words| => Hex(words[i]))
  }

  // ---------------------------------------------------------------- which run of zeros becomes "::"

  ghost predicate ZeroRun(words: seq<nat>, base: int, len: int) {
    0 <= base && 1 <= len && base + len <= |words| && forall i :: base <= i < base + len ==> words[i] == 0
  }

  /**
   * Sections 4.2.2 and 4.2.3 of RFC 5952: a run of at least two zero words is shortened, the longest one,
   * and the first of several longest ones.
   */
  ghost predicate Shortens(words: seq<nat>, base: int, len: int) {
    && ZeroRun(words, base, len) && len >= 2
    && forall p, n :: ZeroRun(words, p, n) ==> n < len || (n == len && base <= p)
  }

  ghost predicate NothingToShorten(words: seq<nat>) {
    forall i :: 0 <= i && i + 1 < |words| ==> words[i] != 0 || words[i + 1] != 0
  }

  lemma ShortensOnce(words: seq<nat>, b1: int, n1: int, b2: int, n2: int)
    requires Shortens(words, b1, n1) && Shortens(words, b2, n2)
    ensures b1 == b2 && n1 == n2
  {
  }

  datatype Run = Run(base: int, len: int)

  // `r` is the leftmost longest run of zeros among those that end by `i`; base -1 if there is none.
  ghost predicate BestBy(words: seq<nat>, i: int, r: Run) {
    && (r.base == -1 || (ZeroRun(words, r.base, r.len) && r.base + r.len <= i))
    && forall p, n :: ZeroRun(words, p, n) && p + n <= i ==>
         r.base != -1 && (n < r.len || (n == r.len && r.base <= p))
  }

  /** The selection loop of inet_ntop6: afterwards base -1 says that no two adjacent words are zero. */
  method SelectRun(words: seq<nat>) returns (best: Run)
    ensures best.base == -1 <==> NothingToShorten(words)
    ensures best.base != -1 ==> Shortens(words, best.base, best.len)
  {
    best := Run(-1, 0);
    var cur := Run(-1, 0);
    var i := 0;
    while i < |words|
      invariant 0 <= i <= |words|
      invariant best.base == -1 || (ZeroRun(words, best.base, best.len) && best.base + best.len <= i)
      invariant best.base == -1 ==> best.len == 0
      invariant cur.base == -1 <==> (i == 0 || words[i - 1] != 0)
      invariant cur.base != -1 ==> ZeroRun(words, cur.base, cur.len) && cur.base + cur.len == i
      invariant cur.base > 0 ==> words[cur.base - 1] != 0
      invariant forall p, n :: ZeroRun(words, p, n) && p + n <= i ==>
        (n < best.len || (n == best.len && best.base <= p)) || (cur.base != -1 && cur.base <= p)
      invariant cur.base != -1 && best.base != -1 ==> best.base + best.len < cur.base
    {
      if words[i] == 0 {
        if cur.base == -1 {
          cur := Run(i, 1);
        } else {
          cur := cur.(len := cur.len + 1);
        }
      } else if cur.base != -1 {
        if best.base == -1 || cur.len > best.len { best := cur; }
        cur := cur.(base := -1);
      }
      i := i + 1;
    }
    if cur.base != -1 {
      if best.base == -1 || cur.len > best.len { best := cur; }
    }
    assert BestBy(words, |words|, best);
    if best.base != -1 && best.len < 2 { best := best.(base := -1); }
    if best.base == -1 {
      forall k | 0 <= k && k + 1 < |words| ensures words[k] != 0 || words[k + 1] != 0 {
        assert !ZeroRun(words, k, 2);
      }
    } else {
      assert words[best.base] == 0 && words[best.base + 1] == 0;
    }
  }

  // The same run by searching from the right: a reference for the loop.

  function ZerosFrom(words: seq<nat>, i: nat): nat
    decreases |words| - i
  {
    if i < |words| && words[i] == 0 then 1 + ZerosFrom(words, i + 1) else 0
  }

  function BestFrom(words: seq<nat>, i: nat): Run
    decreases |words| - i
  {
    if i >= |words| then Run(i, 0)
    else
      var later, here := BestFrom(words, i + 1), ZerosFrom(words, i);
      if here >= later.len then Run(i, here) else later
  }

  function RunOf(words: seq<nat>): Run {
    var r := BestFrom(words, 0);
    if r.len < 2 then Run(-1, 0) else r
  }

  lemma {:induction false} ZerosFromIsRun(words: seq<nat>, i: nat, n: int)
    requires i <= |words|
    ensures ZeroRun(words, i, n) <==> 1 <= n <= ZerosFrom(words, i)
    decreases |words| - i
  {
    if i < |words| && words[i] == 0 {
      ZerosFromIsRun(words, i + 1, n - 1);
      if ZeroRun(words, i, n) && n > 1 { assert ZeroRun(words, i + 1, n - 1); }
    }
  }

  lemma {:induction false} BestFromIsBest(words: seq<nat>, i: nat)
    requires i <= |words|
    ensures var r := BestFrom(words, i);
      && i <= r.base && (r.len > 0 ==> ZeroRun(words, r.base, r.len)) && r.len >= 0
      && forall p, n :: ZeroRun(words, p, n) && i <= p ==> n < r.len || (n == r.len && r.base <= p)
    decreases |words| - i
  {
    if i < |words| {
      BestFromIsBest(words, i + 1);
      ZerosFromIsRun(words, i, ZerosFrom(words, i));
      forall n ensures ZeroRun(words, i, n) <==> 1 <= n <= ZerosFrom(words, i) {
        ZerosFromIsRun(words, i, n);
      }
    }
  }

  lemma RunOfShortens(words: seq<nat>)
    ensures var r := RunOf(words);
      if r.base == -1 then NothingToShorten(words) else Shortens(words, r.base, r.len)
  {
    BestFromIsBest(words, 0);
    if BestFrom(words, 0).len < 2 {
      forall k | 0 <= k && k + 1 < |words| ensures words[k] != 0 || words[k + 1] != 0 {
        assert !ZeroRun(words, k, 2);
      }
    }
  }

  // ---------------------------------------------------------------- the text of an address

  predicate Embedded(words: seq<nat>, r: Run)
    requires |words| == 8
  {
    r.base == 0 && (r.len == 6 || (r.len == 5 && words[5] == 0xffff))
  }

  ghost predicate RunIn(words: seq<nat>, r: Run) {
    r.base == -1 || (ZeroRun(words, r.base, r.len) && r.len >= 2)
  }

  function TreeWith(b: Bytes, r: Run): Tree
    requires |b| == 16 && RunIn(Words(b), r)
  {
    var hs := HexGroups(Words(b));
    if r.base == -1 then Full(Part(hs, None))
    else if Embedded(Words(b), r) then Elided([], Part(hs[r.len..6], Some(QuadOf(b[12..]))))
    else Elided(hs[..r.base], Part(hs[r.base + r.len..], None))
  }

  function TreeOf(b: Bytes): Tree
    requires |b| == 16
  {
    RunOfShortens(Words(b));
    TreeWith(b, RunOf(Words(b)))
  }

  /** What inet_ntop6 is meant to write for `b`. */
  function AddressText(b: Bytes): string
    requires |b| == 16
  {
    TreeOf(b).Text()
  }

  lemma SliceTwo(b: Bytes, p: nat, q: nat)
    requires p + 2 <= q <= |b|
    ensures b[p..q] == [b[p], b[p + 1]] + b[p + 2..q]
  {
  }

  lemma ConsGroup(hs: seq<string>, w: nat, rest: seq<string>, bytes: Bytes)
    requires w < 0x1_0000 && hs == [Hex(w)] + rest && AllH16(rest) && GroupBytes(rest) == bytes
    ensures AllH16(hs) && GroupBytes(hs) == [w / 256, w % 256] + bytes
  {
    HexIsH16(w);
    assert hs[1..] == rest;
  }

  lemma {:induction false} GroupsAreBytes(b: Bytes, lo: nat, hi: nat)
    requires |b| == 16 && lo <= hi <= 8
    ensures AllH16(HexGroups(Words(b))[lo..hi])
    ensures GroupBytes(HexGroups(Words(b))[lo..hi]) == b[2 * lo..2 * hi]
    decreases hi - lo
  {
    hide GroupBytes;
    hide Hex;
    if lo < hi {
      var all, w := HexGroups(Words(b)), Words(b)[lo];
      GroupsAreBytes(b, lo + 1, hi);
      assert all[lo..hi] == [Hex(w)] + all[lo + 1..hi];
      ConsGroup(all[lo..hi], w, all[lo + 1..hi], b[2 * (lo + 1)..2 * hi]);
      SliceTwo(b, 2 * lo, 2 * hi);
    }
  }

  lemma RunIsZeroBytes(b: Bytes, r: Run)
    requires |b| == 16 && r.base != -1 && RunIn(Words(b), r)
    ensures b[2 * r.base..2 * (r.base + r.len)] == Zeros(2 * r.len)
  {
    forall k | 2 * r.base <= k < 2 * (r.base + r.len) ensures b[k] == 0 {
      assert Words(b)[k / 2] == 0;
    }
  }

  lemma CutInThree(b: Bytes, p: nat, q: nat)
    requires p <= q <= |b|
    ensures b == b[..p] + b[p..q] + b[q..]
  {
  }

  lemma EmbeddedDenotes(b: Bytes, r: Run)
    requires |b| == 16 && RunIn(Words(b), r) && Embedded(Words(b), r)
    ensures TreeWith(b, r).Valid() && TreeWith(b, r).Bytes() == b
  {
    hide Hex;
    hide Dec;
    hide GroupBytes;
    var n := 2 * r.len;
    RunIsZeroBytes(b, r);
    GroupsAreBytes(b, r.len, 6);
    QuadOfBytes(b[12..]);
    CutInThree(b, n, 12);
    assert b[..n] == b[0..n] && [] + Zeros(n) == Zeros(n);
    assert b[..n] + b[n..12] + b[12..] == b[..n] + (b[n..12] + b[12..]);
  }

  lemma ElidedBytes(l: seq<string>, hs: seq<string>, x: Bytes, y: Bytes)
    requires AllH16(l) && AllH16(hs) && |l| + |hs| <= 7
    requires GroupBytes(l) == x && GroupBytes(hs) == y
    ensures Elided(l, Part(hs, None)).Valid()
    ensures Elided(l, Part(hs, None)).Bytes() == x + Zeros(16 - |x| - |y|) + y
  {
    hide GroupBytes;
    hide AllH16;
    hide Zeros;
    assert y + [] == y;
  }

  lemma GroupsAround(b: Bytes, p: nat, m: nat)
    requires |b| == 16 && p <= m <= 8
    ensures var hs := HexGroups(Words(b));
      && AllH16(hs[..p]) && GroupBytes(hs[..p]) == b[..2 * p]
      && AllH16(hs[m..]) && GroupBytes(hs[m..]) == b[2 * m..]
  {
    hide GroupBytes;
    hide Hex;
    hide Words;
    var hs := HexGroups(Words(b));
    GroupsAreBytes(b, 0, p);
    GroupsAreBytes(b, m, 8);
    assert hs[m..8] == hs[m..] && hs[0..p] == hs[..p];
    assert b[2 * m..16] == b[2 * m..] && b[2 * 0..2 * p] == b[..2 * p];
  }

  lemma ElidedDenotes(b: Bytes, r: Run)
    requires |b| == 16 && RunIn(Words(b), r) && r.base != -1 && !Embedded(Words(b), r)
    ensures TreeWith(b, r).Valid() && TreeWith(b, r).Bytes() == b
  {
    hide GroupBytes;
    hide Words;
    hide HexGroups;
    var p, m := r.base, r.base + r.len;
    var hs := HexGroups(Words(b));
    GroupsAround(b, p, m);
    ElidedBytes(hs[..p], hs[m..], b[..2 * p], b[2 * m..]);
    RunIsZeroBytes(b, r);
    CutInThree(b, 2 * p, 2 * m);
    assert TreeWith(b, r) == Elided(hs[..p], Part(hs[m..], None));
  }

  /** The printed tree is in the grammar and denotes the address it was made from. */
  lemma TreeWithDenotes(b: Bytes, r: Run)
    requires |b| == 16 && RunIn(Words(b), r)
    ensures TreeWith(b, r).Valid() && TreeWith(b, r).Bytes() == b
  {
    if r.base == -1 {
      GroupsAreBytes(b, 0, 8);
      assert HexGroups(Words(b))[0..8] == HexGroups(Words(b)) && b[0..16] == b && b + [] == b;
    } else if Embedded(Words(b), r) {
      EmbeddedDenotes(b, r);
    } else {
      ElidedDenotes(b, r);
    }
  }

  /** Round trip: the scanner reads every printed address back. */
  lemma ParsePrinted(b: Bytes)
    requires |b| == 16
    ensures Parse6(AddressText(b)) == Some(b)
  {
    RunOfShortens(Words(b));
    TreeWithDenotes(b, RunOf(Words(b)));
    Parse6Complete(TreeOf(b));
  }

  /** Distinct addresses have distinct texts. */
  lemma PrintedIsInjective(b1: Bytes, b2: Bytes)
    requires |b1| == 16 == |b2| && AddressText(b1) == AddressText(b2)
    ensures b1 == b2
  {
    ParsePrinted(b1);
    ParsePrinted(b2);
  }

  /** Printing what was read is a normal form: it denotes the same address, and printing again changes nothing. */
  lemma NormalForm(s: string, b: Bytes)
    requires IPv6Denotes(s, b)
    ensures |b| == 16 && IPv6Denotes(AddressText(b), b)
    ensures forall b' :: Parse6(AddressText(b)) == Some(b') ==> |b'| == 16 && AddressText(b') == AddressText(b)
  {
    ParsePrinted(b);
    Parse6IsTheGrammar(AddressText(b), b);
  }
}
