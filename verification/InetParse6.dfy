// inet_pton6, trusted/inet_pton_ntop.c:67-148, as a function of its text: it accepts exactly the texts of the
// grammar's trees, with exactly the bytes they denote. InetPton6 is the loop over buffers that computes it.

module InetParse6 {

  import opened Basics
  import opened InetGrammar
  import opened InetParse4

  /**
   * What inet_pton6 makes of `rest` once it has stored the bytes `out`, put `colonp` at offset `gap`
   * if it saw "::", and read the hexadecimal digits `tok` since the last colon.
   */
  function Scan6(out: Bytes, gap: Option<nat>, tok: string, rest: string): Option<Bytes>
    requires |tok| <= 4 && AllHex(tok) && |out| <= 16 && (gap.Some? ==> gap.value <= |out|)
    decreases |rest|
  {
    if rest == "" then
      if tok == "" then Finish(out, gap)
      else if |out| + 2 > 16 then None
      else H16Value(tok); Finish(out + WordBytes(HexValue(tok)), gap)
    else if IsHex(rest[0]) then
      if |tok| == 4 then None else Scan6(out, gap, tok + [rest[0]], rest[1..])
    else if rest[0] == ':' then
      if tok == "" then
        if gap.Some? then None else Scan6(out, Some(|out|), "", rest[1..])
      else if |rest| == 1 || |out| + 2 > 16 then None
      else H16Value(tok); Scan6(out + WordBytes(HexValue(tok)), gap, "", rest[1..])
    else if rest[0] == '.' && |out| + 4 <= 16 && Parse4(tok + rest).Some? then
      Finish(out + Parse4(tok + rest).value, gap)
    else None
  }

  // Replace "::" by as many zeros as are missing, at least one group.
  function Finish(out: Bytes, gap: Option<nat>): Option<Bytes>
    requires gap.Some? ==> gap.value <= |out|
  {
    match gap
    case None => if |out| == 16 then Some(out) else None
    case Some(p) =>
      if |out| >= 16 then None else Some(out[..p] + Zeros(16 - |out|) + out[p..])
  }

  function Parse6(s: string): Option<Bytes> {
    if s == "" then None
    else if s[0] == ':' then
      if |s| == 1 || s[1] != ':' then None else Scan6([], None, "", s[1..])
    else Scan6([], None, "", s)
  }

  // ---------------------------------------------------------------- every text of the grammar is accepted

  lemma {:induction false} ScanHex(out: Bytes, gap: Option<nat>, tok: string, h: string, rest: string)
    requires |tok + h| <= 4 && AllHex(tok) && AllHex(h)
    requires |out| <= 16 && (gap.Some? ==> gap.value <= |out|)
    ensures Scan6(out, gap, tok, h + rest) == Scan6(out, gap, tok + h, rest)
    decreases |h|
  {
    if h == "" {
      assert tok + h == tok && h + rest == rest;
    } else {
      ScanHex(out, gap, tok + [h[0]], h[1..], rest);
      assert (h + rest)[1..] == h[1..] + rest;
      assert tok + [h[0]] + h[1..] == tok + h;
    }
  }

  lemma StepGroup(out: Bytes, gap: Option<nat>, h: string, rest: string)
    requires H16(h) && rest != "" && |out| + 2 <= 16 && (gap.Some? ==> gap.value <= |out|)
    ensures HexValue(h) < 0x1_0000
    ensures Scan6(out, gap, h, ":" + rest) == Scan6(out + WordBytes(HexValue(h)), gap, "", rest)
  {
    hide Parse4;
    hide Finish;
    H16Value(h);
    assert (":" + rest)[1..] == rest;
  }

  lemma StepGap(out: Bytes, rest: string)
    requires |out| <= 16
    ensures Scan6(out, None, "", ":" + rest) == Scan6(out, Some(|out|), "", rest)
  {
    hide Parse4;
    hide Finish;
    assert (":" + rest)[1..] == rest;
  }

  lemma StepHex(out: Bytes, gap: Option<nat>, tok: string, rest: string)
    requires |tok| < 4 && AllHex(tok) && |out| <= 16 && (gap.Some? ==> gap.value <= |out|)
    requires rest != "" && IsHex(rest[0])
    ensures H16(tok + [rest[0]])
    ensures HexValue(tok + [rest[0]]) == HexValue(tok) * 16 + HexDigitValue(rest[0]) < 0x1_0000
    ensures Scan6(out, gap, tok, rest) == Scan6(out, gap, tok + [rest[0]], rest[1..])
  {
    hide Parse4;
    hide Finish;
    assert (tok + [rest[0]])[..|tok|] == tok;
    H16Value(tok + [rest[0]]);
  }

  // The characters at which inet_pton6 gives up.
  lemma Step6Rejects(out: Bytes, gap: Option<nat>, tok: string, rest: string)
    requires |tok| <= 4 && AllHex(tok) && |out| <= 16 && (gap.Some? ==> gap.value <= |out|)
    requires rest != ""
    requires || (IsHex(rest[0]) && |tok| == 4)
             || (rest[0] == ':' && tok == "" && gap.Some?)
             || (rest[0] == ':' && tok != "" && (|rest| == 1 || |out| + 2 > 16))
             || (rest[0] == '.' && |out| + 4 > 16)
             || (!IsHex(rest[0]) && rest[0] != ':' && rest[0] != '.')
    ensures Scan6(out, gap, tok, rest) == None
  {
    hide Parse4;
    hide Finish;
  }

  lemma StepQuad(out: Bytes, gap: Option<nat>, tok: string, rest: string)
    requires |tok| <= 4 && AllHex(tok) && |out| + 4 <= 16 && (gap.Some? ==> gap.value <= |out|)
    requires rest != "" && rest[0] == '.' && Parse4(tok + rest).Some?
    ensures Scan6(out, gap, tok, rest) == Finish(out + Parse4(tok + rest).value, gap)
  {
    hide Parse4;
    hide Finish;
  }

  lemma ScanGroup(out: Bytes, gap: Option<nat>, h: string, rest: string)
    requires H16(h) && rest != "" && |out| + 2 <= 16 && (gap.Some? ==> gap.value <= |out|)
    ensures HexValue(h) < 0x1_0000
    ensures Scan6(out, gap, "", h + ":" + rest) == Scan6(out + WordBytes(HexValue(h)), gap, "", rest)
  {
    hide Scan6;
    StepGroup(out, gap, h, rest);
    assert "" + h == h && h + (":" + rest) == h + ":" + rest;
    ScanHex(out, gap, "", h, ":" + rest);
  }

  lemma ScanLastGroup(out: Bytes, gap: Option<nat>, h: string)
    requires H16(h) && |out| + 2 <= 16 && (gap.Some? ==> gap.value <= |out|)
    ensures HexValue(h) < 0x1_0000
    ensures Scan6(out, gap, "", h) == Finish(out + WordBytes(HexValue(h)), gap)
  {
    hide Parse4;
    H16Value(h);
    ScanHex(out, gap, "", h, "");
    assert "" + h == h && h + "" == h;
  }

  lemma ScanQuad(out: Bytes, gap: Option<nat>, q: Quad)
    requires q.Valid() && |out| + 4 <= 16 && (gap.Some? ==> gap.value <= |out|)
    ensures Scan6(out, gap, "", q.Text()) == Finish(out + q.Bytes(), gap)
  {
    hide Scan6;
    hide Parse4;
    hide Finish;
    DecOctetValue(q.a);
    QuadTextRight(q);
    var tail := q.b + "." + (q.c + "." + q.d);
    var rest := "." + tail;
    assert q.a + "." + tail == q.a + rest && "" + q.a == q.a;
    assert IPv4Denotes(q.Text(), q.Bytes());
    Parse4IsTheGrammar(q.Text(), q.Bytes());
    StepQuad(out, gap, q.a, rest);
    ScanHex(out, gap, "", q.a, rest);
  }

  lemma JoinPieces(p: Part)
    requires p.Valid() && p.hs != []
    ensures var tail := Part(p.hs[1..], p.quad);
      if tail.Pieces() == [] then Join(p.Pieces()) == p.hs[0]
      else Join(tail.Pieces()) != "" && Join(p.Pieces()) == p.hs[0] + ":" + Join(tail.Pieces())
  {
    var tail := Part(p.hs[1..], p.quad);
    assert p.Pieces() == [p.hs[0]] + tail.Pieces();
    assert p.Pieces()[1..] == tail.Pieces();
    JoinNonempty(tail.Pieces());
  }

  lemma PartBytesCons(out: Bytes, p: Part)
    requires p.Valid() && p.hs != []
    ensures HexValue(p.hs[0]) < 0x1_0000
    ensures out + WordBytes(HexValue(p.hs[0])) + Part(p.hs[1..], p.quad).Bytes() == out + p.Bytes()
  {
    H16Value(p.hs[0]);
  }

  lemma {:induction false} ScanPart(out: Bytes, gap: Option<nat>, p: Part)
    requires p.Valid() && |out| + 2 * p.Units() <= 16 && (gap.Some? ==> gap.value <= |out|)
    ensures Scan6(out, gap, "", Join(p.Pieces())) == Finish(out + p.Bytes(), gap)
    decreases |p.hs|
  {
    hide Finish;
    hide Parse4;
    if p.hs == [] {
      if p.quad.Some? {
        assert p.Pieces() == [p.quad.value.Text()];
        assert p.Bytes() == p.quad.value.Bytes();
        ScanQuad(out, gap, p.quad.value);
      } else {
        assert out + p.Bytes() == out;
      }
    } else {
      var h, tail := p.hs[0], Part(p.hs[1..], p.quad);
      PartBytesCons(out, p);
      JoinPieces(p);
      var out' := out + WordBytes(HexValue(h));
      if tail.Pieces() == [] {
        assert out' + tail.Bytes() == out';
        ScanLastGroup(out, gap, h);
      } else {
        ScanPart(out', gap, tail);
        ScanGroup(out, gap, h, Join(tail.Pieces()));
      }
    }
  }

  lemma {:induction false} ScanLeft(out: Bytes, l: seq<string>, rest: string)
    requires l != [] && AllH16(l) && |out| + 2 * |l| <= 16
    ensures Scan6(out, None, "", Join(l) + "::" + rest)
         == Scan6(out + GroupBytes(l), Some(|out| + 2 * |l|), "", rest)
    decreases |l|
  {
    hide Scan6;
    var h := l[0];
    H16Value(h);
    var out' := out + WordBytes(HexValue(h));
    assert out' + GroupBytes(l[1..]) == out + GroupBytes(l);
    if |l| == 1 {
      assert Join(l) + "::" + rest == h + ":" + (":" + rest);
      assert out' == out + GroupBytes(l);
      StepGap(out', rest);
      ScanGroup(out, None, h, ":" + rest);
    } else {
      var more := Join(l[1..]) + "::" + rest;
      assert Join(l) + "::" + rest == h + ":" + more;
      ScanLeft(out', l[1..], rest);
      ScanGroup(out, None, h, more);
    }
  }

  lemma JoinStartsWithHex(l: seq<string>, more: string)
    requires l != [] && AllH16(l)
    ensures (Join(l) + more) != "" && IsHex((Join(l) + more)[0])
  {
    assert H16(l[0]);
  }

  lemma PartStartsWithHex(p: Part)
    requires p.Valid() && p.Pieces() != []
    ensures Join(p.Pieces()) != "" && IsHex(Join(p.Pieces())[0])
  {
    if p.hs == [] {
      DecOctetValue(p.quad.value.a);
      assert Join(p.Pieces()) == p.quad.value.Text();
    } else {
      assert p.Pieces()[0] == p.hs[0];
    }
  }

  lemma Parse6Elided(l: seq<string>, rest: string)
    requires AllH16(l) && |l| <= 7
    ensures Parse6(Join(l) + "::" + rest) == Scan6(GroupBytes(l), Some(2 * |l|), "", rest)
  {
    hide Scan6;
    var s := Join(l) + "::" + rest;
    if l == [] {
      assert s[1..] == ":" + rest;
      StepGap([], rest);
    } else {
      assert s == Join(l) + ("::" + rest);
      JoinStartsWithHex(l, "::" + rest);
      ScanLeft([], l, rest);
      assert [] + GroupBytes(l) == GroupBytes(l);
    }
  }

  /** Every text of the grammar is accepted, with the bytes it denotes. */
  lemma Parse6Complete(t: Tree)
    requires t.Valid()
    ensures Parse6(t.Text()) == Some(t.Bytes())
  {
    hide Scan6;
    hide Join;
    match t
    case Full(p) =>
      PartStartsWithHex(p);
      ScanPart([], None, p);
      assert [] + p.Bytes() == p.Bytes();
    case Elided(l, r) =>
      var left, right := GroupBytes(l), r.Bytes();
      Parse6Elided(l, Join(r.Pieces()));
      ScanPart(left, Some(2 * |l|), r);
      assert (left + right)[..2 * |l|] == left && (left + right)[2 * |l|..] == right;
  }

  // ---------------------------------------------------------------- every accepted text is in the grammar

  lemma LastPart(out: Bytes, tok: string) returns (p: Part)
    requires |tok| <= 4 && AllHex(tok)
    ensures p.Valid() && Join(p.Pieces()) == tok
    ensures tok == "" ==> out + p.Bytes() == out
    ensures tok != "" ==> HexValue(tok) < 0x1_0000 && out + p.Bytes() == out + WordBytes(HexValue(tok))
  {
    p := Part(if tok == "" then [] else [tok], None);
    if tok != "" {
      H16Value(tok);
      assert p.Bytes() == WordBytes(HexValue(tok));
    }
  }

  // Whatever the scan accepts after "::" is a part of the grammar, one piece of which may already be in `tok`.
  lemma {:induction false} SoundPart(out: Bytes, gap: nat, tok: string, rest: string, b: Bytes) returns (p: Part)
    requires |tok| <= 4 && AllHex(tok) && gap <= |out| <= 16
    requires Scan6(out, Some(gap), tok, rest) == Some(b)
    ensures p.Valid() && Join(p.Pieces()) == tok + rest
    ensures Some(b) == Finish(out + p.Bytes(), Some(gap))
    decreases |rest|
  {
    hide Parse4;
    if rest == "" {
      assert tok + rest == tok;
      p := LastPart(out, tok);
    } else if IsHex(rest[0]) {
      assert tok + [rest[0]] + rest[1..] == tok + rest;
      p := SoundPart(out, gap, tok + [rest[0]], rest[1..], b);
    } else if rest[0] == ':' {
      H16Value(tok);
      assert rest[1..] != "" && "" + rest[1..] == rest[1..];
      var tail := SoundPart(out + WordBytes(HexValue(tok)), gap, "", rest[1..], b);
      p := ConsPart(out, tok, tail, rest);
    } else {
      p := SoundQuad(tok + rest);
      assert out + p.Bytes() == out + Parse4(tok + rest).value;
    }
  }

  lemma PartCons(h: string, tail: Part, p: Part)
    requires H16(h) && tail.Valid() && p == Part([h] + tail.hs, tail.quad)
    ensures p.Valid() && HexValue(h) < 0x1_0000
    ensures p.Bytes() == WordBytes(HexValue(h)) + tail.Bytes()
    ensures Join(tail.Pieces()) != "" ==> Join(p.Pieces()) == h + ":" + Join(tail.Pieces())
  {
    H16Value(h);
    assert ([h] + tail.hs)[1..] == tail.hs;
    assert p.Pieces() == [h] + tail.Pieces() && p.Pieces()[1..] == tail.Pieces();
  }

  lemma ConsPart(out: Bytes, h: string, tail: Part, rest: string) returns (p: Part)
    requires H16(h) && tail.Valid() && |rest| > 1 && rest[0] == ':' && Join(tail.Pieces()) == rest[1..]
    ensures p.Valid() && HexValue(h) < 0x1_0000 && Join(p.Pieces()) == h + rest
    ensures out + WordBytes(HexValue(h)) + tail.Bytes() == out + p.Bytes()
  {
    p := Part([h] + tail.hs, tail.quad);
    PartCons(h, tail, p);
    assert h + ":" + rest[1..] == h + rest;
  }

  lemma SoundQuad(s: string) returns (p: Part)
    requires Parse4(s).Some?
    ensures p.Valid() && p.hs == [] && Join(p.Pieces()) == s && p.Bytes() == Parse4(s).value
  {
    Parse4IsTheGrammar(s, Parse4(s).value);
    var q: Quad :| q.Valid() && q.Text() == s && q.Bytes() == Parse4(s).value;
    p := Part([], Some(q));
    assert p.Pieces() == [s];
  }

  // What the scan still accepts after the groups `l0`, before any "::": more groups `l` and then either
  // the part that ends the address, or the second colon of "::" and the part that follows it.
  ghost predicate Rest6(l: seq<string>, elided: bool, r: Part, text: string) {
    && AllH16(l) && r.Valid() && (!elided ==> l == [])
    && text == if !elided then Join(r.Pieces())
               else if l == [] then ":" + Join(r.Pieces())
               else Join(l) + "::" + Join(r.Pieces())
  }

  lemma {:induction false} SoundBeforeGap(out: Bytes, tok: string, rest: string, b: Bytes)
    returns (l: seq<string>, elided: bool, r: Part)
    requires |tok| <= 4 && AllHex(tok) && |out| <= 16
    requires Scan6(out, None, tok, rest) == Some(b)
    ensures Rest6(l, elided, r, tok + rest)
    ensures var left := out + GroupBytes(l);
      Some(b) == Finish(left + r.Bytes(), if elided then Some(|left|) else None)
    decreases |rest|
  {
    hide Parse4;
    hide Finish;
    l, elided := [], false;
    assert out + GroupBytes([]) == out;
    if rest == "" {
      assert tok + rest == tok;
      r := LastPart(out, tok);
    } else if IsHex(rest[0]) {
      assert tok + [rest[0]] + rest[1..] == tok + rest;
      l, elided, r := SoundBeforeGap(out, tok + [rest[0]], rest[1..], b);
    } else if rest[0] == ':' && tok == "" {
      elided := true;
      r := SoundPart(out, |out|, "", rest[1..], b);
      assert "" + rest[1..] == rest[1..] && tok + rest == ":" + rest[1..];
    } else if rest[0] == ':' {
      H16Value(tok);
      var out' := out + WordBytes(HexValue(tok));
      var l', elided', r' := SoundBeforeGap(out', "", rest[1..], b);
      assert "" + rest[1..] == rest[1..] && tok + ":" + rest[1..] == tok + rest;
      l, elided, r := ConsRest(out, tok, l', elided', r', rest[1..]);
    } else {
      r := SoundQuad(tok + rest);
      assert out + r.Bytes() == out + Parse4(tok + rest).value;
    }
  }

  lemma ConsRest(out: Bytes, h: string, l': seq<string>, elided: bool, r': Part, text: string)
    returns (l: seq<string>, elided': bool, r: Part)
    requires H16(h) && Rest6(l', elided, r', text) && text != ""
    ensures HexValue(h) < 0x1_0000
    ensures elided' == elided && Rest6(l, elided, r, h + ":" + text)
    ensures out + WordBytes(HexValue(h)) + GroupBytes(l') + r'.Bytes() == out + GroupBytes(l) + r.Bytes()
    ensures elided ==> out + WordBytes(HexValue(h)) + GroupBytes(l') == out + GroupBytes(l)
  {
    H16Value(h);
    elided' := elided;
    if elided {
      l, r := [h] + l', r';
      assert l[1..] == l';
      if l' == [] {
        assert h + ":" + (":" + Join(r.Pieces())) == Join(l) + "::" + Join(r.Pieces());
      } else {
        assert h + ":" + (Join(l') + "::" + Join(r.Pieces())) == Join(l) + "::" + Join(r.Pieces());
      }
    } else {
      l, r := [], Part([h] + r'.hs, r'.quad);
      PartCons(h, r', r);
    }
  }

  lemma SoundLeadingGap(s: string, b: Bytes)
    requires Parse6(s) == Some(b) && s[0] == ':'
    ensures IPv6Denotes(s, b)
  {
    hide Parse4;
    hide Join;
    assert s[1..][0] == ':' && s[1..][1..] == s[2..];
    var r := SoundPart([], 0, "", s[2..], b);
    var t := Elided([], r);
    LeadingGapText(r);
    assert s == "::" + s[2..] && "" + s[2..] == s[2..];
    assert [] + r.Bytes() == r.Bytes();
    assert r.Bytes()[..0] == [] && r.Bytes()[0..] == r.Bytes();
    assert t.Valid() && t.Text() == s && t.Bytes() == b;
  }

  lemma SoundNoLeadingGap(s: string, b: Bytes)
    requires Parse6(s) == Some(b) && s[0] != ':'
    ensures IPv6Denotes(s, b)
  {
    hide Scan6;
    var l, elided, r := SoundBeforeGap([], "", s, b);
    assert "" + s == s && [] + GroupBytes(l) == GroupBytes(l);
    var t := if elided then Elided(l, r) else Full(r);
    var all := GroupBytes(l) + r.Bytes();
    assert all[..|GroupBytes(l)|] == GroupBytes(l) && all[|GroupBytes(l)|..] == r.Bytes();
    if !elided { assert all == r.Bytes(); }
    assert t.Valid() && t.Text() == s && t.Bytes() == b;
  }

  lemma Parse6Sound(s: string, b: Bytes)
    requires Parse6(s) == Some(b)
    ensures IPv6Denotes(s, b)
  {
    if s[0] == ':' { SoundLeadingGap(s, b); } else { SoundNoLeadingGap(s, b); }
  }

  /**
   * inet_pton6 accepts exactly the IPv6address texts, and stores the groups before "::", zeros, and the
   * groups after it. Since Parse6 is a function, no text denotes two addresses.
   */
  lemma Parse6IsTheGrammar(s: string, b: Bytes)
    ensures Parse6(s) == Some(b) <==> IPv6Denotes(s, b)
  {
    if Parse6(s) == Some(b) { Parse6Sound(s, b); }
    if IPv6Denotes(s, b) {
      var t: Tree :| t.Valid() && t.Text() == s && t.Bytes() == b;
      Parse6Complete(t);
    }
  }
}
