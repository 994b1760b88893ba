// Which text inet_ntop6 writes, trusted/inet_pton_ntop.c:245-298, said of the bytes alone: section 5 of RFC 5952
// for the dotted form, its sections 4.2.2 and 4.2.3 for "::".

module InetCanonical {

  import opened Basics
  import opened InetGrammar
  import opened InetParse4
  import opened InetPrint

  // An address that is written with a dotted quad: IPv4-mapped, or IPv4-compatible with its seventh word not zero.
  predicate CarriesIPv4(b: Bytes)
    requires |b| == 16
  {
    b[..10] == Zeros(10) && (b[10..12] == [255, 255] || (b[10..12] == [0, 0] && b[12..14] != [0, 0]))
  }

  lemma WordsOfBytes(b: Bytes)
    requires |b| == 16
    ensures b[..10] == Zeros(10) <==> forall i :: 0 <= i < 5 ==> Words(b)[i] == 0
    ensures b[10..12] == [255, 255] <==> Words(b)[5] == 0xffff
    ensures b[10..12] == [0, 0] <==> Words(b)[5] == 0
    ensures b[12..14] == [0, 0] <==> Words(b)[6] == 0
  {
    var words := Words(b);
    hide Words;
    assert b[10..12] == [b[10], b[11]] && b[12..14] == [b[12], b[13]];
    assert words[5] == b[2 * 5] as nat * 256 + b[2 * 5 + 1] as nat && words[6] == b[2 * 6] as nat * 256 + b[2 * 6 + 1] as nat;
    if forall i :: 0 <= i < 5 ==> words[i] == 0 {
      forall k | 0 <= k < 10 ensures b[k] == 0 { assert words[k / 2] == 0; }
      assert b[..10] == Zeros(10);
    }
    if b[..10] == Zeros(10) {
      forall i | 0 <= i < 5 ensures words[i] == 0 {
        assert b[2 * i] == b[..10][2 * i] && b[2 * i + 1] == b[..10][2 * i + 1];
      }
    }
  }

  lemma EmbeddedBytes(b: Bytes)
    requires |b| == 16
    ensures RunOf(Words(b)).base != -1 && Embedded(Words(b), RunOf(Words(b))) <==> CarriesIPv4(b)
    ensures CarriesIPv4(b) ==> RunOf(Words(b)).len == if b[10] == 255 then 5 else 6
  {
    var words := Words(b);
    var r := RunOf(words);
    WordsOfBytes(b);
    RunOfShortens(words);
    hide Words;
    hide RunOf;
    if r.base != -1 && Embedded(words, r) {
      assert forall i :: 0 <= i < 5 ==> words[i] == 0;
      if r.len == 6 { assert words[5] == 0 && !ZeroRun(words, 0, 7); }
    }
    if CarriesIPv4(b) {
      var n := if b[10] == 255 then 5 else 6;
      assert ZeroRun(words, 0, n) && words[n] != 0;
      LeadingRunShortens(words, n);
      assert words[0] == 0 && words[0 + 1] == 0 && !NothingToShorten(words);
      ShortensOnce(words, 0, n, r.base, r.len);
    }
  }

  lemma LeadingRunShortens(words: seq<nat>, n: int)
    requires |words| == 8 && 5 <= n <= 6 && ZeroRun(words, 0, n) && words[n] != 0
    ensures Shortens(words, 0, n)
  {
    forall p, m | ZeroRun(words, p, m) ensures m < n || (m == n && 0 <= p) {
      assert !(p <= n < p + m);
    }
  }

  lemma {:induction false} HexHasNoDot(hs: seq<string>)
    requires AllH16(hs)
    ensures '.' !in Join(hs)
  {
    if |hs| == 1 {
      assert H16(hs[0]);
    } else if hs != [] {
      assert H16(hs[0]);
      HexHasNoDot(hs[1..]);
    }
  }

  lemma HexGroupsAreH16(words: seq<nat>)
    requires forall i :: 0 <= i < |words| ==> words[i] < 0x1_0000
    ensures AllH16(HexGroups(words))
  {
    forall i | 0 <= i < |words| ensures H16(HexGroups(words)[i]) { HexIsH16(words[i]); }
  }

  /** The mapped and the compatible IPv4 addresses are written with their last four bytes as a dotted quad. */
  lemma DottedText(b: Bytes)
    requires |b| == 16 && CarriesIPv4(b)
    ensures AddressText(b) == (if b[10] == 255 then "::ffff:" else "::") + QuadOf(b[12..]).Text()
  {
    EmbeddedBytes(b);
    WordsOfBytes(b);
    RunOfShortens(Words(b));
    var hs, r, quad := HexGroups(Words(b)), RunOf(Words(b)), QuadOf(b[12..]).Text();
    assert TreeOf(b) == Elided([], Part(hs[r.len..6], Some(QuadOf(b[12..]))));
    LeadingGapText(Part(hs[r.len..6], Some(QuadOf(b[12..]))));
    if b[10] == 255 {
      HexOfFfff();
      assert hs[5..6] == ["ffff"];
      assert "::" + ("ffff" + ":" + quad) == "::ffff:" + quad;
      JoinTwo("ffff", quad);
    } else {
      assert hs[6..6] + [quad] == [quad];
    }
  }

  lemma JoinTwo(x: string, y: string)
    ensures Join([x] + [y]) == x + ":" + y
  {
    assert ([x] + [y])[1..] == [y];
  }

  lemma HexOfFfff()
    ensures Hex(0xffff) == "ffff"
  {
    assert Hex(0xfff) == "fff" by { assert Hex(0xff) == "ff"; }
  }

  /** The other addresses are eight hexadecimal words, of which the run that is to be shortened, if any, is "::". */
  lemma HexText(b: Bytes)
    requires |b| == 16 && !CarriesIPv4(b)
    ensures var hs := HexGroups(Words(b));
      && (NothingToShorten(Words(b)) ==> AddressText(b) == Join(hs))
      && (forall base, len :: Shortens(Words(b), base, len) ==>
            AddressText(b) == Join(hs[..base]) + "::" + Join(hs[base + len..]))
      && '.' !in AddressText(b)
  {
    var words := Words(b);
    var hs, r := HexGroups(words), RunOf(words);
    EmbeddedBytes(b);
    RunOfShortens(words);
    HexGroupsAreH16(words);
    hide RunOf;
    hide Embedded;
    hide HexGroups;
    if r.base == -1 {
      HexHasNoDot(hs);
    } else {
      HexHasNoDot(hs[..r.base]);
      HexHasNoDot(hs[r.base + r.len..]);
      assert words[r.base] == 0 && words[r.base + 1] == 0;
    }
    forall base, len | Shortens(words, base, len) ensures r == Run(base, len) {
      assert words[base] == 0 && words[base + 1] == 0;
      ShortensOnce(words, base, len, r.base, r.len);
    }
  }

  /** When the dotted form is written. */
  lemma DottedExactly(b: Bytes)
    requires |b| == 16
    ensures '.' in AddressText(b)
       <==> (b[..10] == Zeros(10) && (b[10..12] == [255, 255] || (b[10..12] == [0, 0] && b[12..14] != [0, 0])))
  {
    if CarriesIPv4(b) {
      DottedText(b);
      var q := QuadOf(b[12..]);
      assert q.Text()[|q.a|] == '.';
      assert '.' in q.Text();
    } else {
      HexText(b);
    }
  }
}
