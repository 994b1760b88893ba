// inet_ntop4 and inet_ntop6 over their character buffers, trusted/inet_pton_ntop.c:204-308.

module InetFormat {

  import opened Basics
  import opened InetGrammar
  import opened InetParse4
  import opened InetPrint

  const TMP_SIZE := 46  // sizeof "ffff:ffff:ffff:ffff:ffff:ffff:255.255.255.255"

  /** inet_ntop4: copies the text to `dst[at..]` unless it needs `size` characters or more. */
  method Ntop4(src: Bytes, dst: array<char>, at: nat, size: nat) returns (copied: Option<nat>)
    requires |src| == 4 && at + size <= dst.Length
    modifies dst
    ensures var text := QuadOf(src).Text();
      && copied == (if |text| >= size then None else Some(|text|))
      && (copied.Some? ==> dst[..at + |text|] == old(dst[..at]) + text)
    ensures copied.None? ==> dst[..] == old(dst[..])
  {
    var text := Dec(src[0]) + "." + Dec(src[1]) + "." + Dec(src[2]) + "." + Dec(src[3]);
    assert text == QuadOf(src).Text();
    if |text| >= size { return None; }
    forall k | 0 <= k < |text| { dst[at + k] := text[k]; }
    assert dst[..at + |text|] == old(dst[..at]) + text;
    return Some(|text|);
  }

  // What snprintf writes: the characters and the terminating NUL.
  method PutText(tmp: array<char>, tp: nat, text: string)
    requires tp + |text| < tmp.Length
    modifies tmp
    ensures tmp[..tp + |text|] == old(tmp[..tp]) + text
  {
    forall k | 0 <= k < |text| { tmp[tp + k] := text[k]; }
    tmp[tp + |text|] := '\0';
    assert tmp[..tp + |text|] == old(tmp[..tp]) + text;
  }

  // One character at the write position.
  method PutChar(tmp: array<char>, tp: nat, c: char)
    requires tp < tmp.Length
    modifies tmp
    ensures tmp[..tp + 1] == old(tmp[..tp]) + [c]
  {
    tmp[tp] := c;
    assert tmp[..tp + 1] == old(tmp[..tp]) + [c];
  }

  // The colon in front of every group but the first.
  method PutSeparator(tmp: array<char>, tp0: nat, i: nat) returns (tp: nat)
    requires tp0 < tmp.Length
    modifies tmp
    ensures tp == (if i != 0 then tp0 + 1 else tp0)
    ensures tmp[..tp] == old(tmp[..tp0]) + if i != 0 then ":" else ""
  {
    tp := tp0;
    if i != 0 {
      PutChar(tmp, tp, ':');
      tp := tp + 1;
    }
  }

  // The characters written before word `i` is looked at, as long as no dotted quad was written.
  function Written(hs: seq<string>, r: Run, i: nat): string
    requires |hs| == 8 && i <= 8
    requires r.base == -1 || (0 <= r.base && r.len >= 2 && r.base + r.len <= 8)
  {
    if r.base == -1 || i <= r.base then Join(hs[..i])
    else if i <= r.base + r.len then Join(hs[..r.base]) + ":"
    else Join(hs[..r.base]) + "::" + Join(hs[r.base + r.len..i])
  }

  predicate InRun(r: Run, i: nat) { r.base != -1 && r.base <= i < r.base + r.len }

  // What a turn of the formatting loop adds inside the run ...
  lemma WrittenInRun(hs: seq<string>, r: Run, i: nat)
    requires |hs| == 8 && i < 8 && InRun(r, i) && 0 <= r.base && r.len >= 2 && r.base + r.len <= 8
    ensures Written(hs, r, i + 1) == Written(hs, r, i) + if i == r.base then ":" else ""
  {
  }

  // ... and outside it.
  lemma WrittenGroup(hs: seq<string>, r: Run, i: nat)
    requires |hs| == 8 && i < 8 && !InRun(r, i)
    requires r.base == -1 || (0 <= r.base && r.len >= 2 && r.base + r.len <= 8)
    ensures Written(hs, r, i + 1) == Written(hs, r, i) + (if i != 0 then ":" else "") + hs[i]
  {
    assert Join([]) == "" && hs[..0] == [];
    hide Join;
    if r.base == -1 || i < r.base {
      assert hs[..i + 1] == hs[..i] + [hs[i]];
      JoinSnoc(hs[..i], hs[i]);
    } else {
      var m := r.base + r.len;
      assert hs[m..i + 1] == hs[m..i] + [hs[i]];
      JoinSnoc(hs[m..i], hs[i]);
    }
  }

  lemma WrittenAll(b: Bytes, r: Run)
    requires |b| == 16 && RunIn(Words(b), r) && !(r.base != -1 && Embedded(Words(b), r))
    ensures TreeWith(b, r).Text()
         == Written(HexGroups(Words(b)), r, 8) + if r.base != -1 && r.base + r.len == 8 then ":" else ""
  {
    var hs := HexGroups(Words(b));
    assert hs[..8] == hs && (r.base != -1 ==> hs[r.base + r.len..8] == hs[r.base + r.len..]);
    if r.base != -1 && r.base + r.len == 8 { assert Join(hs[..r.base]) + "::" + "" == Join(hs[..r.base]) + ":" + ":"; }
  }

  lemma EmbeddedText(hs: seq<string>, r: Run, quad: string)
    requires |hs| == 8 && r.base == 0 && (r.len == 5 || r.len == 6) && |hs[5]| <= 4
    ensures |Written(hs, r, 6)| <= 6
    ensures Join([]) + "::" + Join(hs[r.len..6] + [quad]) == Written(hs, r, 6) + ":" + quad
  {
    JoinSnoc(hs[r.len..6], quad);
    if r.len == 6 {
      assert hs[r.len..6] == [];
    } else {
      assert hs[r.len..6] == [hs[5]];
    }
  }

  lemma WrittenEmbedded(b: Bytes, r: Run)
    requires |b| == 16 && RunIn(Words(b), r) && r.base != -1 && Embedded(Words(b), r)
    ensures |Written(HexGroups(Words(b)), r, 6)| <= 6
    ensures TreeWith(b, r).Text() == Written(HexGroups(Words(b)), r, 6) + ":" + QuadOf(b[12..]).Text()
  {
    HexIsH16(Words(b)[5]);
    EmbeddedText(HexGroups(Words(b)), r, QuadOf(b[12..]).Text());
  }

  lemma QuadTextLength(b: Bytes)
    requires |b| == 4
    ensures 7 <= |QuadOf(b).Text()| <= 15
  {
  }

  /** No address needs more than 39 characters. */
  lemma AddressTextLength(b: Bytes)
    requires |b| == 16
    ensures |AddressText(b)| <= 39
  {
    hide Join;
    hide Hex;
    hide HexValue;
    hide Dec;
    QuadTextLength(b[12..]);
    RunOfShortens(Words(b));
    var r, hs := RunOf(Words(b)), HexGroups(Words(b));
    forall i | 0 <= i < 8 ensures |hs[i]| <= 4 { HexIsH16(Words(b)[i]); }
    if r.base == -1 {
      JoinLength(hs);
    } else if Embedded(Words(b), r) {
      WrittenEmbedded(b, r);
    } else {
      JoinLength(hs[..r.base]);
      JoinLength(hs[r.base + r.len..]);
    }
  }

  /**
   * inet_ntop6: the text of the address, or NULL (None) exactly when it does not fit in `size` with its NUL.
   * Every write stays inside the buffer and the inner inet_ntop4 never fails.
   */
  method Ntop6(src: Bytes, size: nat) returns (text: Option<string>)
    requires |src| == 16
    ensures text == if |AddressText(src)| + 1 > size then None else Some(AddressText(src))
  {
    AddressTextLength(src);
    ghost var expected := AddressText(src);
    var words := ReadWords(src);
    var best := SelectRun(words);
    SelectedTree(src, best);
    var tmp := new char[TMP_SIZE];
    var tp := FormatWords(src, words, best, tmp);
    assert tmp[..tp] == expected;
    PutChar(tmp, tp, '\0');
    if tp + 1 > size { return None; }
    assert tmp[..tp] == tmp[..tp + 1][..tp];
    return Some(tmp[..tp]);
  }

  // The sixteen bytes, read in pairs.
  method ReadWords(src: Bytes) returns (words: seq<nat>)
    requires |src| == 16
    ensures words == Words(src)
  {
    words := [];
    var i := 0;
    while i < 16
      invariant i == 2 * |words| <= 16 && words == Words(src)[..|words|]
    {
      words := words + [src[i] as nat * 256 + src[i + 1] as nat];
      i := i + 2;
    }
  }

  lemma ShortenedIsZero(words: seq<nat>, base: int, len: int)
    requires Shortens(words, base, len)
    ensures !NothingToShorten(words)
  {
    assert words[base] == 0 && words[base + 1] == 0;
  }

  // The loop's choice is the one AddressText makes.
  lemma SelectedTree(b: Bytes, best: Run)
    requires |b| == 16
    requires best.base == -1 <==> NothingToShorten(Words(b))
    requires best.base != -1 ==> Shortens(Words(b), best.base, best.len)
    ensures RunIn(Words(b), best) && TreeWith(b, best).Text() == AddressText(b)
  {
    RunOfShortens(Words(b));
    var r := RunOf(Words(b));
    if best.base != -1 {
      ShortenedIsZero(Words(b), best.base, best.len);
      ShortensOnce(Words(b), best.base, best.len, r.base, r.len);
    } else if r.base != -1 {
      ShortenedIsZero(Words(b), r.base, r.len);
    }
  }

  // The encapsulated IPv4 address that ends the text.
  method PutQuad(src: Bytes, best: Run, tmp: array<char>, tp0: nat) returns (tp: nat)
    requires |src| == 16 && RunIn(Words(src), best) && best.base != -1 && Embedded(Words(src), best)
    requires tmp.Length == TMP_SIZE && tp0 < TMP_SIZE
    requires tmp[..tp0] == Written(HexGroups(Words(src)), best, 6) + ":"
    modifies tmp
    ensures tp < TMP_SIZE && tmp[..tp] == TreeWith(src, best).Text()
  {
    WrittenEmbedded(src, best);
    QuadTextLength(src[12..]);
    var copied := Ntop4(src[12..], tmp, tp0, TMP_SIZE - tp0);
    assert copied.Some?;
    tp := tp0 + copied.value;
  }

  // The formatting loop and the ':' after a trailing run.
  method FormatWords(src: Bytes, words: seq<nat>, best: Run, tmp: array<char>) returns (tp: nat)
    requires |src| == 16 && words == Words(src) && RunIn(words, best) && tmp.Length == TMP_SIZE
    modifies tmp
    ensures tp < TMP_SIZE && tmp[..tp] == TreeWith(src, best).Text()
  {
    hide Hex;
    hide TreeWith;
    ghost var hs := HexGroups(words);
    tp := 0;
    var i := 0;
    while i < 8
      invariant 0 <= i <= 8 && tp <= 5 * i
      invariant tmp[..tp] == Written(hs, best, i)
      invariant best.base != -1 && Embedded(words, best) ==> i <= 6
    {
      if best.base != -1 && i >= best.base && i < best.base + best.len {
        WrittenInRun(hs, best, i);
        if i == best.base {
          PutChar(tmp, tp, ':');
          tp := tp + 1;
        }
        i := i + 1;
        continue;
      }
      WrittenGroup(hs, best, i);
      tp := PutSeparator(tmp, tp, i);
      if i == 6 && best.base == 0 && (best.len == 6 || (best.len == 5 && words[5] == 0xffff)) {
        tp := PutQuad(src, best, tmp, tp);
        return;
      }
      HexIsH16(words[i]);
      PutText(tmp, tp, Hex(words[i]));
      tp := tp + |Hex(words[i])|;
      i := i + 1;
    }
    WrittenAll(src, best);
    if best.base != -1 && best.base + best.len == 8 {
      PutChar(tmp, tp, ':');
      tp := tp + 1;
    }
  }
}
