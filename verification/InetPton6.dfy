// inet_pton6 as the source writes it, trusted/inet_pton_ntop.c:67-148: a loop over indices into in-place
// buffers, proved against the function of InetParse6.

module InetPton6 {

  import opened Basics
  import opened InetGrammar
  import opened InetParse4
  import opened InetParse6

  // `colonp` as an offset into the buffer, -1 for NULL.
  function GapAt(colonp: int): Option<nat>
    requires colonp >= -1
  {
    if colonp == -1 then None else Some(colonp)
  }

  // The two bytes of a group, high byte first.
  method StoreWord(tmp: array<byte>, tp: nat, val: nat)
    requires tmp.Length == 16 && tp + 2 <= 16 && val < 0x1_0000
    modifies tmp
    ensures tmp[..tp + 2] == old(tmp[..tp]) + WordBytes(val)
  {
    tmp[tp] := val / 256;
    tmp[tp + 1] := val % 256;
    assert tmp[..tp + 2] == tmp[..tp] + WordBytes(val);
  }

  // The ":" case of the loop of inet_pton6 that ends a group.
  method StoreGroup(tmp: array<byte>, tp: nat, val: nat, ghost gap: Option<nat>, ghost tok: string, ghost rest: string)
    requires tmp.Length == 16 && tp + 2 <= 16 && H16(tok) && val == HexValue(tok)
    requires |rest| > 1 && rest[0] == ':' && (gap.Some? ==> gap.value <= tp)
    modifies tmp
    ensures old(Scan6(tmp[..tp], gap, tok, rest)) == Scan6(tmp[..tp + 2], gap, "", rest[1..])
  {
    hide Scan6;
    ghost var out := tmp[..tp];
    H16Value(tok);
    StoreWord(tmp, tp, val);
    assert ":" + rest[1..] == rest;
    StepGroup(out, gap, tok, rest[1..]);
  }

  // The "." case of the loop of inet_pton6: the rest of the text as a dotted quad.
  method StoreQuad(src: string, curtok: nat, tmp: array<byte>, tp: nat,
                   ghost gap: Option<nat>, ghost tok: string, ghost rest: string)
    returns (ok: bool)
    requires curtok <= |src| && tmp.Length == 16 && tp + 4 <= 16
    requires |tok| <= 4 && AllHex(tok) && rest != "" && rest[0] == '.' && src[curtok..] == tok + rest
    requires gap.Some? ==> gap.value <= tp
    modifies tmp
    ensures old(Scan6(tmp[..tp], gap, tok, rest)) == if ok then Scan6(tmp[..tp + 4], gap, "", "") else None
  {
    hide Parse4;
    hide Finish;
    ghost var out := tmp[..tp];
    ok := Pton4(src, curtok, tmp, tp);
    if ok {
      assert tmp[..tp + 4] == out + tmp[tp..tp + 4];
      StepQuad(out, gap, tok, rest);
    }
  }

  // The memmove and memset that replace "::" with zeros.
  method ExpandGap(tmp: array<byte>, colonp: nat, tp: nat)
    requires tmp.Length == 16 && colonp <= tp < 16
    modifies tmp
    ensures Finish(old(tmp[..tp]), Some(colonp)) == Some(tmp[..])
  {
    var n := tp - colonp;
    forall k | 0 <= k < n { tmp[16 - n + k] := tmp[colonp + k]; }
    forall k | colonp <= k < 16 - n { tmp[k] := 0; }
    ghost var out := old(tmp[..tp]);
    assert tmp[..] == out[..colonp] + Zeros(16 - |out|) + out[colonp..];
  }

  /**
   * inet_pton6: succeeds exactly on the IPv6address texts, then stores the sixteen bytes denoted, and
   * does not touch `dst` when it fails. All indices stay inside the 16-byte buffer.
   */
  method Pton6(src: string, dst: array<byte>) returns (ok: bool)
    requires dst.Length >= 16
    modifies dst
    ensures ok ==> IPv6Denotes(src, dst[..16])
    ensures !ok ==> forall b :: !IPv6Denotes(src, b)
    ensures dst[16..] == old(dst[16..])
    ensures !ok ==> dst[..] == old(dst[..])
  {
    var tmp := new byte[16];
    ok := Scan6InPlace(src, tmp);
    forall b ensures Parse6(src) == Some(b) <==> IPv6Denotes(src, b) {
      Parse6IsTheGrammar(src, b);
    }
    if ok {
      forall k | 0 <= k < 16 { dst[k] := tmp[k]; }
      assert dst[..16] == tmp[..];
    }
  }

  // The local variables of inet_pton6; `curtok` is where the current group starts.
  datatype Locals = Locals(tp: int, colonp: int, curtok: int, xdigitsSeen: int, val: int)

  // What holds of them when `tok` are the digits since the last colon.
  ghost predicate Scanning(v: Locals, tok: string) {
    && 0 <= v.tp <= 16 && v.tp % 2 == 0 && -1 <= v.colonp <= v.tp
    && |tok| == v.xdigitsSeen <= 4 && AllHex(tok) && v.val == HexValue(tok)
  }

  ghost function Outcome6(tmp: seq<byte>, v: Locals, tok: string, rest: string): Option<Bytes>
    requires |tmp| == 16 && Scanning(v, tok)
  {
    Scan6(tmp[..v.tp], GapAt(v.colonp), tok, rest)
  }

  datatype Verdict = Continue | Break | Reject

  // inet_pton6 up to the final memcpy.
  method Scan6InPlace(src: string, tmp: array<byte>) returns (ok: bool)
    requires tmp.Length == 16
    modifies tmp
    ensures Parse6(src) == if ok then Some(tmp[..]) else None
  {
    forall k | 0 <= k < 16 { tmp[k] := 0; }
    var from := 0;
    if |src| == 0 { return false; }
    if src[0] == ':' {
      from := 1;
      if from == |src| || src[from] != ':' { return false; }
    }
    assert src[0..] == src;
    var v;
    ghost var tok;
    ok, v, tok := ScanGroups(src, from, tmp);
    if ok {
      ok := FinishInPlace(tmp, v, tok);
    }
  }

  // The loop of inet_pton6. At its end `tok` is the group not yet stored.
  method ScanGroups(src: string, from: nat, tmp: array<byte>) returns (ok: bool, v: Locals, ghost tok: string)
    requires from <= |src| && tmp.Length == 16
    modifies tmp
    ensures Scanning(v, tok)
    ensures Scan6([], None, "", src[from..]) == if ok then Outcome6(tmp[..], v, tok, "") else None
  {
    v, tok := Locals(0, -1, from, 0, 0), "";
    var i := from;
    ghost var result := Scan6([], None, "", src[from..]);
    assert tmp[..][..0] == [];
    hide Scan6;
    while i < |src|
      invariant from <= i <= |src| && 0 <= v.curtok <= i && tok == src[v.curtok..i]
      invariant Scanning(v, tok)
      invariant result == Outcome6(tmp[..], v, tok, src[i..])
    {
      var verdict;
      verdict, v, tok := ScanChar(src, i, v, tmp, tok);
      if verdict.Reject? { return false, v, tok; }
      if verdict.Break? { return true, v, tok; }
      i := i + 1;
    }
    assert src[i..] == "";
    ok := true;
  }

  // One turn of the loop has not changed what the scan is going to find.
  ghost predicate Turned(src: string, i: nat, before: Option<Bytes>,
                         verdict: Verdict, tmp: seq<byte>, v: Locals, tok: string)
    requires i < |src| && |tmp| == 16
  {
    && Scanning(v, tok)
    && match verdict
       case Reject => before == None
       case Break => before == Outcome6(tmp, v, tok, "")
       case Continue =>
         && 0 <= v.curtok <= i + 1 && tok == src[v.curtok..i + 1]
         && before == Outcome6(tmp, v, tok, src[i + 1..])
  }

  // One turn of that loop.
  method ScanChar(src: string, i: nat, v0: Locals, tmp: array<byte>, ghost tok0: string)
    returns (verdict: Verdict, v: Locals, ghost tok: string)
    requires i < |src| && tmp.Length == 16 && Scanning(v0, tok0)
    requires 0 <= v0.curtok <= i && tok0 == src[v0.curtok..i]
    modifies tmp
    ensures Turned(src, i, old(Outcome6(tmp[..], v0, tok0, src[i..])), verdict, tmp[..], v, tok)
  {
    v, tok := v0, tok0;
    var ch := src[i];
    ghost var out, gap, rest := tmp[..][..v.tp], GapAt(v.colonp), src[i..];
    DropOne(src, i);
    hide Scan6;
    var digit := HexDigitValue(ch);
    if digit >= 0 {
      if v.xdigitsSeen == 4 { Step6Rejects(out, gap, tok, rest); return Reject, v, tok; }
      StepHex(out, gap, tok, rest);
      v := v.(val := v.val * 16 + digit, xdigitsSeen := v.xdigitsSeen + 1);
      tok := tok + [ch];
      assert v.val <= 0xffff;  // so the test for it cannot fire
      return Continue, v, tok;
    }
    if ch == ':' {
      verdict, v, tok := ScanColon(src, i, v, tmp, tok);
      return;
    }
    if ch == '.' && v.tp + 4 <= 16 {
      verdict, v, tok := ScanDot(src, i, v, tmp, tok);
      return;
    }
    Step6Rejects(out, gap, tok, rest);
    return Reject, v, tok;
  }

  method ScanColon(src: string, i: nat, v0: Locals, tmp: array<byte>, ghost tok0: string)
    returns (verdict: Verdict, v: Locals, ghost tok: string)
    requires i < |src| && src[i] == ':' && tmp.Length == 16 && Scanning(v0, tok0)
    modifies tmp
    ensures Turned(src, i, old(Outcome6(tmp[..], v0, tok0, src[i..])), verdict, tmp[..], v, tok)
  {
    v, tok := v0.(curtok := i + 1), tok0;
    ghost var out, gap, rest := tmp[..][..v.tp], GapAt(v.colonp), src[i..];
    assert tmp[..v.tp] == out;
    DropOne(src, i);
    hide Scan6;
    if v.xdigitsSeen == 0 {
      if v.colonp != -1 { Step6Rejects(out, gap, tok, rest); return Reject, v, tok; }
      StepGap(out, src[i + 1..]);
      assert ":" + src[i + 1..] == rest;
      return Continue, v.(colonp := v.tp), "";
    } else if i + 1 == |src| {
      Step6Rejects(out, gap, tok, rest);
      return Reject, v, tok;
    }
    if v.tp + 2 > 16 { Step6Rejects(out, gap, tok, rest); return Reject, v, tok; }
    StoreGroup(tmp, v.tp, v.val, gap, tok, rest);
    assert tmp[..v.tp + 2] == tmp[..][..v.tp + 2];
    return Continue, v.(tp := v.tp + 2, xdigitsSeen := 0, val := 0), "";
  }

  method ScanDot(src: string, i: nat, v0: Locals, tmp: array<byte>, ghost tok0: string)
    returns (verdict: Verdict, v: Locals, ghost tok: string)
    requires i < |src| && src[i] == '.' && tmp.Length == 16 && Scanning(v0, tok0) && v0.tp + 4 <= 16
    requires 0 <= v0.curtok <= i && tok0 == src[v0.curtok..i]
    modifies tmp
    ensures Turned(src, i, old(Outcome6(tmp[..], v0, tok0, src[i..])), verdict, tmp[..], v, tok)
  {
    v, tok := v0, tok0;
    assert tmp[..v.tp] == tmp[..][..v.tp];
    assert src[v.curtok..] == tok + src[i..];
    hide Scan6;
    var quad := StoreQuad(src, v.curtok, tmp, v.tp, GapAt(v.colonp), tok, src[i..]);
    if !quad { return Reject, v, tok; }
    assert tmp[..v.tp + 4] == tmp[..][..v.tp + 4];
    return Break, v.(tp := v.tp + 4, xdigitsSeen := 0, val := 0), "";  // inet_pton4 has read to the end
  }

  // inet_pton6 after its loop: the last group, the zeros for "::", and the length test.
  method FinishInPlace(tmp: array<byte>, v: Locals, ghost tok: string) returns (ok: bool)
    requires tmp.Length == 16 && Scanning(v, tok)
    modifies tmp
    ensures old(Outcome6(tmp[..], v, tok, "")) == if ok then Some(tmp[..]) else None
  {
    var tp := v.tp;
    assert tmp[..][..tp] == tmp[..tp];
    if v.xdigitsSeen > 0 {
      if tp + 2 > 16 { return false; }
      H16Value(tok);
      StoreWord(tmp, tp, v.val);
      tp := tp + 2;
    }
    assert Finish(tmp[..tp], GapAt(v.colonp)) == old(Outcome6(tmp[..], v, tok, ""));
    if v.colonp != -1 {
      if tp == 16 { return false; }
      ExpandGap(tmp, v.colonp, tp);
      tp := 16;
    }
    if tp != 16 { return false; }
    assert tmp[..16] == tmp[..];
    return true;
  }
}
