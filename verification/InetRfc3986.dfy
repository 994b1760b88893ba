// The IPv6address production of section 3.2.2 of RFC 3986, alternative by alternative, and its equality
// with the language of the syntax trees of InetGrammar.

module InetRfc3986 {

  import opened Basics
  import opened InetGrammar

  function Terminated(hs: seq<string>): string {
    if hs == [] then "" else hs[0] + ":" + Terminated(hs[1..])
  }

  // n( h16 ":" )
  ghost predicate Groups(n: nat, s: string) {
    exists hs :: |hs| == n && AllH16(hs) && s == Terminated(hs)
  }

  // ls32 = ( h16 ":" h16 ) / IPv4address
  ghost predicate Ls32(s: string) {
    || (exists x, y :: H16(x) && H16(y) && s == x + ":" + y)
    || (exists q: Quad :: q.Valid() && s == q.Text())
  }

  // [ *k( h16 ":" ) h16 ], and nothing at all when k is -1
  ghost predicate Prefix(k: int, s: string) {
    || s == ""
    || exists hs, h :: |hs| <= k && AllH16(hs) && H16(h) && s == Terminated(hs) + h
  }

  // prefix "::" m( h16 ":" ) ls32
  ghost predicate Alternative(k: int, m: nat, s: string) {
    exists o, p, q :: Prefix(k, o) && Groups(m, p) && Ls32(q) && s == o + "::" + (p + q)
  }

  ghost predicate IPv6address(s: string) {
    || (exists p, q :: Groups(6, p) && Ls32(q) && s == p + q)
    || Alternative(-1, 5, s)
    || Alternative(0, 4, s)
    || Alternative(1, 3, s)
    || Alternative(2, 2, s)
    || Alternative(3, 1, s)
    || Alternative(4, 0, s)
    || (exists o, h :: Prefix(5, o) && H16(h) && s == o + "::" + h)
    || (exists o :: Prefix(6, o) && s == o + "::")
  }

  lemma {:induction false} TerminatedJoin(hs: seq<string>, h: string)
    ensures Join(hs + [h]) == Terminated(hs) + h
  {
    if hs == [] {
      assert hs + [h] == [h];
    } else {
      TerminatedJoin(hs[1..], h);
      assert (hs + [h])[1..] == hs[1..] + [h];
      assert hs[0] + ":" + (Terminated(hs[1..]) + h) == Terminated(hs) + h;
    }
  }

  lemma TerminatedJoinTwo(hs: seq<string>, x: string, y: string)
    ensures Join(hs + [x, y]) == Terminated(hs) + (x + ":" + y)
  {
    assert hs + [x, y] == hs + [x] + [y];
    TerminatedJoin(hs, x);
    JoinSnoc(hs + [x], y);
  }

  lemma PrefixIsJoin(k: int, s: string) returns (l: seq<string>)
    requires Prefix(k, s) && k >= -1
    ensures AllH16(l) && |l| <= k + 1 && s == Join(l)
  {
    if s == "" {
      l := [];
    } else {
      var hs, h :| |hs| <= k && AllH16(hs) && H16(h) && s == Terminated(hs) + h;
      TerminatedJoin(hs, h);
      l := hs + [h];
    }
  }

  lemma PrefixIntro(k: int, hs: seq<string>, h: string)
    requires |hs| <= k && AllH16(hs) && H16(h)
    ensures Prefix(k, Terminated(hs) + h)
  {
  }

  lemma NonemptyJoinIsPrefix(k: int, l: seq<string>)
    requires AllH16(l) && 1 <= |l| <= k + 1
    ensures Prefix(k, Join(l))
  {
    hide Join;
    hide Terminated;
    var hs, h := l[..|l| - 1], l[|l| - 1];
    assert l == hs + [h];
    TerminatedJoin(hs, h);
    PrefixIntro(k, hs, h);
  }

  lemma JoinIsPrefix(k: int, l: seq<string>)
    requires AllH16(l) && |l| <= k + 1
    ensures Prefix(k, Join(l))
  {
    if l != [] { NonemptyJoinIsPrefix(k, l); }
  }

  lemma TailIsPart(m: nat, p: string, q: string) returns (r: Part)
    requires Groups(m, p) && Ls32(q)
    ensures r.Valid() && r.Units() == m + 2 && Join(r.Pieces()) == p + q
  {
    hide Terminated;
    var hs :| |hs| == m && AllH16(hs) && p == Terminated(hs);
    if quad: Quad :| quad.Valid() && q == quad.Text() {
      r := Part(hs, Some(quad));
      TerminatedJoin(hs, quad.Text());
    } else {
      var x, y :| H16(x) && H16(y) && q == x + ":" + y;
      r := Part(hs + [x, y], None);
      TerminatedJoinTwo(hs, x, y);
    }
  }

  lemma PartIsTail(r: Part) returns (p: string, q: string)
    requires r.Valid() && r.Units() >= 2
    ensures Groups(r.Units() - 2, p) && Ls32(q) && Join(r.Pieces()) == p + q
  {
    match r.quad
    case Some(quad) =>
      p, q := Terminated(r.hs), quad.Text();
      TerminatedJoin(r.hs, q);
    case None =>
      var n := |r.hs| - 2;
      var hs, x, y := r.hs[..n], r.hs[n], r.hs[n + 1];
      p, q := Terminated(hs), x + ":" + y;
      assert r.hs == hs + [x, y];
      TerminatedJoinTwo(hs, x, y);
  }

  lemma AlternativeIsTree(k: int, m: nat, s: string) returns (t: Tree)
    requires Alternative(k, m, s) && k >= -1 && k + m <= 4
    ensures t.Valid() && t.Text() == s
  {
    var o, p, q :| Prefix(k, o) && Groups(m, p) && Ls32(q) && s == o + "::" + (p + q);
    var l := PrefixIsJoin(k, o);
    var r := TailIsPart(m, p, q);
    t := Elided(l, r);
  }

  lemma LongTailIsAlternative(l: seq<string>, r: Part)
    requires AllH16(l) && r.Valid() && r.Units() >= 2 && |l| + r.Units() <= 7
    ensures Alternative(6 - r.Units() as int, r.Units() - 2, Join(l) + "::" + Join(r.Pieces()))
  {
    JoinIsPrefix(6 - r.Units() as int, l);
    var p, q := PartIsTail(r);
  }

  lemma ShortTailIsAlternative(l: seq<string>, r: Part)
    requires AllH16(l) && r.Valid() && r.Units() < 2 && |l| + r.Units() <= 7
    ensures IPv6address(Join(l) + "::" + Join(r.Pieces()))
  {
    var o := Join(l);
    if r.hs == [] {
      JoinIsPrefix(6, l);
      assert r.Pieces() == [] && o + "::" + "" == o + "::";
    } else {
      JoinIsPrefix(5, l);
      assert r.Pieces() == [r.hs[0]];
    }
  }

  lemma SomeAlternative(m: nat, s: string)
    requires m <= 5 && Alternative(4 - m as int, m, s)
    ensures IPv6address(s)
  {
    match m
    case 0 => assert Alternative(4, 0, s);
    case 1 => assert Alternative(3, 1, s);
    case 2 => assert Alternative(2, 2, s);
    case 3 => assert Alternative(1, 3, s);
    case 4 => assert Alternative(0, 4, s);
    case _ => assert Alternative(-1, 5, s);
  }

  lemma FullIsAlternative(a: Part)
    requires a.Valid() && a.Units() == 8
    ensures IPv6address(Join(a.Pieces()))
  {
    var p, q := PartIsTail(a);
  }

  lemma TreeIsAlternative(t: Tree)
    requires t.Valid()
    ensures IPv6address(t.Text())
  {
    if t.Full? {
      FullIsAlternative(t.all);
    } else if t.right.Units() < 2 {
      ShortTailIsAlternative(t.left, t.right);
    } else {
      LongTailIsAlternative(t.left, t.right);
      SomeAlternative(t.right.Units() - 2, t.Text());
    }
  }

  lemma ShortTailIsTree(s: string) returns (t: Tree)
    requires (exists o, h :: Prefix(5, o) && H16(h) && s == o + "::" + h) || (exists o :: Prefix(6, o) && s == o + "::")
    ensures t.Valid() && t.Text() == s
  {
    if o, h :| Prefix(5, o) && H16(h) && s == o + "::" + h {
      var l := PrefixIsJoin(5, o);
      t := Elided(l, Part([h], None));
    } else {
      var o :| Prefix(6, o) && s == o + "::";
      var l := PrefixIsJoin(6, o);
      t := Elided(l, Part([], None));
      assert o + "::" + "" == o + "::";
    }
  }

  lemma AlternativeIsSomeTree(s: string) returns (t: Tree)
    requires IPv6address(s)
    ensures t.Valid() && t.Text() == s
  {
    if p, q :| Groups(6, p) && Ls32(q) && s == p + q {
      var r := TailIsPart(6, p, q);
      t := Full(r);
    } else if Alternative(-1, 5, s) { t := AlternativeIsTree(-1, 5, s);
    } else if Alternative(0, 4, s) { t := AlternativeIsTree(0, 4, s);
    } else if Alternative(1, 3, s) { t := AlternativeIsTree(1, 3, s);
    } else if Alternative(2, 2, s) { t := AlternativeIsTree(2, 2, s);
    } else if Alternative(3, 1, s) { t := AlternativeIsTree(3, 1, s);
    } else if Alternative(4, 0, s) { t := AlternativeIsTree(4, 0, s);
    } else {
      t := ShortTailIsTree(s);
    }
  }

  /** The nine published alternatives and the syntax trees describe the same texts. */
  lemma AlternativesAreTrees(s: string)
    ensures IPv6address(s) <==> exists b :: IPv6Denotes(s, b)
  {
    if b :| IPv6Denotes(s, b) {
      var t: Tree :| t.Valid() && t.Text() == s && t.Bytes() == b;
      TreeIsAlternative(t);
    }
    if IPv6address(s) {
      var t := AlternativeIsSomeTree(s);
      assert IPv6Denotes(s, t.Bytes());
    }
  }
}
