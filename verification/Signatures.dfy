// Why a signature predicted from one copy of a group is right for the copy it ends up on.

module Signatures {

  import opened Basics
  import opened Primitives
  import opened Documents

  // ---------------------------------------------------------------- streams of concatenations

  lemma {:induction false} DocStreamCons(f: Field, rest: Doc, skip: Option<Bytes>)
    ensures DocStream([f] + rest, skip) == FieldStream(f, skip) + DocStream(rest, skip)
    decreases |rest|
  {
    hide FieldStream;
    if rest == [] {
      assert [f] + rest == [f] && [f][..0] == [];
    } else {
      var n := |rest| - 1;
      DocStreamCons(f, rest[..n], skip);
      assert ([f] + rest)[..n + 1] == [f] + rest[..n];
    }
  }

  lemma DocStreamHead(doc: Doc, skip: Option<Bytes>)
    requires doc != []
    ensures DocStream(doc, skip) == FieldStream(doc[0], skip) + DocStream(doc[1..], skip)
  {
    assert doc == [doc[0]] + doc[1..];
    DocStreamCons(doc[0], doc[1..], skip);
  }

  lemma {:induction false} SkippedIsRemoved(list: seq<Member>, name: Bytes)
    ensures MemberStream(list, Some(name)) == MemberStream(Without(list, name), None)
  {
    if list != [] {
      var init, m := list[..|list| - 1], list[|list| - 1];
      SkippedIsRemoved(init, name);
      if m.name != name {
        assert (Without(init, name) + [m])[..|Without(init, name)|] == Without(init, name);
      } else {
        assert Without(init, name) + [] == Without(init, name);
      }
    }
  }

  lemma MemberStreamSnoc(list: seq<Member>, m: Member)
    ensures MemberStream(list + [m], None) == MemberStream(list, None) + (m.name + m.key)
  {
    assert (list + [m])[..|list|] == list;
  }

  // ---------------------------------------------------------------- updates, seen through the stream

  predicate NoUsers(doc: Doc) { forall i :: 0 <= i < |doc| ==> doc[i].key != "users" }

  predicate NothingSigned(doc: Doc) {
    forall i :: 0 <= i < |doc| ==> doc[i].key != "name" && doc[i].key != "encname" && doc[i].key != "users"
  }

  // At most one "users" field.
  predicate UsersOnce(doc: Doc) {
    forall i, j :: 0 <= i < j < |doc| ==> doc[i].key != "users" || doc[j].key != "users"
  }

  // One "users" field, holding a list, and nothing signed after it.
  predicate UsersLast(doc: Doc) {
    exists i :: 0 <= i < |doc| && UsersAt(doc, i)
  }

  predicate UsersAt(doc: Doc, i: int) {
    0 <= i < |doc| && doc[i].key == "users" && doc[i].value.Users? && NoUsers(doc[..i]) && NothingSigned(doc[i + 1..])
  }

  lemma UsersInTail(doc: Doc, i: int)
    requires i > 0 && UsersAt(doc, i)
    ensures doc[0].key != "users" && UsersAt(doc[1..], i - 1)
  {
    var rest := doc[1..];
    assert doc[..i][0] == doc[0];
    assert rest[i - 1] == doc[i] && rest[..i - 1] == doc[..i][1..] && rest[i..] == doc[i + 1..];
  }

  lemma {:induction false} NothingSignedStream(doc: Doc, skip: Option<Bytes>)
    requires NothingSigned(doc)
    ensures DocStream(doc, skip) == []
  {
    if doc != [] { NothingSignedStream(doc[..|doc| - 1], skip); }
  }

  lemma {:induction false} SkipIsForUsers(doc: Doc, skip: Option<Bytes>)
    requires NoUsers(doc)
    ensures DocStream(doc, skip) == DocStream(doc, None)
  {
    if doc != [] { SkipIsForUsers(doc[..|doc| - 1], skip); }
  }

  lemma {:induction false} SignatureIsNotSigned(doc: Doc, tag: Tag)
    ensures DocStream(SetField(doc, "signature", Signature(tag)), None) == DocStream(doc, None)
  {
    var f := Field("signature", Signature(tag));
    var set' := SetField(doc, "signature", Signature(tag));
    if doc == [] {
      assert [f][..0] == [];
    } else {
      DocStreamHead(doc, None);
      if doc[0].key == "signature" {
        DocStreamCons(f, doc[1..], None);
      } else {
        SignatureIsNotSigned(doc[1..], tag);
        DocStreamCons(doc[0], SetField(doc[1..], "signature", Signature(tag)), None);
      }
    }
  }

  lemma {:induction false} SignatureIsSet(doc: Doc, tag: Tag)
    ensures Lookup(SetField(doc, "signature", Signature(tag)), "signature") == Some(Signature(tag))
  {
    if doc != [] && doc[0].key != "signature" {
      SignatureIsSet(doc[1..], tag);
      assert SetField(doc, "signature", Signature(tag))[1..] == SetField(doc[1..], "signature", Signature(tag));
    }
  }

  lemma {:induction false} PulledStream(doc: Doc, name: Bytes)
    requires UsersOnce(doc)
    ensures DocStream(ChangeUsers(doc, Pull(name)), None) == DocStream(doc, Some(name))
  {
    if doc != [] {
      var f, rest := doc[0], doc[1..];
      DocStreamHead(doc, Some(name));
      if f.key == "users" {
        var v := if f.value.Users? then Users(Without(f.value.list, name)) else f.value;
        DocStreamCons(Field("users", v), rest, None);
        SkipIsForUsers(rest, Some(name));
        if f.value.Users? { SkippedIsRemoved(f.value.list, name); }
      } else {
        PulledStream(rest, name);
        DocStreamCons(f, ChangeUsers(rest, Pull(name)), None);
      }
    }
  }

  lemma PushedStreamHere(f: Field, rest: Doc, m: Member)
    requires f.key == "users" && f.value.Users? && NothingSigned(rest)
    ensures DocStream(ChangeUsers([f] + rest, Push(m)), None) == DocStream([f] + rest, None) + (m.name + m.key)
  {
    var f' := Field("users", Users(f.value.list + [m]));
    assert ([f] + rest)[1..] == rest;
    NothingSignedStream(rest, None);
    MemberStreamSnoc(f.value.list, m);
    DocStreamCons(f, rest, None);
    DocStreamCons(f', rest, None);
  }

  lemma PushedStreamLater(f: Field, rest: Doc, m: Member)
    requires f.key != "users"
    requires DocStream(ChangeUsers(rest, Push(m)), None) == DocStream(rest, None) + (m.name + m.key)
    ensures DocStream(ChangeUsers([f] + rest, Push(m)), None) == DocStream([f] + rest, None) + (m.name + m.key)
  {
    hide FieldStream;
    assert ([f] + rest)[1..] == rest;
    DocStreamCons(f, rest, None);
    DocStreamCons(f, ChangeUsers(rest, Push(m)), None);
  }

  lemma {:induction false} PushedStream(doc: Doc, m: Member)
    requires UsersLast(doc)
    ensures DocStream(ChangeUsers(doc, Push(m)), None) == DocStream(doc, None) + (m.name + m.key)
  {
    hide DocStream;
    hide NoUsers;
    hide NothingSigned;
    var i :| 0 <= i < |doc| && UsersAt(doc, i);
    var f, rest := doc[0], doc[1..];
    assert doc == [f] + rest;
    if i == 0 {
      PushedStreamHere(f, rest, m);
    } else {
      UsersInTail(doc, i);
      PushedStream(rest, m);
      PushedStreamLater(f, rest, m);
    }
  }

  // ---------------------------------------------------------------- predicted signatures

  /** The signature predicted for a removal is that of the document after $pull, which drops every match. */
  lemma PredictedRemove(doc: Doc, name: Bytes, tag: Tag)
    requires UsersOnce(doc)
    ensures SignedStream(doc, Some(name), None, false)
         == PlainStream(ApplyUpdate(doc, Update(Pull(name), tag)))
  {
    PulledStream(doc, name);
    SignatureIsNotSigned(ChangeUsers(doc, Pull(name)), tag);
  }

  /** The signature predicted for an addition is that of the document after $push: "users" is signed last. */
  lemma PredictedAdd(doc: Doc, m: Member, tag: Tag)
    requires UsersLast(doc)
    ensures SignedStream(doc, Some(m.name), Some(m.key), true)
         == PlainStream(ApplyUpdate(doc, Update(Push(m), tag)))
  {
    PushedStream(doc, m);
    SignatureIsNotSigned(ChangeUsers(doc, Push(m)), tag);
  }

  // The keys of the fields, in order.
  function Keys(doc: Doc): seq<string> { seq(|doc|, i requires 0 <= i < |doc| => doc[i].key) }

  predicate HasKey(doc: Doc, key: string) { exists i :: 0 <= i < |doc| && doc[i].key == key }

  lemma {:induction false} SetFieldKeys(doc: Doc, key: string, v: Value)
    requires HasKey(doc, key)
    ensures Keys(SetField(doc, key, v)) == Keys(doc)
  {
    if doc[0].key != key {
      var i :| 0 <= i < |doc| && doc[i].key == key;
      assert doc[1..][i - 1].key == key;
      SetFieldKeys(doc[1..], key, v);
      assert Keys(doc) == [doc[0].key] + Keys(doc[1..]);
      assert Keys(SetField(doc, key, v)) == [doc[0].key] + Keys(SetField(doc[1..], key, v));
    }
  }

  lemma {:induction false} ChangeUsersKeys(doc: Doc, change: Change)
    requires HasKey(doc, "users")
    ensures Keys(ChangeUsers(doc, change)) == Keys(doc)
  {
    if doc[0].key != "users" {
      var i :| 0 <= i < |doc| && doc[i].key == "users";
      assert doc[1..][i - 1].key == "users";
      ChangeUsersKeys(doc[1..], change);
      assert Keys(doc) == [doc[0].key] + Keys(doc[1..]);
      assert Keys(ChangeUsers(doc, change)) == [doc[0].key] + Keys(ChangeUsers(doc[1..], change));
    }
  }

  /** No update moves, adds or drops a field, so the order set at creation is kept. */
  lemma FieldOrderKept(doc: Doc, u: Update)
    requires HasKey(doc, "users") && HasKey(doc, "signature")
    ensures Keys(ApplyUpdate(doc, u)) == Keys(doc)
  {
    ChangeUsersKeys(doc, u.change);
    var d := ChangeUsers(doc, u.change);
    var i :| 0 <= i < |doc| && doc[i].key == "signature";
    assert Keys(d)[i] == Keys(doc)[i] && d[i].key == "signature";
    SetFieldKeys(d, "signature", Signature(u.signature));
  }

  // ---------------------------------------------------------------- the documents of create_group

  lemma ShapedIsGroupDoc(doc: Doc)
    requires Shaped(doc)
    ensures doc == GroupDoc(NameOf(doc), EncNameOf(doc), MembersOf(doc), TagOf(doc))
  {
  }

  lemma GroupDocLookups(n: Bytes, e: Bytes, ms: seq<Member>, tag: Tag)
    ensures var d := GroupDoc(n, e, ms, tag);
      && Lookup(d, "name") == Some(Bin(n)) && Lookup(d, "encname") == Some(Bin(e))
      && Lookup(d, "users") == Some(Users(ms)) && Lookup(d, "signature") == Some(Signature(tag))
  {
    var d := GroupDoc(n, e, ms, tag);
    assert d[1..][0] == d[1] && d[1..][1..][0] == d[2] && d[1..][1..][1..][0] == d[3];
    assert Lookup(d[1..][1..], "signature") == Lookup(d[1..][1..][1..], "signature");
    assert Lookup(d[1..], "users") == Lookup(d[1..][1..], "users");
  }

  lemma GroupDocStream(n: Bytes, e: Bytes, ms: seq<Member>, tag: Tag)
    ensures PlainStream(GroupDoc(n, e, ms, tag)) == n + e + MemberStream(ms, None)
  {
    var d := GroupDoc(n, e, ms, tag);
    assert d[..3][..2] == d[..2] && d[..2][..1] == d[..1] && d[..1][..0] == [];
    assert d[..3][2] == d[2] && d[..2][1] == d[1] && d[..1][0] == d[0];
    assert DocStream(d[..1], None) == n;
    assert DocStream(d[..2], None) == n + e;
    assert DocStream(d[..3], None) == n + e + MemberStream(ms, None);
    assert DocStream(d, None) == n + e + MemberStream(ms, None);
  }

  lemma GroupDocUpdate(n: Bytes, e: Bytes, ms: seq<Member>, tag: Tag, u: Update)
    ensures ApplyUpdate(GroupDoc(n, e, ms, tag), u) == GroupDoc(n, e, ChangedList(ms, u.change), u.signature)
  {
    var d := GroupDoc(n, e, ms, tag);
    var ms' := ChangedList(ms, u.change);
    var d1 := GroupDoc(n, e, ms', tag);
    assert ChangeUsers(d[2..], u.change) == d1[2..];
    assert d[1..][1..] == d[2..];
    assert ChangeUsers(d[1..], u.change) == [d[1]] + d1[2..];
    assert ChangeUsers(d, u.change) == d1;
    var v := Signature(u.signature);
    assert SetField(d1[3..], "signature", v) == [Field("signature", v)];
    assert d1[2..][1..] == d1[3..] && d1[1..][1..] == d1[2..];
    assert SetField(d1[2..], "signature", v) == [d1[2], Field("signature", v)];
    assert SetField(d1[1..], "signature", v) == [d1[1], d1[2], Field("signature", v)];
  }

  lemma ShapedUsers(doc: Doc)
    requires Shaped(doc)
    ensures UsersOnce(doc) && UsersLast(doc)
  {
    assert UsersAt(doc, 2);
  }

  /** The signature a group document carries is right: its tag is the MAC of its contents. */
  lemma ShapedValidates(doc: Doc)
    requires Shaped(doc)
    ensures Validates(doc) <==> TagOf(doc) == Mac(NameOf(doc) + EncNameOf(doc) + MemberStream(MembersOf(doc), None))
    ensures Lookup(doc, "signature") == Some(Signature(TagOf(doc)))
    ensures forall t :: Passes(doc, SignatureIs(t)) <==> TagOf(doc) == t
    ensures forall u :: HasUser(doc, u) <==> u in MemberNames(MembersOf(doc))
  {
    GroupDocLookups(NameOf(doc), EncNameOf(doc), MembersOf(doc), TagOf(doc));
    GroupDocStream(NameOf(doc), EncNameOf(doc), MembersOf(doc), TagOf(doc));
    ShapedIsGroupDoc(doc);
  }

  // ---------------------------------------------------------------- injectivity

  // Hashed names, and keys of one length.
  predicate Uniform(list: seq<Member>, keyLength: nat) {
    forall i :: 0 <= i < |list| ==> |list[i].name| == HASH_SIZE && |list[i].key| == keyLength
  }

  lemma SplitEnds(x: Bytes, y: Bytes, a: Bytes, b: Bytes)
    requires x + a == y + b && |a| == |b|
    ensures x == y && a == b
  {
    assert |x| == |y|;
    assert x == (x + a)[..|x|] && y == (y + b)[..|y|];
    assert a == (x + a)[|x|..] && b == (y + b)[|y|..];
  }

  lemma UniformLast(list: seq<Member>, keyLength: nat)
    requires list != [] && Uniform(list, keyLength)
    ensures Uniform(list[..|list| - 1], keyLength)
    ensures |list[|list| - 1].name + list[|list| - 1].key| == HASH_SIZE + keyLength
  {
  }

  lemma MemberStreamLast(list: seq<Member>)
    requires list != []
    ensures var m := list[|list| - 1];
      MemberStream(list, None) == MemberStream(list[..|list| - 1], None) + (m.name + m.key)
  {
  }

  lemma InitAndLast(list: seq<Member>)
    requires list != []
    ensures list == list[..|list| - 1] + [list[|list| - 1]]
  {
  }

  lemma {:induction false} MemberStreamInjective(xs: seq<Member>, ys: seq<Member>, keyLength: nat)
    requires Uniform(xs, keyLength) && Uniform(ys, keyLength)
    requires MemberStream(xs, None) == MemberStream(ys, None)
    ensures xs == ys
    decreases |xs|
  {
    if xs != [] { UniformLast(xs, keyLength); MemberStreamLast(xs); }
    if ys != [] { UniformLast(ys, keyLength); MemberStreamLast(ys); }
    if xs != [] && ys != [] {
      var m, n := |xs| - 1, |ys| - 1;
      var x, y := xs[m], ys[n];
      SplitEnds(MemberStream(xs[..m], None), MemberStream(ys[..n], None), x.name + x.key, y.name + y.key);
      SplitEnds(x.name, y.name, x.key, y.key);
      MemberStreamInjective(xs[..m], ys[..n], keyLength);
      InitAndLast(xs);
      InitAndLast(ys);
    }
  }

  lemma SplitStarts(x: Bytes, y: Bytes, a: Bytes, b: Bytes)
    requires x + a == y + b && |x| == |y|
    ensures x == y && a == b
  {
    assert x == (x + a)[..|x|] && y == (y + b)[..|y|];
    assert a == (x + a)[|x|..] && b == (y + b)[|y|..];
  }

  /**
   * Two copies of one group that carry the same signature have the same contents: selecting on the old
   * signature is a compare-and-swap.
   */
  lemma SignatureDeterminesGroup(d1: Doc, d2: Doc, keyLength: nat)
    requires Shaped(d1) && Shaped(d2) && Validates(d1) && Validates(d2)
    requires |NameOf(d1)| == |NameOf(d2)| && |EncNameOf(d1)| == |EncNameOf(d2)|
    requires Uniform(MembersOf(d1), keyLength) && Uniform(MembersOf(d2), keyLength)
    requires TagOf(d1) == TagOf(d2)
    ensures d1 == d2
  {
    ShapedValidates(d1);
    ShapedValidates(d2);
    var h1, h2 := NameOf(d1) + EncNameOf(d1), NameOf(d2) + EncNameOf(d2);
    SplitStarts(h1, h2, MemberStream(MembersOf(d1), None), MemberStream(MembersOf(d2), None));
    SplitStarts(NameOf(d1), NameOf(d2), EncNameOf(d1), EncNameOf(d2));
    MemberStreamInjective(MembersOf(d1), MembersOf(d2), keyLength);
    ShapedIsGroupDoc(d1);
    ShapedIsGroupDoc(d2);
  }

  // ---------------------------------------------------------------- a commit against another copy

  /** An addition predicted from `snap` is right for `stored` as soon as both carry the same valid signature. */
  lemma {:induction false} AddCommitKeepsSignature(stored: Doc, snap: Doc, m: Member)
    requires UsersLast(stored) && Validates(stored) && Validates(snap)
    requires Lookup(stored, "signature") == Lookup(snap, "signature")
    ensures Validates(ApplyUpdate(stored, Update(Push(m), Mac(SignedStream(snap, Some(m.name), Some(m.key), true)))))
  {
    var tag := Mac(SignedStream(snap, Some(m.name), Some(m.key), true));
    assert PlainStream(stored) == PlainStream(snap);
    assert SignedStream(snap, Some(m.name), Some(m.key), true) == SignedStream(stored, Some(m.name), Some(m.key), true) by {
      assert PlainStream(snap) == DocStream(snap, None) && PlainStream(stored) == DocStream(stored, None);
    }
    PredictedAdd(stored, m, tag);
    SignatureIsSet(ChangeUsers(stored, Push(m)), tag);
  }

  /** A removal predicted from `snap` needs the two copies to be equal, which fixed key lengths give it. */
  lemma RemoveCommitKeepsSignature(stored: Doc, name: Bytes)
    requires UsersOnce(stored)
    ensures Validates(ApplyUpdate(stored, Update(Pull(name), Mac(SignedStream(stored, Some(name), None, false)))))
  {
    var tag := Mac(SignedStream(stored, Some(name), None, false));
    PredictedRemove(stored, name, tag);
    SignatureIsSet(ChangeUsers(stored, Pull(name)), tag);
  }

  // A key that reads as "key, name, key".
  function LongKey(k: Bytes, u2: Bytes, k2: Bytes): Bytes { k + u2 + k2 }

  /**
   * Without one key length it fails: a key that reads as "key, name, key" gives two member lists one signature,
   * the selector takes the other list for the snapshot, and the stored group no longer validates.
   */
  lemma RemoveNeedsOneKeyLength(n: Bytes, e: Bytes, u: Bytes, k: Bytes, u2: Bytes, k2: Bytes)
    requires u != u2 && u2 + k2 != []
    ensures var tag := Mac(n + e + (u + LongKey(k, u2, k2)));
      var snap := GroupDoc(n, e, [Member(u, LongKey(k, u2, k2))], tag);
      var stored := GroupDoc(n, e, [Member(u, k), Member(u2, k2)], tag);
      var sel := Selector(n, [HasMember(u), SignatureIs(tag)]);
      && Validates(snap) && Validates(stored) && Selects(sel, snap) && Selects(sel, stored)
      && !Validates(ApplyUpdate(stored, Update(Pull(u), Mac(SignedStream(snap, Some(u), None, false)))))
  {
    hide ApplyUpdate;
    hide SignedStream;
    hide MemberStream;
    hide Without;
    var tag := Mac(n + e + (u + LongKey(k, u2, k2)));
    var one, two := [Member(u, LongKey(k, u2, k2))], [Member(u, k), Member(u2, k2)];
    OneMember(one[0], u);
    TwoMembers(two[0], two[1], u);
    assert u + k + (u2 + k2) == u + LongKey(k, u2, k2);
    assert one[0].name == u && two[0].name == u;
    var snap, stored := GroupDoc(n, e, one, tag), GroupDoc(n, e, two, tag);
    ShapedValidates(snap);
    ShapedValidates(stored);
    hide LongKey;
    PredictionWithout(n, e, one, tag, u);
    var guess := Mac(SignedStream(snap, Some(u), None, false));
    GroupDocUpdate(n, e, two, tag, Update(Pull(u), guess));
    ShapedValidates(GroupDoc(n, e, [two[1]], guess));
    assert |n + e + []| < |n + e + (u2 + k2)|;
  }

  lemma PredictionWithout(n: Bytes, e: Bytes, ms: seq<Member>, tag: Tag, u: Bytes)
    ensures SignedStream(GroupDoc(n, e, ms, tag), Some(u), None, false)
         == n + e + MemberStream(Without(ms, u), None)
  {
    ShapedUsers(GroupDoc(n, e, ms, tag));
    PredictedRemove(GroupDoc(n, e, ms, tag), u, tag);
    GroupDocUpdate(n, e, ms, tag, Update(Pull(u), tag));
    GroupDocStream(n, e, Without(ms, u), tag);
  }

  lemma OneMember(m: Member, u: Bytes)
    requires m.name == u
    ensures MemberStream([m], None) == u + m.key && Without([m], u) == []
    ensures MemberStream([], None) == []
  {
    assert [m][..0] == [];
  }

  lemma TwoMembers(m: Member, m2: Member, u: Bytes)
    requires m.name == u && m2.name != u
    ensures MemberStream([m, m2], None) == u + m.key + (m2.name + m2.key)
    ensures Without([m, m2], u) == [m2] && MemberStream([m2], None) == m2.name + m2.key
  {
    OneMember(m, u);
    OneMember(m2, m2.name);
    assert [m, m2][..1] == [m];
  }
}
