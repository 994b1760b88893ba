// What every step of the protocol keeps: stored groups are well formed, correctly signed and without
// duplicates, whatever snapshots the clients still hold.

module Safety {

  import opened Basics
  import opened Primitives
  import opened Documents
  import opened Signatures
  import opened Protocol

  predicate Distinct(list: seq<Member>) {
    forall i, j :: 0 <= i < j < |list| ==> list[i].name != list[j].name
  }

  // A correctly signed document of the group stored under `name`.
  ghost predicate SoundDoc(w: World, name: Bytes, doc: Doc) {
    && Shaped(doc) && NameOf(doc) == name && Distinct(MembersOf(doc)) && Validates(doc)
    && match w.crypto.decrypt(EncNameOf(doc))
       case Some(g) => g in w.groupNames && w.GroupHash(g) == name
       case None => false
  }

  // A sound document whose ciphertexts have the lengths encryption gives them.
  ghost predicate GroupOk(w: World, name: Bytes, doc: Doc) {
    && SoundDoc(w, name, doc)
    && |EncNameOf(doc)| == |w.crypto.decrypt(EncNameOf(doc)).value| + w.crypto.overhead
    && Uniform(MembersOf(doc), w.keySize + w.crypto.overhead)
  }

  ghost predicate RequestOk(w: World, req: Request) {
    NamesOk(w, req.group, req.user) && (req.Add? ==> KeyOk(w, req.key))
  }

  // A queued removal was predicted from a well-formed copy of the group it selects.
  ghost predicate BulkOpOk(w: World, op: BulkOp) {
    && NamesOk(w, op.group, op.user)
    && op.selector.name == w.GroupHash(op.group)
    && |op.selector.tests| == 1 && op.selector.tests[0].IsDocument?
    && GroupOk(w, op.selector.name, op.selector.tests[0].doc)
    && op.update == PredictedUpdate(w, Remove(op.group, op.user), op.selector.tests[0].doc)
  }

  ghost predicate ClientOk(w: World, c: Client) {
    match c
    case Seeking(req, _, _) => RequestOk(w, req)
    case Holding(req, _, _, snap, _) => RequestOk(w, req) && GroupOk(w, w.GroupHash(req.group), snap)
    case Sweeping(user, ops) => user in w.userNames && forall k :: 0 <= k < |ops| ==> BulkOpOk(w, ops[k])
    case Executing(ops) => forall k :: 0 <= k < |ops| ==> BulkOpOk(w, ops[k])
    case Finished(outcome) => outcome != BadSignature && outcome != Undecryptable
    case Idle => true
  }

  ghost predicate Inv(w: World, s: State) {
    && (forall name :: name in s.groups ==> GroupOk(w, name, s.groups[name]))
    && (forall i :: 0 <= i < |s.clients| ==> ClientOk(w, s.clients[i]))
  }

  // ---------------------------------------------------------------- two copies of one group

  lemma SameTagSameGroup(w: World, name: Bytes, d1: Doc, d2: Doc)
    requires w.Ideal() && GroupOk(w, name, d1) && GroupOk(w, name, d2) && TagOf(d1) == TagOf(d2)
    ensures d1 == d2
  {
    w.GroupHashInjective(w.crypto.decrypt(EncNameOf(d1)).value, w.crypto.decrypt(EncNameOf(d2)).value);
    SignatureDeterminesGroup(d1, d2, w.keySize + w.crypto.overhead);
  }

  // What the selector of the conditional update says about the document it picks.
  lemma SelectedByTag(w: World, req: Request, snap: Doc, stored: Doc)
    requires Shaped(snap) && Shaped(stored)
    ensures Selects(UpdateSelector(w, req, snap), stored)
       <==> (TagOf(stored) == TagOf(snap)
             && (req.Add? <==> w.MemberHash(req.group, req.user) !in MemberNames(MembersOf(stored))))
  {
    ShapedValidates(snap);
    ShapedValidates(stored);
    ShapedIsGroupDoc(snap);
    GroupDocLookups(NameOf(snap), EncNameOf(snap), MembersOf(snap), TagOf(snap));
    var sel := UpdateSelector(w, req, snap);
    assert sel.tests == FindSelector(w, req).tests + [SignatureIs(TagOf(snap))];
    assert sel.tests[0] == FindSelector(w, req).tests[0] && sel.tests[1] == SignatureIs(TagOf(snap));
  }

  lemma {:induction false} WithoutMembers(list: seq<Member>, name: Bytes)
    ensures forall i :: 0 <= i < |Without(list, name)| ==> Without(list, name)[i] in list && Without(list, name)[i].name != name
    ensures name !in MemberNames(list) ==> Without(list, name) == list
  {
    if list != [] {
      WithoutMembers(list[..|list| - 1], name);
      InitAndLast(list);
      assert list[|list| - 1] in list;
    }
  }

  lemma {:induction false} WithoutDistinct(list: seq<Member>, name: Bytes)
    requires Distinct(list)
    ensures Distinct(Without(list, name))
  {
    if list != [] {
      var init := list[..|list| - 1];
      WithoutDistinct(init, name);
      WithoutMembers(init, name);
    }
  }

  lemma ChangedListDistinct(list: seq<Member>, change: Change)
    requires Distinct(list)
    requires change.Push? ==> change.member.name !in MemberNames(list)
    ensures Distinct(ChangedList(list, change))
  {
    match change
    case Push(m) =>
      forall i | 0 <= i < |list| ensures list[i].name != m.name { assert list[i] in list; }
    case Pull(name) => WithoutDistinct(list, name);
  }

  lemma ChangedListUniform(list: seq<Member>, change: Change, keyLength: nat)
    requires Uniform(list, keyLength)
    requires change.Push? ==> |change.member.name| == HASH_SIZE && |change.member.key| == keyLength
    ensures Uniform(ChangedList(list, change), keyLength)
  {
    if change.Pull? { WithoutMembers(list, change.name); }
  }

  // ---------------------------------------------------------------- commits

  /** A signature predicted from `snap` is installed on `stored`, and is right there. */
  lemma UpdateKeepsSound(w: World, name: Bytes, req: Request, snap: Doc, stored: Doc)
    requires SoundDoc(w, name, snap) && SoundDoc(w, name, stored)
    requires TagOf(snap) == TagOf(stored) && (req.Remove? ==> snap == stored)
    requires req.Add? ==> w.MemberHash(req.group, req.user) !in MemberNames(MembersOf(stored))
    ensures var after := ApplyUpdate(stored, PredictedUpdate(w, req, snap));
      && SoundDoc(w, name, after) && EncNameOf(after) == EncNameOf(stored)
      && MembersOf(after) == ChangedList(MembersOf(stored), PredictedUpdate(w, req, snap).change)
  {
    var u := PredictedUpdate(w, req, snap);
    ShapedUsers(stored);
    ShapedIsGroupDoc(stored);
    GroupDocUpdate(NameOf(stored), EncNameOf(stored), MembersOf(stored), TagOf(stored), u);
    ChangedListDistinct(MembersOf(stored), u.change);
    ShapedValidates(snap);
    ShapedValidates(stored);
    match req
    case Add(_, _, _) => AddCommitKeepsSignature(stored, snap, u.change.member);
    case Remove(_, _) => RemoveCommitKeepsSignature(stored, u.change.name);
  }

  /** The conditional update of add and remove leaves a well-formed, correctly signed group. */
  lemma CommitKeepsGroup(w: World, req: Request, snap: Doc, stored: Doc)
    requires w.Ideal() && RequestOk(w, req)
    requires GroupOk(w, w.GroupHash(req.group), snap) && GroupOk(w, w.GroupHash(req.group), stored)
    requires Selects(UpdateSelector(w, req, snap), stored)
    ensures GroupOk(w, w.GroupHash(req.group), ApplyUpdate(stored, PredictedUpdate(w, req, snap)))
    ensures MembersOf(ApplyUpdate(stored, PredictedUpdate(w, req, snap)))
         == ChangedList(MembersOf(stored), PredictedUpdate(w, req, snap).change)
  {
    SelectedByTag(w, req, snap, stored);
    if req.Remove? { SameTagSameGroup(w, w.GroupHash(req.group), snap, stored); }
    UpdateKeepsSound(w, w.GroupHash(req.group), req, snap, stored);
    ChangedListUniform(MembersOf(stored), PredictedUpdate(w, req, snap).change, w.keySize + w.crypto.overhead);
  }

  /** It also changes the group. */
  lemma CommitChangesGroup(w: World, req: Request, snap: Doc, stored: Doc)
    requires w.Ideal() && RequestOk(w, req)
    requires GroupOk(w, w.GroupHash(req.group), snap) && GroupOk(w, w.GroupHash(req.group), stored)
    requires Selects(UpdateSelector(w, req, snap), stored)
    ensures ApplyUpdate(stored, PredictedUpdate(w, req, snap)) != stored
  {
    SelectedByTag(w, req, snap, stored);
    CommitKeepsGroup(w, req, snap, stored);
    WithoutMembers(MembersOf(stored), w.MemberHash(req.group, req.user));
    hide ApplyUpdate;
    hide GroupOk;
    hide Selects;
    hide Without;
  }

  // A bulk update matches only the document it was computed from.
  lemma BulkKeepsGroup(w: World, op: BulkOp, stored: Doc)
    requires w.Ideal() && BulkOpOk(w, op) && Selects(op.selector, stored)
    ensures GroupOk(w, op.selector.name, ApplyUpdate(stored, op.update))
    ensures MembersOf(ApplyUpdate(stored, op.update)) == ChangedList(MembersOf(stored), op.update.change)
  {
    assert Passes(stored, op.selector.tests[0]);
    UpdateKeepsSound(w, op.selector.name, Remove(op.group, op.user), stored, stored);
    ChangedListUniform(MembersOf(stored), op.update.change, w.keySize + w.crypto.overhead);
  }

  lemma NewGroupIsGroupDoc(w: World, g: Bytes, u: Bytes, key: Bytes, encname: Bytes)
    ensures var tag := TagOf(NewGroup(w, g, u, key, encname));
      && NewGroup(w, g, u, key, encname) == GroupDoc(w.GroupHash(g), encname, [Member(w.MemberHash(g, u), key)], tag)
      && Validates(NewGroup(w, g, u, key, encname))
  {
    var doc := NewGroup(w, g, u, key, encname);
    var ms := [Member(w.MemberHash(g, u), key)];
    var unsigned := doc[..3];
    assert unsigned == [Field("name", Bin(w.GroupHash(g))), Field("encname", Bin(encname)), Field("users", Users(ms))];
    assert DocStream(doc, None) == DocStream(unsigned, None) + FieldStream(doc[3], None);
    assert PlainStream(doc) == PlainStream(unsigned);
    GroupDocLookups(w.GroupHash(g), encname, ms, TagOf(doc));
  }

  lemma NewGroupSound(w: World, g: Bytes, u: Bytes, key: Bytes, encname: Bytes)
    requires g in w.groupNames && w.Encrypts(g, encname)
    ensures SoundDoc(w, w.GroupHash(g), NewGroup(w, g, u, key, encname))
  {
    NewGroupIsGroupDoc(w, g, u, key, encname);
  }

  lemma NewGroupOk(w: World, g: Bytes, u: Bytes, key: Bytes, encname: Bytes)
    requires w.Ideal() && NamesOk(w, g, u) && KeyOk(w, key) && w.Encrypts(g, encname)
    ensures GroupOk(w, w.GroupHash(g), NewGroup(w, g, u, key, encname))
  {
    NewGroupIsGroupDoc(w, g, u, key, encname);
  }

  // Such an operation is exactly what a sweep makes of that copy.
  lemma BulkOpIsSwept(w: World, op: BulkOp)
    requires w.Ideal() && BulkOpOk(w, op)
    ensures SweepDocument(w, op.user, op.selector.name, op.selector.tests[0].doc) == Queued(op)
  {
    var doc := op.selector.tests[0].doc;
    ShapedIsGroupDoc(doc);
    GroupDocLookups(NameOf(doc), EncNameOf(doc), MembersOf(doc), TagOf(doc));
    w.GroupHashInjective(w.crypto.decrypt(EncNameOf(doc)).value, op.group);
    assert op.selector.tests == [IsDocument(doc)];
  }

  lemma SweepOk(w: World, user: Bytes, name: Bytes, doc: Doc)
    requires w.Ideal() && user in w.userNames && GroupOk(w, name, doc)
    ensures SweepDocument(w, user, name, doc).Queued?
    ensures BulkOpOk(w, SweepDocument(w, user, name, doc).op)
  {
    ShapedIsGroupDoc(doc);
    GroupDocLookups(NameOf(doc), EncNameOf(doc), MembersOf(doc), TagOf(doc));
  }

  // ---------------------------------------------------------------- steps

  lemma SeekKeepsInv(w: World, s: State, i: nat)
    requires w.Ideal() && Inv(w, s) && i < |s.clients| && s.clients[i].Seeking?
    ensures Inv(w, Seek(w, s, i))
  {
  }

  lemma CommitKeepsInv(w: World, s: State, i: nat)
    requires w.Ideal() && Inv(w, s) && i < |s.clients| && s.clients[i].Holding?
    ensures Inv(w, Commit(w, s, i))
  {
    hide GroupOk;
    hide PredictedUpdate;
    var c := s.clients[i];
    assert ClientOk(w, c);
    var sel := UpdateSelector(w, c.req, c.snap);
    if FindOne(s.groups, sel).Some? {
      CommitKeepsGroup(w, c.req, c.snap, s.groups[sel.name]);
    }
  }

  lemma ExecuteKeepsInv(w: World, s: State, i: nat)
    requires w.Ideal() && Inv(w, s) && i < |s.clients| && s.clients[i].Executing?
    ensures Inv(w, Execute(w, s, i))
  {
    hide GroupOk;
    hide ApplyUpdate;
    var ops := s.clients[i].ops;
    assert ClientOk(w, s.clients[i]);
    if ops != [] {
      assert BulkOpOk(w, ops[0]);
      if FindOne(s.groups, ops[0].selector).Some? {
        BulkKeepsGroup(w, ops[0], s.groups[ops[0].selector.name]);
      }
    }
  }

  lemma ReadKeepsInv(w: World, s: State, i: nat, name: Bytes)
    requires w.Ideal() && Inv(w, s) && i < |s.clients| && s.clients[i].Sweeping?
    ensures Inv(w, ReadNext(w, s, i, name))
  {
    hide GroupOk;
    hide BulkOpOk;
    hide SweepDocument;
    assert ClientOk(w, s.clients[i]);
    if name in s.groups { SweepOk(w, s.clients[i].user, name, s.groups[name]); }
  }

  lemma StepKeepsInv(w: World, s: State, i: nat, a: Action)
    requires w.Ideal() && Inv(w, s) && ActionOk(w, a)
    ensures Inv(w, Step(w, s, i, a)) && |Step(w, s, i, a).clients| == |s.clients|
  {
    hide GroupOk;
    hide KeyOk;
    hide NewGroup;
    if i < |s.clients| {
      var c := s.clients[i];
      assert ClientOk(w, c);
      match a
      case Advance =>
        if c.Seeking? { SeekKeepsInv(w, s, i); }
        if c.Holding? { CommitKeepsInv(w, s, i); }
        if c.Executing? { ExecuteKeepsInv(w, s, i); }
      case Create(g, u, key, encname) => NewGroupOk(w, g, u, key, encname);
      case Read(name) => if c.Sweeping? { ReadKeepsInv(w, s, i, name); }
      case _ =>
    }
  }

  lemma {:induction false} RunKeepsInv(w: World, n: nat, trace: seq<Event>)
    requires w.Ideal() && TraceOk(w, trace)
    ensures Inv(w, Run(w, n, trace)) && |Run(w, n, trace).clients| == n
  {
    hide Step;
    hide GroupOk;
    if trace != [] {
      var m := |trace| - 1;
      RunKeepsInv(w, n, trace[..m]);
      StepKeepsInv(w, Run(w, n, trace[..m]), trace[m].who, trace[m].action);
    }
  }

  /** Under every interleaving, every stored group passes validate_group_signature. */
  lemma {:induction false} EveryGroupValidates(w: World, n: nat, trace: seq<Event>, name: Bytes)
    requires w.Ideal() && TraceOk(w, trace) && name in Run(w, n, trace).groups
    ensures Validates(Run(w, n, trace).groups[name])
  {
    RunKeepsInv(w, n, trace);
  }

  /** Under every interleaving, no group lists a user twice. */
  lemma {:induction false} NoUserTwice(w: World, n: nat, trace: seq<Event>, name: Bytes)
    requires w.Ideal() && TraceOk(w, trace) && name in Run(w, n, trace).groups
    ensures Shaped(Run(w, n, trace).groups[name]) && Distinct(MembersOf(Run(w, n, trace).groups[name]))
  {
    RunKeepsInv(w, n, trace);
  }

  /** No call ever throws for an invalid signature or an undecryptable group name. */
  lemma {:induction false} NoSignatureErrors(w: World, n: nat, trace: seq<Event>, i: nat)
    requires w.Ideal() && TraceOk(w, trace) && i < n
    ensures |Run(w, n, trace).clients| == n
    ensures Run(w, n, trace).clients[i] != Finished(BadSignature)
    ensures Run(w, n, trace).clients[i] != Finished(Undecryptable)
  {
    RunKeepsInv(w, n, trace);
    assert ClientOk(w, Run(w, n, trace).clients[i]);
  }
}
