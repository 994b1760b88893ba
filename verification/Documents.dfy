// Group documents, their signatures, and the server operations the client issues on them.

module Documents {

  import opened Basics
  import opened Primitives

  datatype Member = Member(name: Bytes, key: Bytes)

  datatype Value = Bin(data: Bytes) | Users(list: seq<Member>) | Signature(tag: Tag)

  datatype Field = Field(key: string, value: Value)

  // A BSON document: its fields in order.
  type Doc = seq<Field>

  function Lookup(doc: Doc, key: string): Option<Value> {
    if doc == [] then None
    else if doc[0].key == key then Some(doc[0].value)
    else Lookup(doc[1..], key)
  }

  // ---------------------------------------------------------------- what is signed

  // The entries of a member list, without those of `skip`.
  function MemberStream(list: seq<Member>, skip: Option<Bytes>): Bytes {
    if list == [] then [] else
      var m := list[|list| - 1];
      MemberStream(list[..|list| - 1], skip) + if skip == Some(m.name) then [] else m.name + m.key
  }

  function FieldStream(f: Field, skip: Option<Bytes>): Bytes {
    if (f.key == "name" || f.key == "encname") && f.value.Bin? then f.value.data
    else if f.key == "users" && f.value.Users? then MemberStream(f.value.list, skip)
    else []
  }

  function DocStream(doc: Doc, skip: Option<Bytes>): Bytes {
    if doc == [] then [] else DocStream(doc[..|doc| - 1], skip) + FieldStream(doc[|doc| - 1], skip)
  }

  /** The bytes compute_group_signature feeds to the MAC. */
  function SignedStream(doc: Doc, name: Option<Bytes>, key: Option<Bytes>, isAdd: bool): Bytes {
    DocStream(doc, if isAdd then None else name)
    + if isAdd && name.Some? && key.Some? then name.value + key.value else []
  }

  function PlainStream(doc: Doc): Bytes { SignedStream(doc, None, None, true) }

  /** compute_group_signature: one pass over the fields, one over the members, feeding the MAC as it goes. */
  method ComputeGroupSignature(doc: Doc, name: Option<Bytes>, key: Option<Bytes>, isAdd: bool)
    returns (tag: Tag)
    ensures tag == Mac(SignedStream(doc, name, key, isAdd))
  {
    var context := new HmacContext();
    ghost var skip := if isAdd then None else name;
    var i := 0;
    while i < |doc|
      invariant 0 <= i <= |doc| && fresh(context) && context.fed == DocStream(doc[..i], skip)
    {
      var f := doc[i];
      assert doc[..i + 1][..i] == doc[..i];
      if (f.key == "name" || f.key == "encname") && f.value.Bin? {
        context.Update(f.value.data);
      } else if f.key == "users" && f.value.Users? {
        FeedMembers(context, f.value.list, name, isAdd);
      }
      i := i + 1;
    }
    assert doc[..i] == doc;
    if isAdd && name.Some? && key.Some? {
      context.Update(name.value);
      context.Update(key.value);
    }
    tag := context.Final();
  }

  method FeedMembers(context: HmacContext, list: seq<Member>, name: Option<Bytes>, isAdd: bool)
    modifies context
    ensures context.fed == old(context.fed) + MemberStream(list, if isAdd then None else name)
  {
    ghost var skip := if isAdd then None else name;
    var j := 0;
    while j < |list|
      invariant 0 <= j <= |list| && context.fed == old(context.fed) + MemberStream(list[..j], skip)
    {
      var m := list[j];
      assert list[..j + 1][..j] == list[..j];
      j := j + 1;
      if !isAdd && name == Some(m.name) { continue; }
      context.Update(m.name);
      context.Update(m.key);
    }
    assert list[..j] == list;
  }

  /** validate_group_signature */
  predicate Validates(doc: Doc) {
    Lookup(doc, "signature") == Some(Signature(Mac(PlainStream(doc))))
  }

  method ValidateGroupSignature(doc: Doc) returns (ok: bool)
    ensures ok == Validates(doc)
  {
    var tag := ComputeGroupSignature(doc, None, None, true);
    ok := Lookup(doc, "signature") == Some(Signature(tag));
  }

  // ---------------------------------------------------------------- selectors and updates

  function MemberNames(list: seq<Member>): set<Bytes> { set m | m in list :: m.name }

  predicate HasUser(doc: Doc, name: Bytes) {
    match Lookup(doc, "users")
    case Some(Users(list)) => name in MemberNames(list)
    case _ => false
  }

  datatype Test =
    | HasMember(name: Bytes)    // "users.name": name
    | LacksMember(name: Bytes)  // "users.name": { "$ne": name }
    | SignatureIs(tag: Tag)     // "signature": tag
    | IsDocument(doc: Doc)      // the whole document, field by field

  predicate Passes(doc: Doc, t: Test) {
    match t
    case HasMember(n) => HasUser(doc, n)
    case LacksMember(n) => !HasUser(doc, n)
    case SignatureIs(tag) => Lookup(doc, "signature") == Some(Signature(tag))
    case IsDocument(d) => doc == d
  }

  // Every selector used here gives the group's hashed name.
  datatype Selector = Selector(name: Bytes, tests: seq<Test>)

  datatype Change = Push(member: Member) | Pull(name: Bytes)

  // { "$push" or "$pull": { "users": .. }, "$set": { "signature": .. } }
  datatype Update = Update(change: Change, signature: Tag)

  function Without(list: seq<Member>, name: Bytes): seq<Member> {
    if list == [] then [] else
      var m := list[|list| - 1];
      Without(list[..|list| - 1], name) + if m.name == name then [] else [m]
  }

  function ChangedList(list: seq<Member>, change: Change): seq<Member> {
    match change
    case Push(m) => list + [m]
    case Pull(name) => Without(list, name)
  }

  function ChangeUsers(doc: Doc, change: Change): Doc {
    if doc == [] then
      match change
      case Push(m) => [Field("users", Users([m]))]
      case Pull(_) => []
    else if doc[0].key == "users" then
      var v := if doc[0].value.Users? then Users(ChangedList(doc[0].value.list, change)) else doc[0].value;
      [Field("users", v)] + doc[1..]
    else [doc[0]] + ChangeUsers(doc[1..], change)
  }

  function SetField(doc: Doc, key: string, value: Value): Doc {
    if doc == [] then [Field(key, value)]
    else if doc[0].key == key then [Field(key, value)] + doc[1..]
    else [doc[0]] + SetField(doc[1..], key, value)
  }

  function ApplyUpdate(doc: Doc, u: Update): Doc {
    SetField(ChangeUsers(doc, u.change), "signature", Signature(u.signature))
  }

  // ---------------------------------------------------------------- the groups collection

  // The documents by their "name" field, on which the collection has a unique index.
  type Groups = map<Bytes, Doc>

  predicate Selects(sel: Selector, doc: Doc) { forall i :: 0 <= i < |sel.tests| ==> Passes(doc, sel.tests[i]) }

  function FindOne(groups: Groups, sel: Selector): Option<Doc> {
    if sel.name in groups && Selects(sel, groups[sel.name]) then Some(groups[sel.name]) else None
  }

  // update_one, atomically; `matched` is its matchedCount.
  datatype Updated = Updated(groups: Groups, matched: nat)

  function UpdateOne(groups: Groups, sel: Selector, u: Update): Updated {
    match FindOne(groups, sel)
    case Some(doc) => Updated(groups[sel.name := ApplyUpdate(doc, u)], 1)
    case None => Updated(groups, 0)
  }

  // ---------------------------------------------------------------- the documents create_group makes

  function GroupDoc(name: Bytes, encname: Bytes, users: seq<Member>, tag: Tag): Doc {
    [Field("name", Bin(name)), Field("encname", Bin(encname)), Field("users", Users(users)), Field("signature", Signature(tag))]
  }

  predicate Shaped(doc: Doc) {
    && |doc| == 4
    && doc[0].key == "name" && doc[0].value.Bin?
    && doc[1].key == "encname" && doc[1].value.Bin?
    && doc[2].key == "users" && doc[2].value.Users?
    && doc[3].key == "signature" && doc[3].value.Signature?
  }

  function NameOf(doc: Doc): Bytes
    requires Shaped(doc)
  {
    doc[0].value.data
  }

  function EncNameOf(doc: Doc): Bytes
    requires Shaped(doc)
  {
    doc[1].value.data
  }

  function MembersOf(doc: Doc): seq<Member>
    requires Shaped(doc)
  {
    doc[2].value.list
  }

  function TagOf(doc: Doc): Tag
    requires Shaped(doc)
  {
    doc[3].value.tag
  }
}
