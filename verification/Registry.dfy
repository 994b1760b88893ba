// The users collection, and what ties it to the members of the groups.

module Registry {

  import opened Basics
  import opened Primitives
  import opened Signatures
  import opened Protocol
  import opened Refinement

  // A document of the users collection. Its signature covers the name and the encrypted key.
  datatype UserDoc = UserDoc(name: Bytes, key: Bytes, signature: Tag)

  type Users = map<Bytes, UserDoc>

  // What create_user signs and reencrypt_user_key checks.
  predicate UserValidates(doc: UserDoc) { doc.signature == Mac(doc.name + doc.key) }

  /** A user's signature binds the key to the name: no other name or key has it. */
  lemma UserSignatureBindsKey(d1: UserDoc, d2: UserDoc)
    requires UserValidates(d1) && UserValidates(d2) && |d1.name| == |d2.name| && d1.signature == d2.signature
    ensures d1 == d2
  {
    SplitStarts(d1.name, d2.name, d1.key, d2.key);
  }

  ghost predicate UserDocOk(w: World, user: Bytes, key: Bytes, d: UserDoc) {
    d.name == w.UserHash(user) && w.crypto.decrypt(d.key) == Some(key) && UserValidates(d)
  }

  ghost predicate Registered(w: World, registered: map<Bytes, Bytes>, name: Bytes) {
    exists u :: u in registered && w.UserHash(u) == name
  }

  /** The users collection stores the registered users with their keys. */
  ghost predicate UsersRepresent(w: World, users: Users, registered: map<Bytes, Bytes>) {
    && (forall name :: name in users ==> Registered(w, registered, name))
    && forall u :: u in registered ==>
         u in w.userNames && w.UserHash(u) in users && UserDocOk(w, u, registered[u], users[w.UserHash(u)])
  }

  lemma UserInRegistry(w: World, users: Users, registered: map<Bytes, Bytes>, u: Bytes)
    requires w.Ideal() && UsersRepresent(w, users, registered) && u in w.userNames
    ensures u in registered <==> w.UserHash(u) in users
  {
    if w.UserHash(u) in users {
      assert Registered(w, registered, w.UserHash(u));
      var v :| v in registered && w.UserHash(v) == w.UserHash(u);
      w.UserHashInjective(u, v);
    }
  }

  lemma RegisterUser(w: World, users: Users, registered: map<Bytes, Bytes>, u: Bytes, key: Bytes, d: UserDoc)
    requires w.Ideal() && UsersRepresent(w, users, registered) && u in w.userNames && UserDocOk(w, u, key, d)
    ensures UsersRepresent(w, users[w.UserHash(u) := d], registered[u := key])
  {
    hide UserDocOk;
    hide World.Ideal;
    hide World.UserHash;
    var users', registered' := users[w.UserHash(u) := d], registered[u := key];
    forall name | name in users' ensures Registered(w, registered', name) {
      if name == w.UserHash(u) {
        assert u in registered';
      } else {
        assert Registered(w, registered, name);
        var v :| v in registered && w.UserHash(v) == name;
        assert v in registered';
      }
    }
    forall v | v in registered' && v != u ensures w.UserHash(v) != w.UserHash(u) {
      if w.UserHash(v) == w.UserHash(u) { w.UserHashInjective(u, v); }
    }
  }

  lemma UnregisterUser(w: World, users: Users, registered: map<Bytes, Bytes>, u: Bytes)
    requires w.Ideal() && UsersRepresent(w, users, registered) && u in w.userNames
    ensures UsersRepresent(w, users - {w.UserHash(u)}, registered - {u})
  {
    hide UserDocOk;
    hide World.Ideal;
    hide World.UserHash;
    var users', registered' := users - {w.UserHash(u)}, registered - {u};
    forall name | name in users' ensures Registered(w, registered', name) {
      assert Registered(w, registered, name);
      var v :| v in registered && w.UserHash(v) == name;
      assert v != u && v in registered';
    }
    forall v | v in registered' ensures w.UserHash(v) != w.UserHash(u) {
      if w.UserHash(v) == w.UserHash(u) { w.UserHashInjective(u, v); }
    }
  }

  // ---------------------------------------------------------------- members are registered users

  predicate RowsRegistered(rows: seq<Row>, registered: map<Bytes, Bytes>) {
    forall i :: 0 <= i < |rows| ==> rows[i].user in registered && registered[rows[i].user] == rows[i].key
  }

  /** Every member of every group is a registered user, entered with the key registered for it. */
  predicate MembersRegistered(t: Table, registered: map<Bytes, Bytes>) {
    forall g :: g in t ==> RowsRegistered(t[g], registered)
  }

  /**
   * Filtering drops the user and nothing else: a row of another user stays, behind what is left of the rows
   * before it and in front of what is left of the rows after it.
   */
  lemma FilterOutKeepsOthers(before: seq<Row>, r: Row, after: seq<Row>, u: Bytes)
    ensures !Lists(FilterOut(before + [r] + after, u), u)
    ensures FilterOut(before + [r] + after, u)
         == FilterOut(before, u) + (if r.user == u then [] else [r]) + FilterOut(after, u)
  {
    FilterOutRows(before + [r] + after, u);
    FilterOutAppends(before + [r], after, u);
    assert (before + [r])[..|before|] == before;
  }

  lemma {:induction false} FilterOutAppends(a: seq<Row>, b: seq<Row>, u: Bytes)
    ensures FilterOut(a + b, u) == FilterOut(a, u) + FilterOut(b, u)
  {
    if b == [] {
      assert a + b == a;
    } else {
      var n := |b| - 1;
      FilterOutAppends(a, b[..n], u);
      assert (a + b)[..|a| + n] == a + b[..n];
    }
  }

  lemma FilterKeepsRegistered(rows: seq<Row>, registered: map<Bytes, Bytes>, u: Bytes)
    requires RowsRegistered(rows, registered)
    ensures RowsRegistered(FilterOut(rows, u), registered) && RowsRegistered(FilterOut(rows, u), registered - {u})
  {
    FilterOutRows(rows, u);
  }

  lemma ApplyKeepsRegistered(t: Table, op: Op, registered: map<Bytes, Bytes>)
    requires MembersRegistered(t, registered)
    requires !op.Filtered? ==> op.user in registered && registered[op.user] == op.key
    ensures MembersRegistered(Apply(t, op), registered)
  {
    if op.Filtered? && op.group in t { FilterKeepsRegistered(t[op.group], registered, op.user); }
  }

  lemma RegisterKeepsRegistered(t: Table, registered: map<Bytes, Bytes>, u: Bytes, key: Bytes)
    requires MembersRegistered(t, registered) && u !in registered
    ensures MembersRegistered(t, registered[u := key])
  {
    forall g | g in t ensures RowsRegistered(t[g], registered[u := key]) {
      assert RowsRegistered(t[g], registered);
    }
  }

  // ---------------------------------------------------------------- removal from every group

  function FilterAll(t: Table, u: Bytes): Table { map g | g in t :: FilterOut(t[g], u) }

  // Some of the groups already filtered.
  function FilterSome(t: Table, done: set<Bytes>, u: Bytes): Table {
    map g | g in t :: if g in done then FilterOut(t[g], u) else t[g]
  }

  lemma FilterOneMore(t: Table, done: set<Bytes>, u: Bytes, g: Bytes)
    requires g in t && g !in done
    ensures Apply(FilterSome(t, done, u), Filtered(g, u)) == FilterSome(t, done + {g}, u)
  {
  }

  lemma FilterAllUnregisters(t: Table, registered: map<Bytes, Bytes>, u: Bytes)
    requires MembersRegistered(t, registered)
    ensures MembersRegistered(FilterAll(t, u), registered) && MembersRegistered(FilterAll(t, u), registered - {u})
  {
    forall g | g in t ensures RowsRegistered(FilterOut(t[g], u), registered)
                           && RowsRegistered(FilterOut(t[g], u), registered - {u}) {
      FilterKeepsRegistered(t[g], registered, u);
    }
  }
}
