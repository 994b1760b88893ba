// The client class of trusted/MongoDatabase.cpp run on its own: no other client writes between its server
// calls. `table` and `registered` are what the two collections stand for.

module Database {

  import opened Basics
  import opened Primitives
  import opened Documents
  import opened Signatures
  import opened Protocol
  import opened Safety
  import opened Refinement
  import opened Registry
  import opened RetryLoop
  import opened Sweep

  datatype Error =
    | DuplicateKey | UserDoesNotExist | InvalidSignature | DecryptionError
    | NoMatchingGroup | WrongKeySize | AttemptsSpent | EmptyBulk

  datatype Result<+T> = Ok(value: T) | Err(error: Error)

  // An update predicted from the stored document itself, with nothing in between.
  lemma OwnDocument(w: World, req: Request, doc: Doc)
    requires SoundDoc(w, w.GroupHash(req.group), doc) && Selects(FindSelector(w, req), doc)
    ensures var after := ApplyUpdate(doc, PredictedUpdate(w, req, doc));
      && Selects(UpdateSelector(w, req, doc), doc)
      && SoundDoc(w, w.GroupHash(req.group), after)
      && MembersOf(after) == ChangedList(MembersOf(doc), PredictedUpdate(w, req, doc).change)
  {
    FindSelects(w, req, doc);
    SelectedByTag(w, req, doc, doc);
    UpdateKeepsSound(w, w.GroupHash(req.group), req, doc, doc);
  }

  lemma OwnUpdate(w: World, groups: Groups, t: Table, req: Request)
    requires w.Ideal() && NamesOk(w, req.group, req.user) && AllSound(w, groups) && Represents(w, groups, t)
    requires FindOne(groups, FindSelector(w, req)).Some?
    requires req.Add? ==> w.crypto.decrypt(req.key).Some?
    ensures var doc := groups[w.GroupHash(req.group)];
      var r := UpdateOne(groups, UpdateSelector(w, req, doc), PredictedUpdate(w, req, doc));
      && Validates(doc) && r.matched == 1
      && AllSound(w, r.groups) && Represents(w, r.groups, Apply(t, OpOf(w, req)))
  {
    hide Represents;
    hide Apply;
    hide ApplyUpdate;
    hide Selects;
    var name := w.GroupHash(req.group);
    var doc := groups[name];
    var after := ApplyUpdate(doc, PredictedUpdate(w, req, doc));
    FindTells(w, groups, t, req);
    OwnDocument(w, req, doc);
    SoundUpdate(w, groups, name, after);
    match req
    case Add(g, u, key) => PushRefines(w, groups, t, g, u, key, after);
    case Remove(g, u) => PullRefines(w, groups, t, g, u, after);
  }

  // Nothing to do, and nothing done.
  lemma NothingFound(w: World, groups: Groups, t: Table, req: Request)
    requires w.Ideal() && NamesOk(w, req.group, req.user) && Represents(w, groups, t)
    requires FindOne(groups, FindSelector(w, req)).None?
    ensures Apply(t, OpOf(w, req)) == t
  {
    hide Represents;
    FindTells(w, groups, t, req);
    if req.Remove? && req.group in t { FilterOutAbsent(t[req.group], req.user); }
  }

  // ---------------------------------------------------------------- any document the server may return

  // The key of a member is a ciphertext of 32 bytes.
  ghost predicate GivesKey(w: World, m: Member, key: Bytes) {
    w.crypto.decrypt(m.key) == Some(key) && |key| == 32
  }

  ghost predicate HasKey(w: World, m: Member) {
    w.crypto.decrypt(m.key).Some? && GivesKey(w, m, w.crypto.decrypt(m.key).value)
  }

  // The first member without a key, and the error it gives.
  ghost predicate FailsFirst(w: World, members: seq<Member>, i: int, e: Error) {
    && 0 <= i < |members| && !HasKey(w, members[i]) && (forall k :: 0 <= k < i ==> HasKey(w, members[k]))
    && e == (if w.crypto.decrypt(members[i].key).None? then DecryptionError else WrongKeySize)
  }

  /** The loop of get_keys_of_group: every member's key in order, or the error of the first member without one. */
  method DecryptKeys(w: World, members: seq<Member>) returns (r: Result<seq<Bytes>>)
    ensures r.Ok? ==> |r.value| == |members| && forall i :: 0 <= i < |members| ==> GivesKey(w, members[i], r.value[i])
    ensures r.Err? ==> exists i :: FailsFirst(w, members, i, r.error)
  {
    var list := [];
    var i := 0;
    while i < |members|
      invariant 0 <= i == |list| <= |members|
      invariant forall k :: 0 <= k < i ==> GivesKey(w, members[k], list[k]) && HasKey(w, members[k])
    {
      var key := w.crypto.decrypt(members[i].key);
      if key.None? {
        assert FailsFirst(w, members, i, DecryptionError);
        return Err(DecryptionError);
      }
      if |key.value| != KEY_SIZE {
        assert FailsFirst(w, members, i, WrongKeySize);
        return Err(WrongKeySize);
      }
      list := list + [key.value];
      i := i + 1;
    }
    return Ok(list);
  }

  /** get_keys_of_group on the document found: it throws if and only if the signature is wrong or a key is. */
  method KeysOfDocument(w: World, doc: Doc) returns (r: Result<seq<Bytes>>)
    requires Shaped(doc)
    ensures r == Err(InvalidSignature) <==> !Validates(doc)
    ensures r.Ok? ==>
      && |r.value| == |MembersOf(doc)|
      && forall i :: 0 <= i < |r.value| ==> GivesKey(w, MembersOf(doc)[i], r.value[i])
    ensures r.Err? && Validates(doc) ==> exists i :: FailsFirst(w, MembersOf(doc), i, r.error)
  {
    hide Validates;
    var valid := ValidateGroupSignature(doc);
    if !valid { return Err(InvalidSignature); }
    r := DecryptKeys(w, MembersOf(doc));
  }

  // Members that stand for rows give the keys of the rows.
  lemma KeysMatch(w: World, group: Bytes, members: seq<Member>, rows: seq<Row>)
    requires RowsMatch(w, group, members, rows)
    ensures |members| == |rows|
    ensures forall i, key :: 0 <= i < |members| ==> (GivesKey(w, members[i], key) <==> key == rows[i].key && |key| == 32)
    ensures forall i, e :: FailsFirst(w, members, i, e) ==> 0 <= i < |rows| && e == WrongKeySize && |rows[i].key| != 32
  {
    forall i | 0 <= i < |members| ensures w.crypto.decrypt(members[i].key) == Some(rows[i].key) {
      assert RowMatches(w, group, members[i], rows[i]);
    }
    forall i, e | FailsFirst(w, members, i, e) ensures e == WrongKeySize && |rows[i].key| != 32 {
      assert w.crypto.decrypt(members[i].key) == Some(rows[i].key);
    }
  }

  /** reencrypt_user_key on the document found. */
  method KeyOfUser(w: World, doc: UserDoc, nonce: nat) returns (r: Result<Bytes>)
    ensures r == Err(InvalidSignature) <==> !UserValidates(doc)
    ensures r == Err(DecryptionError) <==> UserValidates(doc) && w.crypto.decrypt(doc.key).None?
    ensures r.Ok? <==> UserValidates(doc) && w.crypto.decrypt(doc.key).Some?
    ensures r.Ok? ==> r.value == w.crypto.encrypt(nonce, w.crypto.decrypt(doc.key).value)
  {
    if Mac(doc.name + doc.key) != doc.signature { return Err(InvalidSignature); }
    var key := w.crypto.decrypt(doc.key);
    if key.None? { return Err(DecryptionError); }
    return Ok(w.crypto.encrypt(nonce, key.value));
  }

  // The signed document of a new group.
  method NewDocument(w: World, group: Bytes, user: Bytes, key: Bytes, encname: Bytes) returns (doc: Doc)
    ensures doc == NewGroup(w, group, user, key, encname)
  {
    hide SignedStream;
    var unsigned := [Field("name", Bin(w.GroupHash(group))), Field("encname", Bin(encname)),
                     Field("users", Users([Member(w.MemberHash(group, user), key)]))];
    var tag := ComputeGroupSignature(unsigned, None, None, true);
    return unsigned + [Field("signature", Signature(tag))];
  }

  /** One turn of the sweep's reading loop on the document the cursor yields: exactly the protocol's. */
  method QueueDocument(w: World, user: Bytes, name: Bytes, doc: Doc) returns (r: Result<BulkOp>)
    ensures SweepDocument(w, user, name, doc)
      == match r
         case Ok(op) => Queued(op)
         case Err(e) => Threw(if e == InvalidSignature then BadSignature else Undecryptable)
  {
    hide Validates;
    hide SignedStream;
    var encname := Lookup(doc, "encname");
    if encname.None? || !encname.value.Bin? { return Err(DecryptionError); }
    var group := w.crypto.decrypt(encname.value.data);
    if group.None? { return Err(DecryptionError); }
    var valid := ValidateGroupSignature(doc);
    if !valid { return Err(InvalidSignature); }
    var member := w.MemberHash(group.value, user);
    var tag := ComputeGroupSignature(doc, Some(member), None, false);
    return Ok(BulkOp(group.value, user, Selector(name, [IsDocument(doc)]), Update(Pull(member), tag)));
  }

  class MongoDatabase {
    const w: World
    var users: Users
    var groups: Groups
    ghost var registered: map<Bytes, Bytes>  // user names to plain keys
    ghost var table: Table

    ghost predicate Valid()
      reads this
    {
      && w.Ideal() && AllSound(w, groups) && Represents(w, groups, table)
      && UsersRepresent(w, users, registered) && MembersRegistered(table, registered)
    }

    constructor (w: World)
      requires w.Ideal()
      ensures Valid() && this.w == w && registered == map[] && table == map[]
    {
      this.w := w;
      users, groups, registered, table := map[], map[], map[], map[];
    }

    /** create_user */
    method CreateUser(user: Bytes, key: Bytes, nonce: nat) returns (r: Result<()>)
      requires Valid() && user in w.userNames
      modifies this
      ensures Valid() && table == old(table)
      ensures if user in old(registered) then r == Err(DuplicateKey) && registered == old(registered)
              else r == Ok(()) && registered == old(registered)[user := key]
    {
      hide AllSound;
      hide Represents;
      hide MembersRegistered;
      var name := w.UserHash(user);
      var encrypted := w.crypto.encrypt(nonce, key);
      assert w.Encrypts(key, encrypted);
      var doc := UserDoc(name, encrypted, Mac(name + encrypted));
      UserInRegistry(w, users, registered, user);
      if name in users { return Err(DuplicateKey); }
      RegisterUser(w, users, registered, user, key, doc);
      RegisterKeepsRegistered(table, registered, user, key);
      users, registered := users[name := doc], registered[user := key];
      return Ok(());
    }

    /** reencrypt_user_key: the registered key under a new nonce; it throws only for an unknown user. */
    method ReencryptUserKey(user: Bytes, nonce: nat) returns (r: Result<Bytes>)
      requires Valid() && user in w.userNames
      ensures user !in registered ==> r == Err(UserDoesNotExist)
      ensures user in registered ==> r.Ok? && w.Encrypts(registered[user], r.value)
    {
      hide AllSound;
      hide Represents;
      hide MembersRegistered;
      UserInRegistry(w, users, registered, user);
      var name := w.UserHash(user);
      if name !in users { return Err(UserDoesNotExist); }
      var doc := users[name];
      assert w.Encrypts(registered[user], w.crypto.encrypt(nonce, registered[user]));
      r := KeyOfUser(w, doc, nonce);
    }

    /** add_user_to_group and remove_user_from_group with nobody in between: they never fail. */
    method Perform(req: Request) returns (r: Result<()>)
      requires Valid() && NamesOk(w, req.group, req.user)
      requires req.Add? ==> req.user in registered && w.crypto.decrypt(req.key) == Some(registered[req.user])
      modifies this`groups, this`table
      ensures Valid() && r == Ok(())
      ensures table == Apply(old(table), OpOf(w, req))
    {
      hide AllSound;
      hide Represents;
      hide UsersRepresent;
      hide MembersRegistered;
      hide Apply;
      hide UpdateOne;
      hide Drive;
      ApplyKeepsRegistered(table, OpOf(w, req), registered);
      if FindOne(groups, FindSelector(w, req)).Some? {
        OwnUpdate(w, groups, table, req);
      } else {
        NothingFound(w, groups, table, req);
      }
      var undisturbed := groups;
      var env := (k: nat) => undisturbed;
      Undisturbed(w, req, env, undisturbed);
      var outcome, written := Retry(w, req, env);
      if written.Some? { groups := written.value; }
      table := Apply(table, OpOf(w, req));
      match outcome {
        case Returned => return Ok(());
        case TooManyAttempts => return Err(AttemptsSpent);
        case _ => return Err(InvalidSignature);
      }
    }

    /** add_user_to_group: appends the user with its registered key, if the group exists without it. */
    method AddUserToGroup(group: Bytes, user: Bytes, nonce: nat) returns (r: Result<()>)
      requires Valid() && NamesOk(w, group, user)
      modifies this`groups, this`table
      ensures Valid()
      ensures if user !in registered then r == Err(UserDoesNotExist) && table == old(table)
              else r == Ok(()) && table == Apply(old(table), Appended(group, user, registered[user]))
    {
      var key := ReencryptUserKey(user, nonce);
      if key.Err? { return Err(key.error); }
      r := Perform(Add(group, user, key.value));
    }

    /** remove_user_from_group: filters the user out of the group. */
    method RemoveUserFromGroup(group: Bytes, user: Bytes) returns (r: Result<()>)
      requires Valid() && NamesOk(w, group, user)
      modifies this`groups, this`table
      ensures Valid() && r == Ok(()) && table == Apply(old(table), Filtered(group, user))
    {
      r := Perform(Remove(group, user));
    }

    /** create_group: a group of one member, or that member added to the group that exists. */
    method CreateGroup(group: Bytes, user: Bytes, nonce: nat, nonce2: nat) returns (r: Result<()>)
      requires Valid() && NamesOk(w, group, user)
      modifies this`groups, this`table
      ensures Valid()
      ensures user !in registered ==> r == Err(UserDoesNotExist) && table == old(table)
      ensures user in registered ==> r == Ok(())
      ensures user in registered ==>
        table == Apply(old(table), if group in old(table) then Appended(group, user, registered[user])
                                   else Created(group, user, registered[user]))
    {
      hide AllSound;
      hide Represents;
      hide UsersRepresent;
      hide MembersRegistered;
      hide Apply;
      hide SoundDoc;
      hide NewGroup;
      var key := ReencryptUserKey(user, nonce);
      if key.Err? { return Err(key.error); }
      var name := w.GroupHash(group);
      var encname := w.crypto.encrypt(nonce2, group);
      assert w.Encrypts(group, encname);
      GroupInTable(w, groups, table, group);
      var doc := NewDocument(w, group, user, key.value, encname);
      if name in groups {
        r := Perform(Add(group, user, key.value));
      } else {
        NewGroupSound(w, group, user, key.value, encname);
        SoundUpdate(w, groups, name, doc);
        InsertRefines(w, groups, table, group, user, key.value, encname);
        ApplyKeepsRegistered(table, Created(group, user, registered[user]), registered);
        groups, table := groups[name := doc], Apply(table, Created(group, user, registered[user]));
        r := Ok(());
      }
    }

    /** is_user_part_of_group */
    method IsUserPartOfGroup(group: Bytes, user: Bytes) returns (b: bool)
      requires Valid() && NamesOk(w, group, user)
      ensures b <==> group in table && Lists(table[group], user)
    {
      hide UsersRepresent;
      hide MembersRegistered;
      hide Represents;
      hide AllSound;
      FindTells(w, groups, table, Remove(group, user));
      b := FindOne(groups, FindSelector(w, Remove(group, user))).Some?;
    }

    /**
     * get_keys_of_group: the registered keys of the current members, in the order in which they joined. It
     * throws for a missing group, and for a key whose size is not KEY_SIZE.
     */
    method GetKeysOfGroup(group: Bytes) returns (r: Result<seq<Bytes>>)
      requires Valid() && group in w.groupNames
      ensures group !in table ==> r == Err(NoMatchingGroup)
      ensures group in table && r.Ok? ==> |r.value| == |table[group]| && forall i :: 0 <= i < |r.value| ==>
        |r.value[i]| == 32 && table[group][i].user in registered && r.value[i] == registered[table[group][i].user]
      ensures group in table && r.Err? ==>
        r.error == WrongKeySize && exists i :: 0 <= i < |table[group]| && |registered[table[group][i].user]| != 32
    {
      hide UsersRepresent;
      hide RowsMatch;
      hide GivesKey;
      hide FailsFirst;
      hide Validates;
      GroupInTable(w, groups, table, group);
      var name := w.GroupHash(group);
      if name !in groups { return Err(NoMatchingGroup); }
      var doc := groups[name];
      assert RowsRegistered(table[group], registered) && SoundDoc(w, name, doc);
      r := KeysOfDocument(w, doc);
      KeysMatch(w, group, MembersOf(doc), table[group]);
      if r.Err? {
        ghost var i :| FailsFirst(w, MembersOf(doc), i, r.error);
        assert |table[group][i].key| != 32;
      }
    }

    /**
     * remove_user_from_all_groups: every group loses the user and nothing else. `emptyBulk` is what the
     * driver answers to a bulk operation without updates.
     */
    method RemoveUserFromAllGroups(user: Bytes, emptyBulk: Result<()>) returns (r: Result<()>)
      requires Valid() && user in w.userNames
      modifies this`groups, this`table
      ensures Valid() && table == FilterAll(old(table), user)
      ensures r == if old(table) == map[] then emptyBulk else Ok(())
    {
      hide AllSound;
      hide Represents;
      hide UsersRepresent;
      hide MembersRegistered;
      hide Filtering;
      hide FilterAll;
      hide UpdateOne;
      var ops;
      r, ops := QueueRemovals(user);
      ghost var t, done: set<Bytes> := table, {};
      FilterAllUnregisters(t, registered, user);
      var rest := ops;
      while rest != []
        invariant Filtering(w, groups, t, done, user, rest)
        invariant unchanged(this`users) && unchanged(this`registered)
        decreases |rest|
      {
        FilterOne(w, groups, t, done, user, rest);
        var op := rest[0];
        var reply := UpdateOne(groups, op.selector, op.update);
        groups := reply.groups;
        done := done + {op.group};
        rest := rest[1..];
      }
      AllFiltered(w, groups, t, done, user);
      table := FilterAll(t, user);
      if ops == [] { r := emptyBulk; }
    }

    // The reading half: one queued update for every stored group.
    method QueueRemovals(user: Bytes) returns (r: Result<()>, ops: seq<BulkOp>)
      requires Valid() && user in w.userNames
      ensures r == Ok(()) && Filtering(w, groups, table, {}, user, ops)
      ensures ops == [] <==> table == map[]
    {
      hide UsersRepresent;
      hide MembersRegistered;
      hide Represents;
      hide AllSound;
      hide Ready;
      ops := [];
      var todo := groups.Keys;
      while todo != {}
        invariant Reading(w, groups, user, ops, todo)
        decreases todo
      {
        var name :| name in todo;
        var op := QueueRemoval(user, name);
        assert op.Ok?;  // an exception would pass through here
        ReadOne(w, groups, user, ops, todo, op.value);
        ops := ops + [op.value];
        todo := todo - {name};
      }
      ReadAll(w, groups, table, user, ops);
      r := Ok(());
    }

    // One turn of that loop.
    method QueueRemoval(user: Bytes, name: Bytes) returns (r: Result<BulkOp>)
      requires Valid() && user in w.userNames && name in groups
      ensures r.Ok? && r.value.selector.name == name && Ready(w, groups, user, r.value)
      ensures SweepDocument(w, user, name, groups[name]) == Queued(r.value)
    {
      hide UsersRepresent;
      hide MembersRegistered;
      hide Represents;
      SoundIsReady(w, groups, user, name);
      r := QueueDocument(w, user, name, groups[name]);
    }

    /** delete_user: afterwards the user is in no group and not registered; the other users are untouched. */
    method DeleteUser(user: Bytes, emptyBulk: Result<()>) returns (r: Result<()>)
      requires Valid() && user in w.userNames
      modifies this
      ensures Valid() && table == FilterAll(old(table), user)
      ensures r == if old(table) == map[] then emptyBulk else Ok(())
      ensures registered == if r.Ok? then old(registered) - {user} else old(registered)
    {
      hide AllSound;
      hide Represents;
      hide UsersRepresent;
      hide MembersRegistered;
      hide FilterAll;
      FilterAllUnregisters(table, registered, user);
      r := RemoveUserFromAllGroups(user, emptyBulk);
      if r.Err? { return; }
      UnregisterUser(w, users, registered, user);
      users, registered := users - {w.UserHash(user)}, registered - {user};
    }
  }
}
