// What the signed, hashed and encrypted documents stand for: a table from groups to their members in joining
// order. Every run of the protocol is a run of three atomic operations on that table.

module Refinement {

  import opened Basics
  import opened Primitives
  import opened Documents
  import opened Signatures
  import opened Protocol
  import opened Safety

  datatype Row = Row(user: Bytes, key: Bytes)

  // Group names to members, in plain names and keys.
  type Table = map<Bytes, seq<Row>>

  predicate Lists(rows: seq<Row>, user: Bytes) { exists i :: 0 <= i < |rows| && rows[i].user == user }

  function FilterOut(rows: seq<Row>, user: Bytes): seq<Row> {
    if rows == [] then [] else
      var r := rows[|rows| - 1];
      FilterOut(rows[..|rows| - 1], user) + if r.user == user then [] else [r]
  }

  /** The abstract operations: create if absent, append if absent, filter out. */
  function Apply(t: Table, op: Op): Table {
    match op
    case Created(g, u, k) => if g in t then t else t[g := [Row(u, k)]]
    case Appended(g, u, k) => if g in t && !Lists(t[g], u) then t[g := t[g] + [Row(u, k)]] else t
    case Filtered(g, u) => if g in t then t[g := FilterOut(t[g], u)] else t
  }

  // The operation of a request has something to do: a user to append, or one to filter out.
  predicate Effective(t: Table, req: Request) {
    req.group in t && (req.Add? <==> !Lists(t[req.group], req.user))
  }

  lemma {:induction false} FilterOutRows(rows: seq<Row>, u: Bytes)
    ensures forall i :: 0 <= i < |FilterOut(rows, u)| ==> FilterOut(rows, u)[i] in rows && FilterOut(rows, u)[i].user != u
  {
    if rows != [] {
      var n := |rows| - 1;
      FilterOutRows(rows[..n], u);
      assert rows[n] in rows;
    }
  }

  /** An operation is effective exactly when it changes the table. */
  lemma EffectiveChanges(w: World, t: Table, req: Request)
    ensures Effective(t, req) <==> Apply(t, OpOf(w, req)) != t
  {
    if req.Remove? && req.group in t {
      var rows := t[req.group];
      FilterOutRows(rows, req.user);
      if !Lists(rows, req.user) { FilterOutAbsent(rows, req.user); }
      assert Apply(t, OpOf(w, req))[req.group] == FilterOut(rows, req.user);
    }
    if req.Add? && Effective(t, req) {
      assert |Apply(t, OpOf(w, req))[req.group]| == |t[req.group]| + 1;
    }
  }

  function Replay(log: seq<Entry>): Table {
    if log == [] then map[] else Apply(Replay(log[..|log| - 1]), log[|log| - 1].op)
  }

  // ---------------------------------------------------------------- the abstraction

  ghost predicate RowMatches(w: World, g: Bytes, m: Member, r: Row) {
    r.user in w.userNames && m.name == w.MemberHash(g, r.user) && w.crypto.decrypt(m.key) == Some(r.key)
  }

  ghost predicate RowsMatch(w: World, g: Bytes, ms: seq<Member>, rows: seq<Row>) {
    |ms| == |rows| && forall i :: 0 <= i < |ms| ==> RowMatches(w, g, ms[i], rows[i])
  }

  ghost predicate Named(w: World, t: Table, name: Bytes) { exists g :: g in t && w.GroupHash(g) == name }

  /** The stored documents represent the table. */
  ghost predicate Represents(w: World, groups: Groups, t: Table) {
    && (forall name :: name in groups ==> Shaped(groups[name]) && Named(w, t, name))
    && forall g :: g in t ==>
         && g in w.groupNames && w.GroupHash(g) in groups && Shaped(groups[w.GroupHash(g)])
         && RowsMatch(w, g, MembersOf(groups[w.GroupHash(g)]), t[g])
  }

  lemma Membership(w: World, g: Bytes, ms: seq<Member>, rows: seq<Row>, u: Bytes)
    requires w.Ideal() && g in w.groupNames && u in w.userNames && RowsMatch(w, g, ms, rows)
    ensures w.MemberHash(g, u) in MemberNames(ms) <==> Lists(rows, u)
  {
    if Lists(rows, u) {
      var i :| 0 <= i < |rows| && rows[i].user == u;
      assert RowMatches(w, g, ms[i], rows[i]) && ms[i] in ms;
    }
    if w.MemberHash(g, u) in MemberNames(ms) {
      var i :| 0 <= i < |ms| && ms[i].name == w.MemberHash(g, u);
      assert RowMatches(w, g, ms[i], rows[i]);
      w.MemberHashInjective(g, u, rows[i].user);
    }
  }

  lemma {:induction false} FilterMatches(w: World, g: Bytes, ms: seq<Member>, rows: seq<Row>, u: Bytes)
    requires w.Ideal() && g in w.groupNames && u in w.userNames && RowsMatch(w, g, ms, rows)
    ensures RowsMatch(w, g, Without(ms, w.MemberHash(g, u)), FilterOut(rows, u))
    decreases |ms|
  {
    if ms != [] {
      var n := |ms| - 1;
      FilterMatches(w, g, ms[..n], rows[..n], u);
      assert RowMatches(w, g, ms[n], rows[n]);
      if ms[n].name == w.MemberHash(g, u) { w.MemberHashInjective(g, u, rows[n].user); }
    }
  }

  lemma {:induction false} FilterOutAbsent(rows: seq<Row>, u: Bytes)
    requires !Lists(rows, u)
    ensures FilterOut(rows, u) == rows
  {
    if rows != [] {
      var n := |rows| - 1;
      assert !Lists(rows[..n], u);
      FilterOutAbsent(rows[..n], u);
      assert rows == rows[..n] + [rows[n]];
    }
  }

  lemma AppendMatches(w: World, g: Bytes, ms: seq<Member>, rows: seq<Row>, m: Member, r: Row)
    requires RowsMatch(w, g, ms, rows) && RowMatches(w, g, m, r)
    ensures RowsMatch(w, g, ms + [m], rows + [r])
  {
  }

  // Changing one group in the store changes that group in the table.
  lemma ReplaceGroup(w: World, groups: Groups, t: Table, g: Bytes, doc: Doc, rows: seq<Row>)
    requires w.Ideal() && Represents(w, groups, t) && g in w.groupNames
    requires Shaped(doc) && RowsMatch(w, g, MembersOf(doc), rows)
    ensures Represents(w, groups[w.GroupHash(g) := doc], t[g := rows])
  {
    hide RowsMatch;
    var groups', t' := groups[w.GroupHash(g) := doc], t[g := rows];
    forall name | name in groups' ensures Shaped(groups'[name]) && Named(w, t', name) {
      if name == w.GroupHash(g) {
        assert g in t';
      } else {
        assert Named(w, t, name);
        var h :| h in t && w.GroupHash(h) == name;
        assert h in t';
      }
    }
    forall h | h in t' && h != g ensures w.GroupHash(h) != w.GroupHash(g) {
      if w.GroupHash(h) == w.GroupHash(g) { w.GroupHashInjective(h, g); }
    }
  }

  lemma GroupInTable(w: World, groups: Groups, t: Table, g: Bytes)
    requires w.Ideal() && Represents(w, groups, t) && g in w.groupNames
    ensures g in t <==> w.GroupHash(g) in groups
  {
    if w.GroupHash(g) in groups {
      assert Named(w, t, w.GroupHash(g));
      var h :| h in t && w.GroupHash(h) == w.GroupHash(g);
      w.GroupHashInjective(h, g);
    }
  }

  // ---------------------------------------------------------------- one committed write

  lemma KeyDecrypts(w: World, key: Bytes)
    requires KeyOk(w, key)
    ensures w.crypto.decrypt(key) == Some(PlainKey(w, key)) && |PlainKey(w, key)| == w.keySize
  {
  }

  // Pushing a member appends a row ...
  lemma PushRefines(w: World, groups: Groups, t: Table, g: Bytes, u: Bytes, key: Bytes, doc: Doc)
    requires w.Ideal() && Represents(w, groups, t) && g in t && u in w.userNames && !Lists(t[g], u)
    requires w.crypto.decrypt(key).Some? && Shaped(doc)
    requires MembersOf(doc) == MembersOf(groups[w.GroupHash(g)]) + [Member(w.MemberHash(g, u), key)]
    ensures Represents(w, groups[w.GroupHash(g) := doc], Apply(t, Appended(g, u, PlainKey(w, key))))
  {
    var r := Row(u, PlainKey(w, key));
    AppendMatches(w, g, MembersOf(groups[w.GroupHash(g)]), t[g], Member(w.MemberHash(g, u), key), r);
    ReplaceGroup(w, groups, t, g, doc, t[g] + [r]);
  }

  // ... and pulling one filters it out.
  lemma PullRefines(w: World, groups: Groups, t: Table, g: Bytes, u: Bytes, doc: Doc)
    requires w.Ideal() && Represents(w, groups, t) && g in t && u in w.userNames && Shaped(doc)
    requires MembersOf(doc) == Without(MembersOf(groups[w.GroupHash(g)]), w.MemberHash(g, u))
    ensures Represents(w, groups[w.GroupHash(g) := doc], Apply(t, Filtered(g, u)))
  {
    FilterMatches(w, g, MembersOf(groups[w.GroupHash(g)]), t[g], u);
    ReplaceGroup(w, groups, t, g, doc, FilterOut(t[g], u));
  }

  // A member list, seen through the first selector of a request.
  lemma FindSelects(w: World, req: Request, doc: Doc)
    requires Shaped(doc)
    ensures Selects(FindSelector(w, req), doc)
       <==> (req.Add? <==> w.MemberHash(req.group, req.user) !in MemberNames(MembersOf(doc)))
  {
    ShapedValidates(doc);
    var sel := FindSelector(w, req);
    assert Selects(sel, doc) <==> Passes(doc, sel.tests[0]);
  }

  /** The find of a request succeeds exactly when the operation would change the table. */
  lemma FindTells(w: World, groups: Groups, t: Table, req: Request)
    requires w.Ideal() && NamesOk(w, req.group, req.user) && Represents(w, groups, t)
    ensures FindOne(groups, FindSelector(w, req)).Some?
       <==> Effective(t, req)
  {
    GroupInTable(w, groups, t, req.group);
    if req.group in t {
      var doc := groups[w.GroupHash(req.group)];
      Membership(w, req.group, MembersOf(doc), t[req.group], req.user);
      FindSelects(w, req, doc);
    }
  }

  // A selected document lists the user exactly when the operation is a removal.
  lemma SelectedMembership(w: World, groups: Groups, t: Table, req: Request, snap: Doc)
    requires w.Ideal() && RequestOk(w, req) && Represents(w, groups, t) && Shaped(snap)
    requires w.GroupHash(req.group) in groups
    requires Selects(UpdateSelector(w, req, snap), groups[w.GroupHash(req.group)])
    ensures Effective(t, req)
  {
    var stored := groups[w.GroupHash(req.group)];
    GroupInTable(w, groups, t, req.group);
    SelectedByTag(w, req, snap, stored);
    Membership(w, req.group, MembersOf(stored), t[req.group], req.user);
  }

  /** A committed add or remove is the abstract operation on the table it commits against, and changes it. */
  lemma CommitRefines(w: World, groups: Groups, t: Table, req: Request, snap: Doc)
    requires w.Ideal() && RequestOk(w, req) && Represents(w, groups, t)
    requires w.GroupHash(req.group) in groups
    requires GroupOk(w, w.GroupHash(req.group), snap)
    requires GroupOk(w, w.GroupHash(req.group), groups[w.GroupHash(req.group)])
    requires Selects(UpdateSelector(w, req, snap), groups[w.GroupHash(req.group)])
    ensures Effective(t, req)
    ensures Represents(w, UpdateOne(groups, UpdateSelector(w, req, snap), PredictedUpdate(w, req, snap)).groups,
                       Apply(t, OpOf(w, req)))
  {
    hide Represents;
    hide Apply;
    var stored := groups[w.GroupHash(req.group)];
    SelectedMembership(w, groups, t, req, snap);
    CommitKeepsGroup(w, req, snap, stored);
    var doc := ApplyUpdate(stored, PredictedUpdate(w, req, snap));
    match req
    case Add(g, u, key) =>
      KeyDecrypts(w, key);
      PushRefines(w, groups, t, g, u, key, doc);
    case Remove(g, u) => PullRefines(w, groups, t, g, u, doc);
  }

  lemma InsertRefines(w: World, groups: Groups, t: Table, g: Bytes, u: Bytes, key: Bytes, encname: Bytes)
    requires w.Ideal() && NamesOk(w, g, u) && w.crypto.decrypt(key).Some? && Represents(w, groups, t)
    requires w.GroupHash(g) !in groups
    ensures g !in t
    ensures Represents(w, groups[w.GroupHash(g) := NewGroup(w, g, u, key, encname)],
                       Apply(t, Created(g, u, PlainKey(w, key))))
  {
    GroupInTable(w, groups, t, g);
    NewGroupIsGroupDoc(w, g, u, key, encname);
    var m, r := Member(w.MemberHash(g, u), key), Row(u, PlainKey(w, key));
    assert RowMatches(w, g, m, r);
    AppendMatches(w, g, [], [], m, r);
    assert [] + [m] == [m] && [] + [r] == [r];
    ReplaceGroup(w, groups, t, g, NewGroup(w, g, u, key, encname), [r]);
  }

  lemma BulkRefines(w: World, groups: Groups, t: Table, op: BulkOp)
    requires w.Ideal() && BulkOpOk(w, op) && Represents(w, groups, t)
    requires FindOne(groups, op.selector).Some?
    ensures Represents(w, UpdateOne(groups, op.selector, op.update).groups, Apply(t, Filtered(op.group, op.user)))
  {
    var stored := groups[op.selector.name];
    GroupInTable(w, groups, t, op.group);
    BulkKeepsGroup(w, op, stored);
    PullRefines(w, groups, t, op.group, op.user, ApplyUpdate(stored, op.update));
  }

  /** Under interference: after a queued removal the user is left in a group exactly if it was in a changed one. */
  lemma BulkMissesChangedGroups(w: World, groups: Groups, t: Table, op: BulkOp)
    requires w.Ideal() && BulkOpOk(w, op) && Represents(w, groups, t) && op.selector.name in groups
    ensures var unchanged' := IsDocument(groups[op.selector.name]) == op.selector.tests[0];
      var t' := if unchanged' then Apply(t, Filtered(op.group, op.user)) else t;
      && Represents(w, UpdateOne(groups, op.selector, op.update).groups, t')
      && op.group in t' && (Lists(t'[op.group], op.user) <==> Lists(t[op.group], op.user) && !unchanged')
  {
    hide Represents;
    hide GroupOk;
    hide ApplyUpdate;
    hide PredictedUpdate;
    var stored := groups[op.selector.name];
    GroupInTable(w, groups, t, op.group);
    OneTest(op.selector, stored);
    hide Selects;
    if IsDocument(stored) == op.selector.tests[0] {
      BulkRefines(w, groups, t, op);
      FilterOutRows(t[op.group], op.user);
    }
  }

  lemma OneTest(sel: Selector, doc: Doc)
    requires |sel.tests| == 1 && sel.tests[0].IsDocument?
    ensures Selects(sel, doc) <==> IsDocument(doc) == sel.tests[0]
  {
  }

  // The abstraction is a function on well-formed stores: equal stores stand for equal tables.
  lemma RowsUnique(w: World, g: Bytes, ms: seq<Member>, rows1: seq<Row>, rows2: seq<Row>)
    requires w.Ideal() && g in w.groupNames && RowsMatch(w, g, ms, rows1) && RowsMatch(w, g, ms, rows2)
    ensures rows1 == rows2
  {
    forall i | 0 <= i < |ms| ensures rows1[i] == rows2[i] {
      assert RowMatches(w, g, ms[i], rows1[i]) && RowMatches(w, g, ms[i], rows2[i]);
      w.MemberHashInjective(g, rows1[i].user, rows2[i].user);
    }
  }

  /** Represents determines the table. */
  lemma TableUnique(w: World, groups: Groups, t1: Table, t2: Table)
    requires w.Ideal() && Represents(w, groups, t1) && Represents(w, groups, t2)
    ensures t1 == t2
  {
    forall g | g in w.groupNames ensures g in t1 <==> g in t2 {
      GroupInTable(w, groups, t1, g);
      GroupInTable(w, groups, t2, g);
    }
    assert t1.Keys == t2.Keys;
    forall g | g in t1 ensures t1[g] == t2[g] {
      RowsUnique(w, g, MembersOf(groups[w.GroupHash(g)]), t1[g], t2[g]);
    }
  }

  // ---------------------------------------------------------------- steps and runs

  lemma ReplaySnoc(log: seq<Entry>, e: Entry)
    ensures Replay(log + [e]) == Apply(Replay(log), e.op)
  {
    assert (log + [e])[..|log|] == log;
  }

  lemma CommitStep(w: World, s: State, i: nat)
    requires w.Ideal() && Inv(w, s) && i < |s.clients| && s.clients[i].Holding?
    requires Represents(w, s.groups, Replay(s.log))
    ensures Represents(w, Commit(w, s, i).groups, Replay(Commit(w, s, i).log))
  {
    hide Represents;
    hide GroupOk;
    var c := s.clients[i];
    assert ClientOk(w, c);
    var sel := UpdateSelector(w, c.req, c.snap);
    if FindOne(s.groups, sel).Some? {
      CommitRefines(w, s.groups, Replay(s.log), c.req, c.snap);
      ReplaySnoc(s.log, Entry(i, OpOf(w, c.req)));
    }
  }

  lemma ExecuteStep(w: World, s: State, i: nat)
    requires w.Ideal() && Inv(w, s) && i < |s.clients| && s.clients[i].Executing?
    requires Represents(w, s.groups, Replay(s.log))
    ensures Represents(w, Execute(w, s, i).groups, Replay(Execute(w, s, i).log))
  {
    hide Represents;
    hide BulkOpOk;
    hide GroupOk;
    var ops := s.clients[i].ops;
    assert ClientOk(w, s.clients[i]);
    if ops != [] {
      assert BulkOpOk(w, ops[0]);
      if FindOne(s.groups, ops[0].selector).Some? {
        BulkRefines(w, s.groups, Replay(s.log), ops[0]);
        ReplaySnoc(s.log, Entry(i, Filtered(ops[0].group, ops[0].user)));
      }
    }
  }

  lemma InsertStep(w: World, s: State, i: nat, a: Action)
    requires w.Ideal() && Inv(w, s) && i < |s.clients| && a.Create? && ActionOk(w, a)
    requires Represents(w, s.groups, Replay(s.log))
    ensures Represents(w, Insert(w, s, i, a).groups, Replay(Insert(w, s, i, a).log))
  {
    hide Represents;
    if w.GroupHash(a.group) !in s.groups {
      KeyDecrypts(w, a.key);
      InsertRefines(w, s.groups, Replay(s.log), a.group, a.user, a.key, a.encname);
      ReplaySnoc(s.log, Entry(i, Created(a.group, a.user, PlainKey(w, a.key))));
    }
  }

  lemma StepRefines(w: World, s: State, i: nat, a: Action)
    requires w.Ideal() && Inv(w, s) && ActionOk(w, a)
    requires Represents(w, s.groups, Replay(s.log))
    ensures Represents(w, Step(w, s, i, a).groups, Replay(Step(w, s, i, a).log))
  {
    hide Represents;
    hide Replay;
    hide Inv;
    if i < |s.clients| {
      var c := s.clients[i];
      match a
      case Advance =>
        if c.Holding? { CommitStep(w, s, i); }
        if c.Executing? { ExecuteStep(w, s, i); }
      case Create(_, _, _, _) => InsertStep(w, s, i, a);
      case _ =>
    }
  }

  /**
   * Refinement: after every run the store represents exactly the replay of the committed operations. No
   * committed write is lost, and each had its whole effect at one moment.
   */
  lemma {:induction false} StoreIsReplayOfLog(w: World, n: nat, trace: seq<Event>)
    requires w.Ideal() && TraceOk(w, trace)
    ensures Represents(w, Run(w, n, trace).groups, Replay(Run(w, n, trace).log))
  {
    hide Step;
    hide Inv;
    if trace != [] {
      var m := |trace| - 1;
      StoreIsReplayOfLog(w, n, trace[..m]);
      RunKeepsInv(w, n, trace[..m]);
      StepRefines(w, Run(w, n, trace[..m]), trace[m].who, trace[m].action);
    }
  }

  // ---------------------------------------------------------------- what a call has done when it returns

  /**
   * A call that returns has either committed its operation in this very step, on a table on which it had
   * something to do, or found at this very moment that it had nothing to do.
   */
  lemma {:induction false} ReturnedCall(w: World, n: nat, trace: seq<Event>, i: nat)
    requires w.Ideal() && TraceOk(w, trace) && i < n
    ensures var s := Run(w, n, trace); var t := Replay(s.log);
      |s.clients| == n && match s.clients[i]
      case Holding(req, _, _, _, _) =>
        var s' := Commit(w, s, i);
        s'.clients[i] == Finished(Returned) ==>
          && s'.log == s.log + [Entry(i, OpOf(w, req))]
          && Effective(t, req)
      case Seeking(req, _, _) =>
        var s' := Seek(w, s, i);
        s'.clients[i] == Finished(Returned) ==>
          && s'.log == s.log
          && !Effective(t, req)
      case _ => true
  {
    hide Run;
    hide Replay;
    hide Represents;
    RunKeepsInv(w, n, trace);
    StoreIsReplayOfLog(w, n, trace);
    var s := Run(w, n, trace);
    match s.clients[i]
    case Holding(req, _, _, snap, _) =>
      if FindOne(s.groups, UpdateSelector(w, req, snap)).Some? {
        assert ClientOk(w, s.clients[i]);
        CommitRefines(w, s.groups, Replay(s.log), req, snap);
      }
    case Seeking(req, attempts, _) =>
      assert ClientOk(w, s.clients[i]);
      if attempts > 0 && FindOne(s.groups, FindSelector(w, req)).None? {
        FindTells(w, s.groups, Replay(s.log), req);
      }
    case _ =>
  }
}
