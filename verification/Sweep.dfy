// remove_user_from_all_groups on an undisturbed store: what is queued for each group, and what executing the queue
// does to the table.

module Sweep {

  import opened Basics
  import opened Primitives
  import opened Documents
  import opened Signatures
  import opened Protocol
  import opened Safety
  import opened Refinement
  import opened Registry

  // Every stored group is a sound document.
  ghost predicate AllSound(w: World, groups: Groups) {
    forall name :: name in groups ==> SoundDoc(w, name, groups[name])
  }

  lemma SoundUpdate(w: World, groups: Groups, name: Bytes, doc: Doc)
    requires AllSound(w, groups) && SoundDoc(w, name, doc)
    ensures AllSound(w, groups[name := doc])
  {
  }

  // What remove_user_from_all_groups queues for the group stored under `name`.
  ghost predicate Ready(w: World, groups: Groups, u: Bytes, op: BulkOp) {
    var name := op.selector.name;
    && name in groups && SweepDocument(w, u, name, groups[name]) == Queued(op)
    && op.group in w.groupNames && w.GroupHash(op.group) == name
  }

  lemma SoundIsReady(w: World, groups: Groups, u: Bytes, name: Bytes)
    requires name in groups && SoundDoc(w, name, groups[name])
    ensures SweepDocument(w, u, name, groups[name]).Queued?
    ensures var op := SweepDocument(w, u, name, groups[name]).op; op.selector.name == name && Ready(w, groups, u, op)
  {
    var doc := groups[name];
    ShapedIsGroupDoc(doc);
    GroupDocLookups(NameOf(doc), EncNameOf(doc), MembersOf(doc), TagOf(doc));
  }

  ghost predicate AllReady(w: World, groups: Groups, u: Bytes, ops: seq<BulkOp>) {
    && (forall k :: 0 <= k < |ops| ==> Ready(w, groups, u, ops[k]))
    && forall j, k :: 0 <= j < k < |ops| ==> ops[j].selector.name != ops[k].selector.name
  }

  lemma ReadyDocument(w: World, groups: Groups, u: Bytes, op: BulkOp)
    requires Ready(w, groups, u, op) && SoundDoc(w, op.selector.name, groups[op.selector.name])
    ensures var doc := groups[op.selector.name]; var after := ApplyUpdate(doc, op.update);
      && Selects(op.selector, doc) && SoundDoc(w, op.selector.name, after)
      && MembersOf(after) == Without(MembersOf(doc), w.MemberHash(op.group, u))
  {
    var doc := groups[op.selector.name];
    assert op.selector.tests[0] == IsDocument(doc);
    UpdateKeepsSound(w, op.selector.name, Remove(op.group, u), doc, doc);
  }

  lemma StillReady(w: World, groups: Groups, u: Bytes, ops: seq<BulkOp>, doc: Doc)
    requires ops != [] && AllReady(w, groups, u, ops)
    ensures AllReady(w, groups[ops[0].selector.name := doc], u, ops[1..])
  {
    var rest, groups' := ops[1..], groups[ops[0].selector.name := doc];
    forall k | 0 <= k < |rest| ensures Ready(w, groups', u, rest[k]) {
      assert rest[k] == ops[k + 1] && Ready(w, groups, u, ops[k + 1]);
    }
  }

  // Executing one queued update of an undisturbed store.
  lemma ExecuteReady(w: World, groups: Groups, t: Table, u: Bytes, ops: seq<BulkOp>)
    requires w.Ideal() && AllSound(w, groups) && Represents(w, groups, t) && u in w.userNames
    requires ops != [] && AllReady(w, groups, u, ops)
    ensures var r := UpdateOne(groups, ops[0].selector, ops[0].update);
      && ops[0].group in t && AllSound(w, r.groups) && AllReady(w, r.groups, u, ops[1..])
      && Represents(w, r.groups, Apply(t, Filtered(ops[0].group, u)))
  {
    hide Represents;
    hide Apply;
    hide ApplyUpdate;
    hide Selects;
    var op := ops[0];
    var doc := groups[op.selector.name];
    var after := ApplyUpdate(doc, op.update);
    assert Ready(w, groups, u, op);
    GroupInTable(w, groups, t, op.group);
    ReadyDocument(w, groups, u, op);
    SoundUpdate(w, groups, op.selector.name, after);
    StillReady(w, groups, u, ops, after);
    PullRefines(w, groups, t, op.group, u, after);
  }

  // Some queued update is for the group stored under `name`.
  ghost predicate Queues(ops: seq<BulkOp>, name: Bytes) {
    exists k :: 0 <= k < |ops| && ops[k].selector.name == name
  }

  // The reading half of the sweep: updates are queued for all groups but those in `todo`.
  ghost predicate Reading(w: World, groups: Groups, u: Bytes, ops: seq<BulkOp>, todo: set<Bytes>) {
    && todo <= groups.Keys && AllReady(w, groups, u, ops)
    && (forall k :: 0 <= k < |ops| ==> ops[k].selector.name !in todo)
    && forall name :: name in groups && name !in todo ==> Queues(ops, name)
  }

  lemma ReadOne(w: World, groups: Groups, u: Bytes, ops: seq<BulkOp>, todo: set<Bytes>, op: BulkOp)
    requires Reading(w, groups, u, ops, todo) && Ready(w, groups, u, op) && op.selector.name in todo
    ensures Reading(w, groups, u, ops + [op], todo - {op.selector.name})
  {
    hide Ready;
    var ops' := ops + [op];
    forall name | Queues(ops, name) || name == op.selector.name ensures Queues(ops', name) {
      if Queues(ops, name) {
        var k :| 0 <= k < |ops| && ops[k].selector.name == name;
        assert ops'[k].selector.name == name;
      } else {
        assert ops'[|ops|].selector.name == name;
      }
    }
  }

  // The executing half: the groups in `done` are filtered, the others still wait in `rest`.
  ghost predicate Filtering(w: World, groups: Groups, t: Table, done: set<Bytes>, u: Bytes, rest: seq<BulkOp>) {
    && AllSound(w, groups) && Represents(w, groups, FilterSome(t, done, u)) && AllReady(w, groups, u, rest)
    && (forall g :: g in t ==> g in w.groupNames && (g in done || Queues(rest, w.GroupHash(g))))
    && forall k :: 0 <= k < |rest| ==> rest[k].group !in done
  }

  lemma NextRemoval(w: World, groups: Groups, t: Table, done: set<Bytes>, u: Bytes, rest: seq<BulkOp>)
    requires w.Ideal() && rest != [] && Filtering(w, groups, t, done, u, rest)
    ensures forall g :: g in t && g !in done + {rest[0].group} ==> Queues(rest[1..], w.GroupHash(g))
    ensures forall k :: 0 <= k < |rest[1..]| ==> rest[1..][k].group !in done + {rest[0].group}
  {
    hide Represents;
    hide AllSound;
    assert Ready(w, groups, u, rest[0]);
    forall g | g in t && g !in done + {rest[0].group} ensures Queues(rest[1..], w.GroupHash(g)) {
      var k :| 0 <= k < |rest| && rest[k].selector.name == w.GroupHash(g);
      assert Ready(w, groups, u, rest[k]);
      w.GroupHashInjective(g, rest[k].group);
      assert rest[1..][k - 1].selector.name == w.GroupHash(g);
    }
    forall k | 0 <= k < |rest[1..]| ensures rest[1..][k].group !in done + {rest[0].group} {
      assert rest[1..][k] == rest[k + 1] && Ready(w, groups, u, rest[k + 1]);
    }
  }

  lemma FilterOne(w: World, groups: Groups, t: Table, done: set<Bytes>, u: Bytes, rest: seq<BulkOp>)
    requires w.Ideal() && u in w.userNames && rest != [] && Filtering(w, groups, t, done, u, rest)
    ensures Filtering(w, UpdateOne(groups, rest[0].selector, rest[0].update).groups,
                      t, done + {rest[0].group}, u, rest[1..])
  {
    hide Represents;
    hide AllSound;
    hide AllReady;
    hide UpdateOne;
    hide Apply;
    NextRemoval(w, groups, t, done, u, rest);
    ExecuteReady(w, groups, FilterSome(t, done, u), u, rest);
    FilterOneMore(t, done, u, rest[0].group);
  }

  lemma AllFiltered(w: World, groups: Groups, t: Table, done: set<Bytes>, u: Bytes)
    requires Filtering(w, groups, t, done, u, [])
    ensures AllSound(w, groups) && Represents(w, groups, FilterAll(t, u))
  {
    hide AllSound;
    hide Represents;
    forall g | g in t ensures g in done { assert !Queues([], w.GroupHash(g)); }
    assert FilterSome(t, done, u) == FilterAll(t, u);
  }

  lemma EmptyStore(w: World, groups: Groups, t: Table)
    requires Represents(w, groups, t)
    ensures groups == map[] <==> t == map[]
  {
    hide RowsMatch;
    if name :| name in groups { assert Named(w, t, name); }
    if g :| g in t { assert w.GroupHash(g) in groups; }
  }

  lemma ReadAll(w: World, groups: Groups, t: Table, u: Bytes, ops: seq<BulkOp>)
    requires AllSound(w, groups) && Represents(w, groups, t) && Reading(w, groups, u, ops, {})
    ensures Filtering(w, groups, t, {}, u, ops) && (ops == [] <==> t == map[])
  {
    hide AllSound;
    hide RowsMatch;
    hide Ready;
    EmptyStore(w, groups, t);
    assert FilterSome(t, {}, u) == t;
    if ops != [] {
      assert Ready(w, groups, u, ops[0]);
      ReadyIsStored(w, groups, u, ops[0]);
    }
    if name :| name in groups { assert Queues(ops, name); }
  }

  lemma ReadyIsStored(w: World, groups: Groups, u: Bytes, op: BulkOp)
    requires Ready(w, groups, u, op)
    ensures op.selector.name in groups
  {
  }
}
