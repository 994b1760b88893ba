// Any number of clients running the group operations of trusted/MongoDatabase.cpp against one server. Each
// server call is one atomic step; between its calls a client holds a snapshot that may have become stale.

module Protocol {

  import opened Basics
  import opened Primitives
  import opened Documents

  const ATTEMPTS := 10

  // add_user_to_group with the re-encrypted key, remove_user_from_group
  datatype Request =
    | Add(group: Bytes, user: Bytes, key: Bytes)
    | Remove(group: Bytes, user: Bytes)

  datatype Outcome = Returned | BadSignature | Undecryptable | TooManyAttempts

  // One update of the bulk operation of remove_user_from_all_groups.
  datatype BulkOp = BulkOp(group: Bytes, user: Bytes, selector: Selector, update: Update)

  // Where a client is. `start` and `since` are the lengths of the log when the call began and when the
  // snapshot was taken; the client does not use them.
  datatype Client =
    | Idle
    | Seeking(req: Request, attempts: nat, start: nat)
    | Holding(req: Request, attempts: nat, start: nat, snap: Doc, since: nat)
    | Sweeping(user: Bytes, ops: seq<BulkOp>)
    | Executing(ops: seq<BulkOp>)
    | Finished(outcome: Outcome)

  // What a committed write did, in plain names and keys.
  datatype Op =
    | Created(group: Bytes, user: Bytes, key: Bytes)
    | Appended(group: Bytes, user: Bytes, key: Bytes)
    | Filtered(group: Bytes, user: Bytes)

  // The history of the writes that changed a document, with the client that made each.
  datatype Entry = Entry(who: nat, op: Op)

  datatype State = State(groups: Groups, clients: seq<Client>, log: seq<Entry>)

  datatype Action =
    | Begin(req: Request)
    | Create(group: Bytes, user: Bytes, key: Bytes, encname: Bytes)
    | BeginSweep(user: Bytes)
    | Read(name: Bytes)  // the sweep's cursor yields the group stored under this hashed name
    | Advance            // the client's next server call

  // ---------------------------------------------------------------- the calls a client makes

  function FindSelector(w: World, req: Request): Selector {
    var name := w.MemberHash(req.group, req.user);
    Selector(w.GroupHash(req.group), [if req.Add? then LacksMember(name) else HasMember(name)])
  }

  // "Add old signature to selector": whatever the snapshot carries as its signature.
  function UpdateSelector(w: World, req: Request, snap: Doc): Selector {
    var sel := FindSelector(w, req);
    match Lookup(snap, "signature")
    case Some(Signature(tag)) => sel.(tests := sel.tests + [SignatureIs(tag)])
    case _ => sel
  }

  function PredictedUpdate(w: World, req: Request, snap: Doc): Update {
    var name := w.MemberHash(req.group, req.user);
    match req
    case Add(_, _, key) => Update(Push(Member(name, key)), Mac(SignedStream(snap, Some(name), Some(key), true)))
    case Remove(_, _) => Update(Pull(name), Mac(SignedStream(snap, Some(name), None, false)))
  }

  function PlainKey(w: World, key: Bytes): Bytes {
    match w.crypto.decrypt(key)
    case Some(k) => k
    case None => []
  }

  function OpOf(w: World, req: Request): Op {
    match req
    case Add(g, u, key) => Appended(g, u, PlainKey(w, key))
    case Remove(g, u) => Filtered(g, u)
  }

  function NewGroup(w: World, group: Bytes, user: Bytes, key: Bytes, encname: Bytes): Doc {
    var unsigned := [Field("name", Bin(w.GroupHash(group))), Field("encname", Bin(encname)),
                     Field("users", Users([Member(w.MemberHash(group, user), key)]))];
    unsigned + [Field("signature", Signature(Mac(PlainStream(unsigned))))]
  }

  // What the sweep queues for a document it reads, or the error it throws.
  datatype Swept = Queued(op: BulkOp) | Threw(outcome: Outcome)

  function SweepDocument(w: World, user: Bytes, name: Bytes, doc: Doc): Swept {
    match Lookup(doc, "encname")
    case Some(Bin(encname)) =>
      (match w.crypto.decrypt(encname)
       case None => Threw(Undecryptable)
       case Some(group) =>
         if !Validates(doc) then Threw(BadSignature)
         else
           var member := w.MemberHash(group, user);
           Queued(BulkOp(group, user, Selector(name, [IsDocument(doc)]),
                         Update(Pull(member), Mac(SignedStream(doc, Some(member), None, false))))))
    case _ => Threw(Undecryptable)
  }

  // ---------------------------------------------------------------- steps

  function With(s: State, i: nat, c: Client): State
    requires i < |s.clients|
  {
    s.(clients := s.clients[i := c])
  }

  // The first half of a turn of the retry loop: the find and the validation.
  function Seek(w: World, s: State, i: nat): State
    requires i < |s.clients| && s.clients[i].Seeking?
  {
    var c := s.clients[i];
    if c.attempts == 0 then With(s, i, Finished(TooManyAttempts))
    else
      match FindOne(s.groups, FindSelector(w, c.req))
      case None => With(s, i, Finished(Returned))
      case Some(doc) =>
        if !Validates(doc) then With(s, i, Finished(BadSignature))
        else With(s, i, Holding(c.req, c.attempts - 1, c.start, doc, |s.log|))
  }

  // The second half: the conditional update, and another turn if it matched nothing.
  function Commit(w: World, s: State, i: nat): State
    requires i < |s.clients| && s.clients[i].Holding?
  {
    var c := s.clients[i];
    var r := UpdateOne(s.groups, UpdateSelector(w, c.req, c.snap), PredictedUpdate(w, c.req, c.snap));
    if r.matched >= 1 then
      State(r.groups, s.clients[i := Finished(Returned)], s.log + [Entry(i, OpOf(w, c.req))])
    else With(s, i, Seeking(c.req, c.attempts, c.start))
  }

  // create_group: an insert, and an addition if the group is already there.
  function Insert(w: World, s: State, i: nat, a: Action): State
    requires i < |s.clients| && a.Create?
  {
    var name := w.GroupHash(a.group);
    if name in s.groups then With(s, i, Seeking(Add(a.group, a.user, a.key), ATTEMPTS, |s.log|))
    else State(s.groups[name := NewGroup(w, a.group, a.user, a.key, a.encname)],
               s.clients[i := Finished(Returned)],
               s.log + [Entry(i, Created(a.group, a.user, PlainKey(w, a.key)))])
  }

  function ReadNext(w: World, s: State, i: nat, name: Bytes): State
    requires i < |s.clients| && s.clients[i].Sweeping?
  {
    var c := s.clients[i];
    if name !in s.groups then s
    else
      match SweepDocument(w, c.user, name, s.groups[name])
      case Threw(outcome) => With(s, i, Finished(outcome))
      case Queued(op) => With(s, i, Sweeping(c.user, c.ops + [op]))
  }

  // One update of the bulk operation. It may match and change nothing.
  function Execute(w: World, s: State, i: nat): State
    requires i < |s.clients| && s.clients[i].Executing?
  {
    var ops := s.clients[i].ops;
    if ops == [] then With(s, i, Finished(Returned))
    else
      var op := ops[0];
      var r := UpdateOne(s.groups, op.selector, op.update);
      State(r.groups, s.clients[i := Executing(ops[1..])],
            if r.groups == s.groups then s.log else s.log + [Entry(i, Filtered(op.group, op.user))])
  }

  function Step(w: World, s: State, i: nat, a: Action): State {
    if i >= |s.clients| then s
    else
      match (s.clients[i], a)
      case (Idle, Begin(req)) => With(s, i, Seeking(req, ATTEMPTS, |s.log|))
      case (Finished(_), Begin(req)) => With(s, i, Seeking(req, ATTEMPTS, |s.log|))
      case (Idle, Create(_, _, _, _)) => Insert(w, s, i, a)
      case (Finished(_), Create(_, _, _, _)) => Insert(w, s, i, a)
      case (Idle, BeginSweep(user)) => With(s, i, Sweeping(user, []))
      case (Finished(_), BeginSweep(user)) => With(s, i, Sweeping(user, []))
      case (Sweeping(_, _), Read(name)) => ReadNext(w, s, i, name)
      case (Sweeping(_, ops), Advance) => With(s, i, Executing(ops))
      case (Seeking(_, _, _), Advance) => Seek(w, s, i)
      case (Holding(_, _, _, _, _), Advance) => Commit(w, s, i)
      case (Executing(_), Advance) => Execute(w, s, i)
      case _ => s  // not enabled
  }

  // ---------------------------------------------------------------- runs

  datatype Event = Event(who: nat, action: Action)

  function Initial(n: nat): State { State(map[], seq(n, i => Idle), []) }

  function Run(w: World, n: nat, trace: seq<Event>): State {
    if trace == [] then Initial(n)
    else
      var last := trace[|trace| - 1];
      Step(w, Run(w, n, trace[..|trace| - 1]), last.who, last.action)
  }

  // The re-encryption of a key.
  ghost predicate KeyOk(w: World, key: Bytes) {
    exists k :: |k| == w.keySize && w.Encrypts(k, key)
  }

  ghost predicate NamesOk(w: World, group: Bytes, user: Bytes) {
    group in w.groupNames && user in w.userNames
  }

  // Calls use names in use, keys of one length and the results of encrypt_data.
  ghost predicate ActionOk(w: World, a: Action) {
    match a
    case Begin(req) => NamesOk(w, req.group, req.user) && (req.Add? ==> KeyOk(w, req.key))
    case Create(g, u, key, encname) => NamesOk(w, g, u) && KeyOk(w, key) && w.Encrypts(g, encname)
    case BeginSweep(u) => u in w.userNames
    case _ => true
  }

  ghost predicate TraceOk(w: World, trace: seq<Event>) {
    forall j :: 0 <= j < |trace| ==> ActionOk(w, trace[j].action)
  }
}
