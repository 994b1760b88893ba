// How long the retry loops can fail: every failed attempt is charged to a write of that group by another
// client, made between this client's find and its update.

module Progress {

  import opened Basics
  import opened Primitives
  import opened Documents
  import opened Protocol
  import opened Safety

  // The number of writes of group `g` at or after position `from` of the log.
  function Touches(log: seq<Entry>, from: nat, g: Bytes): nat {
    if |log| <= from then 0
    else Touches(log[..|log| - 1], from, g) + if log[|log| - 1].op.group == g then 1 else 0
  }

  predicate ByOthers(log: seq<Entry>, from: nat, i: nat) {
    forall k :: from <= k < |log| ==> log[k].who != i
  }

  lemma TouchesSnoc(log: seq<Entry>, e: Entry, from: nat, g: Bytes)
    requires from <= |log|
    ensures Touches(log + [e], from, g) == Touches(log, from, g) + if e.op.group == g then 1 else 0
  {
    assert (log + [e])[..|log|] == log;
  }

  lemma {:induction false} TouchesSplit(log: seq<Entry>, from: nat, mid: nat, g: Bytes)
    requires from <= mid <= |log|
    ensures Touches(log, from, g) == Touches(log[..mid], from, g) + Touches(log, mid, g)
    decreases |log|
  {
    if mid < |log| {
      TouchesSplit(log[..|log| - 1], from, mid, g);
      assert log[..|log| - 1][..mid] == log[..mid];
    } else {
      assert log[..mid] == log;
    }
  }

  // The snapshot is what the server has, and the conditional update would match it.
  ghost predicate UpToDate(w: World, groups: Groups, req: Request, snap: Doc) {
    && w.GroupHash(req.group) in groups && groups[w.GroupHash(req.group)] == snap
    && Selects(UpdateSelector(w, req, snap), snap)
  }

  /** Failed attempts so far are at most the writes of the group by others since the call began. */
  ghost predicate Accounted(w: World, s: State, i: nat, c: Client) {
    match c
    case Seeking(req, attempts, start) =>
      && start <= |s.log| && ByOthers(s.log, start, i)
      && ATTEMPTS - attempts <= Touches(s.log, start, req.group)
    case Holding(req, attempts, start, snap, since) =>
      && start <= since <= |s.log| && ByOthers(s.log, start, i)
      && ATTEMPTS - 1 - attempts <= Touches(s.log[..since], start, req.group)
      && (Touches(s.log, since, req.group) == 0 ==> UpToDate(w, s.groups, req, snap))
    case _ => true
  }

  ghost predicate AllAccounted(w: World, s: State) {
    forall i :: 0 <= i < |s.clients| ==> Accounted(w, s, i, s.clients[i])
  }

  // ---------------------------------------------------------------- the effect of one step

  // Nothing changed but client `j`; or it also made one write, of the group the new log entry names.
  ghost predicate OneWrite(w: World, s: State, s': State, j: nat) {
    && |s'.clients| == |s.clients|
    && (forall k :: 0 <= k < |s.clients| && k != j ==> s'.clients[k] == s.clients[k])
    && ((s'.log == s.log && s'.groups == s.groups)
        || (s'.groups != s.groups && |s'.log| == |s.log| + 1 && s'.log[..|s.log|] == s.log && s'.log[|s.log|].who == j
            && s'.log[|s.log|].op.group in w.groupNames
            && forall name :: name != w.GroupHash(s'.log[|s.log|].op.group) ==>
                 (name in s.groups <==> name in s'.groups) && (name in s.groups ==> s.groups[name] == s'.groups[name])))
  }

  lemma CommitIsOneWrite(w: World, s: State, j: nat)
    requires w.Ideal() && Inv(w, s) && j < |s.clients| && s.clients[j].Holding?
    ensures OneWrite(w, s, Commit(w, s, j), j)
  {
    hide GroupOk;
    hide ApplyUpdate;
    hide Selects;
    hide PredictedUpdate;
    hide KeyOk;
    var c := s.clients[j];
    assert ClientOk(w, c);
    var sel := UpdateSelector(w, c.req, c.snap);
    if FindOne(s.groups, sel).Some? { CommitChangesGroup(w, c.req, c.snap, s.groups[sel.name]); }
  }

  lemma StepIsOneWrite(w: World, s: State, j: nat, a: Action)
    requires w.Ideal() && Inv(w, s) && ActionOk(w, a)
    ensures OneWrite(w, s, Step(w, s, j, a), j)
  {
    hide GroupOk;
    hide ApplyUpdate;
    hide Selects;
    hide PredictedUpdate;
    hide NewGroup;
    hide SweepDocument;
    hide Validates;
    hide KeyOk;
    hide Commit;
    if j < |s.clients| {
      assert ClientOk(w, s.clients[j]);
      match s.clients[j]
      case Executing(ops) => if ops != [] { assert BulkOpOk(w, ops[0]); }
      case Holding(_, _, _, _, _) => CommitIsOneWrite(w, s, j);
      case _ =>
    }
  }

  // ---------------------------------------------------------------- other clients' steps

  lemma OthersKeepAccount(w: World, s: State, s': State, i: nat, j: nat)
    requires w.Ideal() && Inv(w, s) && OneWrite(w, s, s', j) && i != j && i < |s.clients|
    requires Accounted(w, s, i, s.clients[i])
    ensures Accounted(w, s', i, s.clients[i])
  {
    hide GroupOk;
    hide Selects;
    hide UpdateSelector;
    hide KeyOk;
    var c := s.clients[i];
    assert ClientOk(w, c);
    if |s'.log| == |s.log| + 1 {
      var e := s'.log[|s.log|];
      assert s'.log == s.log + [e];
      match c
      case Seeking(req, _, start) => TouchesSnoc(s.log, e, start, req.group);
      case Holding(req, _, start, _, since) =>
        TouchesSnoc(s.log, e, since, req.group);
        assert s'.log[..since] == s.log[..since];
        if e.op.group != req.group && w.GroupHash(e.op.group) == w.GroupHash(req.group) {
          w.GroupHashInjective(e.op.group, req.group);
        }
      case _ =>
    }
  }

  // ---------------------------------------------------------------- the client's own steps

  lemma SnapshotIsUpToDate(w: World, groups: Groups, req: Request, doc: Doc)
    requires FindOne(groups, FindSelector(w, req)) == Some(doc) && Validates(doc)
    ensures UpToDate(w, groups, req, doc)
  {
    var sel := FindSelector(w, req);
    var full := UpdateSelector(w, req, doc);
    forall k | 0 <= k < |full.tests| ensures Passes(doc, full.tests[k]) {
      if k < |sel.tests| { assert full.tests[k] == sel.tests[k]; }
    }
  }

  lemma SeekKeepsAccount(w: World, s: State, i: nat)
    requires i < |s.clients| && s.clients[i].Seeking? && Accounted(w, s, i, s.clients[i])
    ensures Accounted(w, Seek(w, s, i), i, Seek(w, s, i).clients[i])
  {
    var c := s.clients[i];
    var found := FindOne(s.groups, FindSelector(w, c.req));
    if c.attempts > 0 && found.Some? && Validates(found.value) {
      SnapshotIsUpToDate(w, s.groups, c.req, found.value);
      assert s.log[..|s.log|] == s.log;
    }
  }

  /** An update that matches nothing was overtaken by a write of the group since the find. */
  lemma CommitKeepsAccount(w: World, s: State, i: nat)
    requires i < |s.clients| && s.clients[i].Holding? && Accounted(w, s, i, s.clients[i])
    ensures Accounted(w, Commit(w, s, i), i, Commit(w, s, i).clients[i])
  {
    var c := s.clients[i];
    if FindOne(s.groups, UpdateSelector(w, c.req, c.snap)).None? {
      TouchesSplit(s.log, c.start, c.since, c.req.group);
    }
  }

  lemma OwnStepKeepsAccount(w: World, s: State, i: nat, a: Action)
    requires i < |s.clients| && Accounted(w, s, i, s.clients[i])
    ensures |Step(w, s, i, a).clients| == |s.clients|
    ensures Accounted(w, Step(w, s, i, a), i, Step(w, s, i, a).clients[i])
  {
    hide UpToDate;
    if a.Advance? && s.clients[i].Seeking? {
      SeekKeepsAccount(w, s, i);
    } else if a.Advance? && s.clients[i].Holding? {
      CommitKeepsAccount(w, s, i);
    }
  }

  lemma StepKeepsAccounts(w: World, s: State, j: nat, a: Action)
    requires w.Ideal() && Inv(w, s) && ActionOk(w, a) && AllAccounted(w, s)
    ensures AllAccounted(w, Step(w, s, j, a))
  {
    var s' := Step(w, s, j, a);
    StepIsOneWrite(w, s, j, a);
    hide Step;
    hide Accounted;
    forall i | 0 <= i < |s'.clients| ensures Accounted(w, s', i, s'.clients[i]) {
      if i == j { OwnStepKeepsAccount(w, s, i, a); } else { OthersKeepAccount(w, s, s', i, j); }
    }
  }

  lemma {:induction false} RunKeepsAccounts(w: World, n: nat, trace: seq<Event>)
    requires w.Ideal() && TraceOk(w, trace)
    ensures AllAccounted(w, Run(w, n, trace))
  {
    hide Step;
    if trace != [] {
      var m := |trace| - 1;
      RunKeepsInv(w, n, trace[..m]);
      RunKeepsAccounts(w, n, trace[..m]);
      StepKeepsAccounts(w, Run(w, n, trace[..m]), trace[m].who, trace[m].action);
    }
  }

  /**
   * A call gives up exactly when its attempts are spent, and then at least ten writes of its group were made
   * since it began, all of them by other clients.
   */
  lemma GivesUpAfterTenWrites(w: World, n: nat, trace: seq<Event>, i: nat)
    requires w.Ideal() && TraceOk(w, trace) && i < n
    requires i < |Run(w, n, trace).clients| && Run(w, n, trace).clients[i].Seeking?
    ensures var s := Run(w, n, trace); var c := s.clients[i];
      && (Step(w, s, i, Advance).clients[i] == Finished(TooManyAttempts) <==> c.attempts == 0)
      && (c.attempts == 0 ==> ByOthers(s.log, c.start, i) && Touches(s.log, c.start, c.req.group) >= 10)
  {
    hide Run;
    RunKeepsAccounts(w, n, trace);
    assert Accounted(w, Run(w, n, trace), i, Run(w, n, trace).clients[i]);
  }

  // ---------------------------------------------------------------- few calls, no giving up

  // An action that may lead to one write of group `g`: a call on it, or a sweep that reads it.
  predicate IsCallOn(w: World, a: Action, g: Bytes) {
    match a
    case Begin(req) => req.group == g
    case Create(h, _, _, _) => h == g
    case Read(name) => name == w.GroupHash(g)
    case _ => false
  }

  // The counts below are for group `g` and leave out the client `skip`, if there is one.
  function CallsOn(w: World, trace: seq<Event>, g: Bytes, skip: Option<nat>): nat {
    if trace == [] then 0
    else
      var e := trace[|trace| - 1];
      CallsOn(w, trace[..|trace| - 1], g, skip) + if skip != Some(e.who) && IsCallOn(w, e.action, g) then 1 else 0
  }

  function Writes(log: seq<Entry>, g: Bytes, skip: Option<nat>): nat {
    if log == [] then 0
    else
      var e := log[|log| - 1];
      Writes(log[..|log| - 1], g, skip) + if skip != Some(e.who) && e.op.group == g then 1 else 0
  }

  function Queued(ops: seq<BulkOp>, g: Bytes): nat {
    if ops == [] then 0 else (if ops[0].group == g then 1 else 0) + Queued(ops[1..], g)
  }

  // The writes a client may still make without another call.
  function Pending(c: Client, g: Bytes): nat {
    match c
    case Seeking(req, _, _) => if req.group == g then 1 else 0
    case Holding(req, _, _, _, _) => if req.group == g then 1 else 0
    case Sweeping(_, ops) => Queued(ops, g)
    case Executing(ops) => Queued(ops, g)
    case _ => 0
  }

  function PendingOf(clients: seq<Client>, g: Bytes, skip: Option<nat>): nat {
    if clients == [] then 0
    else
      var m := |clients| - 1;
      PendingOf(clients[..m], g, skip) + if skip == Some(m) then 0 else Pending(clients[m], g)
  }

  lemma {:induction false} PendingUpdate(clients: seq<Client>, g: Bytes, skip: Option<nat>, j: nat, c: Client)
    requires j < |clients|
    ensures PendingOf(clients[j := c], g, skip)
         == PendingOf(clients, g, skip) + if skip == Some(j) then 0 else Pending(c, g) - Pending(clients[j], g)
    ensures skip != Some(j) ==> PendingOf(clients, g, skip) >= Pending(clients[j], g)
    decreases |clients|
  {
    hide Pending;
    var m := |clients| - 1;
    if j < m {
      PendingUpdate(clients[..m], g, skip, j, c);
      assert clients[j := c][..m] == clients[..m][j := c];
    } else {
      assert clients[j := c][..m] == clients[..m];
    }
  }

  lemma {:induction false} QueuedSnoc(ops: seq<BulkOp>, op: BulkOp, g: Bytes)
    ensures Queued(ops + [op], g) == Queued(ops, g) + if op.group == g then 1 else 0
  {
    if ops == [] {
      assert ops + [op] == [op];
    } else {
      QueuedSnoc(ops[1..], op, g);
      assert (ops + [op])[1..] == ops[1..] + [op];
    }
  }

  // A sweep that reads a group queues an update of that group.
  lemma ReadOn(w: World, s: State, j: nat, name: Bytes, g: Bytes)
    requires w.Ideal() && Inv(w, s) && j < |s.clients| && s.clients[j].Sweeping?
    ensures Pending(ReadNext(w, s, j, name).clients[j], g)
         <= Pending(s.clients[j], g) + if name == w.GroupHash(g) then 1 else 0
  {
    hide GroupOk;
    hide BulkOpOk;
    hide SweepDocument;
    assert ClientOk(w, s.clients[j]);
    if name in s.groups {
      var c := s.clients[j];
      SweepOk(w, c.user, name, s.groups[name]);
      var op := SweepDocument(w, c.user, name, s.groups[name]).op;
      SweptGroup(w, c.user, name, s.groups[name]);
      QueuedSnoc(c.ops, op, g);
    }
  }

  lemma SweptGroup(w: World, user: Bytes, name: Bytes, doc: Doc)
    requires SweepDocument(w, user, name, doc).Queued? && BulkOpOk(w, SweepDocument(w, user, name, doc).op)
    ensures w.GroupHash(SweepDocument(w, user, name, doc).op.group) == name
  {
  }

  // Client `j` made at most one write, and spent a call or something pending on it.
  ghost predicate Spends(w: World, s: State, s': State, j: nat, a: Action, g: Bytes)
    requires j < |s.clients|
  {
    && |s'.clients| == |s.clients| && s'.clients == s.clients[j := s'.clients[j]]
    && var gain := Pending(s.clients[j], g) + (if IsCallOn(w, a, g) then 1 else 0) - Pending(s'.clients[j], g);
       || (s'.log == s.log && gain >= 0)
       || (|s'.log| > 0 && s'.log == s.log + [Entry(j, s'.log[|s'.log| - 1].op)]
           && gain >= if s'.log[|s'.log| - 1].op.group == g then 1 else 0)
  }

  lemma StepSpends(w: World, s: State, j: nat, a: Action, g: Bytes)
    requires w.Ideal() && Inv(w, s) && j < |s.clients|
    ensures Spends(w, s, Step(w, s, j, a), j, a, g)
  {
    hide Inv;
    hide PredictedUpdate;
    hide UpdateSelector;
    hide FindSelector;
    hide GroupOk;
    hide BulkOpOk;
    hide SweepDocument;
    hide UpdateOne;
    hide FindOne;
    hide Validates;
    hide NewGroup;
    if a.Read? && s.clients[j].Sweeping? { ReadOn(w, s, j, a.name, g); }
  }

  lemma StepPotential(w: World, s: State, j: nat, a: Action, g: Bytes, skip: Option<nat>)
    requires w.Ideal() && Inv(w, s)
    ensures var s' := Step(w, s, j, a);
      Writes(s'.log, g, skip) + PendingOf(s'.clients, g, skip)
      <= Writes(s.log, g, skip) + PendingOf(s.clients, g, skip)
         + if skip != Some(j) && IsCallOn(w, a, g) then 1 else 0
  {
    if j < |s.clients| {
      StepSpends(w, s, j, a, g);
      var s' := Step(w, s, j, a);
      PendingUpdate(s.clients, g, skip, j, s'.clients[j]);
      if s'.log != s.log { assert s'.log[..|s.log|] == s.log; }
    }
    hide Step;
    hide Inv;
  }

  lemma {:induction false} NothingPending(n: nat, g: Bytes, skip: Option<nat>)
    ensures PendingOf(seq(n, k => Idle), g, skip) == 0
  {
    if n > 0 {
      NothingPending(n - 1, g, skip);
      assert seq(n, k => Idle)[..n - 1] == seq(n - 1, k => Idle);
    }
  }

  /** The writes of a group that were made or may still follow are at most the calls on it. */
  lemma {:induction false} RunPotential(w: World, n: nat, trace: seq<Event>, g: Bytes, skip: Option<nat>)
    requires w.Ideal() && TraceOk(w, trace)
    ensures Writes(Run(w, n, trace).log, g, skip) + PendingOf(Run(w, n, trace).clients, g, skip)
         <= CallsOn(w, trace, g, skip)
  {
    hide Step;
    hide Inv;
    if trace == [] {
      NothingPending(n, g, skip);
    } else {
      var m := |trace| - 1;
      RunKeepsInv(w, n, trace[..m]);
      RunPotential(w, n, trace[..m], g, skip);
      StepPotential(w, Run(w, n, trace[..m]), trace[m].who, trace[m].action, g, skip);
    }
  }

  lemma {:induction false} TouchesByOthers(log: seq<Entry>, from: nat, g: Bytes, i: nat)
    requires ByOthers(log, from, i)
    ensures Touches(log, from, g) <= Writes(log, g, Some(i)) && Touches(log, from, g) <= Writes(log, g, None)
  {
    if log != [] { TouchesByOthers(log[..|log| - 1], from, g, i); }
  }

  // Fewer than ten calls on `g` were begun by other clients, or no more than ten in all.
  predicate FewCallsOn(w: World, trace: seq<Event>, g: Bytes, i: nat) {
    CallsOn(w, trace, g, Some(i)) < 10 || CallsOn(w, trace, g, None) <= 10
  }

  /** With few calls on its own group, whatever happens on the others, a client does not run out of attempts. */
  lemma AttemptsRemain(w: World, n: nat, trace: seq<Event>, g: Bytes, i: nat)
    requires w.Ideal() && TraceOk(w, trace) && i < n && FewCallsOn(w, trace, g, i)
    ensures |Run(w, n, trace).clients| == n
    ensures var c := Run(w, n, trace).clients[i]; c.Seeking? && c.req.group == g ==> c.attempts > 0
  {
    hide Run;
    RunKeepsInv(w, n, trace);
    var s := Run(w, n, trace);
    var c := s.clients[i];
    if c.Seeking? && c.req.group == g && c.attempts == 0 {
      RunKeepsAccounts(w, n, trace);
      assert Accounted(w, s, i, c);
      TouchesByOthers(s.log, c.start, g, i);
      RunPotential(w, n, trace, g, Some(i));
      RunPotential(w, n, trace, g, None);
      PendingUpdate(s.clients, g, None, i, c);
    }
  }

  // The only way to give up is to be out of attempts.
  lemma GivingUp(w: World, s: State, j: nat, a: Action, i: nat)
    requires w.Ideal() && Inv(w, s) && ActionOk(w, a) && i < |s.clients|
    requires s.clients[i] != Finished(TooManyAttempts)
    ensures |Step(w, s, j, a).clients| == |s.clients|
    ensures Step(w, s, j, a).clients[i] == Finished(TooManyAttempts) ==>
      i == j && s.clients[i].Seeking? && s.clients[i].attempts == 0
  {
    hide GroupOk;
    hide BulkOpOk;
    hide SweepDocument;
    hide UpdateOne;
    hide FindOne;
    hide Validates;
    hide NewGroup;
    if j < |s.clients| {
      assert ClientOk(w, s.clients[j]);
      if s.clients[j].Sweeping? && a.Read? && a.name in s.groups { SweepOk(w, s.clients[j].user, a.name, s.groups[a.name]); }
    }
  }

  lemma FewerCalls(w: World, trace: seq<Event>, g: Bytes, i: nat)
    requires trace != [] && FewCallsOn(w, trace, g, i)
    ensures FewCallsOn(w, trace[..|trace| - 1], g, i)
  {
  }

  /** If there are few calls on every single group, client `i` has never given up. */
  lemma {:induction false} NoOneGivesUp(w: World, n: nat, trace: seq<Event>, i: nat)
    requires w.Ideal() && TraceOk(w, trace) && i < n
    requires forall g :: FewCallsOn(w, trace, g, i)
    ensures |Run(w, n, trace).clients| == n
    ensures Run(w, n, trace).clients[i] != Finished(TooManyAttempts)
  {
    hide Step;
    hide FewCallsOn;
    RunKeepsInv(w, n, trace);
    if trace != [] {
      var m := |trace| - 1;
      var s, e := Run(w, n, trace[..m]), trace[m];
      forall g ensures FewCallsOn(w, trace[..m], g, i) { FewerCalls(w, trace, g, i); }
      NoOneGivesUp(w, n, trace[..m], i);
      RunKeepsInv(w, n, trace[..m]);
      GivingUp(w, s, e.who, e.action, i);
      if s.clients[i].Seeking? { AttemptsRemain(w, n, trace[..m], s.clients[i].req.group, i); }
    }
  }

  // ---------------------------------------------------------------- ten clients

  // No client makes two calls on `g`, or has a sweep read it twice.
  ghost predicate OneCallEach(w: World, trace: seq<Event>, g: Bytes) {
    forall j, k :: 0 <= j < k < |trace| && IsCallOn(w, trace[j].action, g) && IsCallOn(w, trace[k].action, g) ==>
      trace[j].who != trace[k].who
  }

  lemma {:induction false} CallsAreCallers(w: World, trace: seq<Event>, g: Bytes, callers: set<nat>)
    requires OneCallEach(w, trace, g)
    requires forall j :: 0 <= j < |trace| && IsCallOn(w, trace[j].action, g) ==> trace[j].who in callers
    ensures CallsOn(w, trace, g, None) <= |callers|
  {
    if trace != [] {
      var m := |trace| - 1;
      var rest := if IsCallOn(w, trace[m].action, g) then callers - {trace[m].who} else callers;
      CallsAreCallers(w, trace[..m], g, rest);
    }
  }

  function Numbers(n: nat): (s: set<nat>)
    ensures |s| == n && forall k: nat :: k in s <==> k < n
  {
    if n == 0 then {} else Numbers(n - 1) + {n - 1}
  }

  /** Ten clients that each make at most one call on every group: none of them ever gives up. */
  lemma TenClients(w: World, n: nat, trace: seq<Event>, i: nat)
    requires w.Ideal() && TraceOk(w, trace) && i < n <= 10
    requires forall j :: 0 <= j < |trace| ==> trace[j].who < n
    requires forall g :: OneCallEach(w, trace, g)
    ensures |Run(w, n, trace).clients| == n
    ensures Run(w, n, trace).clients[i] != Finished(TooManyAttempts)
  {
    forall g ensures FewCallsOn(w, trace, g, i) {
      assert OneCallEach(w, trace, g);
      CallsAreCallers(w, trace, g, Numbers(n));
    }
    NoOneGivesUp(w, n, trace, i);
  }
}
