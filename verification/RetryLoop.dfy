// The retry loop of add_user_to_group and remove_user_from_group as the source writes it, against a store that
// other clients may change before each of its server calls.

module RetryLoop {

  import opened Basics
  import opened Primitives
  import opened Documents
  import opened Protocol
  import opened Safety
  import opened Refinement
  import opened Progress

  // How a call ended, and the groups collection after its update, if it made one.
  datatype Done = Done(outcome: Outcome, written: Option<Groups>)

  function TurnsLeft(c: Client): nat
    requires c.Seeking? || c.Holding?
  {
    if c.Seeking? then 2 * c.attempts else 2 * c.attempts + 1
  }

  /** A client's steps of the protocol, the groups collection being `env(k)`, `env(k + 1)`, .. at its server calls. */
  function Drive(w: World, c: Client, env: nat -> Groups, k: nat): Done
    requires c.Seeking? || c.Holding?
    decreases TurnsLeft(c)
  {
    var s := Step(w, State(env(k), [c], []), 0, Advance);
    match s.clients[0]
    case Finished(outcome) => Done(outcome, if s.log == [] then None else Some(s.groups))
    case Seeking(_, _, _) => Drive(w, s.clients[0], env, k + 1)
    case Holding(_, _, _, _, _) => Drive(w, s.clients[0], env, k + 1)
  }

  lemma DriveSeeking(w: World, req: Request, attempts: nat, env: nat -> Groups, k: nat)
    ensures var d := Drive(w, Seeking(req, attempts, 0), env, k);
      if attempts == 0 then d == Done(TooManyAttempts, None) else
        match FindOne(env(k), FindSelector(w, req))
        case None => d == Done(Returned, None)
        case Some(doc) =>
          d == if Validates(doc) then Drive(w, Holding(req, attempts - 1, 0, doc, 0), env, k + 1)
               else Done(BadSignature, None)
  {
    hide Validates;
    hide Selects;
    hide FindSelector;
  }

  lemma DriveHolding(w: World, req: Request, attempts: nat, snap: Doc, env: nat -> Groups, k: nat)
    ensures var r := UpdateOne(env(k), UpdateSelector(w, req, snap), PredictedUpdate(w, req, snap));
      Drive(w, Holding(req, attempts, 0, snap, 0), env, k)
      == if r.matched >= 1 then Done(Returned, Some(r.groups)) else Drive(w, Seeking(req, attempts, 0), env, k + 1)
  {
    hide UpdateOne;
    hide UpdateSelector;
    hide PredictedUpdate;
  }

  /** add_user_to_group and remove_user_from_group: the loop makes the client's steps of the protocol. */
  method Retry(w: World, req: Request, env: nat -> Groups) returns (outcome: Outcome, written: Option<Groups>)
    ensures Done(outcome, written) == Drive(w, Seeking(req, ATTEMPTS, 0), env, 0)
  {
    hide Drive;
    hide UpdateOne;
    hide UpdateSelector;
    hide FindSelector;
    hide SignedStream;
    hide Validates;
    hide FindOne;
    var done, attempts, k := false, ATTEMPTS, 0;
    written := None;
    while !done && attempts > 0
      invariant 0 <= attempts
      invariant Drive(w, Seeking(req, ATTEMPTS, 0), env, 0)
             == if done then Done(Returned, written) else Drive(w, Seeking(req, attempts, 0), env, k)
      decreases attempts
    {
      DriveSeeking(w, req, attempts, env, k);
      attempts := attempts - 1;
      var found := FindOne(env(k), FindSelector(w, req));
      k := k + 1;
      if found.None? { return Returned, None; }
      var valid := ValidateGroupSignature(found.value);
      if !valid { return BadSignature, None; }
      var member := w.MemberHash(req.group, req.user);
      var tag := ComputeGroupSignature(found.value, Some(member), if req.Add? then Some(req.key) else None, req.Add?);
      var update := Update(if req.Add? then Push(Member(member, req.key)) else Pull(member), tag);
      assert update == PredictedUpdate(w, req, found.value);
      DriveHolding(w, req, attempts, found.value, env, k);
      var reply := UpdateOne(env(k), UpdateSelector(w, req, found.value), update);
      k := k + 1;
      if reply.matched >= 1 { done, written := true, Some(reply.groups); }
    }
    if !done {
      DriveSeeking(w, req, attempts, env, k);
      return TooManyAttempts, None;
    }
    return Returned, written;
  }

  // Turn `j` fails: its update does not match what its find has found.
  ghost predicate Fails(w: World, req: Request, env: nat -> Groups, j: nat) {
    match FindOne(env(2 * j), FindSelector(w, req))
    case None => false
    case Some(doc) => Validates(doc) && FindOne(env(2 * j + 1), UpdateSelector(w, req, doc)).None?
  }

  // One turn, from its find to the find of the next.
  lemma DriveTurn(w: World, req: Request, attempts: nat, env: nat -> Groups, j: nat)
    requires attempts > 0
    ensures var d := Drive(w, Seeking(req, attempts, 0), env, 2 * j);
      if Fails(w, req, env, j) then d == Drive(w, Seeking(req, attempts - 1, 0), env, 2 * (j + 1))
      else d.outcome != TooManyAttempts
  {
    hide Drive;
    hide FindOne;
    hide Validates;
    DriveSeeking(w, req, attempts, env, 2 * j);
    var found := FindOne(env(2 * j), FindSelector(w, req));
    if found.Some? && Validates(found.value) { DriveHolding(w, req, attempts - 1, found.value, env, 2 * j + 1); }
  }

  lemma {:induction false} GivesUpAfterFailures(w: World, req: Request, attempts: nat, env: nat -> Groups, j: nat)
    ensures Drive(w, Seeking(req, attempts, 0), env, 2 * j).outcome == TooManyAttempts
       <==> forall i :: j <= i < j + attempts ==> Fails(w, req, env, i)
    decreases attempts
  {
    hide Drive;
    hide Fails;
    if attempts == 0 {
      DriveSeeking(w, req, 0, env, 2 * j);
    } else {
      DriveTurn(w, req, attempts, env, j);
      GivesUpAfterFailures(w, req, attempts - 1, env, j + 1);
    }
  }

  /** A call gives up if and only if ten turns in a row fail. */
  lemma GivesUpExactly(w: World, req: Request, env: nat -> Groups)
    ensures Drive(w, Seeking(req, ATTEMPTS, 0), env, 0).outcome == TooManyAttempts
       <==> forall i :: 0 <= i < 10 ==> Fails(w, req, env, i)
  {
    GivesUpAfterFailures(w, req, 10, env, 0);
    hide Drive;
    hide Fails;
  }

  // Every stored group is well formed, as in the reachable states of the protocol.
  ghost predicate StoreOk(w: World, groups: Groups, t: Table) {
    (forall name :: name in groups ==> GroupOk(w, name, groups[name])) && Represents(w, groups, t)
  }

  // What a call may report: at one of the `n` moments from `k` on its operation was done, or had nothing to do.
  ghost predicate DoneAtOnce(w: World, req: Request, t: nat -> Table, k: nat, n: nat, d: Done) {
    exists j :: k <= j < k + n && DoneAt(w, req, t(j), d)
  }

  ghost predicate DoneAt(w: World, req: Request, t: Table, d: Done) {
    match d.written
    case Some(groups) => Effective(t, req) && Represents(w, groups, Apply(t, OpOf(w, req)))
    case None => !Effective(t, req)
  }

  // One step of a client that is alone keeps it well formed and at the same request.
  lemma SoloStep(w: World, c: Client, groups: Groups, t: Table)
    requires w.Ideal() && (c.Seeking? || c.Holding?) && ClientOk(w, c) && StoreOk(w, groups, t)
    ensures var s := Step(w, State(groups, [c], []), 0, Advance);
      && |s.clients| == 1 && ClientOk(w, s.clients[0])
      && (s.clients[0] in [Finished(Returned), Finished(TooManyAttempts)]
          || ((s.clients[0].Seeking? || s.clients[0].Holding?)
              && s.clients[0].req == c.req && TurnsLeft(s.clients[0]) < TurnsLeft(c)))
  {
    hide GroupOk;
    hide RequestOk;
    hide UpdateOne;
    hide FindOne;
    var s := State(groups, [c], []);
    assert Inv(w, s);
    StepKeepsInv(w, s, 0, Advance);
  }

  lemma OutOfAttempts(w: World, c: Client, env: nat -> Groups, k: nat)
    requires c.Seeking? && c.attempts == 0
    ensures Drive(w, c, env, k) == Done(TooManyAttempts, None)
  {
  }

  lemma {:induction false} DriveIsAtomic(w: World, c: Client, env: nat -> Groups, t: nat -> Table, k: nat)
    requires w.Ideal() && (c.Seeking? || c.Holding?) && ClientOk(w, c)
    requires forall j :: k <= j < k + TurnsLeft(c) ==> StoreOk(w, env(j), t(j))
    ensures var d := Drive(w, c, env, k);
      || (d.outcome == Returned && DoneAtOnce(w, c.req, t, k, TurnsLeft(c), d))
      || d == Done(TooManyAttempts, None)
    decreases TurnsLeft(c)
  {
    hide Step;
    hide StoreOk;
    hide ClientOk;
    hide DoneAt;
    if TurnsLeft(c) == 0 {
      OutOfAttempts(w, c, env, k);
      return;
    }
    SoloStep(w, c, env(k), t(k));
    FinishingStep(w, c, env(k), t(k));
    var next := Step(w, State(env(k), [c], []), 0, Advance).clients[0];
    if !next.Finished? {
      DriveIsAtomic(w, next, env, t, k + 1);
      var d := Drive(w, next, env, k + 1);
      if d.outcome == Returned {
        var j :| k + 1 <= j < k + 1 + TurnsLeft(next) && DoneAt(w, c.req, t(j), d);
        assert DoneAt(w, c.req, t(j), Drive(w, c, env, k));
      }
    }
  }

  lemma FinishingStep(w: World, c: Client, groups: Groups, t: Table)
    requires w.Ideal() && (c.Seeking? || c.Holding?) && ClientOk(w, c) && StoreOk(w, groups, t)
    ensures var s := Step(w, State(groups, [c], []), 0, Advance);
      s.clients[0] == Finished(Returned) ==>
        DoneAt(w, c.req, t, Done(Returned, if s.log == [] then None else Some(s.groups)))
    ensures var s := Step(w, State(groups, [c], []), 0, Advance);
      s.clients[0] == Finished(TooManyAttempts) ==> s.log == []
  {
    hide Represents;
    hide GroupOk;
    hide Apply;
    match c
    case Seeking(req, _, _) => FindTells(w, groups, t, req);
    case Holding(req, _, _, snap, _) =>
      if FindOne(groups, UpdateSelector(w, req, snap)).Some? {
        CommitRefines(w, groups, t, req, snap);
      }
  }

  /**
   * Whatever other clients do between its server calls, a call that returns took effect at one of these calls, of
   * which there are at most twenty: it was the abstract operation on the table of that moment, or found there that
   * it had nothing to do. A call that gives up has written nothing.
   */
  lemma {:induction false} RetryIsAtomic(w: World, req: Request, env: nat -> Groups, t: nat -> Table)
    requires w.Ideal() && RequestOk(w, req)
    requires forall j: nat :: j < 20 ==> StoreOk(w, env(j), t(j))
    ensures var d := Drive(w, Seeking(req, ATTEMPTS, 0), env, 0);
      || (d.outcome == Returned && DoneAtOnce(w, req, t, 0, 20, d))
      || d == Done(TooManyAttempts, None)
  {
    DriveIsAtomic(w, Seeking(req, ATTEMPTS, 0), env, t, 0);
  }

  /** Left alone, the loop makes one turn, whose update always matches the document it was made from. */
  lemma Undisturbed(w: World, req: Request, env: nat -> Groups, groups: Groups)
    requires env(0) == env(1) == groups
    ensures Drive(w, Seeking(req, ATTEMPTS, 0), env, 0)
      == match FindOne(groups, FindSelector(w, req))
         case None => Done(Returned, None)
         case Some(doc) =>
           if !Validates(doc) then Done(BadSignature, None)
           else Done(Returned, Some(UpdateOne(groups, UpdateSelector(w, req, doc), PredictedUpdate(w, req, doc)).groups))
  {
    DriveSeeking(w, req, ATTEMPTS, env, 0);
    var found := FindOne(groups, FindSelector(w, req));
    if found.Some? && Validates(found.value) {
      SnapshotIsUpToDate(w, groups, req, found.value);
      DriveHolding(w, req, ATTEMPTS - 1, found.value, env, 1);
    }
    hide Drive;
    hide PredictedUpdate;
    hide Validates;
    hide ApplyUpdate;
    hide Selects;
  }
}
