// What each call of the protocol does: in every reachable state, for its steps one by one, and as a whole when its
// steps follow each other undisturbed.

module Calls {

  import opened Basics
  import opened Primitives
  import opened Documents
  import opened Protocol
  import opened Safety
  import opened Refinement
  import opened Progress
  import opened Registry
  import opened Sweep

  // A client between two calls.
  predicate Free(c: Client) { c.Idle? || c.Finished? }

  // ---------------------------------------------------------------- create_group

  lemma CreateIsInsert(w: World, s: State, i: nat, a: Action)
    requires i < |s.clients| && Free(s.clients[i]) && a.Create?
    ensures Step(w, s, i, a) == Insert(w, s, i, a)
  {
    hide Insert;
  }

  /**
   * The insert creates a group that is absent; for a group that is present the call goes on as the addition of the
   * user, with all attempts. If the call is over at once, the group lists the user.
   */
  lemma CreateStep(w: World, n: nat, trace: seq<Event>, i: nat, g: Bytes, u: Bytes, key: Bytes, encname: Bytes)
    requires w.Ideal() && TraceOk(w, trace) && ActionOk(w, Create(g, u, key, encname))
    requires i < n && |Run(w, n, trace).clients| == n && Free(Run(w, n, trace).clients[i])
    ensures var s := Run(w, n, trace); var s' := Step(w, s, i, Create(g, u, key, encname));
      && |s'.clients| == n
      && (g !in Replay(s.log) ==>
            s'.clients[i] == Finished(Returned) && s'.log == s.log + [Entry(i, Created(g, u, PlainKey(w, key)))])
      && (g in Replay(s.log) ==>
            s'.log == s.log && s'.groups == s.groups && s'.clients[i] == Seeking(Add(g, u, key), 10, |s.log|))
      && (s'.clients[i].Finished? ==> g in Replay(s'.log) && Lists(Replay(s'.log)[g], u))
  {
    var s := Run(w, n, trace);
    StoreIsReplayOfLog(w, n, trace);
    GroupInTable(w, s.groups, Replay(s.log), g);
    CreateIsInsert(w, s, i, Create(g, u, key, encname));
    hide Step;
    hide Run;
    hide Represents;
    hide NewGroup;
    hide Replay;
    hide PlainKey;
    if g !in Replay(s.log) {
      ReplaySnoc(s.log, Entry(i, Created(g, u, PlainKey(w, key))));
      CreatedLists(Replay(s.log), g, u, PlainKey(w, key));
    }
  }

  lemma CreatedLists(t: Table, g: Bytes, u: Bytes, key: Bytes)
    requires g !in t
    ensures g in Apply(t, Created(g, u, key)) && Lists(Apply(t, Created(g, u, key))[g], u)
  {
    assert [Row(u, key)][0].user == u;
  }

  // ---------------------------------------------------------------- add and remove

  // The find of a turn ...
  lemma SeekStep(w: World, s: State, i: nat)
    requires i < |s.clients| && s.clients[i].Seeking? && s.clients[i].attempts > 0
    ensures var c := s.clients[i];
      match FindOne(s.groups, FindSelector(w, c.req))
      case None => Step(w, s, i, Advance) == With(s, i, Finished(Returned))
      case Some(doc) =>
        Validates(doc) ==>
          Step(w, s, i, Advance) == With(s, i, Holding(c.req, c.attempts - 1, c.start, doc, |s.log|))
  {
    hide Validates;
    hide FindOne;
    hide FindSelector;
  }

  // ... and its update.
  lemma MatchedStep(w: World, s: State, i: nat)
    requires i < |s.clients| && s.clients[i].Holding?
    requires var c := s.clients[i];
      UpdateOne(s.groups, UpdateSelector(w, c.req, c.snap), PredictedUpdate(w, c.req, c.snap)).matched == 1
    ensures var s' := Step(w, s, i, Advance);
      && s'.clients == s.clients[i := Finished(Returned)]
      && s'.log == s.log + [Entry(i, OpOf(w, s.clients[i].req))]
  {
    hide UpdateOne;
    hide UpdateSelector;
    hide PredictedUpdate;
  }

  // One turn of the retry loop that nobody disturbs.
  lemma QuietTurn(w: World, s: State, i: nat, t: Table)
    requires w.Ideal() && Inv(w, s) && Represents(w, s.groups, t)
    requires i < |s.clients| && s.clients[i].Seeking? && s.clients[i].attempts > 0
    ensures var req := s.clients[i].req; var s' := Step(w, Step(w, s, i, Advance), i, Advance);
      && |s'.clients| == |s.clients| && s'.clients[i] == Finished(Returned)
      && s'.log == s.log + if Effective(t, req) then [Entry(i, OpOf(w, req))] else []
  {
    var req := s.clients[i].req;
    assert ClientOk(w, s.clients[i]);
    hide Represents;
    hide Step;
    hide FindOne;
    hide FindSelector;
    hide UpdateOne;
    hide UpdateSelector;
    hide PredictedUpdate;
    hide UpToDate;
    hide Validates;
    hide Effective;
    FindTells(w, s.groups, t, req);
    StoredValidates(w, s, w.GroupHash(req.group));
    hide Inv;
    hide GroupOk;
    SeekStep(w, s, i);
    var found := FindOne(s.groups, FindSelector(w, req));
    if found.Some? {
      FoundIsStored(w, s.groups, req);
      SnapshotIsUpToDate(w, s.groups, req, found.value);
      UpToDateMatches(w, s.groups, req, found.value);
      MatchedStep(w, Step(w, s, i, Advance), i);
    } else {
      FreeStays(w, Step(w, s, i, Advance), i);
    }
  }

  lemma StoredValidates(w: World, s: State, name: Bytes)
    requires Inv(w, s)
    ensures name in s.groups ==> Validates(s.groups[name])
  {
  }

  lemma FoundIsStored(w: World, groups: Groups, req: Request)
    requires FindOne(groups, FindSelector(w, req)).Some?
    ensures w.GroupHash(req.group) in groups
    ensures FindOne(groups, FindSelector(w, req)) == Some(groups[w.GroupHash(req.group)])
  {
  }

  lemma UpToDateMatches(w: World, groups: Groups, req: Request, snap: Doc)
    requires UpToDate(w, groups, req, snap)
    ensures UpdateOne(groups, UpdateSelector(w, req, snap), PredictedUpdate(w, req, snap)).matched == 1
  {
  }

  function By(i: nat, actions: seq<Action>): seq<Event> { seq(|actions|, k requires 0 <= k < |actions| => Event(i, actions[k])) }

  lemma RunMore(w: World, n: nat, trace: seq<Event>, i: nat, actions: seq<Action>, a: Action)
    ensures By(i, actions + [a]) == By(i, actions) + [Event(i, a)]
    ensures Run(w, n, trace + By(i, actions + [a])) == Step(w, Run(w, n, trace + By(i, actions)), i, a)
  {
    assert By(i, actions + [a]) == By(i, actions) + [Event(i, a)];
    var longer := trace + By(i, actions + [a]);
    assert longer[..|longer| - 1] == trace + By(i, actions) && longer[|longer| - 1] == Event(i, a);
  }

  // The state after actions of client `i` alone.
  function After(w: World, s: State, i: nat, actions: seq<Action>): State
    decreases |actions|
  {
    if actions == [] then s else After(w, Step(w, s, i, actions[0]), i, actions[1..])
  }

  lemma {:induction false} RunIsAfter(w: World, n: nat, trace: seq<Event>, i: nat, actions: seq<Action>)
    ensures Run(w, n, trace + By(i, actions)) == After(w, Run(w, n, trace), i, actions)
    decreases |actions|
  {
    hide Step;
    if actions == [] {
      assert trace + By(i, actions) == trace;
    } else {
      var next := trace + [Event(i, actions[0])];
      assert trace + By(i, actions) == next + By(i, actions[1..]);
      assert next[..|next| - 1] == trace;
      RunIsAfter(w, n, next, i, actions[1..]);
    }
  }

  lemma RunByThree(w: World, n: nat, trace: seq<Event>, i: nat, a: Action)
    ensures Run(w, n, trace + By(i, [a, Advance, Advance]))
         == Step(w, Step(w, Step(w, Run(w, n, trace), i, a), i, Advance), i, Advance)
  {
    hide Step;
    var s := Run(w, n, trace);
    RunIsAfter(w, n, trace, i, [a, Advance, Advance]);
    hide Run;
    assert [a, Advance, Advance][1..] == [Advance, Advance] && [Advance, Advance][1..] == [Advance] && [Advance][1..] == [];
    AfterOne(w, Step(w, Step(w, s, i, a), i, Advance), i, Advance);
  }

  lemma AfterOne(w: World, s: State, i: nat, a: Action)
    ensures After(w, s, i, [a]) == Step(w, s, i, a)
  {
    hide Step;
    assert [a][1..] == [];
  }

  lemma RunByOne(w: World, n: nat, trace: seq<Event>, i: nat, a: Action)
    ensures Run(w, n, trace + By(i, [a])) == Step(w, Run(w, n, trace), i, a)
  {
    hide Step;
    RunIsAfter(w, n, trace, i, [a]);
    AfterOne(w, Run(w, n, trace), i, a);
  }

  lemma ReplayEffective(w: World, log: seq<Entry>, i: nat, req: Request)
    ensures Replay(log + if Effective(Replay(log), req) then [Entry(i, OpOf(w, req))] else [])
         == Apply(Replay(log), OpOf(w, req))
  {
    EffectiveChanges(w, Replay(log), req);
    ReplaySnoc(log, Entry(i, OpOf(w, req)));
    assert log + [] == log;
    hide Apply;
    hide Replay;
  }

  /** Undisturbed, add_user_to_group and remove_user_from_group return after one turn, with their operation done. */
  lemma UndisturbedRequest(w: World, n: nat, trace: seq<Event>, i: nat, req: Request)
    requires w.Ideal() && TraceOk(w, trace) && RequestOk(w, req)
    requires i < n && |Run(w, n, trace).clients| == n && Free(Run(w, n, trace).clients[i])
    ensures var s := Run(w, n, trace); var s' := Run(w, n, trace + By(i, [Begin(req), Advance, Advance]));
      && |s'.clients| == n && s'.clients[i] == Finished(Returned)
      && Replay(s'.log) == Apply(Replay(s.log), OpOf(w, req))
  {
    var s := Run(w, n, trace);
    RunKeepsInv(w, n, trace);
    StoreIsReplayOfLog(w, n, trace);
    RunByThree(w, n, trace, i, Begin(req));
    var s1 := Step(w, s, i, Begin(req));
    assert s1 == With(s, i, Seeking(req, ATTEMPTS, |s.log|));
    StepKeepsInv(w, s, i, Begin(req));
    QuietTurn(w, s1, i, Replay(s.log));
    ReplayEffective(w, s.log, i, req);
    hide Step;
    hide Run;
    hide Inv;
    hide Represents;
    hide Effective;
  }

  lemma FreeStays(w: World, s: State, i: nat)
    requires i < |s.clients| && s.clients[i].Finished?
    ensures Step(w, s, i, Advance) == s
  {
  }

  /** Undisturbed, create_group returns with the group created, or with the user added to the group that exists. */
  lemma UndisturbedCreate(w: World, n: nat, trace: seq<Event>, i: nat, g: Bytes, u: Bytes, key: Bytes, encname: Bytes)
    requires w.Ideal() && TraceOk(w, trace) && ActionOk(w, Create(g, u, key, encname))
    requires i < n && |Run(w, n, trace).clients| == n && Free(Run(w, n, trace).clients[i])
    ensures var t := Replay(Run(w, n, trace).log);
      var s' := Run(w, n, trace + By(i, [Create(g, u, key, encname), Advance, Advance]));
      && |s'.clients| == n && s'.clients[i] == Finished(Returned)
      && Replay(s'.log)
         == Apply(t, if g in t then Appended(g, u, PlainKey(w, key)) else Created(g, u, PlainKey(w, key)))
  {
    var s, a := Run(w, n, trace), Create(g, u, key, encname);
    var s1 := Step(w, s, i, a);
    RunKeepsInv(w, n, trace);
    StoreIsReplayOfLog(w, n, trace);
    RunByThree(w, n, trace, i, a);
    CreateStep(w, n, trace, i, g, u, key, encname);
    StepKeepsInv(w, s, i, a);
    hide Run;
    hide Inv;
    hide Represents;
    hide Step;
    if g in Replay(s.log) {
      QuietTurn(w, s1, i, Replay(s.log));
      ReplayEffective(w, s.log, i, Add(g, u, key));
    } else {
      FreeStays(w, s1, i);
      ReplaySnoc(s.log, Entry(i, Created(g, u, PlainKey(w, key))));
    }
  }

  // ---------------------------------------------------------------- remove_user_from_all_groups, step by step

  lemma AdvanceIsExecute(w: World, s: State, i: nat)
    requires i < |s.clients| && s.clients[i].Executing?
    ensures Step(w, s, i, Advance) == Execute(w, s, i)
  {
    hide Execute;
  }

  lemma AdvanceEndsReading(w: World, s: State, i: nat)
    requires i < |s.clients| && s.clients[i].Sweeping?
    ensures Step(w, s, i, Advance) == With(s, i, Executing(s.clients[i].ops))
  {
  }

  lemma SweepBegins(w: World, s: State, i: nat, u: Bytes)
    requires i < |s.clients| && Free(s.clients[i])
    ensures Step(w, s, i, BeginSweep(u)) == With(s, i, Sweeping(u, []))
  {
  }

  /** Reading a stored group adds one removal, of the sweep's user, conditional on the whole document read. */
  lemma SweepReads(w: World, s: State, i: nat, name: Bytes)
    requires w.Ideal() && Inv(w, s) && i < |s.clients| && s.clients[i].Sweeping? && name in s.groups
    ensures var c := s.clients[i]; var s' := Step(w, s, i, Read(name));
      && s'.groups == s.groups && s'.log == s.log && |s'.clients| == |s.clients| && s'.clients[i].Sweeping?
      && s'.clients[i].user == c.user && |s'.clients[i].ops| == |c.ops| + 1
      && s'.clients[i].ops[..|c.ops|] == c.ops
      && var op := s'.clients[i].ops[|c.ops|];
         && op.user == c.user && op.selector == Selector(name, [IsDocument(s.groups[name])])
         && op.group in w.groupNames && w.GroupHash(op.group) == name && Ready(w, s.groups, c.user, op)
  {
    var c := s.clients[i];
    assert ClientOk(w, c);
    SweepOk(w, c.user, name, s.groups[name]);
    hide GroupOk;
    hide Validates;
  }

  /**
   * The queue is executed in order and to its end, whatever has happened to the groups meanwhile: each update filters
   * its group if nobody has changed the document since it was read, and is skipped otherwise.
   */
  lemma SweepExecutes(w: World, n: nat, trace: seq<Event>, i: nat)
    requires w.Ideal() && TraceOk(w, trace) && i < |Run(w, n, trace).clients|
    ensures var s := Run(w, n, trace); var s' := Step(w, s, i, Advance);
      match s.clients[i]
         case Sweeping(_, ops) => s' == With(s, i, Executing(ops))
         case Executing(ops) =>
           if ops == [] then s' == With(s, i, Finished(Returned))
           else
             |s'.clients| == |s.clients| && s'.clients[i] == Executing(ops[1..])
             && var name := ops[0].selector.name;
                Replay(s'.log)
                == if name in s.groups && ops[0].selector == Selector(name, [IsDocument(s.groups[name])])
                   then Apply(Replay(s.log), Filtered(ops[0].group, ops[0].user)) else Replay(s.log)
         case _ => true
  {
    var s := Run(w, n, trace);
    RunKeepsInv(w, n, trace);
    StoreIsReplayOfLog(w, n, trace);
    assert ClientOk(w, s.clients[i]);
    hide Run;
    hide Represents;
    hide Replay;
    hide Apply;
    hide BulkOpOk;
    hide UpdateOne;
    hide FindOne;
    hide Validates;
    hide Step;
    match s.clients[i]
    case Sweeping(_, _) => AdvanceEndsReading(w, s, i);
    case Executing(ops) =>
      AdvanceIsExecute(w, s, i);
      if ops != [] {
        assert BulkOpOk(w, ops[0]);
        StepRefines(w, s, i, Advance);
        ExecutedOne(w, s, i);
      }
    case _ =>
  }

  lemma ExecutedOne(w: World, s: State, i: nat)
    requires w.Ideal() && i < |s.clients| && s.clients[i].Executing? && s.clients[i].ops != []
    requires BulkOpOk(w, s.clients[i].ops[0])
    requires Represents(w, s.groups, Replay(s.log))
    requires Represents(w, Step(w, s, i, Advance).groups, Replay(Step(w, s, i, Advance).log))
    ensures var s' := Step(w, s, i, Advance); var op := s.clients[i].ops[0]; var name := op.selector.name;
      Replay(s'.log)
      == if name in s.groups && op.selector == Selector(name, [IsDocument(s.groups[name])])
         then Apply(Replay(s.log), Filtered(op.group, op.user)) else Replay(s.log)
  {
    hide Represents;
    hide GroupOk;
    hide ApplyUpdate;
    hide PredictedUpdate;
    hide Apply;
    hide Replay;
    var s', op := Step(w, s, i, Advance), s.clients[i].ops[0];
    var name := op.selector.name;
    assert s'.groups == UpdateOne(s.groups, op.selector, op.update).groups;
    if name in s.groups {
      assert IsDocument(s.groups[name]) == op.selector.tests[0]
        <==> op.selector == Selector(name, [IsDocument(s.groups[name])]);
      BulkMissesChangedGroups(w, s.groups, Replay(s.log), op);
      TableUnique(w, s'.groups, Replay(s'.log),
        if IsDocument(s.groups[name]) == op.selector.tests[0]
        then Apply(Replay(s.log), Filtered(op.group, op.user)) else Replay(s.log));
    }
  }

  // ---------------------------------------------------------------- remove_user_from_all_groups as a whole

  function Reads(names: seq<Bytes>): seq<Action> { seq(|names|, k requires 0 <= k < |names| => Read(names[k])) }

  function Advances(n: nat): seq<Action> { seq(n, k => Advance) }

  predicate NoRepeats(names: seq<Bytes>) { forall j, k :: 0 <= j < k < |names| ==> names[j] != names[k] }

  function Unread(groups: Groups, names: seq<Bytes>): set<Bytes> { groups.Keys - set x | x in names }

  ghost predicate HasQueued(w: World, s: State, s': State, i: nat, u: Bytes, names: seq<Bytes>) {
    && i < |s.clients| == |s'.clients| && s'.groups == s.groups && s'.log == s.log
    && s'.clients[i].Sweeping? && s'.clients[i].user == u && |s'.clients[i].ops| <= |names|
    && Reading(w, s.groups, u, s'.clients[i].ops, Unread(s.groups, names))
  }

  lemma UnreadOneLess(groups: Groups, names: seq<Bytes>, name: Bytes)
    ensures Unread(groups, names + [name]) == Unread(groups, names) - {name}
  {
  }

  lemma ReadOneMore(w: World, s: State, s': State, i: nat, u: Bytes, names: seq<Bytes>, name: Bytes)
    requires w.Ideal() && Inv(w, s') && HasQueued(w, s, s', i, u, names) && name !in names
    ensures HasQueued(w, s, Step(w, s', i, Read(name)), i, u, names + [name])
  {
    hide Reading;
    hide Ready;
    hide Inv;
    hide World.Ideal;
    var ops := s'.clients[i].ops;
    UnreadOneLess(s.groups, names, name);
    if name in s.groups {
      SweepReads(w, s', i, name);
      hide Step;
      var c' := Step(w, s', i, Read(name)).clients[i];
      assert c'.ops == ops + [c'.ops[|ops|]];
      assert name in Unread(s.groups, names);
      ReadOne(w, s.groups, u, ops, Unread(s.groups, names), c'.ops[|ops|]);
    } else {
      assert Step(w, s', i, Read(name)) == s';
      assert Unread(s.groups, names) - {name} == Unread(s.groups, names);
    }
  }

  lemma TraceWithMore(w: World, trace: seq<Event>, i: nat, actions: seq<Action>)
    requires TraceOk(w, trace) && forall k :: 0 <= k < |actions| ==> ActionOk(w, actions[k])
    ensures TraceOk(w, trace + By(i, actions))
  {
    hide ActionOk;
  }

  lemma {:induction false} QueuesAll(w: World, n: nat, trace: seq<Event>, i: nat, u: Bytes, names: seq<Bytes>)
    requires w.Ideal() && TraceOk(w, trace) && NoRepeats(names)
    requires i < |Run(w, n, trace).clients| && Run(w, n, trace).clients[i] == Sweeping(u, [])
    ensures HasQueued(w, Run(w, n, trace), Run(w, n, trace + By(i, Reads(names))), i, u, names)
  {
    var s := Run(w, n, trace);
    if names == [] {
      assert trace + By(i, Reads(names)) == trace;
      assert Unread(s.groups, names) == s.groups.Keys;
    } else {
      var init, name := names[..|names| - 1], names[|names| - 1];
      assert names == init + [name] && Reads(names) == Reads(init) + [Read(name)];
      QueuesAll(w, n, trace, i, u, init);
      TraceWithMore(w, trace, i, Reads(init));
      RunKeepsInv(w, n, trace + By(i, Reads(init)));
      RunMore(w, n, trace, i, Reads(init), Read(name));
      ReadOneMore(w, s, Run(w, n, trace + By(i, Reads(init))), i, u, init, name);
    }
  }

  lemma {:induction false} FinishedStays(w: World, s: State, i: nat, m: nat)
    requires i < |s.clients| && s.clients[i].Finished?
    ensures After(w, s, i, Advances(m)) == s
  {
    if m > 0 {
      FreeStays(w, s, i);
      hide Step;
      assert Advances(m)[1..] == Advances(m - 1);
      FinishedStays(w, s, i, m - 1);
    }
  }

  lemma InvIsSound(w: World, s: State)
    requires Inv(w, s)
    ensures AllSound(w, s.groups)
  {
    hide SoundDoc;
  }

  // Between reading and executing.
  lemma SweptAll(w: World, s: State, i: nat, t: Table, u: Bytes, names: seq<Bytes>)
    requires w.Ideal() && Inv(w, s) && Represents(w, s.groups, t) && HasQueued(w, s, s, i, u, names)
    requires forall name :: name in s.groups ==> name in names
    ensures Step(w, s, i, Advance) == With(s, i, Executing(s.clients[i].ops))
    ensures Filtering(w, s.groups, t, {}, u, s.clients[i].ops) && |s.clients[i].ops| <= |names|
  {
    InvIsSound(w, s);
    AdvanceEndsReading(w, s, i);
    hide Step;
    hide Inv;
    hide AllSound;
    hide Represents;
    hide Reading;
    hide Filtering;
    hide World.Ideal;
    assert Unread(s.groups, names) == {};
    ReadAll(w, s.groups, t, u, s.clients[i].ops);
  }

  // One step of the executing half.
  lemma ExecutesOne(w: World, s: State, i: nat, t: Table, done: set<Bytes>, u: Bytes)
    requires w.Ideal() && u in w.userNames && i < |s.clients| && s.clients[i].Executing?
    requires Filtering(w, s.groups, t, done, u, s.clients[i].ops)
    ensures var rest := s.clients[i].ops; var s' := Step(w, s, i, Advance);
      |s'.clients| == |s.clients|
      && if rest == [] then
           s'.clients[i] == Finished(Returned) && Represents(w, s'.groups, FilterAll(t, u))
         else
           s'.clients[i] == Executing(rest[1..]) && Filtering(w, s'.groups, t, done + {rest[0].group}, u, rest[1..])
  {
    AdvanceIsExecute(w, s, i);
    var rest := s.clients[i].ops;
    hide Step;
    hide Represents;
    hide Filtering;
    hide UpdateOne;
    hide FilterAll;
    hide World.Ideal;
    if rest == [] { AllFiltered(w, s.groups, t, done, u); } else { FilterOne(w, s.groups, t, done, u, rest); }
  }

  lemma {:induction false} ExecutesAll(w: World, s: State, i: nat, t: Table, done: set<Bytes>, u: Bytes, m: nat)
    requires w.Ideal() && u in w.userNames && i < |s.clients|
    requires s.clients[i].Executing? && |s.clients[i].ops| < m && Filtering(w, s.groups, t, done, u, s.clients[i].ops)
    ensures var s' := After(w, s, i, Advances(m));
      |s'.clients| == |s.clients| && s'.clients[i] == Finished(Returned) && Represents(w, s'.groups, FilterAll(t, u))
    decreases m
  {
    hide Step;
    hide Represents;
    hide Filtering;
    hide FilterAll;
    hide World.Ideal;
    var rest, next := s.clients[i].ops, Step(w, s, i, Advance);
    assert Advances(m)[1..] == Advances(m - 1);
    assert After(w, s, i, Advances(m)) == After(w, next, i, Advances(m - 1));
    hide After;
    ExecutesOne(w, s, i, t, done, u);
    if rest == [] {
      FinishedStays(w, next, i, m - 1);
    } else {
      ExecutesAll(w, next, i, t, done + {rest[0].group}, u, m - 1);
    }
  }

  // The actions of a sweep whose cursor yields the groups stored under `names`, with as many steps as it may need.
  function WholeSweep(u: Bytes, names: seq<Bytes>): seq<Action> {
    [BeginSweep(u)] + Reads(names) + [Advance] + Advances(|names| + 1)
  }

  lemma ByAppend(trace: seq<Event>, i: nat, a: seq<Action>, b: seq<Action>)
    ensures trace + By(i, a + b) == trace + By(i, a) + By(i, b)
  {
  }

  /**
   * Undisturbed, a sweep whose cursor yields every stored group once returns, and has filtered the user out of every
   * group.
   */
  lemma UndisturbedSweep(w: World, n: nat, trace: seq<Event>, i: nat, u: Bytes, names: seq<Bytes>)
    requires w.Ideal() && TraceOk(w, trace) && u in w.userNames && NoRepeats(names)
    requires i < n && |Run(w, n, trace).clients| == n && Free(Run(w, n, trace).clients[i])
    requires forall name :: name in Run(w, n, trace).groups ==> name in names
    ensures var s := Run(w, n, trace); var s' := Run(w, n, trace + By(i, WholeSweep(u, names)));
      && |s'.clients| == n && s'.clients[i] == Finished(Returned)
      && Replay(s'.log) == FilterAll(Replay(s.log), u)
  {
    hide Step;
    hide Represents;
    hide Filtering;
    hide Reading;
    hide Replay;
    hide FilterAll;
    var s, t := Run(w, n, trace), Replay(Run(w, n, trace).log);
    var t1 := trace + By(i, [BeginSweep(u)]);
    var t2 := t1 + By(i, Reads(names));
    var t3 := t2 + By(i, [Advance]);
    var t4 := t3 + By(i, Advances(|names| + 1));
    ByAppend(trace, i, [BeginSweep(u)], Reads(names));
    ByAppend(trace, i, [BeginSweep(u)] + Reads(names), [Advance]);
    ByAppend(trace, i, [BeginSweep(u)] + Reads(names) + [Advance], Advances(|names| + 1));
    assert t4 == trace + By(i, WholeSweep(u, names));
    TraceWithMore(w, trace, i, [BeginSweep(u)]);
    TraceWithMore(w, t1, i, Reads(names));
    TraceWithMore(w, t2, i, [Advance]);
    TraceWithMore(w, t3, i, Advances(|names| + 1));
    StoreIsReplayOfLog(w, n, trace);
    StoreIsReplayOfLog(w, n, t4);
    SweepBegins(w, s, i, u);
    RunByOne(w, n, trace, i, BeginSweep(u));
    QueuesAll(w, n, t1, i, u, names);
    RunByOne(w, n, t2, i, Advance);
    RunKeepsInv(w, n, t2);
    hide Run;
    hide Inv;
    SweptAll(w, Run(w, n, t2), i, t, u, names);
    ExecutesAll(w, Run(w, n, t3), i, t, {}, u, |names| + 1);
    RunIsAfter(w, n, t3, i, Advances(|names| + 1));
    TableUnique(w, Run(w, n, t4).groups, Replay(Run(w, n, t4).log), FilterAll(t, u));
  }

  // ---------------------------------------------------------------- documents that were not signed

  predicate NameDecrypts(w: World, doc: Doc) {
    match Lookup(doc, "encname")
    case Some(Bin(encname)) => w.crypto.decrypt(encname).Some?
    case _ => false
  }

  /** In any state, an add or a removal that finds an invalid signature ends with the error and writes nothing. */
  lemma InvalidIsRejected(w: World, s: State, i: nat)
    requires i < |s.clients| && s.clients[i].Seeking? && s.clients[i].attempts > 0
    ensures var found := FindOne(s.groups, FindSelector(w, s.clients[i].req));
      found.Some? && !Validates(found.value) ==> Step(w, s, i, Advance) == With(s, i, Finished(BadSignature))
  {
    hide Validates;
  }

  /** So does a sweep, and it ends as well when a group's name does not decrypt; otherwise it goes on reading. */
  lemma SweepRejects(w: World, s: State, i: nat, name: Bytes)
    requires i < |s.clients| && s.clients[i].Sweeping? && name in s.groups
    ensures var s' := Step(w, s, i, Read(name)); var doc := s.groups[name];
      if !NameDecrypts(w, doc) then s' == With(s, i, Finished(Undecryptable))
      else if !Validates(doc) then s' == With(s, i, Finished(BadSignature))
      else |s'.clients| == |s.clients| && s'.clients[i].Sweeping?
  {
    hide Validates;
    hide SignedStream;
  }
}
