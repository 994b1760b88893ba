// How long may keys be? The signature feeds names and encrypted keys to the MAC without separators. It is safe
// exactly when all keys have one length.

module KeyLengths {

  import opened Basics
  import opened Primitives
  import opened Documents
  import opened Signatures
  import opened Protocol
  import opened Safety
  import opened Refinement

  // Calls as in ActionOk, but each with a key of any of the given lengths.
  ghost predicate TraceWith(w: World, lengths: iset<nat>, trace: seq<Event>) {
    forall j :: 0 <= j < |trace| ==> ActionWith(w, lengths, trace[j].action)
  }

  ghost predicate ActionWith(w: World, lengths: iset<nat>, a: Action) {
    exists l :: l in lengths && ActionOk(w.(keySize := l), a)
  }

  ghost predicate StaysValid(w: World, n: nat, trace: seq<Event>) {
    forall name :: name in Run(w, n, trace).groups ==> Validates(Run(w, n, trace).groups[name])
  }

  /** Whatever the ideal primitives are, no run with keys of these lengths leaves a group that does not validate. */
  ghost predicate Safe(lengths: iset<nat>) {
    forall w: World, n: nat, trace: seq<Event> ::
      w.Ideal() && w.keySize in lengths && TraceWith(w, lengths, trace) ==> StaysValid(w, n, trace)
  }

  lemma OneLengthIsSafe(w: World, lengths: iset<nat>, n: nat, trace: seq<Event>)
    requires w.Ideal() && w.keySize in lengths && TraceWith(w, lengths, trace)
    requires forall a, b :: a in lengths && b in lengths ==> a == b
    ensures StaysValid(w, n, trace)
  {
    forall j | 0 <= j < |trace| ensures ActionOk(w, trace[j].action) {
      var l :| l in lengths && ActionOk(w.(keySize := l), trace[j].action);
      assert w.(keySize := l) == w;
    }
    forall name | name in Run(w, n, trace).groups ensures Validates(Run(w, n, trace).groups[name]) {
      EveryGroupValidates(w, n, trace, name);
    }
  }

  // ---------------------------------------------------------------- a world for the counterexample

  const GROUP: Bytes := [9]

  // Three users, by the last byte of their hash in the group.
  const ZERO: Bytes := [0]
  const ONE: Bytes := [1]
  const TWO: Bytes := [2]

  function Code(x: Bytes): byte {
    if |x| == 1 && x[0] < 100 then 100 + x[0] else if |x| == 2 then x[0] else 255
  }

  // 32 bytes, the last of which tells the hashed strings apart.
  function LastByteHash(x: Bytes): Bytes { Zeros(31) + [Code(x)] }

  function PlainWorld(keySize: nat): World {
    World(Crypto(LastByteHash, (nonce, data) => data, data => Some(data), 0), {GROUP}, {ZERO, ONE, TWO}, keySize)
  }

  lemma PlainWorldIsIdeal(keySize: nat)
    ensures PlainWorld(keySize).Ideal()
  {
    var w := PlainWorld(keySize);
    forall x | w.Hashed(x) ensures x in [[9], [0], [1], [2], [0, 9], [1, 9], [2, 9]] {
      if g, u :| g in w.groupNames && u in w.userNames && x == u + g {
        assert u == ZERO || u == ONE || u == TWO;
        assert x == [u[0], 9];
      }
    }
    forall x, y | w.Hashed(x) && w.Hashed(y) && LastByteHash(x) == LastByteHash(y) ensures x == y {
      assert LastByteHash(x)[31] == Code(x) && LastByteHash(y)[31] == Code(y);
    }
  }

  function HashOf(user: Bytes): Bytes { LastByteHash(user + GROUP) }

  function Of(user: Bytes, key: Bytes): Member { Member(HashOf(user), key) }

  // ---------------------------------------------------------------- one call with nobody in between

  // The group document with these members, correctly signed.
  function Signed(list: seq<Member>): Doc {
    GroupDoc(LastByteHash(GROUP), GROUP, list, Mac(LastByteHash(GROUP) + GROUP + MemberStream(list, None)))
  }

  function Alone(req: Request): seq<Event> {
    [Event(0, Begin(req)), Event(0, Advance), Event(0, Advance)]
  }

  ghost predicate Holds(s: State, list: seq<Member>, other: Client) {
    && s.groups == map[LastByteHash(GROUP) := Signed(list)]
    && |s.clients| == 2 && (s.clients[0].Idle? || s.clients[0].Finished?) && s.clients[1] == other
  }

  function ChangeOf(req: Request): Change {
    match req
    case Add(_, user, key) => Push(Of(user, key))
    case Remove(_, user) => Pull(HashOf(user))
  }

  // A request that has something to do in the group.
  predicate Applies(req: Request, list: seq<Member>) {
    req.group == GROUP && (req.Add? <==> HashOf(req.user) !in MemberNames(list))
  }

  lemma SignedIsSound(list: seq<Member>)
    ensures Shaped(Signed(list)) && MembersOf(Signed(list)) == list && Validates(Signed(list))
  {
    ShapedValidates(Signed(list));
  }

  lemma SignedUpdate(w: World, req: Request, list: seq<Member>)
    requires w == PlainWorld(w.keySize) && req.group == GROUP
    ensures PredictedUpdate(w, req, Signed(list)).change == ChangeOf(req)
    ensures ApplyUpdate(Signed(list), PredictedUpdate(w, req, Signed(list))) == Signed(ChangedList(list, ChangeOf(req)))
  {
    var n, doc := LastByteHash(GROUP), Signed(list);
    var u := PredictedUpdate(w, req, doc);
    ShapedUsers(doc);
    assert u == Update(ChangeOf(req), u.signature);
    match req {
      case Add(_, user, key) => PredictedAdd(doc, Of(user, key), u.signature);
      case Remove(_, user) => PredictedRemove(doc, HashOf(user), u.signature);
    }
    GroupDocUpdate(n, GROUP, list, TagOf(doc), u);
    GroupDocStream(n, GROUP, ChangedList(list, u.change), u.signature);
  }

  lemma FindsSigned(w: World, req: Request, list: seq<Member>)
    requires w == PlainWorld(w.keySize) && Applies(req, list)
    ensures var groups := map[LastByteHash(GROUP) := Signed(list)];
      && FindOne(groups, FindSelector(w, req)) == Some(Signed(list))
      && FindOne(groups, UpdateSelector(w, req, Signed(list))) == Some(Signed(list))
  {
    SignedIsSound(list);
    FindSelects(w, req, Signed(list));
    SelectedByTag(w, req, Signed(list), Signed(list));
  }

  lemma RunSnoc(w: World, t: seq<Event>, e: Event)
    ensures Run(w, 2, t + [e]) == Step(w, Run(w, 2, t), e.who, e.action)
  {
    assert (t + [e])[..|t|] == t;
  }

  lemma RunAlone(w: World, t: seq<Event>, req: Request, list: seq<Member>, other: Client)
    requires w == PlainWorld(w.keySize) && Applies(req, list)
    requires Holds(Run(w, 2, t), list, other)
    ensures Holds(Run(w, 2, t + Alone(req)), ChangedList(list, ChangeOf(req)), other)
  {
    hide Run;
    hide PredictedUpdate;
    hide ApplyUpdate;
    hide Selects;
    hide FindSelector;
    hide Signed;
    hide LastByteHash;
    var e1, e2 := Event(0, Begin(req)), Event(0, Advance);
    assert t + Alone(req) == t + [e1] + [e2] + [e2];
    RunSnoc(w, t, e1);
    RunSnoc(w, t + [e1], e2);
    RunSnoc(w, t + [e1] + [e2], e2);
    SignedIsSound(list);
    FindsSigned(w, req, list);
    SignedUpdate(w, req, list);
  }

  // ---------------------------------------------------------------- the counterexample

  // Two member lists over keys of `a` and `b` bytes that feed the same bytes to the MAC.
  function Before(a: nat, b: nat): seq<Member>
    requires a < b
  {
    [Of(TWO, Zeros(a)), Of(ZERO, LongKey0(a, b))]
  }

  function After(a: nat, b: nat): seq<Member> { [Of(TWO, Zeros(b)), Of(ONE, Zeros(a))] }

  function LongKey0(a: nat, b: nat): Bytes
    requires a < b
  {
    Zeros(b - a - 1) + [1] + Zeros(a)
  }

  lemma Hashes()
    ensures HashOf(ZERO) == Zeros(32) && HashOf(ONE) == Zeros(31) + [1] && HashOf(TWO) == Zeros(31) + [2]
    ensures HashOf(ZERO) != HashOf(ONE) && HashOf(ZERO) != HashOf(TWO) && HashOf(ONE) != HashOf(TWO)
  {
    assert HashOf(ZERO)[31] == 0 && HashOf(ONE)[31] == 1 && HashOf(TWO)[31] == 2;
  }

  lemma SameZeros(a: nat, b: nat)
    requires a < b
    ensures Zeros(a) + (Zeros(32) + LongKey0(a, b)) == Zeros(b) + (Zeros(31) + [1] + Zeros(a))
    ensures |Zeros(32) + LongKey0(a, b)| != |Zeros(31) + [1] + Zeros(a)|
  {
    assert Zeros(a) + Zeros(32) + Zeros(b - a - 1) == Zeros(b) + Zeros(31);
  }

  lemma SameStream(a: nat, b: nat)
    requires a < b
    ensures MemberStream(Before(a, b), None) == MemberStream(After(a, b), None)
    ensures |MemberStream([Of(ZERO, LongKey0(a, b))], None)| != |MemberStream([Of(ONE, Zeros(a))], None)|
  {
    Hashes();
    TwoMembers(Of(TWO, Zeros(a)), Of(ZERO, LongKey0(a, b)), HashOf(TWO));
    TwoMembers(Of(TWO, Zeros(b)), Of(ONE, Zeros(a)), HashOf(TWO));
    SameZeros(a, b);
    hide HashOf;
    hide Zeros;
    hide LongKey0;
    hide MemberStream;
    Regroup(HashOf(TWO), Zeros(a), Zeros(32) + LongKey0(a, b));
    Regroup(HashOf(TWO), Zeros(b), Zeros(31) + [1] + Zeros(a));
  }

  lemma Regroup(x: Bytes, y: Bytes, z: Bytes)
    ensures x + y + z == x + (y + z)
  {
  }

  // Client 0 makes the group; client 1 reads it to remove a user; client 0 turns it into the other list.
  function Prepare(a: nat, b: nat): seq<Event>
    requires a < b
  {
    [Event(0, Create(GROUP, TWO, Zeros(a), GROUP))] + Alone(Add(GROUP, ZERO, LongKey0(a, b)))
  }

  function ReadByOther(): seq<Event> { [Event(1, Begin(Remove(GROUP, TWO))), Event(1, Advance)] }

  function Rebuild(a: nat, b: nat): seq<Event> {
    Alone(Remove(GROUP, TWO)) + Alone(Remove(GROUP, ZERO))
    + Alone(Add(GROUP, TWO, Zeros(b))) + Alone(Add(GROUP, ONE, Zeros(a)))
  }

  function Trace(a: nat, b: nat): seq<Event>
    requires a < b
  {
    Prepare(a, b) + ReadByOther() + Rebuild(a, b) + [Event(1, Advance)]
  }

  lemma Prepared(w: World, a: nat, b: nat)
    requires w == PlainWorld(w.keySize) && a < b
    ensures Holds(Run(w, 2, Prepare(a, b)), Before(a, b), Idle)
  {
    var create := Event(0, Create(GROUP, TWO, Zeros(a), GROUP));
    assert [] + [create] == [create];
    RunSnoc(w, [], create);
    Created(w, a);
    Hashes();
    RunAlone(w, [create], Add(GROUP, ZERO, LongKey0(a, b)), [Of(TWO, Zeros(a))], Idle);
    assert [Of(TWO, Zeros(a))] + [Of(ZERO, LongKey0(a, b))] == Before(a, b);
  }

  lemma Created(w: World, a: nat)
    requires w == PlainWorld(w.keySize)
    ensures Holds(Step(w, Initial(2), 0, Create(GROUP, TWO, Zeros(a), GROUP)), [Of(TWO, Zeros(a))], Idle)
  {
    NewGroupIsGroupDoc(w, GROUP, TWO, Zeros(a), GROUP);
    ShapedValidates(NewGroup(w, GROUP, TWO, Zeros(a), GROUP));
  }

  lemma OtherReads(w: World, t: seq<Event>, list: seq<Member>)
    requires w == PlainWorld(w.keySize) && HashOf(TWO) in MemberNames(list)
    requires Holds(Run(w, 2, t), list, Idle)
    ensures var s := Run(w, 2, t + ReadByOther());
      |s.clients| == 2 && s.clients[1].Holding? && s.clients[1].req == Remove(GROUP, TWO)
      && s.clients[1].snap == Signed(list) && Holds(s, list, s.clients[1])
  {
    var req := Remove(GROUP, TWO);
    assert t + ReadByOther() == t + [Event(1, Begin(req))] + [Event(1, Advance)];
    RunSnoc(w, t, Event(1, Begin(req)));
    RunSnoc(w, t + [Event(1, Begin(req))], Event(1, Advance));
    SignedIsSound(list);
    FindsSigned(w, req, list);
    hide Run;
    hide Selects;
    hide FindSelector;
    hide Signed;
    hide Validates;
  }

  lemma Emptied(w: World, t: seq<Event>, a: nat, b: nat, other: Client)
    requires w == PlainWorld(w.keySize) && a < b && Holds(Run(w, 2, t), Before(a, b), other)
    ensures Holds(Run(w, 2, t + Alone(Remove(GROUP, TWO)) + Alone(Remove(GROUP, ZERO))), [], other)
  {
    var m1, m2 := Before(a, b)[0], Before(a, b)[1];
    Hashes();
    TwoMembers(m1, m2, HashOf(TWO));
    OneMember(m2, HashOf(ZERO));
    hide HashOf;
    hide Run;
    hide Holds;
    hide Alone;
    RunAlone(w, t, Remove(GROUP, TWO), Before(a, b), other);
    RunAlone(w, t + Alone(Remove(GROUP, TWO)), Remove(GROUP, ZERO), [m2], other);
  }

  lemma Refilled(w: World, t: seq<Event>, a: nat, b: nat, other: Client)
    requires w == PlainWorld(w.keySize) && a < b && Holds(Run(w, 2, t), [], other)
    ensures Holds(Run(w, 2, t + Alone(Add(GROUP, TWO, Zeros(b))) + Alone(Add(GROUP, ONE, Zeros(a)))), After(a, b), other)
  {
    var m1, m2 := Of(TWO, Zeros(b)), Of(ONE, Zeros(a));
    Hashes();
    hide HashOf;
    hide Run;
    hide Holds;
    hide Alone;
    RunAlone(w, t, Add(GROUP, TWO, Zeros(b)), [], other);
    assert [] + [m1] == [m1];
    RunAlone(w, t + Alone(Add(GROUP, TWO, Zeros(b))), Add(GROUP, ONE, Zeros(a)), [m1], other);
    assert [m1] + [m2] == After(a, b);
  }

  lemma Rebuilt(w: World, t: seq<Event>, a: nat, b: nat, other: Client)
    requires w == PlainWorld(w.keySize) && a < b && Holds(Run(w, 2, t), Before(a, b), other)
    ensures Holds(Run(w, 2, t + Rebuild(a, b)), After(a, b), other)
  {
    var r1, r2 := Alone(Remove(GROUP, TWO)), Alone(Remove(GROUP, ZERO));
    var r3, r4 := Alone(Add(GROUP, TWO, Zeros(b))), Alone(Add(GROUP, ONE, Zeros(a)));
    assert t + Rebuild(a, b) == t + r1 + r2 + r3 + r4;
    hide Run;
    hide Holds;
    hide Alone;
    Emptied(w, t, a, b, other);
    Refilled(w, t + r1 + r2, a, b, other);
  }

  // The other client's update, predicted from the first list, is installed on the second.
  lemma StaleCommit(w: World, s: State, a: nat, b: nat)
    requires w == PlainWorld(w.keySize) && a < b && |s.clients| == 2
    requires Holds(s, After(a, b), s.clients[1]) && s.clients[1].Holding?
    requires s.clients[1].req == Remove(GROUP, TWO) && s.clients[1].snap == Signed(Before(a, b))
    ensures var name := LastByteHash(GROUP);
      name in Commit(w, s, 1).groups && !Validates(Commit(w, s, 1).groups[name])
  {
    var n, req := LastByteHash(GROUP), Remove(GROUP, TWO);
    var snap, stored := Signed(Before(a, b)), Signed(After(a, b));
    SameStream(a, b);
    Hashes();
    TwoMembers(Before(a, b)[0], Before(a, b)[1], HashOf(TWO));
    TwoMembers(After(a, b)[0], After(a, b)[1], HashOf(TWO));
    SignedIsSound(Before(a, b));
    SignedIsSound(After(a, b));
    SelectedByTag(w, req, snap, stored);
    var u := PredictedUpdate(w, req, snap);
    SignedUpdate(w, req, Before(a, b));
    GroupDocUpdate(n, GROUP, Before(a, b), TagOf(snap), u);
    GroupDocUpdate(n, GROUP, After(a, b), TagOf(stored), u);
    ShapedValidates(ApplyUpdate(stored, u));
    assert After(a, b)[0] in After(a, b);
    hide Run;
    hide Selects;
    hide ApplyUpdate;
    hide PredictedUpdate;
    hide Validates;
    hide HashOf;
    hide LastByteHash;
  }

  lemma TraceFails(w: World, a: nat, b: nat)
    requires w == PlainWorld(w.keySize) && a < b
    ensures !StaysValid(w, 2, Trace(a, b))
  {
    var t0 := Prepare(a, b);
    var t1 := t0 + ReadByOther();
    var t2 := t1 + Rebuild(a, b);
    Hashes();
    Prepared(w, a, b);
    assert Before(a, b)[0] in Before(a, b);
    OtherReads(w, t0, Before(a, b));
    var other := Run(w, 2, t1).clients[1];
    Rebuilt(w, t1, a, b, other);
    StaleCommit(w, Run(w, 2, t2), a, b);
    RunSnoc(w, t2, Event(1, Advance));
    hide Run;
    hide Commit;
    hide Holds;
  }

  // ---------------------------------------------------------------- its calls are as they should be

  lemma CallWith(w: World, lengths: iset<nat>, a: Action)
    requires w == PlainWorld(w.keySize) && w.keySize in lengths
    requires match a
      case Begin(req) => req.group == GROUP && req.user in w.userNames && (req.Add? ==> |req.key| in lengths)
      case Create(g, u, key, encname) => g == GROUP == encname && u in w.userNames && |key| in lengths
      case BeginSweep(_) => false
      case _ => true
    ensures ActionWith(w, lengths, a)
  {
    var l := match a
      case Begin(req) => if req.Add? then |req.key| else w.keySize
      case Create(_, _, key, _) => |key|
      case _ => w.keySize;
    assert ActionOk(w.(keySize := l), a) by {
      if a.Begin? && a.req.Add? { assert w.(keySize := l).Encrypts(a.req.key, a.req.key); }
      if a.Create? { assert w.(keySize := l).Encrypts(a.key, a.key); }
    }
  }

  lemma TraceIsWith(w: World, lengths: iset<nat>, a: nat, b: nat)
    requires w == PlainWorld(w.keySize) && w.keySize in lengths && a in lengths && b in lengths && a < b
    ensures TraceWith(w, lengths, Trace(a, b))
  {
    hide ActionWith;
    hide LongKey0;
    assert |LongKey0(a, b)| == b by { LongKeyLength(a, b); }
    forall j | 0 <= j < |Trace(a, b)| ensures ActionWith(w, lengths, Trace(a, b)[j].action) {
      CallWith(w, lengths, Trace(a, b)[j].action);
    }
  }

  lemma LongKeyLength(a: nat, b: nat)
    requires a < b
    ensures |LongKey0(a, b)| == b
  {
  }

  /** For any two lengths there is a run, with proper names and encryptions of such keys, that breaks a group. */
  lemma TwoLengthsFail(a: nat, b: nat)
    requires a < b
    ensures PlainWorld(a).Ideal() && TraceWith(PlainWorld(a), iset{a, b}, Trace(a, b))
    ensures !StaysValid(PlainWorld(a), 2, Trace(a, b))
  {
    PlainWorldIsIdeal(a);
    TraceIsWith(PlainWorld(a), iset{a, b}, a, b);
    TraceFails(PlainWorld(a), a, b);
  }

  lemma TwoLengthsAreUnsafe(lengths: iset<nat>, a: nat, b: nat)
    requires a in lengths && b in lengths && a < b
    ensures !Safe(lengths)
  {
    var w := PlainWorld(a);
    TwoLengthsFail(a, b);
    TraceIsWith(w, lengths, a, b);
    assert w.keySize in lengths && !StaysValid(w, 2, Trace(a, b));
  }

  /**
   * The exact condition: the signatures survive every run in every ideal world if and only if no two keys differ in
   * length.
   */
  lemma SafeExactlyForOneLength(lengths: iset<nat>)
    ensures Safe(lengths) <==> forall a, b :: a in lengths && b in lengths ==> a == b
  {
    if forall a, b :: a in lengths && b in lengths ==> a == b {
      forall w: World, n: nat, trace: seq<Event> | w.Ideal() && w.keySize in lengths && TraceWith(w, lengths, trace)
        ensures StaysValid(w, n, trace)
      {
        OneLengthIsSafe(w, lengths, n, trace);
      }
    } else {
      var a, b :| a in lengths && b in lengths && a != b;
      if a < b { TwoLengthsAreUnsafe(lengths, a, b); } else { TwoLengthsAreUnsafe(lengths, b, a); }
    }
  }
}
