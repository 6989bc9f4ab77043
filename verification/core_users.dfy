/** Adding and removing users in the core, whose uid index is shared by every node. */
module CoreUsers {
  import opened Panel
  import opened UserList

  /** `inbound` holds the users each inbound knows, `counters` those with a traffic storage under a node's counter,
      `links` those with a link manager. */
  datatype CoreState = CoreState(
    uidMap: map<string, int>,
    inbound: map<string, set<string>>,
    counters: map<string, set<string>>,
    links: set<string>)

  /** Whether a call of the inbound's user manager fails, and at which user of the list. */
  datatype Fault = NoFault | FailsAt(n: nat)

  function Reached(users: seq<UserInfo>, fault: Fault): seq<UserInfo> {
    if fault.FailsAt? && fault.n < |users| then users[..fault.n] else users
  }

  predicate Fails(users: seq<UserInfo>, fault: Fault) {
    fault.FailsAt? && fault.n < |users|
  }

  function Purge(c: CoreState, tag: string, keys: set<string>): CoreState
    requires tag in c.inbound
  {
    c.(uidMap := c.uidMap - keys,
       inbound := c.inbound[tag := c.inbound[tag] - keys],
       counters := if tag in c.counters then c.counters[tag := c.counters[tag] - keys] else c.counters,
       links := c.links - keys)
  }

  function AfterDel(c: CoreState, tag: string, users: seq<UserInfo>, fault: Fault): (CoreState, bool) {
    if tag !in c.inbound then (c, false)
    else (Purge(c, tag, KeyIndex(tag, Reached(users, fault)).Keys), !Fails(users, fault))
  }

  /** Adding a node makes an inbound without panel users, if it can be built and registered. */
  function AfterAddNode(c: CoreState, tag: string, built: bool): CoreState {
    if built then c.(inbound := c.inbound[tag := {}]) else c
  }

  /** The uid index takes the whole list before the inbound sees the first user. */
  function AfterAdd(c: CoreState, tag: string, users: seq<UserInfo>, fault: Fault): (CoreState, bool) {
    var c1 := c.(uidMap := c.uidMap + Ids(KeyIndex(tag, users)));
    if tag !in c.inbound then (c1, false)
    else
      var reached := KeyIndex(tag, Reached(users, fault)).Keys;
      (c1.(inbound := c.inbound[tag := c.inbound[tag] + reached]), !Fails(users, fault))
  }

  class V2Core {
    var uidMap: map<string, int>
    var inbound: map<string, set<string>>
    var counters: map<string, set<string>>
    var links: set<string>

    ghost function View(): CoreState
      reads this
    {
      CoreState(uidMap, inbound, counters, links)
    }

    method DelUsers(users: seq<UserInfo>, tag: string, fault: Fault) returns (ok: bool)
      modifies this
      ensures (View(), ok) == AfterDel(old(View()), tag, users, fault)
    {
      if tag !in inbound {
        return false;
      }
      ghost var was := View();
      PurgeNothing(was, tag);
      assert KeyIndex(tag, users[..0]).Keys == {};
      for i := 0 to |users|
        invariant tag in inbound && View() == Purge(was, tag, KeyIndex(tag, users[..i]).Keys)
        invariant Fails(users, fault) ==> i <= fault.n
      {
        if fault == FailsAt(i) {
          return false;
        }
        PurgeUserStep(was, tag, users, i);
        RemoveUser(tag, UserTag(tag, users[i].uuid));
      }
      assert users[..|users|] == users;
      return true;
    }

    /** Takes one user out of the inbound and then out of every index. */
    method RemoveUser(tag: string, user: string)
      requires tag in inbound
      modifies this
      ensures View() == Purge(old(View()), tag, {user})
    {
      inbound := inbound[tag := inbound[tag] - {user}];
      uidMap := uidMap - {user};
      if tag in counters {
        counters := counters[tag := counters[tag] - {user}];
      }
      links := links - {user};
    }

    method AddNode(tag: string, built: bool) returns (ok: bool)
      modifies this`inbound
      ensures View() == AfterAddNode(old(View()), tag, built) && ok == built
    {
      if built {
        inbound := inbound[tag := {}];
      }
      ok := built;
    }

    method AddUsers(tag: string, users: seq<UserInfo>, fault: Fault) returns (ok: bool)
      modifies this
      ensures (View(), ok) == AfterAdd(old(View()), tag, users, fault)
    {
      ghost var was := View();
      for i := 0 to |users|
        invariant View() == was.(uidMap := was.uidMap + Ids(KeyIndex(tag, users[..i])))
      {
        KeysStep(tag, users[..i], users[i], was.uidMap);
        assert users[..i + 1] == users[..i] + [users[i]];
        uidMap := uidMap[UserTag(tag, users[i].uuid) := users[i].id];
      }
      assert users[..|users|] == users;
      if tag !in inbound {
        return false;
      }
      ok := Register(tag, users, fault);
    }

    /** Hands the users to the inbound one by one, up to the first failure. */
    method Register(tag: string, users: seq<UserInfo>, fault: Fault) returns (ok: bool)
      requires tag in inbound
      modifies this`inbound
      ensures inbound == old(inbound)[tag := old(inbound)[tag] + KeyIndex(tag, Reached(users, fault)).Keys]
      ensures ok == !Fails(users, fault)
    {
      ghost var was := inbound[tag];
      for i := 0 to |users|
        invariant tag in inbound && inbound == old(inbound)[tag := inbound[tag]]
        invariant inbound[tag] == was + KeyIndex(tag, users[..i]).Keys
        invariant Fails(users, fault) ==> i <= fault.n
      {
        if fault == FailsAt(i) {
          return false;
        }
        KeysUpTo(tag, users, i);
        inbound := inbound[tag := inbound[tag] + {UserTag(tag, users[i].uuid)}];
      }
      assert users[..|users|] == users;
      return true;
    }
  }

  lemma KeysStep(tag: string, users: seq<UserInfo>, u: UserInfo, uids: map<string, int>)
    ensures KeyIndex(tag, users + [u]).Keys == KeyIndex(tag, users).Keys + {UserTag(tag, u.uuid)}
    ensures uids + Ids(KeyIndex(tag, users + [u])) == (uids + Ids(KeyIndex(tag, users)))[UserTag(tag, u.uuid) := u.id]
  {
    IndexStep(tag, users, u);
  }

  lemma PurgeNothing(c: CoreState, tag: string)
    requires tag in c.inbound
    ensures Purge(c, tag, {}) == c
  {
    assert c.uidMap - {} == c.uidMap && c.inbound[tag] - {} == c.inbound[tag] && c.links - {} == c.links;
    if tag in c.counters {
      assert c.counters[tag] - {} == c.counters[tag];
    }
  }

  lemma PurgeStep(c: CoreState, tag: string, keys: set<string>, k: string, next: set<string>)
    requires tag in c.inbound && next == keys + {k}
    ensures Purge(c, tag, next) == Purge(Purge(c, tag, keys), tag, {k})
  {
    assert c.uidMap - next == (c.uidMap - keys) - {k};
    assert c.inbound[tag] - next == (c.inbound[tag] - keys) - {k};
    assert c.links - next == (c.links - keys) - {k};
    if tag in c.counters {
      assert c.counters[tag] - next == (c.counters[tag] - keys) - {k};
    }
  }

  lemma KeysUpTo(tag: string, users: seq<UserInfo>, i: nat)
    requires i < |users|
    ensures KeyIndex(tag, users[..i + 1]).Keys == KeyIndex(tag, users[..i]).Keys + {UserTag(tag, users[i].uuid)}
  {
    assert users[..i + 1] == users[..i] + [users[i]];
    IndexStep(tag, users[..i], users[i]);
  }

  lemma PurgeUserStep(c: CoreState, tag: string, users: seq<UserInfo>, i: nat)
    requires i < |users| && tag in c.inbound
    ensures Purge(c, tag, KeyIndex(tag, users[..i + 1]).Keys) ==
            Purge(Purge(c, tag, KeyIndex(tag, users[..i]).Keys), tag, {UserTag(tag, users[i].uuid)})
  {
    KeysUpTo(tag, users, i);
    PurgeStep(c, tag, KeyIndex(tag, users[..i]).Keys, UserTag(tag, users[i].uuid),
              KeyIndex(tag, users[..i + 1]).Keys);
  }

  /** A removal that succeeds erases exactly the listed users from the inbound and from every index. */
  lemma RemovedUsersLeaveNoTrace(c: CoreState, tag: string, users: seq<UserInfo>, fault: Fault, uuid: string)
    requires AfterDel(c, tag, users, fault).1
    ensures var t, k, gone := AfterDel(c, tag, users, fault).0, UserTag(tag, uuid), uuid in Index(users);
            && tag in c.inbound && tag in t.inbound
            && (k in t.inbound[tag] <==> k in c.inbound[tag] && !gone)
            && (k in t.uidMap <==> k in c.uidMap && !gone) && (k in t.uidMap ==> t.uidMap[k] == c.uidMap[k])
            && (tag in t.counters <==> tag in c.counters)
            && (tag in t.counters ==> (k in t.counters[tag] <==> k in c.counters[tag] && !gone))
            && (k in t.links <==> k in c.links && !gone)
  {
    KeyIndexAt(tag, users, uuid);
  }

  // ---- calls that fail half-way ----

  /** The records a call gets to: those before the one it fails at, or all of them. */
  predicate Gets(users: seq<UserInfo>, fault: Fault, uuid: string) {
    exists i :: 0 <= i < |users| && (fault.FailsAt? ==> i < fault.n) && users[i].uuid == uuid
  }

  lemma ReachedNames(users: seq<UserInfo>, fault: Fault, uuid: string)
    ensures uuid in Index(Reached(users, fault)) <==> Gets(users, fault, uuid)
  {
    TableNames(Reached(users, fault), uuid);
    forall i | 0 <= i < |Reached(users, fault)| ensures Reached(users, fault)[i] == users[i] {}
  }

  /** A removal takes the users it gets to out of the inbound and every index, whether it fails afterwards or not, and
      leaves everybody else alone; it fails exactly when the node has no inbound or some user cannot be removed. */
  lemma RemovalReaches(c: CoreState, tag: string, users: seq<UserInfo>, fault: Fault, uuid: string)
    ensures var (t, ok) := AfterDel(c, tag, users, fault);
            var k, gone := UserTag(tag, uuid), tag in c.inbound && Gets(users, fault, uuid);
            && (ok <==> tag in c.inbound && !(fault.FailsAt? && fault.n < |users|))
            && t.inbound.Keys == c.inbound.Keys && t.counters.Keys == c.counters.Keys
            && (tag in c.inbound ==> (k in t.inbound[tag] <==> k in c.inbound[tag] && !gone))
            && (k in t.uidMap <==> k in c.uidMap && !gone) && (k in t.uidMap ==> t.uidMap[k] == c.uidMap[k])
            && (tag in c.counters ==> (k in t.counters[tag] <==> k in c.counters[tag] && !gone))
            && (k in t.links <==> k in c.links && !gone)
  {
    ReachedNames(users, fault, uuid);
    KeyIndexAt(tag, Reached(users, fault), uuid);
  }

  /** An addition files every listed user under the Id of its last record even if it fails, hands the inbound the users
      it gets to, and touches neither counters nor links. */
  lemma AdditionReaches(c: CoreState, tag: string, users: seq<UserInfo>, fault: Fault, uuid: string)
    ensures var (t, ok) := AfterAdd(c, tag, users, fault);
            var k := UserTag(tag, uuid);
            && (ok <==> tag in c.inbound && !(fault.FailsAt? && fault.n < |users|))
            && t.inbound.Keys == c.inbound.Keys && t.counters == c.counters && t.links == c.links
            && (k in t.uidMap <==> k in c.uidMap || uuid in Index(users))
            && (k in t.uidMap ==> t.uidMap[k] == if uuid in Index(users) then Index(users)[uuid].id else c.uidMap[k])
            && (tag in c.inbound ==> (k in t.inbound[tag] <==> k in c.inbound[tag] || Gets(users, fault, uuid)))
  {
    ReachedNames(users, fault, uuid);
    KeyIndexAt(tag, Reached(users, fault), uuid);
    KeyIndexAt(tag, users, uuid);
  }

  // ---- isolation between nodes ----

  datatype CoreOp = AddOp(users: seq<UserInfo>, fault: Fault) | DelOp(users: seq<UserInfo>, fault: Fault)

  function AfterOp(c: CoreState, tag: string, op: CoreOp): CoreState {
    match op
    case AddOp(users, fault) => AfterAdd(c, tag, users, fault).0
    case DelOp(users, fault) => AfterDel(c, tag, users, fault).0
  }

  function RunOps(c: CoreState, tag: string, ops: seq<CoreOp>): CoreState {
    if ops == [] then c
    else AfterOp(RunOps(c, tag, ops[..|ops| - 1]), tag, ops[|ops| - 1])
  }

  function Uuids(ops: seq<CoreOp>): set<string> {
    set op, u | op in ops && u in op.users :: u.uuid
  }

  /** What the entries of user (tag, uuid) say, besides whole maps kept per node. */
  ghost predicate SameUser(c1: CoreState, c2: CoreState, tag: string, uuid: string) {
    var k := UserTag(tag, uuid);
    && (k in c1.uidMap <==> k in c2.uidMap)
    && (k in c1.uidMap ==> c1.uidMap[k] == c2.uidMap[k])
    && (k in c1.links <==> k in c2.links)
  }

  ghost predicate SameNode(c1: CoreState, c2: CoreState, tag: string) {
    && (tag in c1.inbound <==> tag in c2.inbound) && (tag in c1.inbound ==> c1.inbound[tag] == c2.inbound[tag])
    && (tag in c1.counters <==> tag in c2.counters) && (tag in c1.counters ==> c1.counters[tag] == c2.counters[tag])
  }

  lemma OtherKey(tag: string, users: seq<UserInfo>, other: string, uuid: string, uuids: set<string>)
    requires tag != other && NoBarSuffix(uuids) && uuid in uuids && forall u :: u in users ==> u.uuid in uuids
    ensures UserTag(other, uuid) !in KeyIndex(tag, users)
  {
    CollisionFreeIff(uuids);
    KeyIndexKeys(tag, users);
    var k := UserTag(other, uuid);
    assert forall u :: u in users ==> UserTag(tag, u.uuid) != k;
  }

  lemma OpIsolated(c: CoreState, tag: string, op: CoreOp, other: string, uuid: string, uuids: set<string>)
    requires tag != other && NoBarSuffix(uuids) && uuid in uuids && forall u :: u in op.users ==> u.uuid in uuids
    ensures SameUser(c, AfterOp(c, tag, op), other, uuid) && SameNode(c, AfterOp(c, tag, op), other)
  {
    assert forall u :: u in Reached(op.users, op.fault) ==> u in op.users;
    OtherKey(tag, op.users, other, uuid, uuids);
    OtherKey(tag, Reached(op.users, op.fault), other, uuid, uuids);
  }

  /** Any sequence of additions and removals on one node, failing or not, leaves the users of the others alone. */
  lemma {:induction false} NodesAreIsolated(c: CoreState, tag: string, ops: seq<CoreOp>, other: string, uuid: string)
    requires tag != other && NoBarSuffix(Uuids(ops) + {uuid})
    ensures SameUser(c, RunOps(c, tag, ops), other, uuid) && SameNode(c, RunOps(c, tag, ops), other)
  {
    if ops != [] {
      var init, op := ops[..|ops| - 1], ops[|ops| - 1];
      assert Uuids(init) <= Uuids(ops);
      NodesAreIsolated(c, tag, init, other, uuid);
      assert op in ops;
      assert forall u :: u in op.users ==> u.uuid in Uuids(ops);
      OpIsolated(RunOps(c, tag, init), tag, op, other, uuid, Uuids(ops) + {uuid});
    }
  }

  /** Whatever is done on one node with these uuids leaves the users of every other node alone. */
  ghost predicate Isolated(uuids: set<string>) {
    forall c, tag, ops, other, uuid ::
      tag != other && Uuids(ops) <= uuids && uuid in uuids ==>
        SameUser(c, RunOps(c, tag, ops), other, uuid) && SameNode(c, RunOps(c, tag, ops), other)
  }

  /** Adding a user whose uuid ends in a bar and another uuid writes the other's entry on some other node. */
  lemma BarBreaksIsolation(u1: string, u2: string) returns (c: CoreState, tag: string, ops: seq<CoreOp>, other: string)
    requires EndsWith(u1, "|" + u2)
    ensures tag != other && Uuids(ops) == {u1} && !SameUser(c, RunOps(c, tag, ops), other, u2)
  {
    BarMakesCollision(u1, u2);
    var u := UserInfo(7, u1, 0, 0);
    c, tag, ops, other := CoreState(map[], map[], map[], {}), "", [AddOp([u], NoFault)], "|" + u1[..|u1| - |u2| - 1];
    assert [u][..0] == [] && ops[..0] == [];
    assert KeyIndex(tag, [u]) == map[UserTag(tag, u1) := u];
    assert RunOps(c, tag, []) == c;
    assert RunOps(c, tag, ops) == AfterAdd(c, tag, [u], NoFault).0;
    assert UserTag(other, u2) in RunOps(c, tag, ops).uidMap;
    OneUuid(u);
  }

  lemma OneUuid(u: UserInfo)
    ensures Uuids([AddOp([u], NoFault)]) == {u.uuid}
  {
    var op := AddOp([u], NoFault);
    assert op in [op] && u in op.users;
  }

  /** Additions and removals on one node can never touch a user of another one exactly when no uuid ends in a bar and
      another uuid. */
  lemma IsolatedIff(uuids: set<string>)
    ensures Isolated(uuids) <==> NoBarSuffix(uuids)
  {
    if NoBarSuffix(uuids) {
      forall c, tag, ops, other, uuid | tag != other && Uuids(ops) <= uuids && uuid in uuids
        ensures SameUser(c, RunOps(c, tag, ops), other, uuid) && SameNode(c, RunOps(c, tag, ops), other)
      {
        NodesAreIsolated(c, tag, ops, other, uuid);
      }
    }
    if !NoBarSuffix(uuids) {
      var u1, u2 :| u1 in uuids && u2 in uuids && EndsWith(u1, "|" + u2);
      var c, tag, ops, other := BarBreaksIsolation(u1, u2);
      assert Uuids(ops) <= uuids && !SameUser(c, RunOps(c, tag, ops), other, u2);
    }
  }
}
