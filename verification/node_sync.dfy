/** One node over time: polls of the user list, connections and reports, in any order. */
module NodeSync {
  import opened Panel
  import opened UserList
  import opened LimiterSpec
  import opened LimiterInvariants
  import opened CoreUsers

  datatype NodeState = NodeState(lim: State, core: CoreState, userList: seq<UserInfo>)

  /** A poll carries the decoded list (empty when nothing changed), the decoded device counts, the order in which
      the deleted records come out of the difference, and the failures of the two core calls. */
  datatype PollResult = PollResult(users: seq<UserInfo>, alive: Option<map<int, int>>,
                                   deleted: seq<UserInfo>, delFault: Fault, addFault: Fault)

  datatype Event =
    | Check(k: string, ip: string, tcp: bool, now: int)
    | Poll(p: PollResult)
    | ReportOnline(order: VisitOrder)

  function Start(tag: string, users: seq<UserInfo>, alive: map<int, int>, core: CoreState): NodeState {
    NodeState(AddLimiter(tag, users, alive), AfterAdd(core, tag, users, NoFault).0, users)
  }

  function SetAlive(s: State, alive: Option<map<int, int>>): State {
    if alive.Some? then s.(alive := alive.value) else s
  }

  /** The core after the two calls, and whether both succeeded; a failed removal skips the addition. */
  function UpdateCore(tag: string, c: CoreState, prev: seq<UserInfo>, p: PollResult): (CoreState, bool) {
    var added := Added(prev, p.users);
    var (c1, ok1) := if p.deleted != [] then AfterDel(c, tag, p.deleted, p.delFault) else (c, true);
    if !ok1 then (c1, false)
    else if added != [] then AfterAdd(c1, tag, added, p.addFault)
    else (c1, true)
  }

  /** An empty difference does not reach the limiter. */
  function UpdateLimiter(cfg: Config, lim: State, tag: string,
                         added: seq<UserInfo>, deleted: seq<UserInfo>, modified: seq<UserInfo>): State {
    if added != [] || deleted != [] || modified != [] then UpdateUser(cfg, lim, tag, added, deleted, modified) else lim
  }

  /** The list is kept only when both core calls succeeded. */
  function AfterList(cfg: Config, tag: string, s: NodeState, p: PollResult): NodeState {
    var (core, ok) := UpdateCore(tag, s.core, s.userList, p);
    if !ok then s.(core := core)
    else NodeState(UpdateLimiter(cfg, s.lim, tag, Added(s.userList, p.users), p.deleted, Modified(s.userList, p.users)),
                   core, p.users)
  }

  function AfterPoll(cfg: Config, tag: string, s: NodeState, p: PollResult): NodeState {
    var s1 := s.(lim := SetAlive(s.lim, p.alive));
    if p.users == [] then s1 else AfterList(cfg, tag, s1, p)
  }

  ghost predicate Legal(s: NodeState, e: Event) {
    match e
    case Check(_, _, _, _) => true
    case Poll(p) => p.users != [] ==> IsDeleted(s.userList, p.users, p.deleted)
    case ReportOnline(order) => Enumerates(order, s.lim.online) && AllTracked(order, s.lim.online)
  }

  ghost function Apply(cfg: Config, tag: string, s: NodeState, e: Event): NodeState
    requires Legal(s, e)
  {
    match e
    case Check(k, ip, tcp, now) => s.(lim := CheckLimit(cfg, s.lim, k, ip, tcp, now).state)
    case Poll(p) => AfterPoll(cfg, tag, s, p)
    case ReportOnline(order) => s.(lim := Report(s.lim, order))
  }

  ghost predicate LegalRun(cfg: Config, tag: string, s: NodeState, es: seq<Event>)
    decreases |es|
  {
    es == [] || (Legal(s, es[0]) && LegalRun(cfg, tag, Apply(cfg, tag, s, es[0]), es[1..]))
  }

  ghost function Run(cfg: Config, tag: string, s: NodeState, es: seq<Event>): NodeState
    requires LegalRun(cfg, tag, s, es)
    decreases |es|
  {
    if es == [] then s else Run(cfg, tag, Apply(cfg, tag, s, es[0]), es[1..])
  }

  // ---- agreement with a start from scratch ----

  ghost predicate LimiterInSync(tag: string, s: NodeState) {
    s.lim.info == Limits(KeyIndex(tag, s.userList)) && s.lim.uids == Ids(Index(s.userList))
  }

  ghost predicate CoreInSync(tag: string, s: NodeState) {
    && tag in s.core.inbound && s.core.inbound[tag] == KeyIndex(tag, s.userList).Keys
    && forall uuid :: UidAgrees(tag, s.core.uidMap, Index(s.userList), uuid)
  }

  ghost predicate UidAgrees(tag: string, uidMap: map<string, int>, index: map<string, UserInfo>, uuid: string) {
    var k := UserTag(tag, uuid);
    (k in uidMap <==> uuid in index) && (k in uidMap ==> uidMap[k] == index[uuid].id)
  }

  /** A user kept in place whose Id is another one in the new list. */
  ghost predicate Renumbered(prev: seq<UserInfo>, next: seq<UserInfo>, uuid: string) {
    && uuid in Index(prev) && uuid in Index(next) && uuid !in Index(Added(prev, next))
    && Index(prev)[uuid].id != Index(next)[uuid].id
  }

  ghost predicate StableIds(prev: seq<UserInfo>, next: seq<UserInfo>) {
    forall uuid :: !Renumbered(prev, next, uuid)
  }

  predicate Accepted(tag: string, s: NodeState, p: PollResult) {
    p.users != [] && UpdateCore(tag, s.core, s.userList, p).1
  }

  lemma RenumberedKey(tag: string, prev: seq<UserInfo>, next: seq<UserInfo>, k: string)
    requires k in KeyIndex(tag, prev) && k in KeyIndex(tag, next) && k !in KeyIndex(tag, Added(prev, next))
    requires KeyIndex(tag, prev)[k].id != KeyIndex(tag, next)[k].id
    ensures !StableIds(prev, next)
  {
    KeyIndexKeys(tag, prev);
    var uuid := KeyIndex(tag, prev)[k].uuid;
    KeyIndexAt(tag, prev, uuid);
    KeyIndexAt(tag, next, uuid);
    KeyIndexAt(tag, Added(prev, next), uuid);
    assert Renumbered(prev, next, uuid);
  }

  /** A limit table agrees with a list in everything but uids, which may be out of date. */
  ghost predicate LimitsAgree(info: map<string, UserLimit>, index: map<string, UserInfo>) {
    info.Keys == index.Keys && forall k :: k in info ==> info[k] == Limits(index)[k].(uid := info[k].uid)
  }

  /** One key of the limit table after an update made from the difference of two lists. */
  lemma UpdatedInfoAt(cfg: Config, tag: string, s: State, prev: seq<UserInfo>, next: seq<UserInfo>,
          deleted: seq<UserInfo>, k: string)
    requires IsDeleted(prev, next, deleted) && LimitsAgree(s.info, KeyIndex(tag, prev))
    ensures var t := UpdateUser(cfg, s, tag, Added(prev, next), deleted, Modified(prev, next)).info;
            var now := KeyIndex(tag, next);
            && (k in t <==> k in now)
            && (k in t ==> t[k] == Limits(now)[k].(uid := t[k].uid))
            && (k in t && t[k].uid != now[k].id ==>
                  k in KeyIndex(tag, prev) && k !in KeyIndex(tag, Added(prev, next)) && t[k].uid == s.info[k].uid)
            && (k in now && k !in KeyIndex(tag, Added(prev, next)) ==> t[k].uid == s.info[k].uid)
  {
    KeyDiff(tag, prev, next, deleted, k);
  }

  lemma UpdatedUidAt(prev: seq<UserInfo>, next: seq<UserInfo>, deleted: seq<UserInfo>, uuid: string)
    requires IsDeleted(prev, next, deleted)
    ensures var t := (Ids(Index(prev)) - Index(deleted).Keys) + Ids(Index(Added(prev, next)));
            && (uuid in t <==> uuid in Index(next))
            && (uuid in t && t[uuid] != Index(next)[uuid].id <==> Renumbered(prev, next, uuid))
  {
    DiffAt(prev, next, uuid);
  }

  lemma UpdatedUids(prev: seq<UserInfo>, next: seq<UserInfo>, deleted: seq<UserInfo>)
    requires IsDeleted(prev, next, deleted)
    ensures (Ids(Index(prev)) - Index(deleted).Keys) + Ids(Index(Added(prev, next))) == Ids(Index(next))
            <==> StableIds(prev, next)
  {
    var t := (Ids(Index(prev)) - Index(deleted).Keys) + Ids(Index(Added(prev, next)));
    forall uuid ensures uuid in t <==> uuid in Index(next)
                ensures uuid in t && t[uuid] != Index(next)[uuid].id <==> Renumbered(prev, next, uuid)
    {
      UpdatedUidAt(prev, next, deleted, uuid);
    }
  }

  lemma UpdatedInfo(cfg: Config, tag: string, s: State, prev: seq<UserInfo>, next: seq<UserInfo>,
          deleted: seq<UserInfo>)
    requires IsDeleted(prev, next, deleted) && s.info == Limits(KeyIndex(tag, prev)) && StableIds(prev, next)
    ensures UpdateUser(cfg, s, tag, Added(prev, next), deleted, Modified(prev, next)).info ==
            Limits(KeyIndex(tag, next))
  {
    var t, now := UpdateUser(cfg, s, tag, Added(prev, next), deleted, Modified(prev, next)).info, KeyIndex(tag, next);
    forall k ensures (k in t <==> k in now) && (k in t ==> t[k] == Limits(now)[k]) {
      UpdatedInfoAt(cfg, tag, s, prev, next, deleted, k);
      if k in t && t[k].uid != now[k].id {
        RenumberedKey(tag, prev, next, k);
      }
    }
  }

  /** The update leaves the limiter as a start from the new list would, exactly when no kept user changed its Id. */
  lemma UpdateInSyncIff(cfg: Config, tag: string, s: State, prev: seq<UserInfo>, next: seq<UserInfo>,
          deleted: seq<UserInfo>)
    requires IsDeleted(prev, next, deleted)
    requires s.info == Limits(KeyIndex(tag, prev)) && s.uids == Ids(Index(prev))
    ensures var t := UpdateUser(cfg, s, tag, Added(prev, next), deleted, Modified(prev, next));
            t.info == Limits(KeyIndex(tag, next)) && t.uids == Ids(Index(next)) <==> StableIds(prev, next)
  {
    UpdatedUids(prev, next, deleted);
    if StableIds(prev, next) {
      UpdatedInfo(cfg, tag, s, prev, next, deleted);
    }
  }

  /** Whatever fails, the limiter agrees with the list last accepted, unless an accepted list renumbers a kept user. */
  lemma PollLimiterSync(cfg: Config, tag: string, s: NodeState, p: PollResult)
    requires LimiterInSync(tag, s) && Legal(s, Poll(p))
    ensures LimiterInSync(tag, AfterPoll(cfg, tag, s, p)) <==>
            !Accepted(tag, s, p) || StableIds(s.userList, p.users)
  {
    var lim := SetAlive(s.lim, p.alive);
    if p.users != [] {
      UpdateInSyncIff(cfg, tag, lim, s.userList, p.users, p.deleted);
      NoChange(cfg, tag, lim);
    }
  }

  lemma NoChange(cfg: Config, tag: string, s: State)
    ensures UpdateUser(cfg, s, tag, [], [], []) == s
  {
    var t := UpdateUser(cfg, s, tag, [], [], []);
    assert t.info == s.info && t.uids == s.uids && t.rates == s.rates && t.online == s.online && t.alive == s.alive;
  }

  lemma InboundAfter(tag: string, prev: seq<UserInfo>, next: seq<UserInfo>, deleted: seq<UserInfo>)
    requires IsDeleted(prev, next, deleted)
    ensures (KeyIndex(tag, prev).Keys - KeyIndex(tag, deleted).Keys) + KeyIndex(tag, Added(prev, next)).Keys ==
            KeyIndex(tag, next).Keys
  {
    var keys := (KeyIndex(tag, prev).Keys - KeyIndex(tag, deleted).Keys) + KeyIndex(tag, Added(prev, next)).Keys;
    forall k ensures k in keys <==> k in KeyIndex(tag, next).Keys {
      KeyDiff(tag, prev, next, deleted, k);
    }
  }

  lemma UidMapAfter(tag: string, uidMap: map<string, int>, prev: seq<UserInfo>, next: seq<UserInfo>,
          deleted: seq<UserInfo>, uuid: string)
    requires IsDeleted(prev, next, deleted) && UidAgrees(tag, uidMap, Index(prev), uuid)
    ensures var t := (uidMap - KeyIndex(tag, deleted).Keys) + Ids(KeyIndex(tag, Added(prev, next)));
            UidAgrees(tag, t, Index(next), uuid) <==> !Renumbered(prev, next, uuid)
  {
    DiffAt(prev, next, uuid);
    KeyIndexAt(tag, deleted, uuid);
    KeyIndexAt(tag, Added(prev, next), uuid);
  }

  lemma CoreAfterDel(tag: string, c: CoreState, deleted: seq<UserInfo>, fault: Fault)
    requires tag in c.inbound && (deleted != [] ==> AfterDel(c, tag, deleted, fault).1)
    ensures var t := if deleted != [] then AfterDel(c, tag, deleted, fault).0 else c;
            && t.uidMap == c.uidMap - KeyIndex(tag, deleted).Keys
            && tag in t.inbound && t.inbound[tag] == c.inbound[tag] - KeyIndex(tag, deleted).Keys
  {
    if deleted == [] {
      assert c.uidMap - {} == c.uidMap && c.inbound[tag] - {} == c.inbound[tag];
    }
  }

  lemma CoreAfterAdd(tag: string, c: CoreState, added: seq<UserInfo>, fault: Fault)
    requires tag in c.inbound && (added != [] ==> AfterAdd(c, tag, added, fault).1)
    ensures var t := if added != [] then AfterAdd(c, tag, added, fault).0 else c;
            && t.uidMap == c.uidMap + Ids(KeyIndex(tag, added))
            && tag in t.inbound && t.inbound[tag] == c.inbound[tag] + KeyIndex(tag, added).Keys
  {
    if added == [] {
      assert c.uidMap + map[] == c.uidMap && c.inbound[tag] + {} == c.inbound[tag];
    }
  }

  /** What the core becomes when nothing fails. */
  lemma CoreAfter(tag: string, c: CoreState, prev: seq<UserInfo>, p: PollResult)
    requires tag in c.inbound && UpdateCore(tag, c, prev, p).1
    ensures var t := UpdateCore(tag, c, prev, p).0;
            && t.uidMap == (c.uidMap - KeyIndex(tag, p.deleted).Keys) + Ids(KeyIndex(tag, Added(prev, p.users)))
            && tag in t.inbound
            && t.inbound[tag] ==
               (c.inbound[tag] - KeyIndex(tag, p.deleted).Keys) + KeyIndex(tag, Added(prev, p.users)).Keys
  {
    var c1 := if p.deleted != [] then AfterDel(c, tag, p.deleted, p.delFault).0 else c;
    CoreAfterDel(tag, c, p.deleted, p.delFault);
    CoreAfterAdd(tag, c1, Added(prev, p.users), p.addFault);
  }

  /** An accepted poll leaves uid index and inbound as a start from the new list would, exactly when Ids are stable. */
  lemma PollCoreSync(cfg: Config, tag: string, s: NodeState, p: PollResult)
    requires CoreInSync(tag, s) && Legal(s, Poll(p)) && Accepted(tag, s, p)
    ensures CoreInSync(tag, AfterPoll(cfg, tag, s, p)) <==> StableIds(s.userList, p.users)
  {
    var prev, next := s.userList, p.users;
    var t := AfterPoll(cfg, tag, s, p);
    CoreAfter(tag, s.core, prev, p);
    InboundAfter(tag, prev, next, p.deleted);
    forall uuid ensures UidAgrees(tag, t.core.uidMap, Index(next), uuid) <==> !Renumbered(prev, next, uuid) {
      UidMapAfter(tag, s.core.uidMap, prev, next, p.deleted, uuid);
    }
  }

  /** Every accepted list of the run keeps the Ids of the users it keeps. */
  ghost predicate StableRun(cfg: Config, tag: string, s: NodeState, es: seq<Event>)
    requires LegalRun(cfg, tag, s, es)
    decreases |es|
  {
    es == [] ||
    (&& (es[0].Poll? && Accepted(tag, s, es[0].p) ==> StableIds(s.userList, es[0].p.users))
     && StableRun(cfg, tag, Apply(cfg, tag, s, es[0]), es[1..]))
  }

  lemma SyncedIsStatic(tag: string, s: NodeState)
    requires LimiterInSync(tag, s)
    ensures Static(s.lim)
  {}

  lemma CheckKeepsInfo(cfg: Config, s: State, k: string, ip: string, tcp: bool, now: int)
    requires Static(s)
    ensures var t := CheckLimit(cfg, s, k, ip, tcp, now).state; t.info == s.info && t.uids == s.uids
  {
    if k in s.info {
      assert !Expired(s.info[k], now);
      var gated := Gate(cfg, s.(info := UserSpeed(s.info, k, now).0), k, ip, tcp, s.info[k]).0;
      assert gated.info == s.info && gated.uids == s.uids;
    }
  }

  lemma EventLimiterSync(cfg: Config, tag: string, s: NodeState, e: Event)
    requires Legal(s, e) && LimiterInSync(tag, s)
    ensures LimiterInSync(tag, Apply(cfg, tag, s, e)) <==>
            (e.Poll? && Accepted(tag, s, e.p) ==> StableIds(s.userList, e.p.users))
  {
    match e
    case Check(k, ip, tcp, now) =>
      SyncedIsStatic(tag, s);
      CheckKeepsInfo(cfg, s.lim, k, ip, tcp, now);
    case Poll(p) => PollLimiterSync(cfg, tag, s, p);
    case ReportOnline(_) =>
  }

  ghost predicate LimiterAlwaysInSync(cfg: Config, tag: string, s: NodeState, es: seq<Event>)
    requires LegalRun(cfg, tag, s, es)
    decreases |es|
  {
    LimiterInSync(tag, s) && (es == [] || LimiterAlwaysInSync(cfg, tag, Apply(cfg, tag, s, es[0]), es[1..]))
  }

  /** Core failures included, a run keeps the limiter in agreement with the list last accepted, at every moment,
      exactly when no accepted list renumbers a kept user. */
  lemma {:induction false} LimiterAlwaysInSyncIff(cfg: Config, tag: string, s: NodeState, es: seq<Event>)
    requires LegalRun(cfg, tag, s, es) && LimiterInSync(tag, s)
    ensures LimiterAlwaysInSync(cfg, tag, s, es) <==> StableRun(cfg, tag, s, es)
    ensures StableRun(cfg, tag, s, es) ==> LimiterInSync(tag, Run(cfg, tag, s, es))
    decreases |es|
  {
    if es != [] {
      var t := Apply(cfg, tag, s, es[0]);
      EventLimiterSync(cfg, tag, s, es[0]);
      if LimiterInSync(tag, t) {
        LimiterAlwaysInSyncIff(cfg, tag, t, es[1..]);
      }
    }
  }

  predicate NoFaults(es: seq<Event>) {
    forall i :: 0 <= i < |es| && es[i].Poll? ==> es[i].p.delFault == NoFault && es[i].p.addFault == NoFault
  }

  /** The last list of the run that was not empty. */
  function LastList(users: seq<UserInfo>, es: seq<Event>): seq<UserInfo>
    decreases |es|
  {
    if es == [] then users
    else LastList(if es[0].Poll? && es[0].p.users != [] then es[0].p.users else users, es[1..])
  }

  /** Each list of the run that is not empty keeps the Ids of the users it keeps from the one before. */
  ghost predicate StableLists(users: seq<UserInfo>, es: seq<Event>)
    decreases |es|
  {
    es == [] ||
    if es[0].Poll? && es[0].p.users != [] then StableIds(users, es[0].p.users) && StableLists(es[0].p.users, es[1..])
    else StableLists(users, es[1..])
  }

  ghost predicate InSync(tag: string, s: NodeState) {
    LimiterInSync(tag, s) && CoreInSync(tag, s)
  }

  ghost predicate AlwaysInSync(cfg: Config, tag: string, s: NodeState, es: seq<Event>)
    requires LegalRun(cfg, tag, s, es)
    decreases |es|
  {
    InSync(tag, s) && (es == [] || AlwaysInSync(cfg, tag, Apply(cfg, tag, s, es[0]), es[1..]))
  }

  lemma EventInSyncIff(cfg: Config, tag: string, s: NodeState, e: Event)
    requires Legal(s, e) && InSync(tag, s) && NoFaults([e])
    ensures var t, listed := Apply(cfg, tag, s, e), e.Poll? && e.p.users != [];
            && (InSync(tag, t) <==> (listed ==> StableIds(s.userList, e.p.users)))
            && t.userList == if listed then e.p.users else s.userList
  {
    if e.Poll? && e.p.users != [] {
      assert [e][0].p.delFault == NoFault;
      assert Accepted(tag, s, e.p);
      PollLimiterSync(cfg, tag, s, e.p);
      PollCoreSync(cfg, tag, s, e.p);
    } else {
      EventLimiterSync(cfg, tag, s, e);
    }
  }

  /** Without failures a run stays in step throughout exactly when its lists never renumber a kept user, and the list
      accepted at its end is the last one that was not empty. */
  lemma {:induction false} AlwaysInSyncIff(cfg: Config, tag: string, s: NodeState, es: seq<Event>)
    requires LegalRun(cfg, tag, s, es) && NoFaults(es) && InSync(tag, s)
    ensures AlwaysInSync(cfg, tag, s, es) <==> StableLists(s.userList, es)
    ensures StableLists(s.userList, es) ==>
              InSync(tag, Run(cfg, tag, s, es)) && Run(cfg, tag, s, es).userList == LastList(s.userList, es)
    decreases |es|
  {
    if es != [] {
      var t := Apply(cfg, tag, s, es[0]);
      EventInSyncIff(cfg, tag, s, es[0]);
      if InSync(tag, t) {
        AlwaysInSyncIff(cfg, tag, t, es[1..]);
      }
    }
  }

  lemma StartInSync(tag: string, users: seq<UserInfo>, alive: map<int, int>, core: CoreState)
    requires tag in core.inbound && core.inbound[tag] == {}
    requires forall uuid :: UserTag(tag, uuid) !in core.uidMap
    ensures LimiterInSync(tag, Start(tag, users, alive, core)) && CoreInSync(tag, Start(tag, users, alive, core))
  {
    var t := Start(tag, users, alive, core);
    forall uuid ensures UidAgrees(tag, t.core.uidMap, Index(users), uuid) {
      KeyIndexAt(tag, users, uuid);
    }
  }

  /** A node that started once and polled ever since cannot be told from one started now on the last list. */
  lemma PollingEqualsRestart(cfg: Config, tag: string, users: seq<UserInfo>, alive: map<int, int>, core: CoreState,
          es: seq<Event>)
    requires tag in core.inbound && core.inbound[tag] == {}
    requires forall uuid :: UserTag(tag, uuid) !in core.uidMap
    requires LegalRun(cfg, tag, Start(tag, users, alive, core), es) && NoFaults(es) && StableLists(users, es)
    ensures var t := Run(cfg, tag, Start(tag, users, alive, core), es);
            var fresh' := Start(tag, LastList(users, es), alive, core);
            && t.lim.info == fresh'.lim.info && t.lim.uids == fresh'.lim.uids
            && tag in t.core.inbound && t.core.inbound[tag] == fresh'.core.inbound[tag]
            && forall uuid :: SameUser(t.core, fresh'.core.(links := t.core.links), tag, uuid)
  {
    StartInSync(tag, users, alive, core);
    AlwaysInSyncIff(cfg, tag, Start(tag, users, alive, core), es);
    var last := LastList(users, es);
    StartInSync(tag, last, alive, core);
    var t, u := Run(cfg, tag, Start(tag, users, alive, core), es), Start(tag, last, alive, core);
    forall uuid ensures SameUser(t.core, u.core.(links := t.core.links), tag, uuid) {
      assert UidAgrees(tag, t.core.uidMap, Index(last), uuid) && UidAgrees(tag, u.core.uidMap, Index(last), uuid);
    }
  }

  /** A poll that changes nothing but the Id of one user takes a freshly started node out of step. */
  lemma ChangedIdGoesStale(cfg: Config, core: CoreState)
    requires "t" in core.inbound
    ensures var s := Start("t", [UserInfo(1, "a", 0, 0)], map[], core);
            var p := PollResult([UserInfo(2, "a", 0, 0)], None, [], NoFault, NoFault);
            && LimiterInSync("t", s) && Legal(s, Poll(p)) && Accepted("t", s, p)
            && !LimiterInSync("t", AfterPoll(cfg, "t", s, p))
  {
    var o, n := UserInfo(1, "a", 0, 0), UserInfo(2, "a", 0, 0);
    OneRenumbered(cfg, Start("t", [o], map[], core), PollResult([n], None, [], NoFault, NoFault), o, n);
  }

  lemma OneRenumbered(cfg: Config, s: NodeState, p: PollResult, o: UserInfo, n: UserInfo)
    requires o == UserInfo(1, "a", 0, 0) && n == UserInfo(2, "a", 0, 0)
    requires s.userList == [o] && LimiterInSync("t", s) && "t" in s.core.inbound
    requires p == PollResult([n], None, [], NoFault, NoFault)
    ensures Legal(s, Poll(p)) && Accepted("t", s, p) && !LimiterInSync("t", AfterPoll(cfg, "t", s, p))
  {
    IndexOne(o);
    IndexOne(n);
    DiffStep([o], [], n);
    assert [] + [n] == [n] && n.uuid !in Index([]);
    assert Added([o], [n]) == Added([o], []) == [];
    assert Renumbered([o], [n], "a");
    PollLimiterSync(cfg, "t", s, p);
  }
}
