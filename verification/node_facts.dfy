/** What one poll leaves behind, told by the lists and the fields of the state alone. */
module NodeFacts {
  import opened Panel
  import opened UserList
  import opened LimiterSpec
  import opened LimiterFacts
  import opened CoreUsers
  import opened NodeSync

  /** The Id belongs to a user of the old list that the new one no longer names. */
  ghost predicate DropsId(prev: seq<UserInfo>, next: seq<UserInfo>, id: int) {
    exists uuid :: uuid in Index(prev) && uuid !in Index(next) && Index(prev)[uuid].id == id
  }

  lemma DeletedIds(prev: seq<UserInfo>, next: seq<UserInfo>, deleted: seq<UserInfo>, id: int)
    requires IsDeleted(prev, next, deleted)
    ensures DropsId(prev, next, id) <==> exists u :: u in deleted && u.id == id
  {
    IndexUuids(deleted);
    if uuid :| uuid in Index(prev) && uuid !in Index(next) && Index(prev)[uuid].id == id {
      assert uuid in Index(deleted) && Index(deleted)[uuid] == Index(prev)[uuid];
    }
    if u :| u in deleted && u.id == id {
      var i :| 0 <= i < |deleted| && deleted[i] == u;
      LastRecordCounts(deleted, i);
      assert u.uuid in Index(prev) && u.uuid !in Index(next) && Index(prev)[u.uuid] == u;
    }
  }

  /** A poll takes a list exactly when it is not empty and neither core call fails, where nothing to remove or nothing
      to add means no call. */
  lemma AcceptedExactly(tag: string, s: NodeState, p: PollResult)
    ensures Accepted(tag, s, p) <==>
            && p.users != []
            && (p.deleted != [] ==> tag in s.core.inbound && !(p.delFault.FailsAt? && p.delFault.n < |p.deleted|))
            && (Added(s.userList, p.users) != [] ==>
                  tag in s.core.inbound && !(p.addFault.FailsAt? && p.addFault.n < |Added(s.userList, p.users)|))
  {}

  /** The device counts after a poll are those the panel gave, or the old ones if it gave none, less those of the Ids
      that an accepted list drops. */
  lemma CountsAfterPoll(cfg: Config, tag: string, s: NodeState, p: PollResult, uid: int)
    requires Legal(s, Poll(p))
    ensures var given := if p.alive.Some? then p.alive.value else s.lim.alive;
            var t := AfterPoll(cfg, tag, s, p).lim;
            && (uid in t.alive <==> uid in given && !(Accepted(tag, s, p) && DropsId(s.userList, p.users, uid)))
            && (uid in t.alive ==> t.alive[uid] == given[uid])
  {
    if p.users != [] {
      DeletedIds(s.userList, p.users, p.deleted, uid);
      CountsAfterUpdate(cfg, SetAlive(s.lim, p.alive), tag, Added(s.userList, p.users), p.deleted,
                        Modified(s.userList, p.users), uid);
    }
  }

  /** A node starts with the counts it was given, no tracked address and no bucket. */
  lemma StartsEmpty(tag: string, users: seq<UserInfo>, alive: map<int, int>, core: CoreState)
    ensures var s := Start(tag, users, alive, core).lim;
            s.alive == alive && s.online == map[] && s.oldOnline == map[] && s.rates == map[]
  {}

  /** A poll that is not accepted changes nothing of the limiter but the device counts, and keeps the list. */
  lemma RejectedPollKeepsLimiter(cfg: Config, tag: string, s: NodeState, p: PollResult)
    requires !Accepted(tag, s, p)
    ensures var t := AfterPoll(cfg, tag, s, p);
            && t.userList == s.userList && t.lim.info == s.lim.info && t.lim.uids == s.lim.uids
            && t.lim.online == s.lim.online && t.lim.oldOnline == s.lim.oldOnline && t.lim.rates == s.lim.rates
  {}

  /** After an accepted poll a user that the list drops has left the inbound, the uid index, the counters, the links and
      the limiter; what the core counts and links for the others stays. */
  lemma DroppedUserIsGone(cfg: Config, tag: string, s: NodeState, p: PollResult, uuid: string)
    requires Legal(s, Poll(p)) && Accepted(tag, s, p) && uuid in Index(s.userList) && tag in s.core.inbound
    ensures var t, k := AfterPoll(cfg, tag, s, p), UserTag(tag, uuid);
            && tag in t.core.inbound && (tag in t.core.counters <==> tag in s.core.counters)
            && if uuid !in Index(p.users) then
                 && k !in t.core.inbound[tag] && k !in t.core.uidMap && k !in t.core.links
                 && (tag in t.core.counters ==> k !in t.core.counters[tag])
                 && k !in t.lim.info && k !in t.lim.online && k !in t.lim.rates && uuid !in t.lim.uids
               else
                 && (k in t.core.links <==> k in s.core.links)
                 && (tag in t.core.counters ==> (k in t.core.counters[tag] <==> k in s.core.counters[tag]))
  {
    var added, c := Added(s.userList, p.users), s.core;
    var c1 := if p.deleted != [] then AfterDel(c, tag, p.deleted, p.delFault).0 else c;
    DiffAt(s.userList, p.users, uuid);
    TableNames(p.deleted, uuid);
    RemovalReaches(c, tag, p.deleted, p.delFault, uuid);
    AdditionReaches(c1, tag, added, p.addFault, uuid);
    TableNames(added, uuid);
    CoreOfPoll(cfg, tag, s, p);
    if uuid !in Index(p.users) {
      LimiterForgets(cfg, tag, s, p, uuid);
    }
  }

  lemma CoreOfPoll(cfg: Config, tag: string, s: NodeState, p: PollResult)
    requires Accepted(tag, s, p)
    ensures var added, c := Added(s.userList, p.users), s.core;
            var c1 := if p.deleted != [] then AfterDel(c, tag, p.deleted, p.delFault).0 else c;
            && AfterPoll(cfg, tag, s, p).core == (if added != [] then AfterAdd(c1, tag, added, p.addFault).0 else c1)
            && (p.deleted != [] ==> AfterDel(c, tag, p.deleted, p.delFault).1)
            && (added != [] ==> AfterAdd(c1, tag, added, p.addFault).1)
  {}

  lemma LimiterForgets(cfg: Config, tag: string, s: NodeState, p: PollResult, uuid: string)
    requires Legal(s, Poll(p)) && Accepted(tag, s, p) && uuid in Index(s.userList) && uuid !in Index(p.users)
    ensures var t, k := AfterPoll(cfg, tag, s, p).lim, UserTag(tag, uuid);
            k !in t.info && k !in t.online && k !in t.rates && uuid !in t.uids
  {
    DiffAt(s.userList, p.users, uuid);
    KeyIndexAt(tag, p.deleted, uuid);
    KeyIndexAt(tag, Added(s.userList, p.users), uuid);
    KeyIndexAt(tag, Modified(s.userList, p.users), uuid);
    assert p.deleted != [];
  }

  /** What it means to be in step with a list: the last record of each uuid gives the user's Id and limits, and nobody
      else is known to the limiter, the uid index or the inbound. */
  lemma InStepExactly(tag: string, s: NodeState, uuid: string)
    requires InSync(tag, s)
    ensures var k, index := UserTag(tag, uuid), Index(s.userList);
            && tag in s.core.inbound && (k in s.lim.info <==> uuid in index) && (uuid in s.lim.uids <==> uuid in index)
            && (k in s.core.uidMap <==> uuid in index) && (k in s.core.inbound[tag] <==> uuid in index)
            && (uuid in index ==>
                  && s.lim.info[k].uid == s.lim.uids[uuid] == s.core.uidMap[k] == index[uuid].id
                  && s.lim.info[k].speedLimit == index[uuid].speedLimit
                  && s.lim.info[k].deviceLimit == index[uuid].deviceLimit
                  && s.lim.info[k].dynamicSpeedLimit == s.lim.info[k].expireTime == 0)
  {
    KeyIndexAt(tag, s.userList, uuid);
    assert UidAgrees(tag, s.core.uidMap, Index(s.userList), uuid);
  }
}
