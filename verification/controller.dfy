/** The controller of one node, whose periodic tasks are the events of a run. */
module NodeController {
  import opened Panel
  import opened UserList
  import opened LimiterSpec
  import opened Limiter
  import opened CoreUsers
  import opened NodeSync

  class Controller {
    const tag: string
    const limiter: Limiter
    const server: V2Core
    var userList: seq<UserInfo>

    ghost function View(): NodeState
      reads this, limiter, limiter.Buckets(), server
    {
      NodeState(limiter.View(), server.View(), userList)
    }

    /** Starts a node, giving up at the first step that fails: no users, no certificate for TLS, no inbound, or a user
        the core does not take; what the core has taken by then stays. */
    static method Start(nodeType: string, speedLimit: int, tag: string, users: seq<UserInfo>, aliveMap: map<int, int>,
                        server: V2Core, tls: bool, certified: bool, built: bool, fault: Fault)
      returns (c: Controller?)
      modifies server
      ensures var (core, ok) := AfterStart(old(server.View()), tag, users, tls, certified, built, fault);
              && server.View() == core && (c != null <==> ok)
              && (ok ==> c.tag == tag && c.limiter.Cfg() == Config(nodeType, speedLimit) && c.server == server)
              && (ok ==> c.View() == NodeState(LimiterSpec.AddLimiter(tag, users, aliveMap), core, users))
      ensures c != null ==> fresh(c) && fresh(c.limiter) && c.limiter.Valid() && c.limiter.Buckets() == {}
    {
      if users == [] {
        return null;
      }
      var l := new Limiter.AddLimiter(nodeType, speedLimit, tag, users, aliveMap);
      if tls && !certified {
        return null;
      }
      var ok := server.AddNode(tag, built);
      if !ok {
        return null;
      }
      ok := server.AddUsers(tag, users, fault);
      if !ok {
        return null;
      }
      c := new Controller(tag, l, server, users);
    }

    constructor (tag: string, limiter: Limiter, server: V2Core, userList: seq<UserInfo>)
      ensures this.tag == tag && this.limiter == limiter && this.server == server && this.userList == userList
    {
      this.tag, this.limiter, this.server, this.userList := tag, limiter, server, userList;
    }

    /** One poll, with the decoded answers of the panel and the failures of the two core calls. A user that has a bucket
        before and after has the same one, so the connections that hold it run at the user's present rate. */
    method NodeInfoMonitor(newU: seq<UserInfo>, newA: Option<map<int, int>>, delFault: Fault, addFault: Fault)
      returns (ghost p: PollResult)
      requires limiter.Valid()
      modifies this`userList, limiter, limiter.Buckets(), server
      ensures limiter.Valid() && fresh(limiter.Buckets() - old(limiter.Buckets()))
      ensures p == PollResult(newU, newA, p.deleted, delFault, addFault)
      ensures Legal(old(View()), Poll(p)) && View() == AfterPoll(limiter.Cfg(), tag, old(View()), p)
      ensures forall k :: k in old(limiter.speedLimiter) && k in limiter.speedLimiter ==>
                            limiter.speedLimiter[k] == old(limiter.speedLimiter[k])
    {
      p := PollResult(newU, newA, [], delFault, addFault);
      if newA.Some? {
        limiter.aliveList := newA.value;
      }
      ghost var s1 := old(View()).(lim := SetAlive(old(View()).lim, newA));
      assert View() == s1;
      if newU != [] {
        p := ApplyList(newU, delFault, addFault, p);
      }
    }

    method ApplyList(newU: seq<UserInfo>, delFault: Fault, addFault: Fault, ghost p0: PollResult)
      returns (ghost p: PollResult)
      requires limiter.Valid() && p0 == PollResult(newU, p0.alive, [], delFault, addFault)
      modifies this`userList, limiter, limiter.Buckets(), server
      ensures limiter.Valid() && fresh(limiter.Buckets() - old(limiter.Buckets()))
      ensures p == p0.(deleted := p.deleted) && IsDeleted(old(userList), newU, p.deleted)
      ensures View() == AfterList(limiter.Cfg(), tag, old(View()), p)
      ensures forall k :: k in old(limiter.speedLimiter) && k in limiter.speedLimiter ==>
                            limiter.speedLimiter[k] == old(limiter.speedLimiter[k])
    {
      ghost var s := View();
      var deleted, added, modified := CompareUserList(userList, newU);
      p := p0.(deleted := deleted);
      var ok := UpdateServer(deleted, added, delFault, addFault, p);
      assert limiter.View() == s.lim && UpdateCore(tag, s.core, s.userList, p) == (server.View(), ok);
      if ok {
        AcceptList(newU, added, deleted, modified);
      }
    }

    /** Brings the limiter up to date and keeps the list, the core having taken it. */
    method AcceptList(newU: seq<UserInfo>, added: seq<UserInfo>, deleted: seq<UserInfo>, modified: seq<UserInfo>)
      requires limiter.Valid() && IsDeleted(userList, newU, deleted)
      requires added == Added(userList, newU) && modified == Modified(userList, newU)
      modifies this`userList, limiter, limiter.Buckets()
      ensures limiter.Valid() && fresh(limiter.Buckets() - old(limiter.Buckets())) && userList == newU
      ensures limiter.View() == UpdateLimiter(limiter.Cfg(), old(limiter.View()), tag, added, deleted, modified)
      ensures forall k :: k in old(limiter.speedLimiter) && k in limiter.speedLimiter ==>
                            limiter.speedLimiter[k] == old(limiter.speedLimiter[k])
    {
      KeptBuckets(limiter.Cfg(), limiter.View(), tag, userList, newU, deleted);
      UpdateLimits(added, deleted, modified);
      userList := newU;
    }

    method UpdateLimits(added: seq<UserInfo>, deleted: seq<UserInfo>, modified: seq<UserInfo>)
      requires limiter.Valid()
      modifies limiter, limiter.Buckets()
      ensures limiter.Valid() && fresh(limiter.Buckets() - old(limiter.Buckets()))
      ensures limiter.View() == UpdateLimiter(limiter.Cfg(), old(limiter.View()), tag, added, deleted, modified)
      ensures forall k :: k in old(limiter.speedLimiter) && k !in KeyIndex(tag, deleted) &&
                            KeepsLimit(limiter.speedLimit, tag, modified, k) ==>
                            k in limiter.speedLimiter && limiter.speedLimiter[k] == old(limiter.speedLimiter[k])
    {
      if added != [] || deleted != [] || modified != [] {
        limiter.UpdateUser(tag, added, deleted, modified);
      }
    }

    /** Removes, then adds, stopping at the first call that fails. */
    method UpdateServer(deleted: seq<UserInfo>, added: seq<UserInfo>, delFault: Fault, addFault: Fault,
            ghost p: PollResult) returns (ok: bool)
      requires p == PollResult(p.users, p.alive, deleted, delFault, addFault) && added == Added(userList, p.users)
      modifies server
      ensures (server.View(), ok) == UpdateCore(tag, old(server.View()), userList, p)
    {
      ok := true;
      if deleted != [] {
        ok := server.DelUsers(deleted, tag, delFault);
      }
      if ok && added != [] {
        ok := server.AddUsers(tag, added, addFault);
      }
    }
  }

  /** The core after a start has called it, and whether the start succeeded. */
  function AfterStart(c: CoreState, tag: string, users: seq<UserInfo>, tls: bool, certified: bool, built: bool,
                      fault: Fault): (CoreState, bool)
  {
    if users == [] || (tls && !certified) || !built then (c, false)
    else AfterAdd(AfterAddNode(c, tag, true), tag, users, fault)
  }

  /** A start succeeds exactly when there are users, a TLS node has its certificate, the inbound is made and takes every
      user; if it gives up before the users the core is as it was, and otherwise nothing but the node's own inbound and
      entries is touched. */
  lemma StartsExactly(c: CoreState, tag: string, users: seq<UserInfo>, tls: bool, certified: bool, built: bool,
                      fault: Fault)
    ensures var (core, ok) := AfterStart(c, tag, users, tls, certified, built, fault);
            && (ok <==> users != [] && (tls ==> certified) && built && !(fault.FailsAt? && fault.n < |users|))
            && (users == [] || (tls && !certified) || !built ==> core == c)
            && core.counters == c.counters && core.links == c.links
            && (forall other :: other != tag && other in c.inbound ==>
                                  other in core.inbound && core.inbound[other] == c.inbound[other])
  {}

  /** A start that succeeds leaves the node in step with its list. */
  lemma StartedInSync(c: CoreState, tag: string, users: seq<UserInfo>, alive: map<int, int>, tls: bool, certified: bool)
    requires users != [] && (tls ==> certified) && forall uuid :: UserTag(tag, uuid) !in c.uidMap
    ensures var (core, ok) := AfterStart(c, tag, users, tls, certified, true, NoFault);
            ok && InSync(tag, NodeState(LimiterSpec.AddLimiter(tag, users, alive), core, users))
  {
    StartInSync(tag, users, alive, AfterAddNode(c, tag, true));
  }

  /** An update made from a difference keeps every bucket that it does not end up without. */
  lemma KeptBuckets(cfg: Config, s: State, tag: string, prev: seq<UserInfo>, next: seq<UserInfo>,
                    deleted: seq<UserInfo>)
    requires IsDeleted(prev, next, deleted)
    ensures forall k :: k in UpdateUser(cfg, s, tag, Added(prev, next), deleted, Modified(prev, next)).rates &&
                          k in s.rates ==>
                          k !in KeyIndex(tag, deleted) && KeepsLimit(cfg.speedLimit, tag, Modified(prev, next), k)
  {
    var modified := Modified(prev, next);
    var t := UpdateUser(cfg, s, tag, Added(prev, next), deleted, modified);
    ModifiedOnce(prev, next);
    forall k | k in t.rates && k in s.rates
      ensures k !in KeyIndex(tag, deleted) && KeepsLimit(cfg.speedLimit, tag, modified, k)
    {
      KeyDiff(tag, prev, next, deleted, k);
      forall i | 0 <= i < |modified| && UserTag(tag, modified[i].uuid) == k
        ensures Rate(cfg.speedLimit, modified[i].speedLimit) > 0
      {
        var u := modified[i];
        IndexUuids(modified);
        KeyIndexAt(tag, modified, u.uuid);
        var j :| 0 <= j < |modified| && modified[j] == Index(modified)[u.uuid];
        assert i == j;
      }
    }
  }
}
