/** What every limiter operation keeps, and what its device decision means for the set of tracked addresses. */
module LimiterInvariants {
  import opened Panel
  import opened UserList
  import opened LimiterSpec

  /** No dynamic limit is pending; only UpdateDynamicSpeedLimit, which nothing calls, would set one. */
  ghost predicate Static(s: State) {
    forall k :: k in s.info ==> s.info[k].dynamicSpeedLimit == 0 && s.info[k].expireTime == 0
  }

  function UserRate(cfg: Config, u: UserLimit): int {
    Rate(cfg.speedLimit, DetermineSpeedLimit(u.speedLimit, 0))
  }

  /** Every bucket belongs to a known user and runs at that user's rate under the present limits. */
  ghost predicate BucketsExact(cfg: Config, s: State) {
    forall k :: k in s.rates ==> k in s.info && s.rates[k] > 0 && s.rates[k] == UserRate(cfg, s.info[k])
  }

  /** Only known users have tracked addresses, never an empty set of them, each filed under the user's uid. */
  ghost predicate OnlineOwned(s: State) {
    forall k :: k in s.online ==> k in s.info && s.online[k] != map[] && OwnedBy(s.online[k], s.info[k].uid)
  }

  ghost predicate OwnedBy(ips: map<string, int>, uid: int) {
    forall ip :: ip in ips ==> ips[ip] == uid
  }

  ghost predicate Good(cfg: Config, s: State) {
    Static(s) && BucketsExact(cfg, s) && OnlineOwned(s)
  }

  /** A modification makes buckets with the plain limit and a connection with the dynamic minimum: the rates agree. */
  lemma RatesAgree(nodeLimit: int, userLimit: int)
    requires Rate(nodeLimit, userLimit) > 0
    ensures Rate(nodeLimit, DetermineSpeedLimit(userLimit, 0)) == Rate(nodeLimit, userLimit)
  {}

  lemma DeviceDecides(s: State, k: string, ip: string, uid: int, deviceLimit: int)
    ensures var (t, rejected) := CheckDevice(s, k, ip, uid, deviceLimit);
            && (rejected <==> !Tracked(s.online, k, ip) && ip !in s.oldOnline && AtLimit(s, uid, deviceLimit))
            && (rejected ==> t == s)
            && t == s.(online := t.online, oldOnline := t.oldOnline)
            && (forall k', ip' :: Tracked(t.online, k', ip') <==>
                                  Tracked(s.online, k', ip') || (!rejected && k' == k && ip' == ip))
            && t.oldOnline == if !Tracked(s.online, k, ip) && ip in s.oldOnline && s.oldOnline[ip] == uid
                              then s.oldOnline - {ip} else s.oldOnline
  {
    forall k', ip' ensures Tracked(Track(s.online, k, ip, uid), k', ip') <==>
                           Tracked(s.online, k', ip') || (k' == k && ip' == ip)
    {}
  }

  /** The device decision on the state a connection meets, once its record's expiry has been dealt with. */
  function Gated(cfg: Config, s: State, k: string, rawIp: string, tcp: bool, now: int): (State, bool)
    requires k in s.info
  {
    Gate(cfg, s.(info := UserSpeed(s.info, k, now).0), k, rawIp, tcp, s.info[k])
  }

  lemma CheckIsGated(cfg: Config, s: State, k: string, rawIp: string, tcp: bool, now: int)
    requires k in s.info
    ensures var r, (t, rejected) := CheckLimit(cfg, s, k, rawIp, tcp, now), Gated(cfg, s, k, rawIp, tcp, now);
            && r.rejected == rejected && r.state.online == t.online && r.state.oldOnline == t.oldOnline
            && (rejected ==> r.state == t)
  {}

  lemma GateDecides(cfg: Config, s: State, k: string, rawIp: string, tcp: bool, u: UserLimit)
    ensures var ((t, rejected), ip) := (Gate(cfg, s, k, rawIp, tcp, u), NormalizeIp(rawIp));
            && (rejected <==> TracksDevices(cfg, tcp) && !Tracked(s.online, k, ip) && ip !in s.oldOnline &&
                              AtLimit(s, u.uid, u.deviceLimit))
            && (rejected ==> t == s)
            && (forall k', ip' :: Tracked(t.online, k', ip') <==>
                                  Tracked(s.online, k', ip') ||
                                  (!rejected && TracksDevices(cfg, tcp) && k' == k && ip' == ip))
            && t.oldOnline == if TracksDevices(cfg, tcp) && !Tracked(s.online, k, ip) &&
                                 ip in s.oldOnline && s.oldOnline[ip] == u.uid
                              then s.oldOnline - {ip} else s.oldOnline
  {
    DeviceDecides(s, k, NormalizeIp(rawIp), u.uid, u.deviceLimit);
  }

  /** When a connection is refused, and which (user, address) pairs are tracked and held afterwards. */
  lemma CheckLimitDecides(cfg: Config, s: State, k: string, rawIp: string, tcp: bool, now: int)
    ensures var r, ip := CheckLimit(cfg, s, k, rawIp, tcp, now), NormalizeIp(rawIp);
            && (r.rejected <==>
                k !in s.info ||
                (TracksDevices(cfg, tcp) && !Tracked(s.online, k, ip) && ip !in s.oldOnline &&
                 AtLimit(s, s.info[k].uid, s.info[k].deviceLimit)))
            && (r.rejected ==> r.state == s.(info := r.state.info))
            && (forall k', ip' :: Tracked(r.state.online, k', ip') <==>
                                  Tracked(s.online, k', ip') ||
                                  (!r.rejected && TracksDevices(cfg, tcp) && k' == k && ip' == ip))
            && r.state.oldOnline == if !r.rejected && TracksDevices(cfg, tcp) && !Tracked(s.online, k, ip) &&
                                       ip in s.oldOnline && s.oldOnline[ip] == s.info[k].uid
                                    then s.oldOnline - {ip} else s.oldOnline
  {
    if k in s.info {
      CheckIsGated(cfg, s, k, rawIp, tcp, now);
      GateDecides(cfg, s.(info := UserSpeed(s.info, k, now).0), k, rawIp, tcp, s.info[k]);
    }
  }

  lemma TrackKeepsOwned(s: State, k: string, ip: string)
    requires OnlineOwned(s) && k in s.info
    ensures OnlineOwned(s.(online := Track(s.online, k, ip, s.info[k].uid)))
  {
    var ips := if k in s.online then s.online[k] else map[];
    assert OwnedBy(ips[ip := s.info[k].uid], s.info[k].uid) && ip in ips[ip := s.info[k].uid];
  }

  lemma GateKeepsOwned(cfg: Config, s: State, k: string, rawIp: string, tcp: bool)
    requires OnlineOwned(s) && k in s.info
    ensures var t := Gate(cfg, s, k, rawIp, tcp, s.info[k]).0;
            OnlineOwned(t) && t == s.(online := t.online, oldOnline := t.oldOnline)
  {
    var ip, uid := NormalizeIp(rawIp), s.info[k].uid;
    TrackKeepsOwned(s, k, ip);
    var t := Gate(cfg, s, k, rawIp, tcp, s.info[k]).0;
    assert t.online == s.online || t.online == Track(s.online, k, ip, uid);
  }

  lemma GateKeepsGood(cfg: Config, s: State, k: string, rawIp: string, tcp: bool)
    requires Good(cfg, s) && k in s.info
    ensures var t := Gate(cfg, s, k, rawIp, tcp, s.info[k]).0;
            Good(cfg, t) && t == s.(online := t.online, oldOnline := t.oldOnline)
  {
    GateKeepsOwned(cfg, s, k, rawIp, tcp);
  }

  lemma GrantKeepsOwned(s: State, k: string, rate: int)
    requires OnlineOwned(s)
    ensures OnlineOwned(Grant(s, k, rate).state)
  {}

  lemma CheckKeepsOwned(cfg: Config, s: State, k: string, rawIp: string, tcp: bool, now: int)
    requires Static(s) && OnlineOwned(s)
    ensures OnlineOwned(CheckLimit(cfg, s, k, rawIp, tcp, now).state)
  {
    if k in s.info {
      assert !Expired(s.info[k], now) && s.(info := s.info) == s;
      var (t, rejected) := Gate(cfg, s, k, rawIp, tcp, s.info[k]);
      GateKeepsOwned(cfg, s, k, rawIp, tcp);
      GrantKeepsOwned(t, k, Rate(cfg.speedLimit, UserSpeed(s.info, k, now).1));
    }
  }

  lemma GrantKeepsGood(cfg: Config, s: State, k: string)
    requires Good(cfg, s) && k in s.info
    ensures var t := Grant(s, k, UserRate(cfg, s.info[k])).state;
            Good(cfg, t) && t == s.(rates := t.rates)
  {}

  /** A connection takes no bucket away and gives one to nobody but its own user. */
  lemma CheckKeepsRates(cfg: Config, s: State, k: string, rawIp: string, tcp: bool, now: int)
    ensures var t := CheckLimit(cfg, s, k, rawIp, tcp, now).state;
            s.rates.Keys <= t.rates.Keys <= s.rates.Keys + if k in s.info then {k} else {}
  {
    if k in s.info {
      var t, limit := Gated(cfg, s, k, rawIp, tcp, now).0, UserSpeed(s.info, k, now).1;
      assert t.rates == s.rates;
      GrantRates(t, k, Rate(cfg.speedLimit, limit));
    }
  }

  lemma GrantRates(s: State, k: string, rate: int)
    ensures s.rates.Keys <= Grant(s, k, rate).state.rates.Keys <= s.rates.Keys + {k}
  {}

  /** A connection keeps the rates, whoever owns the addresses. */
  lemma CheckKeepsBuckets(cfg: Config, s: State, k: string, rawIp: string, tcp: bool, now: int)
    requires Static(s) && BucketsExact(cfg, s)
    ensures BucketsExact(cfg, CheckLimit(cfg, s, k, rawIp, tcp, now).state)
  {
    if k in s.info {
      assert !Expired(s.info[k], now) && s.(info := s.info) == s;
      var t := Gate(cfg, s, k, rawIp, tcp, s.info[k]).0;
      assert t.info == s.info && t.rates == s.rates;
    }
  }

  lemma CheckKeepsGood(cfg: Config, s: State, k: string, rawIp: string, tcp: bool, now: int)
    requires Good(cfg, s)
    ensures Good(cfg, CheckLimit(cfg, s, k, rawIp, tcp, now).state)
    ensures var t := CheckLimit(cfg, s, k, rawIp, tcp, now).state;
            t == s.(online := t.online, oldOnline := t.oldOnline, rates := t.rates)
  {
    if k in s.info {
      assert !Expired(s.info[k], now) && s.(info := s.info) == s;
      GateKeepsGood(cfg, s, k, rawIp, tcp);
      GrantKeepsGood(cfg, Gate(cfg, s, k, rawIp, tcp, s.info[k]).0, k);
    }
  }

  /** An admitted connection of a user with a positive rate gets a bucket that runs at exactly that rate. */
  lemma AdmittedAtUserRate(cfg: Config, s: State, k: string, rawIp: string, tcp: bool, now: int)
    requires Static(s) && BucketsExact(cfg, s)
    ensures var r := CheckLimit(cfg, s, k, rawIp, tcp, now);
            && (r.limited <==> !r.rejected && UserRate(cfg, s.info[k]) > 0)
            && (r.limited ==> k in r.state.rates && r.state.rates[k] == UserRate(cfg, s.info[k]))
  {}

  lemma {:induction false} LastSeenKeys(online: OnlineMap, order: VisitOrder)
    requires AllTracked(order, online)
    ensures forall ip :: ip in LastSeen(online, order) <==> exists i :: 0 <= i < |order| && order[i].1 == ip
    ensures forall ip :: ip in LastSeen(online, order) ==>
                           exists i :: 0 <= i < |order| && order[i].1 == ip &&
                                       LastSeen(online, order)[ip] == online[order[i].0][ip]
  {
    if order != [] {
      var init := order[..|order| - 1];
      LastSeenKeys(online, init);
      var seen, all := LastSeen(online, init), LastSeen(online, order);
      var last := order[|order| - 1].1;
      forall ip | ip in all
        ensures exists i :: 0 <= i < |order| && order[i].1 == ip && all[ip] == online[order[i].0][ip]
      {
        if ip == last {
          assert order[|order| - 1].1 == ip;
        } else {
          var i :| 0 <= i < |init| && init[i].1 == ip && seen[ip] == online[init[i].0][ip];
          assert order[i] == init[i];
        }
      }
      forall i | 0 <= i < |order| ensures order[i].1 in all {
        if i < |init| {
          assert init[i] == order[i];
        }
      }
    }
  }

  /** The list names each tracked pair once, and the next generation holds exactly the listed addresses. */
  ghost predicate Seen(online: OnlineMap, ip: string, uid: int) {
    exists k :: Tracked(online, k, ip) && online[k][ip] == uid
  }

  ghost predicate Listed(list: seq<OnlineUser>, ip: string) {
    exists i :: 0 <= i < |list| && list[i].ip == ip
  }

  lemma ReportIsExact(s: State, order: VisitOrder)
    requires Enumerates(order, s.online) && AllTracked(order, s.online)
    ensures var list, next := Listing(s.online, order), Report(s, order).oldOnline;
            && (forall ip :: ip in next <==> Listed(list, ip))
            && (forall ip :: ip in next ==> Seen(s.online, ip, next[ip]))
            && (forall k, ip :: Tracked(s.online, k, ip) ==> OnlineUser(s.online[k][ip], ip) in list && ip in next)
            && (forall u :: u in list ==> Seen(s.online, u.ip, u.uid))
  {
    LastSeenKeys(s.online, order);
    var list, next := Listing(s.online, order), Report(s, order).oldOnline;
    forall k, ip | Tracked(s.online, k, ip) ensures OnlineUser(s.online[k][ip], ip) in list && ip in next {
      var i :| 0 <= i < |order| && order[i] == (k, ip);
      assert list[i] == OnlineUser(s.online[k][ip], ip);
    }
    forall ip | ip in next ensures Seen(s.online, ip, next[ip]) && Listed(list, ip) {
      var i :| 0 <= i < |order| && order[i].1 == ip && next[ip] == s.online[order[i].0][ip];
      assert Tracked(s.online, order[i].0, ip) && list[i].ip == ip;
    }
    forall i | 0 <= i < |list| ensures Seen(s.online, list[i].ip, list[i].uid) && list[i].ip in next {
      assert Tracked(s.online, order[i].0, order[i].1);
    }
  }

  lemma DeleteKeepsGood(cfg: Config, s: State, tag: string, users: seq<UserInfo>)
    requires Good(cfg, s)
    ensures Good(cfg, Delete(s, tag, users))
  {}

  lemma ModifyKeepsGood(cfg: Config, s: State, tag: string, users: seq<UserInfo>)
    requires Good(cfg, s) && KeyIndex(tag, users).Keys <= s.info.Keys
    ensures Good(cfg, Modify(cfg, s, tag, users))
  {
    var index, t := KeyIndex(tag, users), Modify(cfg, s, tag, users);
    assert t.info.Keys == s.info.Keys;
    forall k | k in t.rates ensures k in t.info && t.rates[k] > 0 && t.rates[k] == UserRate(cfg, t.info[k]) {
      if k in index {
        RatesAgree(cfg.speedLimit, index[k].speedLimit);
      }
    }
  }

  lemma AddKeepsGood(cfg: Config, s: State, tag: string, users: seq<UserInfo>)
    requires Good(cfg, s) && KeyIndex(tag, users).Keys !! s.info.Keys
    ensures Good(cfg, Add(s, tag, users))
  {
    var t := Add(s, tag, users);
    assert forall k :: k in s.info ==> k in t.info && t.info[k] == s.info[k];
  }

  /** An update keeps the invariants when it modifies users that stay and adds users that are not known. */
  lemma UpdateKeepsGood(cfg: Config, s: State, tag: string,
                        added: seq<UserInfo>, deleted: seq<UserInfo>, modified: seq<UserInfo>)
    requires Good(cfg, s)
    requires KeyIndex(tag, modified).Keys <= s.info.Keys - KeyIndex(tag, deleted).Keys
    requires KeyIndex(tag, added).Keys !! s.info.Keys
    ensures Good(cfg, UpdateUser(cfg, s, tag, added, deleted, modified))
  {
    var s1 := Delete(s, tag, deleted);
    DeleteKeepsGood(cfg, s, tag, deleted);
    ModifyKeepsGood(cfg, s1, tag, modified);
    AddKeepsGood(cfg, Modify(cfg, s1, tag, modified), tag, added);
  }

  /** Nothing of a deleted user survives an update that does not bring it back, its device count included. */
  lemma DeletedUserIsForgotten(cfg: Config, s: State, tag: string, added: seq<UserInfo>, deleted: seq<UserInfo>,
                               modified: seq<UserInfo>, u: UserInfo)
    requires u in deleted && u.uuid !in Index(added) && u.uuid !in Index(modified)
    ensures var t, k := UpdateUser(cfg, s, tag, added, deleted, modified), UserTag(tag, u.uuid);
            && k !in t.info && k !in t.online && k !in t.rates && u.uuid !in t.uids && AliveCount(t, u.id) == 0
  {
    IndexUuids(deleted);
    KeyIndexAt(tag, added, u.uuid);
    KeyIndexAt(tag, deleted, u.uuid);
    KeyIndexAt(tag, modified, u.uuid);
    assert u.id in (set v | v in deleted :: v.id);
  }
}
