/** What the limiter decides, as functions on the contents of its maps. */
module LimiterSpec {
  import opened Panel
  import opened UserList

  datatype UserLimit = UserLimit(uid: int, speedLimit: int, deviceLimit: int, dynamicSpeedLimit: int, expireTime: int)

  /** The tracked addresses of each user, with the uid they were stored under. */
  type OnlineMap = map<string, map<string, int>>

  /** The order in which a range visits (key, address) pairs. */
  type VisitOrder = seq<(string, string)>

  datatype Config = Config(nodeType: string, speedLimit: int)

  /** `online` holds the addresses of each user since the last report, `oldOnline` those of the report before,
      `rates` the byte rate of each bucket, `alive` the panel's device count of each uid. */
  datatype State = State(
    info: map<string, UserLimit>,
    uids: map<string, int>,
    online: OnlineMap,
    oldOnline: map<string, int>,
    rates: map<string, int>,
    alive: map<int, int>)

  /** The smaller of two limits, where zero means that there is none. */
  function DetermineSpeedLimit(limit1: int, limit2: int): (limit: int)
    ensures limit == limit1 || limit == limit2
    ensures limit1 >= 0 && limit2 >= 0 ==> (limit == 0 <==> limit1 == 0 && limit2 == 0)
    ensures limit > 0 ==> (limit1 == 0 || limit <= limit1) && (limit2 == 0 || limit <= limit2)
  {
    if limit1 == 0 || limit2 == 0 then
      if limit1 > limit2 then limit1 else if limit1 < limit2 then limit2 else 0
    else
      if limit1 > limit2 then limit2 else limit1
  }

  /** Bytes per second for a node limit and a user limit in Mbps; no bucket when it is not positive. */
  function Rate(nodeLimit: int, userLimit: int): int {
    DetermineSpeedLimit(nodeLimit, userLimit) * 1000000 / 8
  }

  function AliveCount(s: State, uid: int): int {
    if uid in s.alive then s.alive[uid] else 0
  }

  // ---- user updates ----

  function Limits(index: map<string, UserInfo>): map<string, UserLimit> {
    map k | k in index :: UserLimit(index[k].id, index[k].speedLimit, index[k].deviceLimit, 0, 0)
  }

  /** The limiter that starting the node builds from a user list. */
  function AddLimiter(tag: string, users: seq<UserInfo>, alive: map<int, int>): State {
    State(Limits(KeyIndex(tag, users)), Ids(Index(users)), map[], map[], map[], alive)
  }

  function Delete(s: State, tag: string, users: seq<UserInfo>): State {
    var keys := KeyIndex(tag, users).Keys;
    s.(info := s.info - keys, online := s.online - keys, rates := s.rates - keys,
       uids := s.uids - Index(users).Keys, alive := s.alive - (set u | u in users :: u.id))
  }

  function ModifyInfo(info: map<string, UserLimit>, index: map<string, UserInfo>): map<string, UserLimit> {
    map k | k in info ::
      if k in index then info[k].(speedLimit := index[k].speedLimit, deviceLimit := index[k].deviceLimit) else info[k]
  }

  function ModifyRates(nodeLimit: int, rates: map<string, int>, index: map<string, UserInfo>): map<string, int> {
    map k | k in rates.Keys + index.Keys && (k in index ==> Rate(nodeLimit, index[k].speedLimit) > 0) ::
      if k in index then Rate(nodeLimit, index[k].speedLimit) else rates[k]
  }

  function Modify(cfg: Config, s: State, tag: string, users: seq<UserInfo>): State {
    var index := KeyIndex(tag, users);
    s.(info := ModifyInfo(s.info, index), rates := ModifyRates(cfg.speedLimit, s.rates, index))
  }

  function Add(s: State, tag: string, users: seq<UserInfo>): State {
    s.(info := s.info + Limits(KeyIndex(tag, users)), uids := s.uids + Ids(Index(users)))
  }

  function UpdateUser(cfg: Config, s: State, tag: string,
                      added: seq<UserInfo>, deleted: seq<UserInfo>, modified: seq<UserInfo>): State {
    Add(Modify(cfg, Delete(s, tag, deleted), tag, modified), tag, added)
  }

  // ---- one connection ----

  const IPV4_MAPPED := "::ffff:"

  function NormalizeIp(ip: string): string {
    if IPV4_MAPPED <= ip then ip[|IPV4_MAPPED|..] else ip
  }

  predicate Tracked(online: OnlineMap, k: string, ip: string) {
    k in online && ip in online[k]
  }

  function Track(online: OnlineMap, k: string, ip: string, uid: int): OnlineMap {
    online[k := (if k in online then online[k] else map[])[ip := uid]]
  }

  predicate AtLimit(s: State, uid: int, deviceLimit: int) {
    0 < deviceLimit <= AliveCount(s, uid)
  }

  /** The device decision on sets: online, returning from the last report, over the limit, or new. */
  function CheckDevice(s: State, k: string, ip: string, uid: int, deviceLimit: int): (State, bool) {
    if Tracked(s.online, k, ip) then (s, false)
    else if ip in s.oldOnline then
      (s.(online := Track(s.online, k, ip, uid),
          oldOnline := if s.oldOnline[ip] == uid then s.oldOnline - {ip} else s.oldOnline), false)
    else if AtLimit(s, uid, deviceLimit) then (s, true)
    else (s.(online := Track(s.online, k, ip, uid)), false)
  }

  predicate Expired(u: UserLimit, now: int) {
    u.expireTime != 0 && u.expireTime < now
  }

  /** The user's speed limit, and the record left behind when its expiry has passed. */
  function UserSpeed(info: map<string, UserLimit>, k: string, now: int): (map<string, UserLimit>, int)
    requires k in info
  {
    var u := info[k];
    if !Expired(u, now) then (info, DetermineSpeedLimit(u.speedLimit, u.dynamicSpeedLimit))
    else if u.speedLimit != 0 then (info[k := u.(dynamicSpeedLimit := 0, expireTime := 0)], u.speedLimit)
    else (info - {k}, 0)
  }

  predicate TracksDevices(cfg: Config, tcp: bool) {
    tcp || cfg.nodeType == "hysteria2" || cfg.nodeType == "tuic"
  }

  /** The new state, whether the connection is refused, and whether it gets a bucket. */
  datatype Outcome = Outcome(state: State, rejected: bool, limited: bool)

  function Gate(cfg: Config, s: State, k: string, rawIp: string, tcp: bool, u: UserLimit): (State, bool) {
    if TracksDevices(cfg, tcp) then CheckDevice(s, k, NormalizeIp(rawIp), u.uid, u.deviceLimit) else (s, false)
  }

  /** The bucket of an admitted connection is made on first use. */
  function Grant(s: State, k: string, rate: int): Outcome {
    if rate <= 0 then Outcome(s, false, false)
    else Outcome(if k in s.rates then s else s.(rates := s.rates[k := rate]), false, true)
  }

  function CheckLimit(cfg: Config, s: State, k: string, rawIp: string, tcp: bool, now: int): Outcome {
    if k !in s.info then Outcome(s, true, false)
    else
      var (info, userLimit) := UserSpeed(s.info, k, now);
      var (gated, rejected) := Gate(cfg, s.(info := info), k, rawIp, tcp, s.info[k]);
      if rejected then Outcome(gated, true, false) else Grant(gated, k, Rate(cfg.speedLimit, userLimit))
  }

  // ---- one report ----

  /** `order` lists every tracked (key, address) pair exactly once. */
  ghost predicate Enumerates(order: VisitOrder, online: OnlineMap) {
    && (forall i, j :: 0 <= i < j < |order| ==> order[i] != order[j])
    && (forall k, ip :: (k, ip) in order <==> Tracked(online, k, ip))
  }

  ghost predicate AllTracked(order: VisitOrder, online: OnlineMap) {
    forall i :: 0 <= i < |order| ==> Tracked(online, order[i].0, order[i].1)
  }

  ghost function Listing(online: OnlineMap, order: VisitOrder): (list: seq<OnlineUser>)
    requires AllTracked(order, online)
    ensures |list| == |order|
  {
    seq(|order|, i requires 0 <= i < |order| => OnlineUser(online[order[i].0][order[i].1], order[i].1))
  }

  /** The uid last written for each address when the pairs are visited in this order. */
  ghost function LastSeen(online: OnlineMap, order: VisitOrder): map<string, int>
    requires AllTracked(order, online)
  {
    if order == [] then map[]
    else
      var (k, ip) := order[|order| - 1];
      LastSeen(online, order[..|order| - 1])[ip := online[k][ip]]
  }

  ghost function Report(s: State, order: VisitOrder): State
    requires AllTracked(order, s.online)
  {
    s.(online := map[], oldOnline := LastSeen(s.online, order))
  }
}

/** The mutable limiter. */
module Limiter {
  import opened Panel
  import opened UserList
  import opened LimiterSpec

  /** A rate cell shared by the limiter and by every writer that was handed it. */
  class DynamicBucket {
    var rate: int

    constructor (rate: int)
      ensures this.rate == rate
    {
      this.rate := rate;
    }

    method Update(rate: int)
      modifies this
      ensures this.rate == rate
    {
      this.rate := rate;
    }
  }

  class Limiter {
    const nodeType: string
    const speedLimit: int
    var userOnlineIP: OnlineMap
    var oldUserOnline: map<string, int>
    var uuidToUid: map<string, int>
    var userLimitInfo: map<string, UserLimit>
    var speedLimiter: map<string, DynamicBucket>
    var aliveList: map<int, int>

    ghost function Cfg(): Config {
      Config(nodeType, speedLimit)
    }

    ghost function Buckets(): set<DynamicBucket>
      reads this`speedLimiter
    {
      set k | k in speedLimiter :: speedLimiter[k]
    }

    /** No two users share a bucket. */
    ghost predicate Valid()
      reads this`speedLimiter
    {
      forall k1, k2 :: k1 in speedLimiter && k2 in speedLimiter && k1 != k2 ==> speedLimiter[k1] != speedLimiter[k2]
    }

    ghost function Rates(): map<string, int>
      reads this`speedLimiter, Buckets()
    {
      map k | k in speedLimiter :: speedLimiter[k].rate
    }

    ghost function View(): State
      reads this, Buckets()
    {
      State(userLimitInfo, uuidToUid, userOnlineIP, oldUserOnline, Rates(), aliveList)
    }

    /** Builds the limiter of a node that starts with this user list. */
    constructor AddLimiter(nodeType: string, speedLimit: int, tag: string, users: seq<UserInfo>,
                           aliveList: map<int, int>)
      ensures Valid() && Cfg() == Config(nodeType, speedLimit) && speedLimiter == map[]
      ensures View() == LimiterSpec.AddLimiter(tag, users, aliveList)
    {
      this.nodeType, this.speedLimit := nodeType, speedLimit;
      userOnlineIP, oldUserOnline, uuidToUid, userLimitInfo, speedLimiter := map[], map[], map[], map[], map[];
      this.aliveList := aliveList;
      new;
      AddUsers(tag, users);
      assert map[] + Limits(KeyIndex(tag, users)) == Limits(KeyIndex(tag, users));
      assert map[] + Ids(Index(users)) == Ids(Index(users));
    }

    method DeleteUsers(tag: string, deleted: seq<UserInfo>)
      requires Valid()
      modifies this
      ensures Valid() && View() == Delete(old(View()), tag, deleted)
      ensures speedLimiter == old(speedLimiter) - KeyIndex(tag, deleted).Keys
    {
      ghost var was, buckets := View(), speedLimiter;
      for i := 0 to |deleted|
        invariant speedLimiter == buckets - KeyIndex(tag, deleted[..i]).Keys
        invariant View() == Delete(was, tag, deleted[..i])
      {
        DeleteStep(was, tag, deleted[..i], deleted[i]);
        assert deleted[..i + 1] == deleted[..i] + [deleted[i]];
        MinusStep(buckets, KeyIndex(tag, deleted[..i]).Keys, UserTag(tag, deleted[i].uuid));
        DeleteOne(tag, deleted[i]);
      }
      assert deleted[..|deleted|] == deleted;
    }

    method DeleteOne(tag: string, u: UserInfo)
      modifies this
      ensures View() == DeleteLast(old(View()), tag, u)
      ensures speedLimiter == old(speedLimiter) - {UserTag(tag, u.uuid)}
    {
      var k := UserTag(tag, u.uuid);
      userLimitInfo := userLimitInfo - {k};
      userOnlineIP := userOnlineIP - {k};
      speedLimiter := speedLimiter - {k};
      uuidToUid := uuidToUid - {u.uuid};
      aliveList := aliveList - {u.id};
      assert Rates() == old(Rates()) - {k};
    }

    /** A bucket survives, as the same object, unless some record takes the user's limit away. */
    method ModifyUsers(tag: string, modified: seq<UserInfo>)
      requires Valid()
      modifies this`userLimitInfo, this`speedLimiter, Buckets()
      ensures Valid() && View() == Modify(Cfg(), old(View()), tag, modified)
      ensures fresh(Buckets() - old(Buckets()))
      ensures forall k :: k in old(speedLimiter) && KeepsLimit(speedLimit, tag, modified, k) ==>
                            k in speedLimiter && speedLimiter[k] == old(speedLimiter[k])
    {
      ghost var was, buckets := View(), speedLimiter;
      ghost var kept := set k | k in buckets && KeepsLimit(speedLimit, tag, modified, k);
      for i := 0 to |modified|
        invariant Valid() && View() == Modify(Cfg(), was, tag, modified[..i])
        invariant fresh(Buckets() - old(Buckets()))
        invariant forall k :: k in kept ==> k in speedLimiter && speedLimiter[k] == buckets[k]
      {
        var u := modified[i];
        ModifyStep(Cfg(), was, tag, modified[..i], u);
        assert modified[..i + 1] == modified[..i] + [u];
        assert UserTag(tag, u.uuid) in kept ==> Rate(speedLimit, u.speedLimit) > 0;
        ModifyOne(tag, u);
      }
      assert modified[..|modified|] == modified;
    }

    method ModifyOne(tag: string, u: UserInfo)
      requires Valid()
      modifies this`userLimitInfo, this`speedLimiter, Buckets()
      ensures Valid() && View() == ModifyLast(Cfg(), old(View()), tag, u)
      ensures fresh(Buckets() - old(Buckets()))
      ensures forall k :: k in old(speedLimiter) &&
                            (k == UserTag(tag, u.uuid) ==> Rate(speedLimit, u.speedLimit) > 0) ==>
                            k in speedLimiter && speedLimiter[k] == old(speedLimiter[k])
    {
      var k := UserTag(tag, u.uuid);
      if k in userLimitInfo {
        var info := userLimitInfo[k].(speedLimit := u.speedLimit, deviceLimit := u.deviceLimit);
        userLimitInfo := userLimitInfo[k := info];
      }
      SetRate(k, Rate(speedLimit, u.speedLimit));
    }

    /** Updates the bucket in place, makes it, or takes it away. */
    method SetRate(k: string, limit: int)
      requires Valid()
      modifies this`speedLimiter, Buckets()
      ensures Valid() && Rates() == if limit > 0 then old(Rates())[k := limit] else old(Rates()) - {k}
      ensures fresh(Buckets() - old(Buckets()))
      ensures forall k' :: k' in old(speedLimiter) && (k' == k ==> limit > 0) ==>
                             k' in speedLimiter && speedLimiter[k'] == old(speedLimiter[k'])
    {
      if limit > 0 {
        if k in speedLimiter {
          speedLimiter[k].Update(limit);
        } else {
          var d := new DynamicBucket(limit);
          speedLimiter := speedLimiter[k := d];
        }
      } else {
        speedLimiter := speedLimiter - {k};
      }
    }

    method AddUsers(tag: string, added: seq<UserInfo>)
      modifies this`userLimitInfo, this`uuidToUid
      ensures View() == Add(old(View()), tag, added)
    {
      ghost var was := View();
      for i := 0 to |added|
        invariant View() == Add(was, tag, added[..i])
      {
        AddStep(was, tag, added[..i], added[i]);
        assert added[..i + 1] == added[..i] + [added[i]];
        AddOne(tag, added[i]);
      }
      assert added[..|added|] == added;
    }

    method AddOne(tag: string, u: UserInfo)
      modifies this`userLimitInfo, this`uuidToUid
      ensures View() == AddLast(old(View()), tag, u)
    {
      userLimitInfo := userLimitInfo[UserTag(tag, u.uuid) := UserLimit(u.id, u.speedLimit, u.deviceLimit, 0, 0)];
      uuidToUid := uuidToUid[u.uuid := u.id];
    }

    /** A limit that stays positive keeps its bucket object, so the writers holding it see the new rate. */
    method UpdateUser(tag: string, added: seq<UserInfo>, deleted: seq<UserInfo>, modified: seq<UserInfo>)
      requires Valid()
      modifies this, Buckets()
      ensures Valid() && View() == LimiterSpec.UpdateUser(Cfg(), old(View()), tag, added, deleted, modified)
      ensures fresh(Buckets() - old(Buckets()))
      ensures forall k :: k in old(speedLimiter) && k !in KeyIndex(tag, deleted) &&
                            KeepsLimit(speedLimit, tag, modified, k) ==>
                            k in speedLimiter && speedLimiter[k] == old(speedLimiter[k])
    {
      DeleteUsers(tag, deleted);
      ModifyUsers(tag, modified);
      AddUsers(tag, added);
    }

    /** Admits or refuses one connection; an admitted connection of a limited user gets the user's bucket. */
    method CheckLimit(taguuid: string, rawIp: string, noUDPsource: bool, now: int)
      returns (bucket: DynamicBucket?, reject: bool)
      requires Valid()
      modifies this
      ensures Valid()
      ensures var r := LimiterSpec.CheckLimit(Cfg(), old(View()), taguuid, rawIp, noUDPsource, now);
              View() == r.state && reject == r.rejected && (bucket != null <==> r.limited)
      ensures bucket != null ==> taguuid in speedLimiter && bucket == speedLimiter[taguuid]
      ensures forall k :: k in old(speedLimiter) ==> k in speedLimiter && speedLimiter[k] == old(speedLimiter[k])
      ensures fresh(Buckets() - old(Buckets()))
    {
      if taguuid !in userLimitInfo {
        return null, true;
      }
      ghost var s0 := View();
      var u := userLimitInfo[taguuid];
      var userLimit := SpeedFor(taguuid, now);
      assert View() == s0.(info := UserSpeed(s0.info, taguuid, now).0);
      var refused := GateDevice(taguuid, rawIp, noUDPsource, u);
      if refused {
        return null, true;
      }
      bucket := BucketFor(taguuid, Rate(speedLimit, userLimit));
      reject := false;
    }

    method SpeedFor(taguuid: string, now: int) returns (userLimit: int)
      requires taguuid in userLimitInfo
      modifies this`userLimitInfo
      ensures (userLimitInfo, userLimit) == UserSpeed(old(userLimitInfo), taguuid, now)
    {
      var u := userLimitInfo[taguuid];
      if u.expireTime < now && u.expireTime != 0 {
        if u.speedLimit != 0 {
          userLimit := u.speedLimit;
          userLimitInfo := userLimitInfo[taguuid := u.(dynamicSpeedLimit := 0, expireTime := 0)];
        } else {
          userLimit := 0;
          userLimitInfo := userLimitInfo - {taguuid};
        }
      } else {
        userLimit := DetermineSpeedLimit(u.speedLimit, u.dynamicSpeedLimit);
      }
    }

    method GateDevice(taguuid: string, rawIp: string, noUDPsource: bool, u: UserLimit) returns (reject: bool)
      modifies this`userOnlineIP, this`oldUserOnline
      ensures (View(), reject) == Gate(Cfg(), old(View()), taguuid, rawIp, noUDPsource, u)
    {
      var ip := if IPV4_MAPPED <= rawIp then rawIp[|IPV4_MAPPED|..] else rawIp;
      reject := false;
      if noUDPsource || nodeType == "hysteria2" || nodeType == "tuic" {
        reject := CheckDevice(taguuid, ip, u.uid, u.deviceLimit);
      }
    }

    method BucketFor(taguuid: string, limit: int) returns (bucket: DynamicBucket?)
      requires Valid()
      modifies this`speedLimiter
      ensures Valid()
      ensures Outcome(View(), false, bucket != null) == Grant(old(View()), taguuid, limit)
      ensures bucket != null ==> taguuid in speedLimiter && bucket == speedLimiter[taguuid]
      ensures forall k :: k in old(speedLimiter) ==> k in speedLimiter && speedLimiter[k] == old(speedLimiter[k])
      ensures fresh(Buckets() - old(Buckets()))
    {
      if limit <= 0 {
        return null;
      }
      if taguuid !in speedLimiter {
        var d := new DynamicBucket(limit);
        speedLimiter := speedLimiter[taguuid := d];
        assert Rates() == old(Rates())[taguuid := limit];
      }
      return speedLimiter[taguuid];
    }

    /** The two load-or-store branches: each stores first and rolls its own store back when it refuses. */
    method CheckDevice(taguuid: string, ip: string, uid: int, deviceLimit: int) returns (reject: bool)
      modifies this`userOnlineIP, this`oldUserOnline
      ensures (View(), reject) == LimiterSpec.CheckDevice(old(View()), taguuid, ip, uid, deviceLimit)
    {
      var aliveIp := if uid in aliveList then aliveList[uid] else 0;
      if taguuid in userOnlineIP {
        var oldipMap := userOnlineIP[taguuid];
        if ip !in oldipMap {
          userOnlineIP := userOnlineIP[taguuid := oldipMap[ip := uid]];
          if ip in oldUserOnline {
            if oldUserOnline[ip] == uid {
              oldUserOnline := oldUserOnline - {ip};
            }
          } else if deviceLimit > 0 && deviceLimit <= aliveIp {
            userOnlineIP := userOnlineIP[taguuid := userOnlineIP[taguuid] - {ip}];
            assert userOnlineIP[taguuid] == oldipMap;
            assert userOnlineIP == old(userOnlineIP);
            return true;
          }
        }
      } else {
        userOnlineIP := userOnlineIP[taguuid := map[][ip := uid]];
        if ip in oldUserOnline {
          if oldUserOnline[ip] == uid {
            oldUserOnline := oldUserOnline - {ip};
          }
        } else if deviceLimit > 0 && deviceLimit <= aliveIp {
          userOnlineIP := userOnlineIP - {taguuid};
          assert userOnlineIP == old(userOnlineIP);
          return true;
        }
      }
      ghost var spec := LimiterSpec.CheckDevice(old(View()), taguuid, ip, uid, deviceLimit);
      assert spec.0.online == userOnlineIP;
      assert Rates() == old(Rates());
      return false;
    }

    /** The inner range over the addresses of one user. */
    method VisitUser(k: string, ghost was: OnlineMap, todo: OnlineMap,
                     list: seq<OnlineUser>, ghost order0: VisitOrder)
      returns (onlineUser: seq<OnlineUser>, ghost order: VisitOrder)
      requires k in todo && Remains(was, todo) && Visited(order0, was, todo) && AllTracked(order0, was)
      requires list == Listing(was, order0) && oldUserOnline == LastSeen(was, order0)
      modifies this`oldUserOnline
      ensures Visited(order, was, todo[k := map[]]) && AllTracked(order, was)
      ensures onlineUser == Listing(was, order) && oldUserOnline == LastSeen(was, order)
    {
      onlineUser, order := list, order0;
      var ips := todo[k];
      assert todo[k := ips] == todo;
      while ips != map[]
        invariant ips.Keys <= was[k].Keys && (forall ip :: ip in ips ==> ips[ip] == was[k][ip])
        invariant Visited(order, was, todo[k := ips]) && AllTracked(order, was)
        invariant onlineUser == Listing(was, order) && oldUserOnline == LastSeen(was, order)
        decreases ips.Keys
      {
        var ip :| ip in ips;
        VisitOne(order, was, todo[k := ips], k, ip);
        assert todo[k := ips][k := ips - {ip}] == todo[k := ips - {ip}];
        oldUserOnline := oldUserOnline[ip := ips[ip]];
        onlineUser := onlineUser + [OnlineUser(ips[ip], ip)];
        order := order + [(k, ip)];
        ips := ips - {ip};
      }
    }

    /** Lists every tracked pair once, makes the list the previous generation and starts an empty one. */
    method GetOnlineDevice() returns (onlineUser: seq<OnlineUser>, ghost order: VisitOrder)
      modifies this`userOnlineIP, this`oldUserOnline
      ensures Enumerates(order, old(userOnlineIP))
      ensures AllTracked(order, old(userOnlineIP)) && onlineUser == Listing(old(userOnlineIP), order)
      ensures View() == Report(old(View()), order)
    {
      ghost var was := userOnlineIP;
      onlineUser, order := [], [];
      oldUserOnline := map[];
      var todo := userOnlineIP;
      while todo != map[]
        invariant todo == userOnlineIP && Remains(was, todo)
        invariant Visited(order, was, todo) && AllTracked(order, was)
        invariant onlineUser == Listing(was, order) && oldUserOnline == LastSeen(was, order)
        decreases todo.Keys
      {
        var k :| k in todo;
        onlineUser, order := VisitUser(k, was, todo, onlineUser, order);
        VisitDone(order, was, todo, k);
        userOnlineIP := userOnlineIP - {k};
        todo := todo - {k};
      }
    }
  }

  /** What one deleted record does on top of those before it. */
  ghost function DeleteLast(s: State, tag: string, u: UserInfo): State {
    var k := UserTag(tag, u.uuid);
    s.(info := s.info - {k}, online := s.online - {k}, rates := s.rates - {k},
       uids := s.uids - {u.uuid}, alive := s.alive - {u.id})
  }

  /** What one modified record does on top of those before it. */
  ghost function ModifyLast(cfg: Config, s: State, tag: string, u: UserInfo): State {
    var k, rate := UserTag(tag, u.uuid), Rate(cfg.speedLimit, u.speedLimit);
    s.(info := if k in s.info then s.info[k := s.info[k].(speedLimit := u.speedLimit, deviceLimit := u.deviceLimit)]
               else s.info,
       rates := if rate > 0 then s.rates[k := rate] else s.rates - {k})
  }

  /** What one added record does on top of those before it. */
  ghost function AddLast(s: State, tag: string, u: UserInfo): State {
    s.(info := s.info[UserTag(tag, u.uuid) := UserLimit(u.id, u.speedLimit, u.deviceLimit, 0, 0)],
       uids := s.uids[u.uuid := u.id])
  }

  lemma MinusStep<V>(m: map<string, V>, keys: set<string>, k: string)
    ensures m - (keys + {k}) == (m - keys) - {k}
  {}

  lemma DeleteStep(s: State, tag: string, users: seq<UserInfo>, u: UserInfo)
    ensures var k, d := UserTag(tag, u.uuid), Delete(s, tag, users);
            && KeyIndex(tag, users + [u]).Keys == KeyIndex(tag, users).Keys + {k}
            && Delete(s, tag, users + [u]) == DeleteLast(d, tag, u)
  {
    IndexStep(tag, users, u);
    var k, keys, uuids := UserTag(tag, u.uuid), KeyIndex(tag, users).Keys, Index(users).Keys;
    assert KeyIndex(tag, users + [u]).Keys == keys + {k} && Index(users + [u]).Keys == uuids + {u.uuid};
    MinusStep(s.info, keys, k);
    MinusStep(s.online, keys, k);
    MinusStep(s.rates, keys, k);
    MinusStep(s.uids, uuids, u.uuid);
    AliveStep(s.alive, users, u);
  }

  lemma AliveStep(alive: map<int, int>, users: seq<UserInfo>, u: UserInfo)
    ensures alive - (set v | v in users + [u] :: v.id) == (alive - (set v | v in users :: v.id)) - {u.id}
  {
    assert (set v | v in users + [u] :: v.id) == (set v | v in users :: v.id) + {u.id};
  }

  lemma LimitsStep(info: map<string, UserLimit>, index: map<string, UserInfo>, k: string, u: UserInfo)
    ensures info + Limits(index[k := u]) ==
            (info + Limits(index))[k := UserLimit(u.id, u.speedLimit, u.deviceLimit, 0, 0)]
  {}

  lemma IdsStep(uids: map<string, int>, index: map<string, UserInfo>, k: string, u: UserInfo)
    ensures uids + Ids(index[k := u]) == (uids + Ids(index))[k := u.id]
  {}

  lemma AddStep(s: State, tag: string, users: seq<UserInfo>, u: UserInfo)
    ensures Add(s, tag, users + [u]) == AddLast(Add(s, tag, users), tag, u)
  {
    IndexStep(tag, users, u);
    LimitsStep(s.info, KeyIndex(tag, users), UserTag(tag, u.uuid), u);
    IdsStep(s.uids, Index(users), u.uuid, u);
  }

  lemma ModifyInfoStep(info: map<string, UserLimit>, index: map<string, UserInfo>, k: string, u: UserInfo)
    ensures var m := ModifyInfo(info, index);
            ModifyInfo(info, index[k := u]) ==
            if k in m then m[k := m[k].(speedLimit := u.speedLimit, deviceLimit := u.deviceLimit)] else m
  {}

  lemma ModifyRatesAt(nodeLimit: int, rates: map<string, int>, index: map<string, UserInfo>, k: string, u: UserInfo,
                      x: string)
    ensures var m, l := ModifyRates(nodeLimit, rates, index), ModifyRates(nodeLimit, rates, index[k := u]);
            && (x in l <==> if x == k then Rate(nodeLimit, u.speedLimit) > 0 else x in m)
            && (x in l ==> l[x] == if x == k then Rate(nodeLimit, u.speedLimit) else m[x])
  {}

  lemma ModifyRatesStep(nodeLimit: int, rates: map<string, int>, index: map<string, UserInfo>, k: string, u: UserInfo)
    ensures var m, rate := ModifyRates(nodeLimit, rates, index), Rate(nodeLimit, u.speedLimit);
            ModifyRates(nodeLimit, rates, index[k := u]) == if rate > 0 then m[k := rate] else m - {k}
  {
    var m, rate := ModifyRates(nodeLimit, rates, index), Rate(nodeLimit, u.speedLimit);
    var l, r := ModifyRates(nodeLimit, rates, index[k := u]), if rate > 0 then m[k := rate] else m - {k};
    forall x ensures (x in l <==> x in r) && (x in l ==> l[x] == r[x]) {
      ModifyRatesAt(nodeLimit, rates, index, k, u, x);
    }
  }

  lemma ModifyStep(cfg: Config, s: State, tag: string, users: seq<UserInfo>, u: UserInfo)
    ensures Modify(cfg, s, tag, users + [u]) == ModifyLast(cfg, Modify(cfg, s, tag, users), tag, u)
  {
    var k, index := UserTag(tag, u.uuid), KeyIndex(tag, users);
    IndexStep(tag, users, u);
    ModifyInfoStep(s.info, index, k, u);
    ModifyRatesStep(cfg.speedLimit, s.rates, index, k, u);
  }

  ghost predicate KeepsLimit(nodeLimit: int, tag: string, users: seq<UserInfo>, k: string) {
    forall i :: 0 <= i < |users| && UserTag(tag, users[i].uuid) == k ==> Rate(nodeLimit, users[i].speedLimit) > 0
  }

  ghost predicate Remains(was: OnlineMap, todo: OnlineMap) {
    forall k :: k in todo ==> k in was && todo[k] == was[k]
  }

  /** `order` holds, once each, the tracked pairs that are no longer in `todo`. */
  ghost predicate Visited(order: VisitOrder, was: OnlineMap, todo: OnlineMap) {
    && (forall i, j :: 0 <= i < j < |order| ==> order[i] != order[j])
    && (forall k, ip :: (k, ip) in order <==> Tracked(was, k, ip) && !Tracked(todo, k, ip))
  }

  lemma VisitOne(order: VisitOrder, was: OnlineMap, todo: OnlineMap, k: string, ip: string)
    requires Visited(order, was, todo) && Tracked(todo, k, ip) && Tracked(was, k, ip) && AllTracked(order, was)
    ensures Visited(order + [(k, ip)], was, todo[k := todo[k] - {ip}]) && AllTracked(order + [(k, ip)], was)
    ensures Listing(was, order + [(k, ip)]) == Listing(was, order) + [OnlineUser(was[k][ip], ip)]
    ensures LastSeen(was, order + [(k, ip)]) == LastSeen(was, order)[ip := was[k][ip]]
  {
    assert (k, ip) !in order;
    assert (order + [(k, ip)])[..|order|] == order;
    forall k', ip' ensures (k', ip') in order + [(k, ip)] <==>
                           Tracked(was, k', ip') && !Tracked(todo[k := todo[k] - {ip}], k', ip')
    {
      assert (k', ip') in order + [(k, ip)] <==> (k', ip') in order || (k', ip') == (k, ip);
    }
  }

  lemma VisitDone(order: VisitOrder, was: OnlineMap, todo: OnlineMap, k: string)
    requires k in todo && Visited(order, was, todo[k := map[]])
    ensures Visited(order, was, todo - {k})
  {
    forall k', ip' ensures Tracked(todo - {k}, k', ip') <==> Tracked(todo[k := map[]], k', ip') {}
  }
}
