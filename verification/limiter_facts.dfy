/** What the limiter does, told by the fields of its state alone. */
module LimiterFacts {
  import opened Panel
  import opened UserList
  import opened LimiterSpec

  // ---- one connection ----

  /** The address itself, or its IPv4-mapped form. */
  predicate Writes(rawIp: string, ip: string) {
    rawIp == "::ffff:" + ip || (rawIp == ip && !("::ffff:" <= ip))
  }

  lemma MappedIsPlain(rawIp: string, ip: string)
    requires Writes(rawIp, ip)
    ensures NormalizeIp(rawIp) == ip
  {
    if rawIp == "::ffff:" + ip {
      assert rawIp[7..] == ip;
    }
  }

  lemma GateTouchesDevices(cfg: Config, s: State, k: string, rawIp: string, tcp: bool, u: UserLimit)
    ensures var t := Gate(cfg, s, k, rawIp, tcp, u).0;
            t.info == s.info && t.uids == s.uids && t.rates == s.rates && t.alive == s.alive
  {}

  /** The parts a connection's outcome is made of. */
  lemma CheckParts(cfg: Config, s: State, k: string, rawIp: string, tcp: bool, now: int)
    requires k in s.info
    ensures var r, s1 := CheckLimit(cfg, s, k, rawIp, tcp, now), s.(info := UserSpeed(s.info, k, now).0);
            var (t, rejected) := Gate(cfg, s1, k, rawIp, tcp, s.info[k]);
            && r.rejected == rejected && r.state.info == s1.info && r.state.uids == s.uids && r.state.alive == s.alive
            && r.state.online == t.online && r.state.oldOnline == t.oldOnline
  {
    GateTouchesDevices(cfg, s.(info := UserSpeed(s.info, k, now).0), k, rawIp, tcp, s.info[k]);
  }

  /** A TCP connection, or one on a node whose protocol runs over UDP. */
  predicate Counts(cfg: Config, tcp: bool) {
    tcp || cfg.nodeType in {"hysteria2", "tuic"}
  }

  /** A known user's new address that the last report does not name is refused exactly when the user has a device limit
      and the panel counts at least that many devices; refusing leaves no trace. */
  lemma RefusedExactlyAtLimit(cfg: Config, s: State, k: string, rawIp: string, ip: string, tcp: bool, now: int)
    requires k in s.info && Counts(cfg, tcp) && Writes(rawIp, ip)
    ensures var u, r := s.info[k], CheckLimit(cfg, s, k, rawIp, tcp, now);
            && (r.rejected <==>
                !(k in s.online && ip in s.online[k]) && ip !in s.oldOnline &&
                0 < u.deviceLimit && u.uid in s.alive && u.deviceLimit <= s.alive[u.uid])
            && (r.rejected ==> r.state.online == s.online && r.state.oldOnline == s.oldOnline)
  {
    MappedIsPlain(rawIp, ip);
  }

  /** Users the limiter does not know are refused and leave no trace at all. */
  lemma StrangersAreRefused(cfg: Config, s: State, k: string, rawIp: string, tcp: bool, now: int)
    requires k !in s.info
    ensures CheckLimit(cfg, s, k, rawIp, tcp, now).rejected && CheckLimit(cfg, s, k, rawIp, tcp, now).state == s
  {}

  /** UDP connections of other protocols are never refused for their address and are not tracked. */
  lemma UdpIsNotTracked(cfg: Config, s: State, k: string, rawIp: string, now: int)
    requires k in s.info && !Counts(cfg, false)
    ensures var r := CheckLimit(cfg, s, k, rawIp, false, now);
            !r.rejected && r.state.online == s.online && r.state.oldOnline == s.oldOnline
  {}

  /** An admitted address is filed under its user and uid, and takes the entry of the last report along if that stands
      for the same uid; nothing else is touched. */
  lemma AdmittedIsTracked(cfg: Config, s: State, k: string, rawIp: string, ip: string, tcp: bool, now: int)
    requires k in s.info && Counts(cfg, tcp) && Writes(rawIp, ip)
    requires !CheckLimit(cfg, s, k, rawIp, tcp, now).rejected
    ensures var t, uid := CheckLimit(cfg, s, k, rawIp, tcp, now).state, s.info[k].uid;
            && t.uids == s.uids && t.alive == s.alive
            && if k in s.online && ip in s.online[k] then t.online == s.online && t.oldOnline == s.oldOnline
               else
                 && t.online == s.online[k := (if k in s.online then s.online[k] else map[])[ip := uid]]
                 && t.oldOnline == if ip in s.oldOnline && s.oldOnline[ip] == uid then s.oldOnline - {ip}
                                   else s.oldOnline
  {
    MappedIsPlain(rawIp, ip);
    CheckParts(cfg, s, k, rawIp, tcp, now);
    DeviceAdmits(s.(info := UserSpeed(s.info, k, now).0), k, ip, s.info[k].uid, s.info[k].deviceLimit);
  }

  lemma DeviceAdmits(s: State, k: string, ip: string, uid: int, deviceLimit: int)
    requires !CheckDevice(s, k, ip, uid, deviceLimit).1
    ensures var t := CheckDevice(s, k, ip, uid, deviceLimit).0;
            if k in s.online && ip in s.online[k] then t.online == s.online && t.oldOnline == s.oldOnline
            else
              && t.online == s.online[k := (if k in s.online then s.online[k] else map[])[ip := uid]]
              && t.oldOnline == if ip in s.oldOnline && s.oldOnline[ip] == uid then s.oldOnline - {ip} else s.oldOnline
  {}

  /** No connection touches uids, device counts or the records of other users. */
  lemma ConnectionsTouchNoCounts(cfg: Config, s: State, k: string, rawIp: string, tcp: bool, now: int)
    ensures var t := CheckLimit(cfg, s, k, rawIp, tcp, now).state;
            && t.uids == s.uids && t.alive == s.alive
            && (forall k' :: k' != k ==> (k' in t.info <==> k' in s.info) &&
                                         (k' in t.info ==> t.info[k'] == s.info[k']))
  {
    if k in s.info {
      CheckParts(cfg, s, k, rawIp, tcp, now);
    }
  }

  // ---- speed ----

  /** The smallest of the limits that are set, or zero when none is. */
  predicate IsLeastSet(least: int, limits: seq<int>) {
    if least == 0 then forall i :: 0 <= i < |limits| ==> limits[i] == 0
    else least in limits && forall i :: 0 <= i < |limits| && limits[i] != 0 ==> least <= limits[i]
  }

  lemma LeastOfTwo(a: int, b: int)
    requires a >= 0 && b >= 0
    ensures IsLeastSet(DetermineSpeedLimit(a, b), [a, b]) && DetermineSpeedLimit(a, b) >= 0
  {
    var limits := [a, b];
    assert limits[0] == a && limits[1] == b;
  }

  /** Megabits per second become bytes per second. */
  lemma RateInBytes(nodeLimit: int, userLimit: int)
    requires nodeLimit >= 0 && userLimit >= 0
    ensures exists least: int ::
              IsLeastSet(least, [nodeLimit, userLimit]) && Rate(nodeLimit, userLimit) == 125000 * least
  {
    LeastOfTwo(nodeLimit, userLimit);
    var least := DetermineSpeedLimit(nodeLimit, userLimit);
    assert least * 1000000 / 8 == 125000 * least;
  }

  /** The limits that count for a user now: a dynamic limit whose time has passed does not. */
  function LimitsNow(cfg: Config, u: UserLimit, now: int): seq<int> {
    if u.expireTime != 0 && u.expireTime < now then [cfg.speedLimit, u.speedLimit]
    else [cfg.speedLimit, u.speedLimit, u.dynamicSpeedLimit]
  }

  /** An admitted connection runs under a bucket exactly when some limit is set; a bucket made for it runs at the least
      limit that is set, an existing one is left as it is, and no other bucket is touched. */
  lemma BucketIsGranted(cfg: Config, s: State, k: string, rawIp: string, tcp: bool, now: int)
    requires k in s.info && !CheckLimit(cfg, s, k, rawIp, tcp, now).rejected
    requires cfg.speedLimit >= 0 && s.info[k].speedLimit >= 0 && s.info[k].dynamicSpeedLimit >= 0
    ensures var r := CheckLimit(cfg, s, k, rawIp, tcp, now);
            exists least: int ::
              && IsLeastSet(least, LimitsNow(cfg, s.info[k], now))
              && (r.limited <==> least > 0)
              && r.state.rates == if least > 0 && k !in s.rates then s.rates[k := 125000 * least] else s.rates
  {
    var u, limit := s.info[k], UserSpeed(s.info, k, now).1;
    var s1 := s.(info := UserSpeed(s.info, k, now).0);
    GateTouchesDevices(cfg, s1, k, rawIp, tcp, u);
    GrantsLeast(cfg, Gate(cfg, s1, k, rawIp, tcp, u).0, k, u, limit, now);
  }

  lemma GrantsLeast(cfg: Config, s: State, k: string, u: UserLimit, limit: int, now: int)
    requires cfg.speedLimit >= 0 && u.speedLimit >= 0 && u.dynamicSpeedLimit >= 0
    requires limit == UserSpeed(map[k := u], k, now).1
    ensures var r := Grant(s, k, Rate(cfg.speedLimit, limit));
            exists least: int ::
              && IsLeastSet(least, LimitsNow(cfg, u, now))
              && (r.limited <==> least > 0)
              && r.state.rates == if least > 0 && k !in s.rates then s.rates[k := 125000 * least] else s.rates
  {
    LeastOfTwo(u.speedLimit, u.dynamicSpeedLimit);
    LeastOfTwo(cfg.speedLimit, limit);
    var least, limits := DetermineSpeedLimit(cfg.speedLimit, limit), LimitsNow(cfg, u, now);
    assert least * 1000000 / 8 == 125000 * least;
    assert limits[0] == cfg.speedLimit && limits[1] == u.speedLimit;
    assert IsLeastSet(least, limits);
  }

  /** A dynamic limit whose time has passed is dropped from the record, and the whole record goes without a limit of its
      own. */
  lemma ExpiryResets(cfg: Config, s: State, k: string, rawIp: string, tcp: bool, now: int)
    requires k in s.info
    ensures var t, u := CheckLimit(cfg, s, k, rawIp, tcp, now).state, s.info[k];
            t.info == if !(u.expireTime != 0 && u.expireTime < now) then s.info
                      else if u.speedLimit != 0 then s.info[k := u.(dynamicSpeedLimit := 0, expireTime := 0)]
                      else s.info - {k}
  {
    CheckParts(cfg, s, k, rawIp, tcp, now);
  }

  // ---- updates and reports ----

  /** An update takes away the device counts of the deleted Ids and of nobody else. */
  lemma CountsAfterUpdate(cfg: Config, s: State, tag: string, added: seq<UserInfo>, deleted: seq<UserInfo>,
                          modified: seq<UserInfo>, uid: int)
    ensures var t := UpdateUser(cfg, s, tag, added, deleted, modified);
            && (uid in t.alive <==> uid in s.alive && forall u :: u in deleted ==> u.id != uid)
            && (uid in t.alive ==> t.alive[uid] == s.alive[uid])
  {
    assert uid in (set u | u in deleted :: u.id) <==> exists u :: u in deleted && u.id == uid;
  }

  /** Deleted users lose their bucket; a modified user, known or not, is left with one exactly when its new limit gives
      a positive rate, and at that rate; all other buckets stay as they are, additions included. */
  lemma RatesAfterUpdate(cfg: Config, s: State, tag: string, added: seq<UserInfo>, deleted: seq<UserInfo>,
                         modified: seq<UserInfo>, uuid: string)
    requires cfg.speedLimit >= 0 && forall u :: u in modified ==> u.speedLimit >= 0
    ensures var t, k := UpdateUser(cfg, s, tag, added, deleted, modified), UserTag(tag, uuid);
            if uuid in Index(modified) then
              var least := if cfg.speedLimit == 0 then Index(modified)[uuid].speedLimit
                           else if Index(modified)[uuid].speedLimit == 0 then cfg.speedLimit
                           else if cfg.speedLimit < Index(modified)[uuid].speedLimit then cfg.speedLimit
                           else Index(modified)[uuid].speedLimit;
              (k in t.rates <==> least > 0) && (k in t.rates ==> t.rates[k] == 125000 * least)
            else
              && (k in t.rates <==> k in s.rates && uuid !in Index(deleted))
              && (k in t.rates ==> t.rates[k] == s.rates[k])
  {
    KeyIndexAt(tag, modified, uuid);
    KeyIndexAt(tag, deleted, uuid);
    IndexUuids(modified);
    if uuid in Index(modified) {
      var limit := DetermineSpeedLimit(cfg.speedLimit, Index(modified)[uuid].speedLimit);
      assert limit * 1000000 / 8 == 125000 * limit;
    }
  }

  /** A report starts an empty generation and touches nothing else. */
  lemma ReportTouchesOnlyDevices(s: State, order: VisitOrder)
    requires AllTracked(order, s.online)
    ensures var t := Report(s, order);
            && t.online == map[] && t.info == s.info && t.uids == s.uids && t.rates == s.rates && t.alive == s.alive
  {}
}
