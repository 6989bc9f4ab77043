/** Tracked devices over whole runs of one node. */
module DeviceRuns {
  import opened Panel
  import opened UserList
  import opened LimiterSpec
  import opened LimiterInvariants
  import opened CoreUsers
  import opened NodeSync
  import opened BucketRuns

  // ---- who owns tracked addresses ----

  /** In lists without repeated uuids a kept user is never handled as an added one. */
  lemma KeptIsNotAdded(prev: seq<UserInfo>, next: seq<UserInfo>, uuid: string)
    requires DistinctUuids(next) && uuid in Index(prev)
    ensures uuid !in Index(Added(prev, next))
  {
    RepeatsAt(prev, next, uuid);
  }

  /** The list repeats a user with tracked addresses, and its last record carries another Id than the limiter's. */
  predicate Disowns(tag: string, s: NodeState, next: seq<UserInfo>, k: string) {
    && k in s.lim.online && k in s.lim.info && k in KeyIndex(tag, next) && k in KeyIndex(tag, Added(s.userList, next))
    && KeyIndex(tag, next)[k].id != s.lim.info[k].uid
  }

  lemma PollOwnedIff(cfg: Config, tag: string, s: NodeState, p: PollResult)
    requires Legal(s, Poll(p)) && KnowsLimits(tag, s) && OnlineOwned(s.lim) && Accepted(tag, s, p)
    ensures OnlineOwned(AfterPoll(cfg, tag, s, p).lim) <==> forall k :: !Disowns(tag, s, p.users, k)
  {
    AcceptedLimiter(cfg, tag, s, p);
    var lim, t := SetAlive(s.lim, p.alive), UpdatedLimiter(cfg, tag, s, p);
    UpdateKeepsDevices(cfg, lim, tag, Added(s.userList, p.users), p.deleted, Modified(s.userList, p.users));
    forall k
      ensures Disowns(tag, s, p.users, k) <==>
              k in t.online && !(k in t.info && t.online[k] != map[] && OwnedBy(t.online[k], t.info[k].uid))
    {
      KeyDiff(tag, s.userList, p.users, p.deleted, k);
      UpdatedInfoAt(cfg, tag, lim, s.userList, p.users, p.deleted, k);
      if k in t.online {
        OwnerIsUnique(s.lim.online[k], s.lim.info[k].uid);
      }
    }
  }

  lemma OwnerIsUnique(ips: map<string, int>, uid: int)
    requires ips != map[] && OwnedBy(ips, uid)
    ensures forall uid' :: OwnedBy(ips, uid') <==> uid' == uid
  {
    var ip :| ip in ips;
  }

  lemma EventOwnedIff(cfg: Config, tag: string, s: NodeState, e: Event)
    requires Legal(s, e) && KnowsLimits(tag, s) && OnlineOwned(s.lim)
    ensures KnowsLimits(tag, Apply(cfg, tag, s, e))
    ensures OnlineOwned(Apply(cfg, tag, s, e).lim) <==>
            (e.Poll? && Accepted(tag, s, e.p) ==> forall k :: !Disowns(tag, s, e.p.users, k))
  {
    match e
    case Check(k, ip, tcp, now) =>
      KnownIsStatic(tag, s);
      CheckKeepsInfo(cfg, s.lim, k, ip, tcp, now);
      CheckKeepsOwned(cfg, s.lim, k, ip, tcp, now);
    case Poll(p) =>
      PollKeepsLimits(cfg, tag, s, p);
      AcceptedLimiter(cfg, tag, s, p);
      if Accepted(tag, s, p) {
        PollOwnedIff(cfg, tag, s, p);
      }
    case ReportOnline(order) =>
  }

  ghost predicate OwnedThroughout(cfg: Config, tag: string, s: NodeState, es: seq<Event>)
    requires LegalRun(cfg, tag, s, es)
    decreases |es|
  {
    OnlineOwned(s.lim) && (es == [] || OwnedThroughout(cfg, tag, Apply(cfg, tag, s, es[0]), es[1..]))
  }

  ghost predicate NeverDisowns(cfg: Config, tag: string, s: NodeState, es: seq<Event>)
    requires LegalRun(cfg, tag, s, es)
    decreases |es|
  {
    es == [] ||
    (&& (es[0].Poll? && Accepted(tag, s, es[0].p) ==> forall k :: !Disowns(tag, s, es[0].p.users, k))
     && NeverDisowns(cfg, tag, Apply(cfg, tag, s, es[0]), es[1..]))
  }

  /** Throughout a run addresses are tracked for known users only, never an empty set of them, and each is filed under
      its user's uid, exactly when no accepted list repeats a connected user under another Id. */
  lemma {:induction false} OwnedThroughoutIff(cfg: Config, tag: string, s: NodeState, es: seq<Event>)
    requires LegalRun(cfg, tag, s, es) && KnowsLimits(tag, s) && OnlineOwned(s.lim)
    ensures OwnedThroughout(cfg, tag, s, es) <==> NeverDisowns(cfg, tag, s, es)
    ensures NeverDisowns(cfg, tag, s, es) ==> OnlineOwned(Run(cfg, tag, s, es).lim)
    decreases |es|
  {
    if es != [] {
      var t := Apply(cfg, tag, s, es[0]);
      EventOwnedIff(cfg, tag, s, es[0]);
      if OnlineOwned(t.lim) {
        OwnedThroughoutIff(cfg, tag, t, es[1..]);
      }
    }
  }

  lemma {:induction false} DistinctNeverDisowns(cfg: Config, tag: string, s: NodeState, es: seq<Event>)
    requires LegalRun(cfg, tag, s, es) && DistinctUuidPolls(es) && KnowsLimits(tag, s) && OnlineOwned(s.lim)
    ensures NeverDisowns(cfg, tag, s, es)
    decreases |es|
  {
    if es != [] {
      if es[0].Poll? {
        forall k ensures !Disowns(tag, s, es[0].p.users, k) {
          if k in s.lim.info {
            KeyIndexKeys(tag, s.userList);
            var uuid := KeyIndex(tag, s.userList)[k].uuid;
            KeyIndexAt(tag, s.userList, uuid);
            KeyIndexAt(tag, Added(s.userList, es[0].p.users), uuid);
            KeptIsNotAdded(s.userList, es[0].p.users, uuid);
          }
        }
      }
      EventOwnedIff(cfg, tag, s, es[0]);
      DistinctNeverDisowns(cfg, tag, Apply(cfg, tag, s, es[0]), es[1..]);
    }
  }

  /** While no list repeats a uuid, a run keeps all limiter invariants. */
  lemma RunKeepsGood(cfg: Config, tag: string, s: NodeState, es: seq<Event>)
    requires LegalRun(cfg, tag, s, es) && DistinctUuidPolls(es) && KnowsLimits(tag, s) && Good(cfg, s.lim)
    ensures Good(cfg, Run(cfg, tag, s, es).lim)
  {
    DistinctIsNeverStale(cfg, tag, s, es);
    BucketsExactIff(cfg, tag, s, es);
    KnownIsStatic(tag, Run(cfg, tag, s, es));
    DistinctNeverDisowns(cfg, tag, s, es);
    OwnedThroughoutIff(cfg, tag, s, es);
  }

  // ---- which listed devices a report keeps ----

  /** The user has the address now, or holds it from the last report. */
  predicate Holds(s: State, k: string, ip: string) {
    k in s.info && (Tracked(s.online, k, ip) || (ip in s.oldOnline && s.oldOnline[ip] == s.info[k].uid))
  }

  ghost predicate SoleUid(s: State, k: string) {
    k in s.info && forall k' :: k' in s.info && s.info[k'].uid == s.info[k].uid ==> k' == k
  }

  lemma SyncedSoleUid(tag: string, s: NodeState, k: string)
    requires LimiterInSync(tag, s) && DistinctIds(s.userList) && k in s.lim.info
    ensures SoleUid(s.lim, k)
  {
    KeyIndexKeys(tag, s.userList);
    var index := KeyIndex(tag, s.userList);
    forall k' | k' in index && index[k'].id == index[k].id ensures k' == k {
      var i :| 0 <= i < |s.userList| && s.userList[i] == index[k];
      var j :| 0 <= j < |s.userList| && s.userList[j] == index[k'];
      assert i == j;
    }
  }

  /** The report visits this pair after every other pair with the same address. */
  predicate VisitedLast(order: VisitOrder, k: string, ip: string) {
    exists i :: 0 <= i < |order| && order[i] == (k, ip) && forall j :: i < j < |order| ==> order[j].1 != ip
  }

  lemma {:induction false} LastSeenIs(online: OnlineMap, order: VisitOrder, k: string, ip: string)
    requires AllTracked(order, online) && VisitedLast(order, k, ip)
    ensures ip in LastSeen(online, order) && LastSeen(online, order)[ip] == online[k][ip]
  {
    var init, last := order[..|order| - 1], order[|order| - 1];
    var i :| 0 <= i < |order| && order[i] == (k, ip) && forall j :: i < j < |order| ==> order[j].1 != ip;
    if i < |init| {
      assert init[i] == (k, ip);
      LastSeenIs(online, init, k, ip);
    }
  }

  lemma {:induction false} SomeVisitIsLast(order: VisitOrder, i: nat) returns (k: string)
    requires i < |order|
    ensures VisitedLast(order, k, order[i].1) && (k, order[i].1) in order
    decreases |order| - i
  {
    var ip := order[i].1;
    if j :| i < j < |order| && order[j].1 == ip {
      k := SomeVisitIsLast(order, j);
    } else {
      k := order[i].0;
      assert order[i] == (k, ip);
    }
  }

  /** Of the users listed with one address exactly one keeps it: the one whose pair the report visits last. */
  lemma OneKeeper(order: VisitOrder, ip: string)
    requires exists i :: 0 <= i < |order| && order[i].1 == ip
    ensures exists k :: VisitedLast(order, k, ip)
    ensures forall k1, k2 :: VisitedLast(order, k1, ip) && VisitedLast(order, k2, ip) ==> k1 == k2
  {
    var i :| 0 <= i < |order| && order[i].1 == ip;
    var k := SomeVisitIsLast(order, i);
    forall k1, k2 | VisitedLast(order, k1, ip) && VisitedLast(order, k2, ip) ensures k1 == k2 {
      var a :| 0 <= a < |order| && order[a] == (k1, ip) && forall j :: a < j < |order| ==> order[j].1 != ip;
      var b :| 0 <= b < |order| && order[b] == (k2, ip) && forall j :: b < j < |order| ==> order[j].1 != ip;
      assert !(a < b) && !(b < a);
    }
  }

  /** The next generation files a listed address under the uid of the user visited last for it. */
  lemma LastVisitorFiled(s: State, order: VisitOrder, k: string, ip: string)
    requires OnlineOwned(s) && AllTracked(order, s.online) && VisitedLast(order, k, ip)
    ensures k in s.info && ip in LastSeen(s.online, order) && LastSeen(s.online, order)[ip] == s.info[k].uid
  {
    LastSeenIs(s.online, order, k, ip);
    var i :| 0 <= i < |order| && order[i] == (k, ip);
    assert Tracked(s.online, order[i].0, order[i].1);
    assert OwnedBy(s.online[k], s.info[k].uid);
  }

  /** A report makes a user with a uid of its own hold exactly the addresses whose last visit was for that user. */
  lemma ReportHoldsIff(s: State, order: VisitOrder, k: string, ip: string)
    requires OnlineOwned(s) && SoleUid(s, k) && AllTracked(order, s.online)
    ensures Holds(Report(s, order), k, ip) <==> VisitedLast(order, k, ip)
  {
    if VisitedLast(order, k, ip) {
      LastVisitorFiled(s, order, k, ip);
    } else if ip in LastSeen(s.online, order) {
      LastSeenKeys(s.online, order);
      var i :| 0 <= i < |order| && order[i].1 == ip;
      var k' := SomeVisitIsLast(order, i);
      LastVisitorFiled(s, order, k', ip);
    }
  }

  /** An address that only one user is tracked at is kept in whatever order the report visits the pairs. */
  lemma SoleVisitorKeeps(s: State, order: VisitOrder, k: string, ip: string)
    requires Enumerates(order, s.online) && Tracked(s.online, k, ip)
    requires forall k' :: Tracked(s.online, k', ip) ==> k' == k
    ensures VisitedLast(order, k, ip)
  {
    var i :| 0 <= i < |order| && order[i] == (k, ip);
    forall j | i < j < |order| ensures order[j].1 != ip {
      assert (order[j].0, order[j].1) in order && order[j] != order[i];
    }
  }

  // ---- which addresses are open to a user ----

  predicate NoReports(es: seq<Event>) {
    forall i :: 0 <= i < |es| ==> !es[i].ReportOnline?
  }

  lemma UpdateKeepsDevices(cfg: Config, s: State, tag: string, added: seq<UserInfo>, deleted: seq<UserInfo>,
          modified: seq<UserInfo>)
    ensures var t := UpdateUser(cfg, s, tag, added, deleted, modified);
            t.oldOnline == s.oldOnline && t.online == s.online - KeyIndex(tag, deleted).Keys
  {}

  /** A poll takes addresses away from deleted users and from nobody else. */
  lemma PollKeepsDevices(cfg: Config, tag: string, s: NodeState, p: PollResult)
    ensures var t := AfterPoll(cfg, tag, s, p).lim;
            && t.oldOnline == s.lim.oldOnline
            && forall k, ip :: (Tracked(t.online, k, ip) ==> Tracked(s.lim.online, k, ip)) &&
                               (Tracked(s.lim.online, k, ip) && k !in KeyIndex(tag, p.deleted) ==>
                                  Tracked(t.online, k, ip))
  {
    var lim := SetAlive(s.lim, p.alive);
    UpdateKeepsDevices(cfg, lim, tag, Added(s.userList, p.users), p.deleted, Modified(s.userList, p.users));
  }

  /** The user is connected from the address, or the last report named it for some user, and nobody used that up. */
  predicate Addresses(s: State, k: string, ip: string) {
    Tracked(s.online, k, ip) || ip in s.oldOnline
  }

  predicate UserAtLimit(s: State, k: string) {
    k in s.info ==> AtLimit(s, s.info[k].uid, s.info[k].deviceLimit)
  }

  ghost predicate AtLimitRun(cfg: Config, tag: string, s: NodeState, es: seq<Event>, k: string)
    requires LegalRun(cfg, tag, s, es)
    decreases |es|
  {
    UserAtLimit(s.lim, k) && (es == [] || AtLimitRun(cfg, tag, Apply(cfg, tag, s, es[0]), es[1..], k))
  }

  lemma EventFreezes(cfg: Config, tag: string, s: NodeState, e: Event, k: string, ip: string)
    requires Legal(s, e) && !e.ReportOnline? && UserAtLimit(s.lim, k)
    requires Addresses(Apply(cfg, tag, s, e).lim, k, ip)
    ensures Addresses(s.lim, k, ip)
  {
    match e
    case Check(k', rawIp, tcp, now) => CheckLimitDecides(cfg, s.lim, k', rawIp, tcp, now);
    case Poll(p) => PollKeepsDevices(cfg, tag, s, p);
  }

  predicate Open(s: State, k: string, ip: string) {
    k in s.info && Addresses(s, k, ip)
  }

  /** At its limit a user is refused from exactly the addresses that are not open to it. */
  lemma RefusedIff(cfg: Config, s: State, k: string, rawIp: string, tcp: bool, now: int)
    requires TracksDevices(cfg, tcp) && UserAtLimit(s, k)
    ensures CheckLimit(cfg, s, k, rawIp, tcp, now).rejected <==> !Open(s, k, NormalizeIp(rawIp))
  {
    CheckLimitDecides(cfg, s, k, rawIp, tcp, now);
  }

  /** After a report exactly the listed addresses are open, and each to every known user, not only to those it is listed
      for. */
  lemma ReportOpens(s: State, order: VisitOrder, k: string, ip: string)
    requires Enumerates(order, s.online) && AllTracked(order, s.online)
    ensures Open(Report(s, order), k, ip) <==> k in s.info && Listed(Listing(s.online, order), ip)
  {
    ReportIsExact(s, order);
  }

  /** The user the entry stands for connects from the address first, while the other one is not connected from it. */
  predicate UsesUpEntry(cfg: Config, s: State, k: string, ip: string, k': string, rawIp: string, tcp: bool) {
    && k' in s.info && k' != k && NormalizeIp(rawIp) == ip && TracksDevices(cfg, tcp)
    && !Tracked(s.online, k, ip) && !Tracked(s.online, k', ip)
    && ip in s.oldOnline && s.oldOnline[ip] == s.info[k'].uid
  }

  lemma CheckAddressesIff(cfg: Config, s: State, k: string, ip: string, k': string, rawIp: string, tcp: bool, now: int)
    requires Addresses(s, k, ip)
    ensures Addresses(CheckLimit(cfg, s, k', rawIp, tcp, now).state, k, ip) <==>
            !UsesUpEntry(cfg, s, k, ip, k', rawIp, tcp)
  {
    CheckLimitDecides(cfg, s, k', rawIp, tcp, now);
  }

  /** The guard under which an event other than a report closes an open address. */
  predicate Closes(cfg: Config, tag: string, s: NodeState, e: Event, k: string, ip: string) {
    match e
    case Check(k', rawIp, tcp, _) => UsesUpEntry(cfg, s.lim, k, ip, k', rawIp, tcp)
    case Poll(p) => Accepted(tag, s, p) && k !in KeyIndex(tag, p.users)
    case ReportOnline(_) => false
  }

  lemma EventOpenIff(cfg: Config, tag: string, s: NodeState, e: Event, k: string, ip: string)
    requires Legal(s, e) && !e.ReportOnline? && KnowsLimits(tag, s) && Open(s.lim, k, ip)
    ensures KnowsLimits(tag, Apply(cfg, tag, s, e))
    ensures Open(Apply(cfg, tag, s, e).lim, k, ip) <==> !Closes(cfg, tag, s, e, k, ip)
  {
    match e
    case Check(k', rawIp, tcp, now) =>
      KnownIsStatic(tag, s);
      CheckKeepsInfo(cfg, s.lim, k', rawIp, tcp, now);
      CheckAddressesIff(cfg, s.lim, k, ip, k', rawIp, tcp, now);
    case Poll(p) =>
      PollKeepsLimits(cfg, tag, s, p);
      AcceptedLimiter(cfg, tag, s, p);
      PollKeepsDevices(cfg, tag, s, p);
      if Accepted(tag, s, p) {
        KeyDiff(tag, s.userList, p.users, p.deleted, k);
      }
  }

  ghost predicate OpenThroughout(cfg: Config, tag: string, s: NodeState, es: seq<Event>, k: string, ip: string)
    requires LegalRun(cfg, tag, s, es)
    decreases |es|
  {
    Open(s.lim, k, ip) && (es == [] || OpenThroughout(cfg, tag, Apply(cfg, tag, s, es[0]), es[1..], k, ip))
  }

  ghost predicate NeverCloses(cfg: Config, tag: string, s: NodeState, es: seq<Event>, k: string, ip: string)
    requires LegalRun(cfg, tag, s, es)
    decreases |es|
  {
    es == [] ||
    (!Closes(cfg, tag, s, es[0], k, ip) && NeverCloses(cfg, tag, Apply(cfg, tag, s, es[0]), es[1..], k, ip))
  }

  /** Between reports an address stays open to a user exactly when no event of the run closes it. */
  lemma {:induction false} OpenThroughoutIff(cfg: Config, tag: string, s: NodeState, es: seq<Event>, k: string,
                                             ip: string)
    requires LegalRun(cfg, tag, s, es) && NoReports(es) && KnowsLimits(tag, s) && Open(s.lim, k, ip)
    ensures OpenThroughout(cfg, tag, s, es, k, ip) <==> NeverCloses(cfg, tag, s, es, k, ip)
    ensures NeverCloses(cfg, tag, s, es, k, ip) ==> Open(Run(cfg, tag, s, es).lim, k, ip)
    decreases |es|
  {
    if es != [] {
      var t := Apply(cfg, tag, s, es[0]);
      EventOpenIff(cfg, tag, s, es[0], k, ip);
      if Open(t.lim, k, ip) {
        OpenThroughoutIff(cfg, tag, t, es[1..], k, ip);
      }
    }
  }

  /** From one report to the next a listed address stays open to a known user exactly when nobody uses up its entry and
      no accepted list drops the user; as long as it is open the user is not refused from it. */
  lemma StickyDevice(cfg: Config, tag: string, s: NodeState, order: VisitOrder, es: seq<Event>, k: string,
                     rawIp: string, tcp: bool, now: int)
    requires Legal(s, ReportOnline(order)) && KnowsLimits(tag, s) && k in s.lim.info
    requires Listed(Listing(s.lim.online, order), NormalizeIp(rawIp))
    requires LegalRun(cfg, tag, Apply(cfg, tag, s, ReportOnline(order)), es) && NoReports(es)
    ensures var s1, ip := Apply(cfg, tag, s, ReportOnline(order)), NormalizeIp(rawIp);
            && (OpenThroughout(cfg, tag, s1, es, k, ip) <==> NeverCloses(cfg, tag, s1, es, k, ip))
            && (NeverCloses(cfg, tag, s1, es, k, ip) ==>
                  !CheckLimit(cfg, Run(cfg, tag, s1, es).lim, k, rawIp, tcp, now).rejected)
  {
    var s1, ip := Apply(cfg, tag, s, ReportOnline(order)), NormalizeIp(rawIp);
    ReportOpens(s.lim, order, k, ip);
    OpenThroughoutIff(cfg, tag, s1, es, k, ip);
    CheckLimitDecides(cfg, Run(cfg, tag, s1, es).lim, k, rawIp, tcp, now);
  }

  // ---- when a user at its limit is refused ----

  /** The guard under which an event other than a report takes an address away for good: its entry is used up, or the
      user is dropped while connected from it and no entry is left. */
  predicate Shuts(cfg: Config, tag: string, s: NodeState, e: Event, k: string, ip: string) {
    match e
    case Check(k', rawIp, tcp, _) => UsesUpEntry(cfg, s.lim, k, ip, k', rawIp, tcp)
    case Poll(p) =>
      && Accepted(tag, s, p) && k in KeyIndex(tag, s.userList) && k !in KeyIndex(tag, p.users)
      && ip !in s.lim.oldOnline
    case ReportOnline(_) => false
  }

  lemma EventAddressesIff(cfg: Config, tag: string, s: NodeState, e: Event, k: string, ip: string)
    requires Legal(s, e) && !e.ReportOnline? && Addresses(s.lim, k, ip)
    ensures Addresses(Apply(cfg, tag, s, e).lim, k, ip) <==> !Shuts(cfg, tag, s, e, k, ip)
  {
    match e
    case Check(k', rawIp, tcp, now) => CheckAddressesIff(cfg, s.lim, k, ip, k', rawIp, tcp, now);
    case Poll(p) =>
      AcceptedLimiter(cfg, tag, s, p);
      if Accepted(tag, s, p) {
        var lim := SetAlive(s.lim, p.alive);
        UpdateKeepsDevices(cfg, lim, tag, Added(s.userList, p.users), p.deleted, Modified(s.userList, p.users));
        KeyDiff(tag, s.userList, p.users, p.deleted, k);
      }
  }

  ghost predicate SomeShuts(cfg: Config, tag: string, s: NodeState, es: seq<Event>, k: string, ip: string)
    requires LegalRun(cfg, tag, s, es)
    decreases |es|
  {
    && es != []
    && (Shuts(cfg, tag, s, es[0], k, ip) || SomeShuts(cfg, tag, Apply(cfg, tag, s, es[0]), es[1..], k, ip))
  }

  /** A user at its limit that has lost an address does not get it back before the next report. */
  lemma {:induction false} ShutStaysShut(cfg: Config, tag: string, s: NodeState, es: seq<Event>, k: string, ip: string)
    requires LegalRun(cfg, tag, s, es) && NoReports(es) && AtLimitRun(cfg, tag, s, es, k) && !Addresses(s.lim, k, ip)
    ensures !Addresses(Run(cfg, tag, s, es).lim, k, ip)
    decreases |es|
  {
    if es != [] {
      if Addresses(Apply(cfg, tag, s, es[0]).lim, k, ip) {
        EventFreezes(cfg, tag, s, es[0], k, ip);
      }
      ShutStaysShut(cfg, tag, Apply(cfg, tag, s, es[0]), es[1..], k, ip);
    }
  }

  lemma {:induction false} AddressesIff(cfg: Config, tag: string, s: NodeState, es: seq<Event>, k: string, ip: string)
    requires LegalRun(cfg, tag, s, es) && NoReports(es) && AtLimitRun(cfg, tag, s, es, k) && KnowsLimits(tag, s)
    requires Addresses(s.lim, k, ip)
    ensures Addresses(Run(cfg, tag, s, es).lim, k, ip) <==> !SomeShuts(cfg, tag, s, es, k, ip)
    ensures KnowsLimits(tag, Run(cfg, tag, s, es)) && UserAtLimit(Run(cfg, tag, s, es).lim, k)
    decreases |es|
  {
    if es != [] {
      var t := Apply(cfg, tag, s, es[0]);
      EventKeepsKnown(cfg, tag, s, es[0]);
      EventAddressesIff(cfg, tag, s, es[0], k, ip);
      if Addresses(t.lim, k, ip) {
        AddressesIff(cfg, tag, t, es[1..], k, ip);
      } else {
        ShutStaysShut(cfg, tag, t, es[1..], k, ip);
        RunKeepsKnown(cfg, tag, t, es[1..], k);
      }
    }
  }

  lemma {:induction false} RunKeepsKnown(cfg: Config, tag: string, s: NodeState, es: seq<Event>, k: string)
    requires LegalRun(cfg, tag, s, es) && AtLimitRun(cfg, tag, s, es, k) && KnowsLimits(tag, s)
    ensures KnowsLimits(tag, Run(cfg, tag, s, es)) && UserAtLimit(Run(cfg, tag, s, es).lim, k)
    decreases |es|
  {
    if es != [] {
      EventKeepsKnown(cfg, tag, s, es[0]);
      RunKeepsKnown(cfg, tag, Apply(cfg, tag, s, es[0]), es[1..], k);
    }
  }

  /** A user that stays at its limit after a report is refused from a listed address exactly when the accepted list no
      longer names it or some event since the report has taken the address away. */
  lemma ListedIsRefusedIff(cfg: Config, tag: string, s: NodeState, order: VisitOrder, es: seq<Event>, k: string,
                           rawIp: string, tcp: bool, now: int)
    requires Legal(s, ReportOnline(order)) && KnowsLimits(tag, s) && TracksDevices(cfg, tcp)
    requires Listed(Listing(s.lim.online, order), NormalizeIp(rawIp))
    requires LegalRun(cfg, tag, Apply(cfg, tag, s, ReportOnline(order)), es) && NoReports(es)
    requires AtLimitRun(cfg, tag, Apply(cfg, tag, s, ReportOnline(order)), es, k)
    ensures var s1, ip := Apply(cfg, tag, s, ReportOnline(order)), NormalizeIp(rawIp);
            var t := Run(cfg, tag, s1, es);
            CheckLimit(cfg, t.lim, k, rawIp, tcp, now).rejected <==>
            k !in KeyIndex(tag, t.userList) || SomeShuts(cfg, tag, s1, es, k, ip)
  {
    var s1, ip := Apply(cfg, tag, s, ReportOnline(order)), NormalizeIp(rawIp);
    ReportIsExact(s.lim, order);
    AddressesIff(cfg, tag, s1, es, k, ip);
    RefusedIff(cfg, Run(cfg, tag, s1, es).lim, k, rawIp, tcp, now);
  }

  // ---- when a held device is lost ----

  /** Another user under the same uid connects from the held address and uses it up. */
  predicate UsesUpHold(cfg: Config, s: State, k: string, ip: string, k': string, rawIp: string, tcp: bool)
    requires k in s.info
  {
    && k' in s.info && k' != k && s.info[k'].uid == s.info[k].uid
    && NormalizeIp(rawIp) == ip && TracksDevices(cfg, tcp)
    && !Tracked(s.online, k, ip) && !Tracked(s.online, k', ip)
  }

  lemma CheckHoldIff(cfg: Config, s: State, k: string, ip: string, k': string, rawIp: string, tcp: bool, now: int)
    requires Static(s) && Holds(s, k, ip)
    ensures Holds(CheckLimit(cfg, s, k', rawIp, tcp, now).state, k, ip) <==> !UsesUpHold(cfg, s, k, ip, k', rawIp, tcp)
  {
    CheckLimitDecides(cfg, s, k', rawIp, tcp, now);
    CheckKeepsInfo(cfg, s, k', rawIp, tcp, now);
  }

  /** The list drops the user, or repeats it under another Id while it is not connected from the address. */
  predicate DropsHold(tag: string, s: NodeState, next: seq<UserInfo>, k: string, ip: string)
    requires k in s.lim.info
  {
    || k !in KeyIndex(tag, next)
    || (&& k in KeyIndex(tag, Added(s.userList, next)) && KeyIndex(tag, next)[k].id != s.lim.info[k].uid
        && !Tracked(s.lim.online, k, ip))
  }

  lemma PollHoldIff(cfg: Config, tag: string, s: NodeState, p: PollResult, k: string, ip: string)
    requires Legal(s, Poll(p)) && KnowsLimits(tag, s) && Accepted(tag, s, p) && Holds(s.lim, k, ip)
    ensures Holds(AfterPoll(cfg, tag, s, p).lim, k, ip) <==> !DropsHold(tag, s, p.users, k, ip)
  {
    AcceptedLimiter(cfg, tag, s, p);
    PollKeepsDevices(cfg, tag, s, p);
    KeyDiff(tag, s.userList, p.users, p.deleted, k);
    UpdatedInfoAt(cfg, tag, SetAlive(s.lim, p.alive), s.userList, p.users, p.deleted, k);
  }

  /** The guard under which an event other than a report takes a held address away from its user. */
  predicate LosesHold(cfg: Config, tag: string, s: NodeState, e: Event, k: string, ip: string)
    requires k in s.lim.info
  {
    match e
    case Check(k', rawIp, tcp, _) => UsesUpHold(cfg, s.lim, k, ip, k', rawIp, tcp)
    case Poll(p) => Accepted(tag, s, p) && DropsHold(tag, s, p.users, k, ip)
    case ReportOnline(_) => false
  }

  lemma EventHoldIff(cfg: Config, tag: string, s: NodeState, e: Event, k: string, ip: string)
    requires Legal(s, e) && !e.ReportOnline? && KnowsLimits(tag, s) && Holds(s.lim, k, ip)
    ensures KnowsLimits(tag, Apply(cfg, tag, s, e))
    ensures Holds(Apply(cfg, tag, s, e).lim, k, ip) <==> !LosesHold(cfg, tag, s, e, k, ip)
  {
    match e
    case Check(k', rawIp, tcp, now) =>
      KnownIsStatic(tag, s);
      CheckKeepsInfo(cfg, s.lim, k', rawIp, tcp, now);
      CheckHoldIff(cfg, s.lim, k, ip, k', rawIp, tcp, now);
    case Poll(p) =>
      PollKeepsLimits(cfg, tag, s, p);
      AcceptedLimiter(cfg, tag, s, p);
      if Accepted(tag, s, p) {
        PollHoldIff(cfg, tag, s, p, k, ip);
      }
  }

  ghost predicate HoldsThroughout(cfg: Config, tag: string, s: NodeState, es: seq<Event>, k: string, ip: string)
    requires LegalRun(cfg, tag, s, es)
    decreases |es|
  {
    Holds(s.lim, k, ip) && (es == [] || HoldsThroughout(cfg, tag, Apply(cfg, tag, s, es[0]), es[1..], k, ip))
  }

  ghost predicate NeverLosesHold(cfg: Config, tag: string, s: NodeState, es: seq<Event>, k: string, ip: string)
    requires LegalRun(cfg, tag, s, es)
    decreases |es|
  {
    es == [] ||
    (&& (k in s.lim.info ==> !LosesHold(cfg, tag, s, es[0], k, ip))
     && NeverLosesHold(cfg, tag, Apply(cfg, tag, s, es[0]), es[1..], k, ip))
  }

  /** Between reports a user holds an address in every state of a run exactly when no event of the run takes it away;
      then the user is not refused from it. */
  lemma {:induction false} HoldsThroughoutIff(cfg: Config, tag: string, s: NodeState, es: seq<Event>, k: string,
                                              rawIp: string, tcp: bool, now: int)
    requires LegalRun(cfg, tag, s, es) && NoReports(es) && KnowsLimits(tag, s) && Holds(s.lim, k, NormalizeIp(rawIp))
    ensures HoldsThroughout(cfg, tag, s, es, k, NormalizeIp(rawIp)) <==>
            NeverLosesHold(cfg, tag, s, es, k, NormalizeIp(rawIp))
    ensures NeverLosesHold(cfg, tag, s, es, k, NormalizeIp(rawIp)) ==>
              !CheckLimit(cfg, Run(cfg, tag, s, es).lim, k, rawIp, tcp, now).rejected
    decreases |es|
  {
    var ip := NormalizeIp(rawIp);
    if es == [] {
      CheckLimitDecides(cfg, s.lim, k, rawIp, tcp, now);
    } else {
      var t := Apply(cfg, tag, s, es[0]);
      EventHoldIff(cfg, tag, s, es[0], k, ip);
      if Holds(t.lim, k, ip) {
        HoldsThroughoutIff(cfg, tag, t, es[1..], k, rawIp, tcp, now);
      }
    }
  }

  // ---- users that nobody can take an address from ----

  ghost predicate DistinctIdPolls(es: seq<Event>) {
    forall i :: 0 <= i < |es| && es[i].Poll? ==> DistinctIds(es[i].p.users)
  }

  /** Every list polled in the run still names the user. */
  predicate StaysListed(es: seq<Event>, uuid: string) {
    forall i :: 0 <= i < |es| && es[i].Poll? && es[i].p.users != [] ==> uuid in Index(es[i].p.users)
  }

  lemma SafeEvent(cfg: Config, tag: string, s: NodeState, e: Event, uuid: string, ip: string)
    requires Legal(s, e) && LimiterInSync(tag, s) && DistinctIds(s.userList) && uuid in Index(s.userList)
    requires e.Poll? ==> DistinctUuids(e.p.users) && (e.p.users != [] ==> uuid in Index(e.p.users))
    ensures UserTag(tag, uuid) in s.lim.info && !LosesHold(cfg, tag, s, e, UserTag(tag, uuid), ip)
  {
    var k := UserTag(tag, uuid);
    KeyIndexAt(tag, s.userList, uuid);
    SyncedSoleUid(tag, s, k);
    if e.Poll? && Accepted(tag, s, e.p) {
      KeyIndexAt(tag, e.p.users, uuid);
      KeyIndexAt(tag, Added(s.userList, e.p.users), uuid);
      KeptIsNotAdded(s.userList, e.p.users, uuid);
    }
  }

  lemma {:induction false} SafeRun(cfg: Config, tag: string, s: NodeState, es: seq<Event>, uuid: string, ip: string)
    requires LegalRun(cfg, tag, s, es) && StableRun(cfg, tag, s, es)
    requires DistinctUuidPolls(es) && DistinctIdPolls(es) && StaysListed(es, uuid)
    requires LimiterInSync(tag, s) && DistinctIds(s.userList) && uuid in Index(s.userList)
    ensures NeverLosesHold(cfg, tag, s, es, UserTag(tag, uuid), ip)
    decreases |es|
  {
    if es != [] {
      SafeEvent(cfg, tag, s, es[0], uuid, ip);
      EventLimiterSync(cfg, tag, s, es[0]);
      SafeRun(cfg, tag, Apply(cfg, tag, s, es[0]), es[1..], uuid, ip);
    }
  }

  /** From one report to the next, a listed user whose visit was the last for its address is never refused from that
      address while still listed, whatever the other users do with it. */
  lemma LastVisitorIsNotRefused(cfg: Config, tag: string, s: NodeState, order: VisitOrder, es: seq<Event>, uuid: string,
                     rawIp: string, tcp: bool, now: int)
    requires Legal(s, ReportOnline(order)) && LimiterInSync(tag, s) && OnlineOwned(s.lim) && DistinctIds(s.userList)
    requires VisitedLast(order, UserTag(tag, uuid), NormalizeIp(rawIp))
    requires var s1 := Apply(cfg, tag, s, ReportOnline(order));
             LegalRun(cfg, tag, s1, es) && StableRun(cfg, tag, s1, es)
    requires NoReports(es) && DistinctUuidPolls(es) && DistinctIdPolls(es) && StaysListed(es, uuid)
    ensures !CheckLimit(cfg, Run(cfg, tag, Apply(cfg, tag, s, ReportOnline(order)), es).lim, UserTag(tag, uuid),
                        rawIp, tcp, now).rejected
  {
    var k, ip, s1 := UserTag(tag, uuid), NormalizeIp(rawIp), Apply(cfg, tag, s, ReportOnline(order));
    var i :| 0 <= i < |order| && order[i] == (k, ip);
    assert Tracked(s.lim.online, order[i].0, order[i].1);
    KeyIndexAt(tag, s.userList, uuid);
    SyncedSoleUid(tag, s, k);
    ReportHoldsIff(s.lim, order, k, ip);
    SafeRun(cfg, tag, s1, es, uuid, ip);
    HoldsThroughoutIff(cfg, tag, s1, es, k, rawIp, tcp, now);
  }

  // ---- runs in which a listed device is refused ----

  /** The node runs, reports the user's address, runs on without another report, and refuses the user from it. */
  ghost predicate RefusedAfterReport(cfg: Config, tag: string, s0: NodeState, before: seq<Event>, order: VisitOrder,
                                     after: seq<Event>, k: string, ip: string) {
    && LegalRun(cfg, tag, s0, before)
    && var s := Run(cfg, tag, s0, before);
    && Legal(s, ReportOnline(order)) && (k, ip) in order
    && var s1 := Apply(cfg, tag, s, ReportOnline(order));
    && LegalRun(cfg, tag, s1, after) && NoReports(after)
    && var t := Run(cfg, tag, s1, after);
    && t.userList == s.userList && CheckLimit(cfg, t.lim, k, ip, true, 0).rejected
  }

  lemma TwoEvents(cfg: Config, tag: string, s: NodeState, e: Event, f: Event)
    requires Legal(s, e) && Legal(Apply(cfg, tag, s, e), f)
    ensures LegalRun(cfg, tag, s, [e, f])
    ensures Run(cfg, tag, s, [e, f]) == Apply(cfg, tag, Apply(cfg, tag, s, e), f)
  {
    OneEvent(cfg, tag, Apply(cfg, tag, s, e), f);
    assert [e, f][1..] == [f];
  }

  lemma OneEvent(cfg: Config, tag: string, s: NodeState, e: Event)
    requires Legal(s, e)
    ensures LegalRun(cfg, tag, s, [e]) && Run(cfg, tag, s, [e]) == Apply(cfg, tag, s, e)
  {
    assert [e][1..] == [];
    assert LegalRun(cfg, tag, Apply(cfg, tag, s, e), []);
  }

  /** Two users with a device limit of one, the second under the given uid. */
  ghost predicate TwoUsers(s: State, ka: string, kb: string, uid: int) {
    && ka != kb && s.info.Keys == {ka, kb}
    && s.info[ka] == UserLimit(1, 0, 1, 0, 0) && s.info[kb] == UserLimit(uid, 0, 1, 0, 0)
  }

  const PLAIN := Config("vless", 0)

  lemma PlainCheck(s: State, k: string, ip: string)
    requires k in s.info && s.info[k].speedLimit == s.info[k].dynamicSpeedLimit == s.info[k].expireTime == 0
    requires !(IPV4_MAPPED <= ip)
    ensures var (t, rejected) := CheckDevice(s, k, ip, s.info[k].uid, s.info[k].deviceLimit);
            && CheckLimit(PLAIN, s, k, ip, true, 0).state == t
            && CheckLimit(PLAIN, s, k, ip, true, 0).rejected == rejected
  {
    assert s.(info := s.info) == s;
    assert Rate(0, 0) == 0;
  }

  /** Both users connect from one address. */
  lemma BothConnect(s: NodeState, ka: string, kb: string, uid: int)
    requires TwoUsers(s.lim, ka, kb, uid) && s.lim.online == map[] && s.lim.oldOnline == map[] && s.lim.alive == map[]
    ensures var before := [Check(ka, "i", true, 0), Check(kb, "i", true, 0)];
            && LegalRun(PLAIN, "t", s, before)
            && Run(PLAIN, "t", s, before) ==
               s.(lim := s.lim.(online := map[ka := map["i" := 1], kb := map["i" := uid]]))
  {
    var s1 := s.(lim := s.lim.(online := map[ka := map["i" := 1]]));
    PlainCheck(s.lim, ka, "i");
    assert Apply(PLAIN, "t", s, Check(ka, "i", true, 0)) == s1;
    PlainCheck(s1.lim, kb, "i");
    TwoEvents(PLAIN, "t", s, Check(ka, "i", true, 0), Check(kb, "i", true, 0));
  }

  lemma ReportBoth(s: State, ka: string, kb: string, uid: int)
    requires ka != kb && s.online == map[ka := map["i" := 1], kb := map["i" := uid]]
    ensures var order := [(ka, "i"), (kb, "i")];
            && Enumerates(order, s.online) && AllTracked(order, s.online)
            && Report(s, order) == s.(online := map[], oldOnline := map["i" := uid])
  {
    var order := [(ka, "i"), (kb, "i")];
    assert order[..1] == [(ka, "i")] && order[..1][..0] == [];
    assert LastSeen(s.online, order[..1]) == map["i" := 1];
    forall k, ip ensures (k, ip) in order <==> Tracked(s.online, k, ip) {}
  }

  /** The panel counts a device for each, and the second user comes back first. */
  lemma SecondComesBack(s: NodeState, ka: string, kb: string, uid: int)
    requires TwoUsers(s.lim, ka, kb, uid) && s.lim.online == map[] && s.lim.oldOnline == map["i" := uid]
    ensures var after := [Poll(PollResult([], Some(map[1 := 1]), [], NoFault, NoFault)), Check(kb, "i", true, 0)];
            && LegalRun(PLAIN, "t", s, after) && NoReports(after)
            && Run(PLAIN, "t", s, after).userList == s.userList
            && CheckLimit(PLAIN, Run(PLAIN, "t", s, after).lim, ka, "i", true, 0).rejected
  {
    var poll := Poll(PollResult([], Some(map[1 := 1]), [], NoFault, NoFault));
    var s1 := s.(lim := s.lim.(alive := map[1 := 1]));
    assert Apply(PLAIN, "t", s, poll) == s1;
    PlainCheck(s1.lim, kb, "i");
    var s2 := s1.(lim := s1.lim.(online := map[kb := map["i" := uid]], oldOnline := map[]));
    assert Apply(PLAIN, "t", s1, Check(kb, "i", true, 0)) == s2;
    TwoEvents(PLAIN, "t", s, poll, Check(kb, "i", true, 0));
    PlainCheck(s2.lim, ka, "i");
  }

  lemma RefusedRun(s0: NodeState, ka: string, kb: string, uid: int)
    requires TwoUsers(s0.lim, ka, kb, uid)
    requires s0.lim.online == map[] && s0.lim.oldOnline == map[] && s0.lim.alive == map[]
    ensures RefusedAfterReport(PLAIN, "t", s0, [Check(ka, "i", true, 0), Check(kb, "i", true, 0)],
                               [(ka, "i"), (kb, "i")],
                               [Poll(PollResult([], Some(map[1 := 1]), [], NoFault, NoFault)), Check(kb, "i", true, 0)],
                               ka, "i")
  {
    BothConnect(s0, ka, kb, uid);
    var s := s0.(lim := s0.lim.(online := map[ka := map["i" := 1], kb := map["i" := uid]]));
    ReportBoth(s.lim, ka, kb, uid);
    var s1 := s.(lim := s.lim.(online := map[], oldOnline := map["i" := uid]));
    assert Apply(PLAIN, "t", s, ReportOnline([(ka, "i"), (kb, "i")])) == s1;
    SecondComesBack(s1, ka, kb, uid);
  }

  lemma TwoUsersStart(uid: int, core: CoreState)
    ensures var s := Start("t", [UserInfo(1, "a", 0, 1), UserInfo(uid, "b", 0, 1)], map[], core);
            TwoUsers(s.lim, UserTag("t", "a"), UserTag("t", "b"), uid)
  {
    var a, b := UserInfo(1, "a", 0, 1), UserInfo(uid, "b", 0, 1);
    IndexStep("t", [], a);
    IndexStep("t", [a], b);
    assert [] + [a] == [a] && [a] + [b] == [a, b];
    assert UserTag("t", "a")[2] == 'a' && UserTag("t", "b")[2] == 'b';
  }

  /** Two users listed at one address: the one visited last keeps it and, coming back first, uses it up; the other one,
      at its limit, is refused from the address it was reported at. */
  lemma SharedAddressIsRefused(core: CoreState)
    ensures var ka, kb := UserTag("t", "a"), UserTag("t", "b");
            var after := [Poll(PollResult([], Some(map[1 := 1]), [], NoFault, NoFault)), Check(kb, "i", true, 0)];
            RefusedAfterReport(PLAIN, "t", Start("t", [UserInfo(1, "a", 0, 1), UserInfo(2, "b", 0, 1)], map[], core),
                               [Check(ka, "i", true, 0), Check(kb, "i", true, 0)], [(ka, "i"), (kb, "i")], after,
                               ka, "i")
  {
    TwoUsersStart(2, core);
    RefusedRun(Start("t", [UserInfo(1, "a", 0, 1), UserInfo(2, "b", 0, 1)], map[], core),
               UserTag("t", "a"), UserTag("t", "b"), 2);
  }

  /** The refused user even held the address after the report. */
  ghost predicate HeldAndRefused(cfg: Config, tag: string, s0: NodeState, before: seq<Event>, order: VisitOrder,
                                 after: seq<Event>, k: string, ip: string) {
    && RefusedAfterReport(cfg, tag, s0, before, order, after, k, ip)
    && Holds(Report(Run(cfg, tag, s0, before).lim, order), k, ip)
  }

  /** The same with one uid for both users, where the refused one held the address. */
  lemma SharedUidIsRefused(core: CoreState)
    ensures var ka, kb := UserTag("t", "a"), UserTag("t", "b");
            var after := [Poll(PollResult([], Some(map[1 := 1]), [], NoFault, NoFault)), Check(kb, "i", true, 0)];
            HeldAndRefused(PLAIN, "t", Start("t", [UserInfo(1, "a", 0, 1), UserInfo(1, "b", 0, 1)], map[], core),
                           [Check(ka, "i", true, 0), Check(kb, "i", true, 0)], [(ka, "i"), (kb, "i")], after, ka, "i")
  {
    TwoUsersStart(1, core);
    HeldRun(Start("t", [UserInfo(1, "a", 0, 1), UserInfo(1, "b", 0, 1)], map[], core),
            UserTag("t", "a"), UserTag("t", "b"));
  }

  lemma HeldRun(s0: NodeState, ka: string, kb: string)
    requires TwoUsers(s0.lim, ka, kb, 1)
    requires s0.lim.online == map[] && s0.lim.oldOnline == map[] && s0.lim.alive == map[]
    ensures HeldAndRefused(PLAIN, "t", s0, [Check(ka, "i", true, 0), Check(kb, "i", true, 0)],
                           [(ka, "i"), (kb, "i")],
                           [Poll(PollResult([], Some(map[1 := 1]), [], NoFault, NoFault)), Check(kb, "i", true, 0)],
                           ka, "i")
  {
    RefusedRun(s0, ka, kb, 1);
    BothConnect(s0, ka, kb, 1);
    ReportBoth(s0.lim.(online := map[ka := map["i" := 1], kb := map["i" := 1]]), ka, kb, 1);
  }

  // ---- users at their limit ----

  /** While a user stays at its limit between two reports, its addresses stay within those it had tracked at the
      beginning and those of the last report. */
  lemma {:induction false} AtLimitFreeze(cfg: Config, tag: string, s: NodeState, es: seq<Event>, k: string, ip: string)
    requires LegalRun(cfg, tag, s, es) && NoReports(es) && AtLimitRun(cfg, tag, s, es, k)
    requires Addresses(Run(cfg, tag, s, es).lim, k, ip)
    ensures Addresses(s.lim, k, ip)
    decreases |es|
  {
    if es != [] {
      AtLimitFreeze(cfg, tag, Apply(cfg, tag, s, es[0]), es[1..], k, ip);
      EventFreezes(cfg, tag, s, es[0], k, ip);
    }
  }

  /** If every user is at its limit from one report to the next, the second report names no new address. */
  lemma ReportedAddressesNeverGrow(cfg: Config, tag: string, s: NodeState, first: VisitOrder, es: seq<Event>,
          second: VisitOrder)
    requires Legal(s, ReportOnline(first))
    requires var s1 := Apply(cfg, tag, s, ReportOnline(first));
             && LegalRun(cfg, tag, s1, es) && NoReports(es)
             && Legal(Run(cfg, tag, s1, es), ReportOnline(second))
             && forall k :: AtLimitRun(cfg, tag, s1, es, k)
    ensures var s2 := Run(cfg, tag, Apply(cfg, tag, s, ReportOnline(first)), es);
            forall ip :: Listed(Listing(s2.lim.online, second), ip) ==> Listed(Listing(s.lim.online, first), ip)
  {
    var s1 := Apply(cfg, tag, s, ReportOnline(first));
    var s2 := Run(cfg, tag, s1, es);
    ReportIsExact(s.lim, first);
    ReportIsExact(s2.lim, second);
    forall ip | Listed(Listing(s2.lim.online, second), ip) ensures Listed(Listing(s.lim.online, first), ip) {
      var i :| 0 <= i < |second| && Listing(s2.lim.online, second)[i].ip == ip;
      assert Tracked(s2.lim.online, second[i].0, ip) && AtLimitRun(cfg, tag, s1, es, second[i].0);
      AtLimitFreeze(cfg, tag, s1, es, second[i].0, ip);
      assert ip in s1.lim.oldOnline;
    }
  }
}
