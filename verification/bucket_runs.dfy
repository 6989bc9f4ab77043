/** Rate buckets over whole runs of one node. */
module BucketRuns {
  import opened Panel
  import opened UserList
  import opened LimiterSpec
  import opened LimiterInvariants
  import opened CoreUsers
  import opened NodeSync

  /** The limiter knows exactly the users of the accepted list, with their limits, whatever their Ids. */
  ghost predicate KnowsLimits(tag: string, s: NodeState) {
    LimitsAgree(s.lim.info, KeyIndex(tag, s.userList))
  }

  /** The limiter after an accepted poll. */
  function UpdatedLimiter(cfg: Config, tag: string, s: NodeState, p: PollResult): State {
    UpdateUser(cfg, SetAlive(s.lim, p.alive), tag, Added(s.userList, p.users), p.deleted, Modified(s.userList, p.users))
  }

  lemma AcceptedLimiter(cfg: Config, tag: string, s: NodeState, p: PollResult)
    ensures Accepted(tag, s, p) ==> AfterPoll(cfg, tag, s, p).lim == UpdatedLimiter(cfg, tag, s, p)
    ensures !Accepted(tag, s, p) ==> AfterPoll(cfg, tag, s, p).lim == SetAlive(s.lim, p.alive)
  {
    NoChange(cfg, tag, SetAlive(s.lim, p.alive));
  }

  lemma UpdateKeepsLimits(cfg: Config, tag: string, s: NodeState, p: PollResult)
    requires p.users != [] && Legal(s, Poll(p)) && KnowsLimits(tag, s)
    ensures LimitsAgree(UpdatedLimiter(cfg, tag, s, p).info, KeyIndex(tag, p.users))
  {
    var t, index := UpdatedLimiter(cfg, tag, s, p).info, KeyIndex(tag, p.users);
    forall k ensures (k in t <==> k in index) && (k in t ==> t[k] == Limits(index)[k].(uid := t[k].uid)) {
      UpdatedInfoAt(cfg, tag, SetAlive(s.lim, p.alive), s.userList, p.users, p.deleted, k);
    }
  }

  lemma PollKeepsLimits(cfg: Config, tag: string, s: NodeState, p: PollResult)
    requires Legal(s, Poll(p)) && KnowsLimits(tag, s)
    ensures KnowsLimits(tag, AfterPoll(cfg, tag, s, p))
  {
    AcceptedLimiter(cfg, tag, s, p);
    if p.users != [] {
      UpdateKeepsLimits(cfg, tag, s, p);
    }
  }

  lemma KnownIsStatic(tag: string, s: NodeState)
    requires KnowsLimits(tag, s)
    ensures Static(s.lim)
  {}

  lemma EventKeepsKnown(cfg: Config, tag: string, s: NodeState, e: Event)
    requires Legal(s, e) && KnowsLimits(tag, s)
    ensures KnowsLimits(tag, Apply(cfg, tag, s, e))
  {
    match e
    case Check(k, ip, tcp, now) =>
      KnownIsStatic(tag, s);
      CheckKeepsInfo(cfg, s.lim, k, ip, tcp, now);
    case Poll(p) => PollKeepsLimits(cfg, tag, s, p);
    case ReportOnline(order) =>
  }

  // ---- when buckets run at the right rate ----

  /** The rate a connection of this user gets. */
  function RateOf(cfg: Config, u: UserInfo): int {
    Rate(cfg.speedLimit, DetermineSpeedLimit(u.speedLimit, 0))
  }

  /** A user that stays has a bucket once the changed records are dealt with: a changed one by the new limit, an
      unchanged one if some connection made it. */
  predicate KeepsBucket(cfg: Config, tag: string, s: NodeState, next: seq<UserInfo>, uuid: string) {
    var was, firsts := Index(s.userList), Firsts(next);
    && uuid in was && uuid in firsts
    && if LimitsDiffer(was[uuid], firsts[uuid]) then Rate(cfg.speedLimit, firsts[uuid].speedLimit) > 0
       else UserTag(tag, uuid) in s.lim.rates
  }

  /** The list names a user twice with different rates, and the user keeps a bucket: it runs at the rate of the first
      record while the limits become those of the last. */
  ghost predicate StaleBucket(cfg: Config, tag: string, s: NodeState, next: seq<UserInfo>, uuid: string) {
    && KeepsBucket(cfg, tag, s, next, uuid) && uuid in Firsts(next) && uuid in Index(next)
    && RateOf(cfg, Firsts(next)[uuid]) != RateOf(cfg, Index(next)[uuid])
  }

  /** Buckets belong to known users, at whatever rate. */
  ghost predicate BucketsOwned(s: State) {
    s.rates.Keys <= s.info.Keys
  }

  lemma BucketAfterPoll(cfg: Config, tag: string, s: NodeState, p: PollResult, uuid: string)
    requires Legal(s, Poll(p)) && KnowsLimits(tag, s) && BucketsOwned(s.lim) && p.users != []
    ensures var k, t := UserTag(tag, uuid), UpdatedLimiter(cfg, tag, s, p);
            && (k in t.rates <==> KeepsBucket(cfg, tag, s, p.users, uuid))
            && (k in t.rates ==> k in t.info)
  {
    var k, prev, next, modified := UserTag(tag, uuid), s.userList, p.users, Modified(s.userList, p.users);
    RepeatsAt(prev, next, uuid);
    KeyIndexAt(tag, prev, uuid);
    KeyIndexAt(tag, next, uuid);
    KeyIndexAt(tag, modified, uuid);
    KeyDiff(tag, prev, next, p.deleted, k);
    UpdatedInfoAt(cfg, tag, SetAlive(s.lim, p.alive), prev, next, p.deleted, k);
  }

  lemma RateAfterPoll(cfg: Config, tag: string, s: NodeState, p: PollResult, uuid: string)
    requires Legal(s, Poll(p)) && KnowsLimits(tag, s) && BucketsExact(cfg, s.lim) && p.users != []
    ensures var k, t := UserTag(tag, uuid), UpdatedLimiter(cfg, tag, s, p);
            && (k in t.rates <==> KeepsBucket(cfg, tag, s, p.users, uuid))
            && (k in t.rates ==>
                  && uuid in Firsts(p.users) && uuid in Index(p.users) && k in t.info
                  && t.rates[k] == RateOf(cfg, Firsts(p.users)[uuid]) > 0
                  && UserRate(cfg, t.info[k]) == RateOf(cfg, Index(p.users)[uuid]))
  {
    var k, lim := UserTag(tag, uuid), SetAlive(s.lim, p.alive);
    var prev, next, modified := s.userList, p.users, Modified(s.userList, p.users);
    RepeatsAt(prev, next, uuid);
    KeyIndexAt(tag, prev, uuid);
    KeyIndexAt(tag, next, uuid);
    KeyIndexAt(tag, modified, uuid);
    KeyDiff(tag, prev, next, p.deleted, k);
    UpdatedInfoAt(cfg, tag, lim, prev, next, p.deleted, k);
    if k in KeyIndex(tag, modified) && Rate(cfg.speedLimit, Firsts(next)[uuid].speedLimit) > 0 {
      RatesAgree(cfg.speedLimit, Firsts(next)[uuid].speedLimit);
    }
  }

  predicate RunsRight(cfg: Config, s: State, k: string) {
    k in s.rates ==> k in s.info && s.rates[k] > 0 && s.rates[k] == UserRate(cfg, s.info[k])
  }

  lemma StaleIff(cfg: Config, tag: string, s: NodeState, p: PollResult, uuid: string)
    requires Legal(s, Poll(p)) && KnowsLimits(tag, s) && BucketsExact(cfg, s.lim) && p.users != []
    ensures RunsRight(cfg, UpdatedLimiter(cfg, tag, s, p), UserTag(tag, uuid)) <==>
            !StaleBucket(cfg, tag, s, p.users, uuid)
  {
    RateAfterPoll(cfg, tag, s, p, uuid);
  }

  /** An accepted poll leaves every bucket at its user's rate exactly when its list makes no bucket stale. */
  lemma PollExactIff(cfg: Config, tag: string, s: NodeState, p: PollResult)
    requires Legal(s, Poll(p)) && KnowsLimits(tag, s) && BucketsExact(cfg, s.lim) && Accepted(tag, s, p)
    ensures BucketsExact(cfg, AfterPoll(cfg, tag, s, p).lim) <==>
            forall uuid :: !StaleBucket(cfg, tag, s, p.users, uuid)
  {
    AcceptedLimiter(cfg, tag, s, p);
    var t := UpdatedLimiter(cfg, tag, s, p);
    forall uuid | BucketsExact(cfg, t) ensures !StaleBucket(cfg, tag, s, p.users, uuid) {
      StaleIff(cfg, tag, s, p, uuid);
    }
    if !BucketsExact(cfg, t) {
      var k :| k in t.rates && !RunsRight(cfg, t, k);
      RatesAreNamed(cfg, tag, s, p);
      var uuid :| k == UserTag(tag, uuid);
      StaleIff(cfg, tag, s, p, uuid);
    }
  }

  lemma RatesAreNamed(cfg: Config, tag: string, s: NodeState, p: PollResult)
    requires KnowsLimits(tag, s) && BucketsOwned(s.lim)
    ensures forall k :: k in UpdatedLimiter(cfg, tag, s, p).rates ==> exists uuid :: k == UserTag(tag, uuid)
  {
    KeyIndexKeys(tag, s.userList);
    KeyIndexKeys(tag, Modified(s.userList, p.users));
    forall k | k in UpdatedLimiter(cfg, tag, s, p).rates ensures exists uuid :: k == UserTag(tag, uuid) {
      assert k in s.lim.info || k in KeyIndex(tag, Modified(s.userList, p.users));
    }
  }

  lemma StaleNeedsRepeat(cfg: Config, tag: string, s: NodeState, next: seq<UserInfo>, uuid: string)
    requires StaleBucket(cfg, tag, s, next, uuid)
    ensures Repeats(next, uuid) && !DistinctUuids(next)
  {
    RepeatsAt(s.userList, next, uuid);
  }

  lemma EventExactIff(cfg: Config, tag: string, s: NodeState, e: Event)
    requires Legal(s, e) && KnowsLimits(tag, s) && BucketsExact(cfg, s.lim)
    ensures KnowsLimits(tag, Apply(cfg, tag, s, e))
    ensures BucketsExact(cfg, Apply(cfg, tag, s, e).lim) <==>
            (e.Poll? && Accepted(tag, s, e.p) ==> forall uuid :: !StaleBucket(cfg, tag, s, e.p.users, uuid))
  {
    match e
    case Check(k, ip, tcp, now) =>
      KnownIsStatic(tag, s);
      CheckKeepsInfo(cfg, s.lim, k, ip, tcp, now);
      CheckKeepsBuckets(cfg, s.lim, k, ip, tcp, now);
    case Poll(p) =>
      PollKeepsLimits(cfg, tag, s, p);
      AcceptedLimiter(cfg, tag, s, p);
      if Accepted(tag, s, p) {
        PollExactIff(cfg, tag, s, p);
      }
    case ReportOnline(order) =>
  }

  ghost predicate ExactThroughout(cfg: Config, tag: string, s: NodeState, es: seq<Event>)
    requires LegalRun(cfg, tag, s, es)
    decreases |es|
  {
    BucketsExact(cfg, s.lim) && (es == [] || ExactThroughout(cfg, tag, Apply(cfg, tag, s, es[0]), es[1..]))
  }

  /** No accepted list of the run makes a bucket stale. */
  ghost predicate NeverStale(cfg: Config, tag: string, s: NodeState, es: seq<Event>)
    requires LegalRun(cfg, tag, s, es)
    decreases |es|
  {
    es == [] ||
    (&& (es[0].Poll? && Accepted(tag, s, es[0].p) ==> forall uuid :: !StaleBucket(cfg, tag, s, es[0].p.users, uuid))
     && NeverStale(cfg, tag, Apply(cfg, tag, s, es[0]), es[1..]))
  }

  /** Core failures and changed Ids included, every bucket belongs to a known user and runs at that user's rate, in
      every state between two events of a run, exactly when no accepted list of the run makes a bucket stale. */
  lemma {:induction false} BucketsExactIff(cfg: Config, tag: string, s: NodeState, es: seq<Event>)
    requires LegalRun(cfg, tag, s, es) && KnowsLimits(tag, s) && BucketsExact(cfg, s.lim)
    ensures ExactThroughout(cfg, tag, s, es) <==> NeverStale(cfg, tag, s, es)
    ensures NeverStale(cfg, tag, s, es) ==>
              KnowsLimits(tag, Run(cfg, tag, s, es)) && BucketsExact(cfg, Run(cfg, tag, s, es).lim)
    decreases |es|
  {
    if es != [] {
      var t := Apply(cfg, tag, s, es[0]);
      EventExactIff(cfg, tag, s, es[0]);
      if BucketsExact(cfg, t.lim) {
        BucketsExactIff(cfg, tag, t, es[1..]);
      }
    }
  }

  ghost predicate DistinctUuidPolls(es: seq<Event>) {
    forall i :: 0 <= i < |es| && es[i].Poll? ==> DistinctUuids(es[i].p.users)
  }

  lemma {:induction false} DistinctIsNeverStale(cfg: Config, tag: string, s: NodeState, es: seq<Event>)
    requires LegalRun(cfg, tag, s, es) && DistinctUuidPolls(es)
    ensures NeverStale(cfg, tag, s, es)
    decreases |es|
  {
    if es != [] {
      DistinctIsNeverStale(cfg, tag, Apply(cfg, tag, s, es[0]), es[1..]);
      if es[0].Poll? {
        forall uuid ensures !StaleBucket(cfg, tag, s, es[0].p.users, uuid) {
          if StaleBucket(cfg, tag, s, es[0].p.users, uuid) {
            StaleNeedsRepeat(cfg, tag, s, es[0].p.users, uuid);
          }
        }
      }
    }
  }

  /** While no list repeats a uuid, in every state a started node can reach each bucket belongs to a known user and
      runs at exactly that user's rate, and an admitted connection of a limited user gets such a bucket. */
  lemma BucketsAlwaysExact(cfg: Config, tag: string, users: seq<UserInfo>, alive: map<int, int>, core: CoreState,
                           es: seq<Event>, k: string, ip: string, tcp: bool, now: int)
    requires LegalRun(cfg, tag, Start(tag, users, alive, core), es) && DistinctUuidPolls(es)
    ensures var s := Run(cfg, tag, Start(tag, users, alive, core), es).lim;
            var r := CheckLimit(cfg, s, k, ip, tcp, now);
            && BucketsExact(cfg, s)
            && (r.limited <==> !r.rejected && UserRate(cfg, s.info[k]) > 0)
            && (r.limited ==> k in r.state.rates && r.state.rates[k] == UserRate(cfg, s.info[k]))
  {
    var s0 := Start(tag, users, alive, core);
    DistinctIsNeverStale(cfg, tag, s0, es);
    BucketsExactIff(cfg, tag, s0, es);
    KnownIsStatic(tag, Run(cfg, tag, s0, es));
    AdmittedAtUserRate(cfg, Run(cfg, tag, s0, es).lim, k, ip, tcp, now);
  }

  /** The poll is accepted and leaves some bucket at a rate that is not its user's. */
  ghost predicate TakesOutOfStep(cfg: Config, tag: string, s: NodeState, p: PollResult) {
    && Legal(s, Poll(p)) && Accepted(tag, s, p)
    && BucketsExact(cfg, s.lim) && !BucketsExact(cfg, AfterPoll(cfg, tag, s, p).lim)
  }

  /** A list that names a kept user twice leaves the user's bucket at the rate of the first record. */
  lemma RepeatedUuidGoesStale(core: CoreState)
    requires "t" in core.inbound
    ensures var p := PollResult([UserInfo(1, "a", 2, 0), UserInfo(1, "a", 3, 0)], None, [], NoFault, NoFault);
            TakesOutOfStep(Config("vless", 0), "t", Start("t", [UserInfo(1, "a", 1, 0)], map[], core), p)
  {
    var o := UserInfo(1, "a", 1, 0);
    var p := PollResult([UserInfo(1, "a", 2, 0), UserInfo(1, "a", 3, 0)], None, [], NoFault, NoFault);
    SecondRecordIsStale(Config("vless", 0), Start("t", [o], map[], core), p, o);
  }

  lemma SecondRecordIsStale(cfg: Config, s: NodeState, p: PollResult, o: UserInfo)
    requires cfg == Config("vless", 0) && o == UserInfo(1, "a", 1, 0) && s.userList == [o] && s.lim.rates == map[]
    requires p == PollResult([UserInfo(1, "a", 2, 0), UserInfo(1, "a", 3, 0)], None, [], NoFault, NoFault)
    requires KnowsLimits("t", s) && "t" in s.core.inbound
    ensures TakesOutOfStep(cfg, "t", s, p)
  {
    TwoRecords(p.users[0], p.users[1]);
    IndexOne(o);
    assert Index([o]) - Index(p.users).Keys == map[];
    NothingFails("t", s, p);
    assert StaleBucket(cfg, "t", s, p.users, "a");
    PollExactIff(cfg, "t", s, p);
  }

  lemma NothingFails(tag: string, s: NodeState, p: PollResult)
    requires tag in s.core.inbound && p.users != [] && p.delFault == p.addFault == NoFault
    ensures Accepted(tag, s, p)
  {}

  lemma TwoRecords(u: UserInfo, v: UserInfo)
    requires u.uuid == v.uuid
    ensures Index([u, v]) == map[u.uuid := v] && Firsts([u, v]) == map[u.uuid := u]
  {
    IndexOne(u);
    IndexAppend([u], v);
    assert [u] + [v] == [u, v] && [u, v][..1] == [u] && [u][..0] == [];
    assert Firsts([u]) == map[u.uuid := u];
  }

  // ---- how long a connection's bucket lives ----

  lemma PollKeepsOwned(cfg: Config, tag: string, s: NodeState, p: PollResult)
    requires Legal(s, Poll(p)) && KnowsLimits(tag, s) && BucketsOwned(s.lim) && p.users != []
    ensures BucketsOwned(UpdatedLimiter(cfg, tag, s, p))
  {
    RatesAreNamed(cfg, tag, s, p);
    forall k | k in UpdatedLimiter(cfg, tag, s, p).rates ensures k in UpdatedLimiter(cfg, tag, s, p).info {
      var uuid :| k == UserTag(tag, uuid);
      BucketAfterPoll(cfg, tag, s, p, uuid);
    }
  }

  lemma CheckKeepsBucketsOwned(cfg: Config, s: State, k: string, rawIp: string, tcp: bool, now: int)
    requires Static(s) && BucketsOwned(s)
    ensures BucketsOwned(CheckLimit(cfg, s, k, rawIp, tcp, now).state)
  {
    CheckKeepsInfo(cfg, s, k, rawIp, tcp, now);
    CheckKeepsRates(cfg, s, k, rawIp, tcp, now);
  }

  lemma EventKeepsBucketsOwned(cfg: Config, tag: string, s: NodeState, e: Event)
    requires Legal(s, e) && KnowsLimits(tag, s) && BucketsOwned(s.lim)
    ensures BucketsOwned(Apply(cfg, tag, s, e).lim)
  {
    match e
    case Check(k, ip, tcp, now) =>
      KnownIsStatic(tag, s);
      CheckKeepsBucketsOwned(cfg, s.lim, k, ip, tcp, now);
    case Poll(p) =>
      AcceptedLimiter(cfg, tag, s, p);
      if Accepted(tag, s, p) {
        PollKeepsOwned(cfg, tag, s, p);
      }
    case ReportOnline(order) =>
  }

  lemma EventBucketIff(cfg: Config, tag: string, s: NodeState, e: Event, uuid: string)
    requires Legal(s, e) && KnowsLimits(tag, s) && BucketsOwned(s.lim) && UserTag(tag, uuid) in s.lim.rates
    ensures UserTag(tag, uuid) in Apply(cfg, tag, s, e).lim.rates <==>
            (e.Poll? && Accepted(tag, s, e.p) ==> KeepsBucket(cfg, tag, s, e.p.users, uuid))
  {
    match e
    case Check(k, ip, tcp, now) => CheckKeepsRates(cfg, s.lim, k, ip, tcp, now);
    case Poll(p) =>
      AcceptedLimiter(cfg, tag, s, p);
      if Accepted(tag, s, p) {
        BucketAfterPoll(cfg, tag, s, p, uuid);
      }
    case ReportOnline(order) =>
  }

  ghost predicate HasBucketThroughout(cfg: Config, tag: string, s: NodeState, es: seq<Event>, k: string)
    requires LegalRun(cfg, tag, s, es)
    decreases |es|
  {
    k in s.lim.rates && (es == [] || HasBucketThroughout(cfg, tag, Apply(cfg, tag, s, es[0]), es[1..], k))
  }

  /** Every accepted list of the run names the user and, where it changes the user's limits, limits its speed. */
  ghost predicate AlwaysKeepsBucket(cfg: Config, tag: string, s: NodeState, es: seq<Event>, uuid: string)
    requires LegalRun(cfg, tag, s, es)
    decreases |es|
  {
    es == [] ||
    (&& (es[0].Poll? && Accepted(tag, s, es[0].p) ==> KeepsBucket(cfg, tag, s, es[0].p.users, uuid))
     && AlwaysKeepsBucket(cfg, tag, Apply(cfg, tag, s, es[0]), es[1..], uuid))
  }

  /** For any lists, core failures and changed Ids included: the bucket that a connection was handed stays the user's
      bucket throughout a run exactly when every accepted list of the run keeps it. */
  lemma {:induction false} BucketLivesIff(cfg: Config, tag: string, s: NodeState, es: seq<Event>, uuid: string)
    requires LegalRun(cfg, tag, s, es) && KnowsLimits(tag, s) && BucketsOwned(s.lim)
    requires UserTag(tag, uuid) in s.lim.rates
    ensures HasBucketThroughout(cfg, tag, s, es, UserTag(tag, uuid)) <==> AlwaysKeepsBucket(cfg, tag, s, es, uuid)
    decreases |es|
  {
    if es != [] {
      var t := Apply(cfg, tag, s, es[0]);
      EventBucketIff(cfg, tag, s, es[0], uuid);
      EventKeepsKnown(cfg, tag, s, es[0]);
      EventKeepsBucketsOwned(cfg, tag, s, es[0]);
      if UserTag(tag, uuid) in t.lim.rates {
        BucketLivesIff(cfg, tag, t, es[1..], uuid);
      }
    }
  }

  // ---- in terms of the user's limit ----

  /** The user is known and its rate is limited: a connection admitted now runs under a bucket. */
  predicate Limited(cfg: Config, s: State, k: string) {
    k in s.info && UserRate(cfg, s.info[k]) > 0
  }

  predicate NonNegativeSpeeds(users: seq<UserInfo>) {
    forall i :: 0 <= i < |users| ==> users[i].speedLimit >= 0
  }

  lemma InfoAfterPoll(cfg: Config, tag: string, s: NodeState, p: PollResult, uuid: string)
    requires Legal(s, Poll(p)) && KnowsLimits(tag, s) && p.users != []
    ensures var k, t := UserTag(tag, uuid), UpdatedLimiter(cfg, tag, s, p);
            && (k in t.info <==> uuid in Index(p.users))
            && (k in t.info ==> UserRate(cfg, t.info[k]) == RateOf(cfg, Index(p.users)[uuid]))
  {
    UpdatedInfoAt(cfg, tag, SetAlive(s.lim, p.alive), s.userList, p.users, p.deleted, UserTag(tag, uuid));
    KeyIndexAt(tag, p.users, uuid);
  }

  lemma PlainRate(cfg: Config, u: UserInfo)
    requires cfg.speedLimit >= 0 && u.speedLimit >= 0
    ensures RateOf(cfg, u) == Rate(cfg.speedLimit, u.speedLimit)
  {}

  lemma PollKeepsBucketAt(cfg: Config, tag: string, s: NodeState, p: PollResult, uuid: string)
    requires Legal(s, Poll(p)) && KnowsLimits(tag, s) && BucketsExact(cfg, s.lim) && p.users != []
    requires cfg.speedLimit >= 0 && NonNegativeSpeeds(p.users) && DistinctUuids(p.users)
    requires UserTag(tag, uuid) in s.lim.rates
    ensures var k, t := UserTag(tag, uuid), UpdatedLimiter(cfg, tag, s, p); k in t.rates <==> Limited(cfg, t, k)
  {
    RateAfterPoll(cfg, tag, s, p, uuid);
    InfoAfterPoll(cfg, tag, s, p, uuid);
    KeyIndexAt(tag, s.userList, uuid);
    RepeatsAt(s.userList, p.users, uuid);
    if uuid in Index(p.users) {
      IndexUuids(p.users);
      PlainRate(cfg, Index(p.users)[uuid]);
    }
  }

  lemma EventKeepsBucketIff(cfg: Config, tag: string, s: NodeState, e: Event, k: string)
    requires Legal(s, e) && KnowsLimits(tag, s) && BucketsExact(cfg, s.lim) && k in s.lim.rates
    requires e.Poll? ==> NonNegativeSpeeds(e.p.users) && DistinctUuids(e.p.users)
    requires cfg.speedLimit >= 0
    ensures k in Apply(cfg, tag, s, e).lim.rates <==> Limited(cfg, Apply(cfg, tag, s, e).lim, k)
  {
    match e
    case Check(k', ip, tcp, now) =>
      KnownIsStatic(tag, s);
      CheckKeepsInfo(cfg, s.lim, k', ip, tcp, now);
      CheckKeepsRates(cfg, s.lim, k', ip, tcp, now);
    case Poll(p) =>
      AcceptedLimiter(cfg, tag, s, p);
      if Accepted(tag, s, p) {
        KeyIndexKeys(tag, s.userList);
        PollKeepsBucketAt(cfg, tag, s, p, KeyIndex(tag, s.userList)[k].uuid);
      }
    case ReportOnline(order) =>
  }

  ghost predicate LimitedThroughout(cfg: Config, tag: string, s: NodeState, es: seq<Event>, k: string)
    requires LegalRun(cfg, tag, s, es)
    decreases |es|
  {
    Limited(cfg, s.lim, k) && (es == [] || LimitedThroughout(cfg, tag, Apply(cfg, tag, s, es[0]), es[1..], k))
  }

  /** While no list repeats a uuid or carries a negative speed limit, a user keeps its bucket, at its current rate,
      exactly as long as it stays known and limited. */
  lemma {:induction false} BucketLivesWhileLimited(cfg: Config, tag: string, s: NodeState, es: seq<Event>, k: string)
    requires LegalRun(cfg, tag, s, es) && KnowsLimits(tag, s) && BucketsExact(cfg, s.lim) && k in s.lim.rates
    requires DistinctUuidPolls(es) && cfg.speedLimit >= 0
    requires forall i :: 0 <= i < |es| && es[i].Poll? ==> NonNegativeSpeeds(es[i].p.users)
    ensures HasBucketThroughout(cfg, tag, s, es, k) <==> LimitedThroughout(cfg, tag, s, es, k)
    ensures HasBucketThroughout(cfg, tag, s, es, k) ==>
              var t := Run(cfg, tag, s, es).lim;
              Limited(cfg, t, k) && k in t.rates && t.rates[k] == UserRate(cfg, t.info[k])
    decreases |es|
  {
    if es != [] {
      var t := Apply(cfg, tag, s, es[0]);
      DistinctIsNeverStale(cfg, tag, s, es);
      EventExactIff(cfg, tag, s, es[0]);
      EventKeepsBucketIff(cfg, tag, s, es[0], k);
      if k in t.lim.rates {
        BucketLivesWhileLimited(cfg, tag, t, es[1..], k);
      }
    }
  }
}
