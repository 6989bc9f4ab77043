/** The three-way difference between the last accepted user list and a newly polled one. */
module UserList {
  import opened Panel

  /** The list read as a table: the last record of each uuid. */
  function Index(users: seq<UserInfo>): map<string, UserInfo> {
    if users == [] then map[]
    else
      var last := users[|users| - 1];
      Index(users[..|users| - 1])[last.uuid := last]
  }

  predicate LimitsDiffer(o: UserInfo, u: UserInfo) {
    o.speedLimit != u.speedLimit || o.deviceLimit != u.deviceLimit
  }

  /** `u`, seen after `init`, is the first sight of a uuid of `prev`. */
  predicate FirstSight(prev: seq<UserInfo>, init: seq<UserInfo>, u: UserInfo) {
    u.uuid in Index(prev) && u.uuid !in Index(init)
  }

  /** Records of `next` that are not the first sight of a uuid of `prev`, in order. */
  function Added(prev: seq<UserInfo>, next: seq<UserInfo>): seq<UserInfo> {
    if next == [] then []
    else
      var init, u := next[..|next| - 1], next[|next| - 1];
      if FirstSight(prev, init, u) then Added(prev, init) else Added(prev, init) + [u]
  }

  /** Records of `next` that are the first sight of a uuid of `prev` and carry other limits, in order. */
  function Modified(prev: seq<UserInfo>, next: seq<UserInfo>): seq<UserInfo> {
    if next == [] then []
    else
      var init, u := next[..|next| - 1], next[|next| - 1];
      if FirstSight(prev, init, u) && LimitsDiffer(Index(prev)[u.uuid], u) then Modified(prev, init) + [u]
      else Modified(prev, init)
  }

  ghost predicate DistinctUuids(users: seq<UserInfo>) {
    forall i, j :: 0 <= i < j < |users| ==> users[i].uuid != users[j].uuid
  }

  ghost predicate DistinctIds(users: seq<UserInfo>) {
    forall i, j :: 0 <= i < j < |users| ==> users[i].id != users[j].id
  }

  /** `deleted` is, in some order, one record for each uuid of `prev` that `next` lacks. */
  ghost predicate IsDeleted(prev: seq<UserInfo>, next: seq<UserInfo>, deleted: seq<UserInfo>) {
    && DistinctUuids(deleted)
    && Index(deleted) == Index(prev) - Index(next).Keys
  }

  method CompareUserList(prev: seq<UserInfo>, next: seq<UserInfo>)
    returns (deleted: seq<UserInfo>, added: seq<UserInfo>, modified: seq<UserInfo>)
    ensures IsDeleted(prev, next, deleted)
    ensures added == Added(prev, next)
    ensures modified == Modified(prev, next)
  {
    var oldMap := ToMap(prev);
    oldMap, added, modified := Split(prev, next, oldMap);
    IndexUuids(prev);
    deleted := Values(oldMap);
  }

  method ToMap(users: seq<UserInfo>) returns (table: map<string, UserInfo>)
    ensures table == Index(users)
  {
    table := map[];
    for i := 0 to |users|
      invariant table == Index(users[..i])
    {
      IndexAppend(users[..i], users[i]);
      assert users[..i + 1] == users[..i] + [users[i]];
      table := table[users[i].uuid := users[i]];
    }
    assert users[..|users|] == users;
  }

  /** Takes every uuid of the new list out of the table of the old one, sorting the new records on the way. */
  method Split(ghost prev: seq<UserInfo>, next: seq<UserInfo>, table: map<string, UserInfo>)
    returns (oldMap: map<string, UserInfo>, added: seq<UserInfo>, modified: seq<UserInfo>)
    requires table == Index(prev)
    ensures oldMap == Index(prev) - Index(next).Keys
    ensures added == Added(prev, next) && modified == Modified(prev, next)
  {
    oldMap, added, modified := table, [], [];
    assert table - Index(next[..0]).Keys == table;
    for i := 0 to |next|
      invariant oldMap == table - Index(next[..i]).Keys
      invariant added == Added(prev, next[..i]) && modified == Modified(prev, next[..i])
    {
      var u := next[i];
      DiffStep(prev, next[..i], u);
      RemoveStep(table, Index(next[..i]), u);
      assert next[..i + 1] == next[..i] + [u];
      if u.uuid !in oldMap {
        added := added + [u];
      } else {
        if LimitsDiffer(oldMap[u.uuid], u) {
          modified := modified + [u];
        }
        oldMap := oldMap - {u.uuid};
      }
    }
    assert next[..|next|] == next;
  }

  lemma RemoveStep(table: map<string, UserInfo>, seen: map<string, UserInfo>, u: UserInfo)
    ensures table - seen[u.uuid := u].Keys == (table - seen.Keys) - {u.uuid}
    ensures u.uuid !in table - seen.Keys ==> table - seen[u.uuid := u].Keys == table - seen.Keys
  {}

  /** The records of a table keyed by uuid, in no particular order. */
  method Values(table: map<string, UserInfo>) returns (users: seq<UserInfo>)
    requires forall uuid :: uuid in table ==> table[uuid].uuid == uuid
    ensures DistinctUuids(users) && Index(users) == table
  {
    users := [];
    var left := table;
    while left != map[]
      invariant table == left + Index(users)
      invariant left.Keys !! Index(users).Keys
      invariant DistinctUuids(users)
      decreases left.Keys
    {
      var uuid :| uuid in left;
      IndexAppend(users, left[uuid]);
      DistinctAppend(users, left[uuid]);
      MoveKey(table, left, Index(users), uuid);
      users := users + [left[uuid]];
      left := left - {uuid};
    }
  }

  lemma MoveKey(table: map<string, UserInfo>, left: map<string, UserInfo>, done: map<string, UserInfo>, uuid: string)
    requires table == left + done && left.Keys !! done.Keys && uuid in left
    ensures table == (left - {uuid}) + done[uuid := left[uuid]]
    ensures (left - {uuid}).Keys !! done[uuid := left[uuid]].Keys
  {
    var now := (left - {uuid}) + done[uuid := left[uuid]];
    assert now.Keys == table.Keys;
    assert forall k :: k in table ==> now[k] == table[k];
  }

  lemma DistinctAppend(users: seq<UserInfo>, u: UserInfo)
    requires DistinctUuids(users) && u.uuid !in Index(users)
    ensures DistinctUuids(users + [u])
  {
    IndexUuids(users);
    assert forall v :: v in users ==> v.uuid != u.uuid;
  }

  lemma IndexOne(u: UserInfo)
    ensures Index([u]) == map[u.uuid := u]
  {
    IndexAppend([], u);
    assert [] + [u] == [u];
  }

  lemma IndexAppend(users: seq<UserInfo>, u: UserInfo)
    ensures Index(users + [u]) == Index(users)[u.uuid := u]
  {
    assert (users + [u])[..|users|] == users;
  }

  /** Every record is filed under its own uuid, and every uuid of the list is filed. */
  lemma {:induction false} IndexUuids(users: seq<UserInfo>)
    ensures forall uuid :: uuid in Index(users) ==> Index(users)[uuid].uuid == uuid && Index(users)[uuid] in users
    ensures forall u :: u in users ==> u.uuid in Index(users)
  {
    if users != [] {
      IndexUuids(users[..|users| - 1]);
      assert users == users[..|users| - 1] + [users[|users| - 1]];
    }
  }

  /** Of the records of one uuid the table holds the last. */
  lemma {:induction false} LastRecordCounts(users: seq<UserInfo>, i: nat)
    requires i < |users| && forall j :: i < j < |users| ==> users[j].uuid != users[i].uuid
    ensures users[i].uuid in Index(users) && Index(users)[users[i].uuid] == users[i]
  {
    if i < |users| - 1 {
      assert users[|users| - 1].uuid != users[i].uuid;
      LastRecordCounts(users[..|users| - 1], i);
    }
  }

  /** Exactly the uuids that some record carries are in the table. */
  lemma TableNames(users: seq<UserInfo>, uuid: string)
    ensures uuid in Index(users) <==> exists i :: 0 <= i < |users| && users[i].uuid == uuid
  {
    IndexUuids(users);
    if i :| 0 <= i < |users| && users[i].uuid == uuid {
      assert users[i] in users;
    }
    if uuid in Index(users) {
      var i :| 0 <= i < |users| && users[i] == Index(users)[uuid];
    }
  }

  lemma DiffStep(prev: seq<UserInfo>, init: seq<UserInfo>, u: UserInfo)
    ensures Index(init + [u]) == Index(init)[u.uuid := u]
    ensures Added(prev, init + [u]) == if FirstSight(prev, init, u) then Added(prev, init) else Added(prev, init) + [u]
    ensures Modified(prev, init + [u]) ==
            if FirstSight(prev, init, u) && LimitsDiffer(Index(prev)[u.uuid], u) then Modified(prev, init) + [u]
            else Modified(prev, init)
  {
    assert (init + [u])[..|init|] == init;
  }

  /** Where a uuid of the new list ends up, given the tables of the old, new, added and modified records. */
  ghost predicate DiffFacts(was: map<string, UserInfo>, now: map<string, UserInfo>,
                            added: map<string, UserInfo>, modified: map<string, UserInfo>, uuid: string) {
    && (uuid in added ==> uuid in now && added[uuid] == now[uuid])
    && (uuid in now && uuid !in added ==>
          && uuid in was
          && (uuid in modified <==> LimitsDiffer(was[uuid], now[uuid]))
          && (uuid in modified ==> modified[uuid] == now[uuid]))
    && (uuid in modified ==> uuid in was && uuid in now)
  }

  lemma DiffFactsStep(was: map<string, UserInfo>, now: map<string, UserInfo>,
                      added: map<string, UserInfo>, modified: map<string, UserInfo>, u: UserInfo, uuid: string)
    requires DiffFacts(was, now, added, modified, uuid) && DiffFacts(was, now, added, modified, u.uuid)
    ensures DiffFacts(was, now[u.uuid := u],
                      if u.uuid in was && u.uuid !in now then added else added[u.uuid := u],
                      if u.uuid in was && u.uuid !in now && LimitsDiffer(was[u.uuid], u) then modified[u.uuid := u]
                      else modified, uuid)
  {}

  /** The tables of the three lists after one more record. */
  lemma DiffTables(prev: seq<UserInfo>, init: seq<UserInfo>, u: UserInfo)
    ensures Index(init + [u]) == Index(init)[u.uuid := u]
    ensures Index(Added(prev, init + [u])) ==
            if FirstSight(prev, init, u) then Index(Added(prev, init)) else Index(Added(prev, init))[u.uuid := u]
    ensures Index(Modified(prev, init + [u])) ==
            if FirstSight(prev, init, u) && LimitsDiffer(Index(prev)[u.uuid], u)
            then Index(Modified(prev, init))[u.uuid := u] else Index(Modified(prev, init))
  {
    DiffStep(prev, init, u);
    if FirstSight(prev, init, u) {
      IndexAppend(Modified(prev, init), u);
    } else {
      IndexAppend(Added(prev, init), u);
    }
  }

  lemma {:induction false} DiffAt(prev: seq<UserInfo>, next: seq<UserInfo>, uuid: string)
    ensures DiffFacts(Index(prev), Index(next), Index(Added(prev, next)), Index(Modified(prev, next)), uuid)
  {
    if next != [] {
      var init, u := next[..|next| - 1], next[|next| - 1];
      var added, modified := Added(prev, init), Modified(prev, init);
      DiffAt(prev, init, uuid);
      DiffAt(prev, init, u.uuid);
      DiffFactsStep(Index(prev), Index(init), Index(added), Index(modified), u, uuid);
      DiffTables(prev, init, u);
      assert next == init + [u];
    }
  }

  /** A uuid kept in place whose record changed identity although no limit changed. */
  ghost predicate SilentlyRenumbered(prev: seq<UserInfo>, next: seq<UserInfo>, uuid: string) {
    && uuid in Index(prev) && uuid in Index(next) && uuid !in Index(Added(prev, next))
    && !LimitsDiffer(Index(prev)[uuid], Index(next)[uuid])
    && Index(prev)[uuid].id != Index(next)[uuid].id
  }

  ghost function Applied(prev: seq<UserInfo>, next: seq<UserInfo>, deleted: seq<UserInfo>): map<string, UserInfo> {
    (Index(prev) - Index(deleted).Keys) + Index(Modified(prev, next)) + Index(Added(prev, next))
  }

  lemma AppliedAt(prev: seq<UserInfo>, next: seq<UserInfo>, deleted: seq<UserInfo>, uuid: string)
    requires IsDeleted(prev, next, deleted)
    ensures uuid in Applied(prev, next, deleted) <==> uuid in Index(next)
    ensures uuid in Index(next) && Applied(prev, next, deleted)[uuid] != Index(next)[uuid] <==>
            SilentlyRenumbered(prev, next, uuid)
  {
    DiffAt(prev, next, uuid);
    IndexUuids(prev);
    IndexUuids(next);
  }

  /** Applying the three parts to the old table yields the new one, unless an Id alone changed. */
  lemma DiffAppliesIff(prev: seq<UserInfo>, next: seq<UserInfo>, deleted: seq<UserInfo>)
    requires IsDeleted(prev, next, deleted)
    ensures Applied(prev, next, deleted) == Index(next) <==> forall uuid :: !SilentlyRenumbered(prev, next, uuid)
  {
    forall uuid
      ensures uuid in Applied(prev, next, deleted) <==> uuid in Index(next)
      ensures uuid in Index(next) && Applied(prev, next, deleted)[uuid] != Index(next)[uuid] <==>
              SilentlyRenumbered(prev, next, uuid)
    {
      AppliedAt(prev, next, deleted, uuid);
    }
  }

  ghost predicate IsPartition(prev: seq<UserInfo>, next: seq<UserInfo>, added: seq<UserInfo>, modified: seq<UserInfo>) {
    && (forall u :: u in added <==> u in next && u.uuid !in Index(prev))
    && (forall u :: u in modified <==> u in next && u.uuid in Index(prev) && LimitsDiffer(Index(prev)[u.uuid], u))
    && DistinctUuids(added) && DistinctUuids(modified)
  }

  lemma PartitionStep(prev: seq<UserInfo>, init: seq<UserInfo>, u: UserInfo, added: seq<UserInfo>,
          modified: seq<UserInfo>)
    requires IsPartition(prev, init, added, modified) && forall v :: v in init ==> v.uuid != u.uuid
    ensures IsPartition(prev, init + [u],
                        if u.uuid in Index(prev) then added else added + [u],
                        if u.uuid in Index(prev) && LimitsDiffer(Index(prev)[u.uuid], u) then modified + [u]
                        else modified)
  {
    var known := u.uuid in Index(prev);
    assert forall v :: v in init + [u] <==> v in init || v == u;
    if !known {
      DistinctSnoc(added, u);
    } else if LimitsDiffer(Index(prev)[u.uuid], u) {
      DistinctSnoc(modified, u);
    }
  }

  lemma DistinctSnoc(users: seq<UserInfo>, u: UserInfo)
    requires DistinctUuids(users) && forall v :: v in users ==> v.uuid != u.uuid
    ensures DistinctUuids(users + [u])
    ensures forall v :: v in users + [u] <==> v in users || v == u
  {}

  /** For lists without repeats the three parts are an exact partition of the change, each record once. */
  lemma {:induction false} DiffPartition(prev: seq<UserInfo>, next: seq<UserInfo>)
    requires DistinctUuids(next)
    ensures IsPartition(prev, next, Added(prev, next), Modified(prev, next))
  {
    if next != [] {
      var init, u := next[..|next| - 1], next[|next| - 1];
      assert next == init + [u];
      assert forall i :: 0 <= i < |init| ==> init[i] == next[i];
      DiffPartition(prev, init);
      DiffStep(prev, init, u);
      IndexUuids(init);
      assert forall v :: v in init ==> v.uuid != u.uuid;
      PartitionStep(prev, init, u, Added(prev, init), Modified(prev, init));
    }
  }

  /** For any lists no uuid is modified twice. */
  lemma {:induction false} ModifiedOnce(prev: seq<UserInfo>, next: seq<UserInfo>)
    ensures DistinctUuids(Modified(prev, next))
    ensures forall u :: u in Modified(prev, next) ==> u.uuid in Index(next)
  {
    if next != [] {
      var init, u := next[..|next| - 1], next[|next| - 1];
      ModifiedOnce(prev, init);
      assert next == init + [u];
      DiffStep(prev, init, u);
      if FirstSight(prev, init, u) && LimitsDiffer(Index(prev)[u.uuid], u) {
        DistinctSnoc(Modified(prev, init), u);
      }
    }
  }

  /** An Id that changes while the limits do not is missed by the difference. */
  lemma IdChangeIsMissed()
    ensures exists prev, next :: DistinctUuids(prev) && DistinctUuids(next) && SilentlyRenumbered(prev, next, "a")
  {
    var o, n := UserInfo(1, "a", 0, 0), UserInfo(2, "a", 0, 0);
    IndexOne(o);
    IndexOne(n);
    DiffStep([o], [], n);
    assert [] + [n] == [n] && n.uuid !in Index([]);
    assert Added([o], [n]) == Added([o], []) == [];
    assert SilentlyRenumbered([o], [n], "a");
  }

  // ---- lists that name a uuid more than once ----

  /** The first record of each uuid. */
  function Firsts(users: seq<UserInfo>): map<string, UserInfo> {
    if users == [] then map[]
    else
      var init, last := Firsts(users[..|users| - 1]), users[|users| - 1];
      if last.uuid in init then init else init[last.uuid := last]
  }

  ghost predicate Repeats(users: seq<UserInfo>, uuid: string) {
    exists i, j :: 0 <= i < j < |users| && users[i].uuid == users[j].uuid == uuid
  }

  lemma RepeatsStep(users: seq<UserInfo>, u: UserInfo, uuid: string)
    ensures Repeats(users + [u], uuid) <==> Repeats(users, uuid) || (u.uuid == uuid && uuid in Index(users))
  {
    var all := users + [u];
    IndexUuids(users);
    if Repeats(users, uuid) {
      var i, j :| 0 <= i < j < |users| && users[i].uuid == users[j].uuid == uuid;
      assert all[i].uuid == all[j].uuid == uuid;
    } else if u.uuid == uuid && uuid in Index(users) {
      var i :| 0 <= i < |users| && users[i] == Index(users)[uuid];
      assert all[i].uuid == all[|users|].uuid == uuid;
    }
    if i, j :| 0 <= i < j < |all| && all[i].uuid == all[j].uuid == uuid {
      assert all[i] == users[i] && users[i] in users;
      assert j < |users| ==> users[i].uuid == users[j].uuid == uuid;
    }
  }

  /** A known uuid is added again exactly when the list repeats it, and modified by its first record only. */
  ghost predicate RepeatFacts(was: map<string, UserInfo>, now: map<string, UserInfo>, firsts: map<string, UserInfo>,
                              added: map<string, UserInfo>, modified: map<string, UserInfo>, repeats: bool,
                              uuid: string) {
    && (uuid in firsts <==> uuid in now) && (repeats ==> uuid in now)
    && (uuid in now && !repeats ==> firsts[uuid] == now[uuid])
    && (uuid in added <==> uuid in now && (uuid !in was || repeats))
    && (uuid in modified <==> uuid in was && uuid in firsts && LimitsDiffer(was[uuid], firsts[uuid]))
    && (uuid in modified ==> modified[uuid] == firsts[uuid])
  }

  lemma RepeatFactsStep(was: map<string, UserInfo>, now: map<string, UserInfo>, firsts: map<string, UserInfo>,
                        added: map<string, UserInfo>, modified: map<string, UserInfo>, repeats: bool,
                        u: UserInfo, uuid: string)
    requires RepeatFacts(was, now, firsts, added, modified, repeats, uuid)
    ensures RepeatFacts(was, now[u.uuid := u], if u.uuid in firsts then firsts else firsts[u.uuid := u],
                        if u.uuid in was && u.uuid !in now then added else added[u.uuid := u],
                        if u.uuid in was && u.uuid !in now && LimitsDiffer(was[u.uuid], u) then modified[u.uuid := u]
                        else modified, repeats || (u.uuid == uuid && uuid in now), uuid)
  {}

  lemma {:induction false} RepeatsAt(prev: seq<UserInfo>, next: seq<UserInfo>, uuid: string)
    ensures RepeatFacts(Index(prev), Index(next), Firsts(next), Index(Added(prev, next)), Index(Modified(prev, next)),
                        Repeats(next, uuid), uuid)
  {
    if next != [] {
      var init, u := next[..|next| - 1], next[|next| - 1];
      assert next == init + [u];
      RepeatsAt(prev, init, uuid);
      RepeatFactsStep(Index(prev), Index(init), Firsts(init), Index(Added(prev, init)), Index(Modified(prev, init)),
                      Repeats(init, uuid), u, uuid);
      DiffTables(prev, init, u);
      RepeatsStep(init, u, uuid);
    }
  }

  // ---- the same table under the keys of one node ----

  /** The records of a list under the keys of one node; the last record of a key counts. */
  function KeyIndex(tag: string, users: seq<UserInfo>): map<string, UserInfo> {
    if users == [] then map[]
    else
      var last := users[|users| - 1];
      KeyIndex(tag, users[..|users| - 1])[UserTag(tag, last.uuid) := last]
  }

  function Ids(index: map<string, UserInfo>): map<string, int> {
    map uuid | uuid in index :: index[uuid].id
  }

  lemma IndexStep(tag: string, users: seq<UserInfo>, u: UserInfo)
    ensures KeyIndex(tag, users + [u]) == KeyIndex(tag, users)[UserTag(tag, u.uuid) := u]
    ensures Index(users + [u]) == Index(users)[u.uuid := u]
  {
    assert (users + [u])[..|users|] == users;
  }

  lemma {:induction false} KeyIndexKeys(tag: string, users: seq<UserInfo>)
    ensures forall k :: k in KeyIndex(tag, users) ==>
                          k == UserTag(tag, KeyIndex(tag, users)[k].uuid) && KeyIndex(tag, users)[k] in users
  {
    if users != [] {
      KeyIndexKeys(tag, users[..|users| - 1]);
      assert users == users[..|users| - 1] + [users[|users| - 1]];
    }
  }

  lemma {:induction false} KeyIndexAt(tag: string, users: seq<UserInfo>, uuid: string)
    ensures UserTag(tag, uuid) in KeyIndex(tag, users) <==> uuid in Index(users)
    ensures uuid in Index(users) ==> KeyIndex(tag, users)[UserTag(tag, uuid)] == Index(users)[uuid]
  {
    if users != [] {
      KeyIndexAt(tag, users[..|users| - 1], uuid);
      var last := users[|users| - 1];
      if UserTag(tag, uuid) == UserTag(tag, last.uuid) {
        UserTagSameTag(tag, uuid, last.uuid);
      }
    }
  }

  /** The difference as the indexes of one node see it. */
  lemma KeyDiff(tag: string, prev: seq<UserInfo>, next: seq<UserInfo>, deleted: seq<UserInfo>, k: string)
    requires IsDeleted(prev, next, deleted)
    ensures DiffFacts(KeyIndex(tag, prev), KeyIndex(tag, next),
                      KeyIndex(tag, Added(prev, next)), KeyIndex(tag, Modified(prev, next)), k)
    ensures k in KeyIndex(tag, deleted) <==> k in KeyIndex(tag, prev) && k !in KeyIndex(tag, next)
  {
    var added, modified := Added(prev, next), Modified(prev, next);
    if uuid :| k == UserTag(tag, uuid) {
      DiffAt(prev, next, uuid);
      KeyIndexAt(tag, prev, uuid);
      KeyIndexAt(tag, next, uuid);
      KeyIndexAt(tag, added, uuid);
      KeyIndexAt(tag, modified, uuid);
      KeyIndexAt(tag, deleted, uuid);
    } else {
      KeyIndexKeys(tag, prev);
      KeyIndexKeys(tag, next);
      KeyIndexKeys(tag, added);
      KeyIndexKeys(tag, modified);
      KeyIndexKeys(tag, deleted);
    }
  }
}
