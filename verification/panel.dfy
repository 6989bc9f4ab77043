/** Records exchanged with the panel, and the key under which one user of one node is filed. */
module Panel {
  datatype Option<+T> = None | Some(value: T)

  datatype UserInfo = UserInfo(id: int, uuid: string, speedLimit: int, deviceLimit: int)

  datatype OnlineUser = OnlineUser(uid: int, ip: string)

  datatype UserTraffic = UserTraffic(uid: int, upload: int, download: int)

  /** The key of a user in every index shared by the nodes. */
  function UserTag(tag: string, uuid: string): string {
    tag + "|" + uuid
  }

  lemma UserTagSameTag(tag: string, u1: string, u2: string)
    requires UserTag(tag, u1) == UserTag(tag, u2)
    ensures u1 == u2
  {
    var n := |tag| + 1;
    assert UserTag(tag, u1)[n..] == u1 && UserTag(tag, u2)[n..] == u2;
  }

  /** No key made with a uuid of `uuids` can be read back as another (tag, uuid) pair. */
  ghost predicate CollisionFree(uuids: set<string>) {
    forall t1, u1, t2, u2 :: u1 in uuids && u2 in uuids && UserTag(t1, u1) == UserTag(t2, u2) ==> t1 == t2 && u1 == u2
  }

  predicate EndsWith(s: string, suffix: string) {
    |suffix| <= |s| && s[|s| - |suffix|..] == suffix
  }

  /** What a caller can check on the uuids alone. */
  ghost predicate NoBarSuffix(uuids: set<string>) {
    forall u1, u2 :: u1 in uuids && u2 in uuids ==> !EndsWith(u1, "|" + u2)
  }

  lemma CollisionNeedsBar(t1: string, u1: string, t2: string, u2: string)
    requires UserTag(t1, u1) == UserTag(t2, u2) && |u2| < |u1|
    ensures EndsWith(u1, "|" + u2)
  {
    var s := UserTag(t1, u1);
    var n := |s| - |u2| - 1;
    assert s[n..] == "|" + u2 by { assert UserTag(t2, u2)[|t2|..] == "|" + u2; }
    assert s[|t1| + 1..] == u1;
    assert s[n..] == u1[n - |t1| - 1..];
  }

  lemma BarMakesCollision(u1: string, u2: string)
    requires EndsWith(u1, "|" + u2)
    ensures UserTag("", u1) == UserTag("|" + u1[..|u1| - |u2| - 1], u2) && u1 != u2
  {
    assert u1 == u1[..|u1| - |u2| - 1] + ("|" + u2);
  }

  /** Keys of different nodes stay apart exactly when no uuid ends in a bar and another uuid. */
  lemma CollisionFreeIff(uuids: set<string>)
    ensures CollisionFree(uuids) <==> NoBarSuffix(uuids)
  {
    if CollisionFree(uuids) {
      forall u1, u2 | u1 in uuids && u2 in uuids ensures !EndsWith(u1, "|" + u2) {
        if EndsWith(u1, "|" + u2) {
          BarMakesCollision(u1, u2);
        }
      }
    }
    if NoBarSuffix(uuids) {
      forall t1, u1, t2, u2 | u1 in uuids && u2 in uuids && UserTag(t1, u1) == UserTag(t2, u2)
        ensures t1 == t2 && u1 == u2
      {
        if |u2| < |u1| {
          CollisionNeedsBar(t1, u1, t2, u2);
        } else if |u1| < |u2| {
          CollisionNeedsBar(t2, u2, t1, u1);
        } else {
          var s := UserTag(t1, u1);
          assert s[..|t1|] == t1 && s[|t1| + 1..] == u1;
          assert UserTag(t2, u2)[..|t2|] == t2 && UserTag(t2, u2)[|t2| + 1..] == u2;
        }
      }
    }
  }
}
