/** The map posted for the entries of one pass, and when it carries every byte of them. */
module TrafficPosts {
  import opened Panel
  import opened UserList
  import opened NodeSync
  import opened Traffic

  function PushMap(slice: seq<UserTraffic>): map<int, seq<int>> {
    if slice == [] then map[]
    else
      var t := slice[|slice| - 1];
      PushMap(slice[..|slice| - 1])[t.uid := [t.upload, t.download]]
  }

  method BuildPushMap(slice: seq<UserTraffic>) returns (data: map<int, seq<int>>)
    ensures data == PushMap(slice)
  {
    data := map[];
    for i := 0 to |slice|
      invariant data == PushMap(slice[..i])
    {
      assert slice[..i + 1][..i] == slice[..i];
      data := data[slice[i].uid := [slice[i].upload, slice[i].download]];
    }
    assert slice[..|slice|] == slice;
  }

  /** All bytes the slice holds for one uid. */
  function SumFor(slice: seq<UserTraffic>, uid: int): int {
    if slice == [] then 0
    else
      var t := slice[|slice| - 1];
      SumFor(slice[..|slice| - 1], uid) + if t.uid == uid then t.upload + t.download else 0
  }

  function Posted(data: map<int, seq<int>>, uid: int): int {
    if uid in data && |data[uid]| == 2 then data[uid][0] + data[uid][1] else 0
  }

  ghost predicate AllPositive(slice: seq<UserTraffic>) {
    forall i :: 0 <= i < |slice| ==> slice[i].upload + slice[i].download > 0
  }

  ghost predicate DistinctUids(slice: seq<UserTraffic>) {
    forall i, j :: 0 <= i < j < |slice| ==> slice[i].uid != slice[j].uid
  }

  lemma {:induction false} SumForFacts(slice: seq<UserTraffic>, uid: int)
    requires AllPositive(slice)
    ensures SumFor(slice, uid) >= Posted(PushMap(slice), uid) >= 0
    ensures SumFor(slice, uid) > 0 <==> HasUid(slice, uid)
  {
    if slice != [] {
      var init, last := slice[..|slice| - 1], slice[|slice| - 1];
      SumForFacts(init, uid);
      assert slice == init + [last];
      assert last.uid == uid ==> HasUid(slice, uid);
      assert HasUid(slice, uid) <==> HasUid(init, uid) || last.uid == uid;
    }
  }

  ghost predicate HasUid(slice: seq<UserTraffic>, uid: int) {
    exists t :: t in slice && t.uid == uid
  }

  /** Whether the map hands each uid everything the slice held for it. */
  ghost predicate PushLosesNothing(slice: seq<UserTraffic>) {
    forall uid :: Posted(PushMap(slice), uid) == SumFor(slice, uid)
  }

  /** The posted map loses nothing exactly when no uid occurs twice in the slice. */
  lemma {:induction false} PushLosesNothingIff(slice: seq<UserTraffic>)
    requires AllPositive(slice)
    ensures PushLosesNothing(slice) <==> DistinctUids(slice)
  {
    if slice != [] {
      var init, t := slice[..|slice| - 1], slice[|slice| - 1];
      assert slice == init + [t];
      PushLosesNothingIff(init);
      SumForFacts(init, t.uid);
      assert Posted(PushMap(slice), t.uid) == t.upload + t.download;
      if PushLosesNothing(slice) {
        assert Posted(PushMap(slice), t.uid) == SumFor(slice, t.uid);
        forall uid ensures Posted(PushMap(init), uid) == SumFor(init, uid) {
          SumForFacts(init, uid);
          assert Posted(PushMap(slice), uid) == SumFor(slice, uid);
        }
      }
      if DistinctUids(slice) {
        assert forall i :: 0 <= i < |init| ==> init[i] == slice[i];
        assert PushLosesNothing(init) && SumFor(init, t.uid) == 0;
        forall uid ensures Posted(PushMap(slice), uid) == SumFor(slice, uid) {
          assert Posted(PushMap(init), uid) == SumFor(init, uid);
        }
      }
    }
  }

  // ---- one pass and its post ----

  lemma {:induction false} SliceIsPositive(view: map<string, Bytes>, uidMap: map<string, int>, min: int,
          order: seq<string>)
    requires min >= 0
    ensures AllPositive(Slice(view, uidMap, min, order))
  {
    if order != [] {
      SliceIsPositive(view, uidMap, min, order[..|order| - 1]);
    }
  }

  /** Two storages of one pass handed over under one uid. */
  ghost predicate UidClash(view: map<string, Bytes>, uidMap: map<string, int>, min: int, order: seq<string>) {
    exists i, j :: 0 <= i < j < |order| &&
                   HandsOver(view, uidMap, min, order[i]) && HandsOver(view, uidMap, min, order[j]) &&
                   Uid(uidMap, order[i]) == Uid(uidMap, order[j])
  }

  ghost predicate HandedUnder(view: map<string, Bytes>, uidMap: map<string, int>, min: int, order: seq<string>,
                              uid: int) {
    exists i :: 0 <= i < |order| && HandsOver(view, uidMap, min, order[i]) && Uid(uidMap, order[i]) == uid
  }

  lemma {:induction false} SliceUids(view: map<string, Bytes>, uidMap: map<string, int>, min: int, order: seq<string>,
                                     uid: int)
    ensures HasUid(Slice(view, uidMap, min, order), uid) <==> HandedUnder(view, uidMap, min, order, uid)
  {
    if order != [] {
      var init, email := order[..|order| - 1], order[|order| - 1];
      assert order == init + [email];
      SliceUids(view, uidMap, min, init, uid);
      SliceStep(view, uidMap, min, init, email);
      var slice := Slice(view, uidMap, min, init);
      if HandsOver(view, uidMap, min, email) {
        var t := UserTraffic(Uid(uidMap, email), view[email].up, view[email].down);
        assert t in slice + [t];
        assert HasUid(slice + [t], uid) <==> HasUid(slice, uid) || t.uid == uid;
      }
      assert forall i :: 0 <= i < |init| ==> init[i] == order[i];
    }
  }

  lemma DistinctStep(slice: seq<UserTraffic>, t: UserTraffic)
    ensures DistinctUids(slice + [t]) <==> DistinctUids(slice) && !HasUid(slice, t.uid)
  {
    var all := slice + [t];
    if DistinctUids(all) {
      forall i, j | 0 <= i < j < |slice| ensures slice[i].uid != slice[j].uid {
        assert all[i].uid != all[j].uid;
      }
      forall i | 0 <= i < |slice| ensures slice[i].uid != t.uid {
        assert all[i].uid != all[|slice|].uid;
      }
    }
    if DistinctUids(slice) && !HasUid(slice, t.uid) {
      forall i, j | 0 <= i < j < |all| ensures all[i].uid != all[j].uid {
        assert slice[i] in slice;
      }
    }
  }

  lemma ClashStep(view: map<string, Bytes>, uidMap: map<string, int>, min: int, order: seq<string>, email: string)
    ensures UidClash(view, uidMap, min, order + [email]) <==>
            UidClash(view, uidMap, min, order) ||
            (HandsOver(view, uidMap, min, email) && HandedUnder(view, uidMap, min, order, Uid(uidMap, email)))
  {
    var all := order + [email];
    assert forall i :: 0 <= i < |order| ==> all[i] == order[i];
    if UidClash(view, uidMap, min, order) {
      var i, j :| 0 <= i < j < |order| &&
                  HandsOver(view, uidMap, min, order[i]) && HandsOver(view, uidMap, min, order[j]) &&
                  Uid(uidMap, order[i]) == Uid(uidMap, order[j]);
      assert HandsOver(view, uidMap, min, all[i]) && HandsOver(view, uidMap, min, all[j]);
    } else if HandsOver(view, uidMap, min, email) && HandedUnder(view, uidMap, min, order, Uid(uidMap, email)) {
      var i :| 0 <= i < |order| && HandsOver(view, uidMap, min, order[i]) &&
               Uid(uidMap, order[i]) == Uid(uidMap, email);
      assert HandsOver(view, uidMap, min, all[i]) && HandsOver(view, uidMap, min, all[|order|]);
    }
  }

  lemma {:induction false} SliceDistinctIff(view: map<string, Bytes>, uidMap: map<string, int>, min: int,
                                            order: seq<string>)
    ensures DistinctUids(Slice(view, uidMap, min, order)) <==> !UidClash(view, uidMap, min, order)
  {
    if order != [] {
      var init, email := order[..|order| - 1], order[|order| - 1];
      assert order == init + [email];
      SliceDistinctIff(view, uidMap, min, init);
      SliceStep(view, uidMap, min, init, email);
      ClashStep(view, uidMap, min, init, email);
      SliceUids(view, uidMap, min, init, Uid(uidMap, email));
      if HandsOver(view, uidMap, min, email) {
        var t := UserTraffic(Uid(uidMap, email), view[email].up, view[email].down);
        DistinctStep(Slice(view, uidMap, min, init), t);
      }
    }
  }

  /** The posted map of a pass hands every uid all its bytes exactly when the pass hands over no two storages under
      one uid. */
  lemma PassPostsAllIff(view: map<string, Bytes>, uidMap: map<string, int>, min: int, order: seq<string>)
    requires min >= 0
    ensures PushLosesNothing(Slice(view, uidMap, min, order)) <==> !UidClash(view, uidMap, min, order)
  {
    SliceIsPositive(view, uidMap, min, order);
    PushLosesNothingIff(Slice(view, uidMap, min, order));
    SliceDistinctIff(view, uidMap, min, order);
  }

  /** The storages of a node are filed under the keys of its users. */
  ghost predicate KeysOfNode(tag: string, emails: set<string>) {
    forall email :: email in emails ==> exists uuid :: email == UserTag(tag, uuid)
  }

  /** While the uid index agrees with a list without repeated Ids, no pass of the node meets two users of one uid,
      whatever the other nodes that share the index serve. */
  lemma SyncedPassHasNoClash(tag: string, s: NodeState, view: map<string, Bytes>, min: int, order: seq<string>)
    requires CoreInSync(tag, s) && DistinctIds(s.userList) && KeysOfNode(tag, view.Keys)
    requires forall i, j :: 0 <= i < j < |order| ==> order[i] != order[j]
    ensures !UidClash(view, s.core.uidMap, min, order)
  {
    var uidMap, index := s.core.uidMap, Index(s.userList);
    forall i, j | 0 <= i < j < |order| &&
                  HandsOver(view, uidMap, min, order[i]) && HandsOver(view, uidMap, min, order[j])
      ensures Uid(uidMap, order[i]) != Uid(uidMap, order[j])
    {
      var u :| order[i] == UserTag(tag, u);
      var v :| order[j] == UserTag(tag, v);
      assert UidAgrees(tag, uidMap, index, u) && UidAgrees(tag, uidMap, index, v);
      IndexUuids(s.userList);
      var a :| 0 <= a < |s.userList| && s.userList[a] == index[u];
      var b :| 0 <= b < |s.userList| && s.userList[b] == index[v];
      assert a != b;
    }
  }

  /** A pass of a node in step with its list posts exactly the bytes of each storage above the threshold whose user is
      known, under that user's uid, and nothing else. */
  lemma PassIsPosted(tag: string, s: NodeState, view: map<string, Bytes>, min: int, order: seq<string>)
    requires CoreInSync(tag, s) && DistinctIds(s.userList)
    requires KeysOfNode(tag, view.Keys) && Enumerates(order, view.Keys)
    ensures var uidMap := s.core.uidMap;
            var data := PushMap(Slice(view, uidMap, min, order));
            && (forall email :: HandsOver(view, uidMap, min, email) ==>
                                  Uid(uidMap, email) in data &&
                                  data[Uid(uidMap, email)] == [view[email].up, view[email].down])
            && (forall uid :: uid in data ==>
                                exists email :: HandsOver(view, uidMap, min, email) && Uid(uidMap, email) == uid)
  {
    SyncedPassHasNoClash(tag, s, view, min, order);
    ClashFreePush(view, s.core.uidMap, min, order);
    forall uid | uid in PushMap(Slice(view, s.core.uidMap, min, order))
      ensures exists email :: HandsOver(view, s.core.uidMap, min, email) && Uid(s.core.uidMap, email) == uid
    {
      PushKeys(Slice(view, s.core.uidMap, min, order), uid);
      SliceUids(view, s.core.uidMap, min, order, uid);
      var i :| 0 <= i < |order| && HandsOver(view, s.core.uidMap, min, order[i]) && Uid(s.core.uidMap, order[i]) == uid;
    }
  }

  lemma {:induction false} PushKeys(slice: seq<UserTraffic>, uid: int)
    requires uid in PushMap(slice)
    ensures HasUid(slice, uid)
  {
    var init, last := slice[..|slice| - 1], slice[|slice| - 1];
    assert slice == init + [last];
    if uid != last.uid {
      PushKeys(init, uid);
    }
  }

  lemma {:induction false} ClashFreePush(view: map<string, Bytes>, uidMap: map<string, int>, min: int,
                                         order: seq<string>)
    requires !UidClash(view, uidMap, min, order)
    ensures var data := PushMap(Slice(view, uidMap, min, order));
            forall email :: email in order && HandsOver(view, uidMap, min, email) ==>
                              Uid(uidMap, email) in data &&
                              data[Uid(uidMap, email)] == [view[email].up, view[email].down]
  {
    if order != [] {
      var init, last := order[..|order| - 1], order[|order| - 1];
      assert order == init + [last];
      ClashStep(view, uidMap, min, init, last);
      ClashFreePush(view, uidMap, min, init);
      SliceStep(view, uidMap, min, init, last);
      var slice := Slice(view, uidMap, min, init);
      if HandsOver(view, uidMap, min, last) {
        var t := UserTraffic(Uid(uidMap, last), view[last].up, view[last].down);
        assert (slice + [t])[..|slice|] == slice;
        forall email | email in init && HandsOver(view, uidMap, min, email) && email != last
          ensures Uid(uidMap, email) != Uid(uidMap, last)
        {
          var i :| 0 <= i < |init| && init[i] == email;
          assert HandsOver(view, uidMap, min, init[i]);
        }
      }
    }
  }
}
