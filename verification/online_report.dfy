/** The second half of the reporting task: which of the listed addresses are posted, grouped by uid. */
module OnlineReport {
  import opened Panel
  import opened LimiterSpec
  import opened LimiterInvariants
  import opened DeviceRuns

  predicate Little(t: UserTraffic, devicemin: int) {
    t.upload + t.download < devicemin * 1000
  }

  /** Uids with an entry below the device threshold in this round's traffic. */
  predicate NotCounted(traffic: seq<UserTraffic>, devicemin: int, uid: int) {
    exists i :: 0 <= i < |traffic| && traffic[i].uid == uid && Little(traffic[i], devicemin)
  }

  /** The addresses listed for one uid, in order and with repeats. */
  function AddressesOf(online: seq<OnlineUser>, uid: int): seq<string> {
    if online == [] then []
    else
      var init, u := AddressesOf(online[..|online| - 1], uid), online[|online| - 1];
      if u.uid == uid then init + [u.ip] else init
  }

  /** The posted map holds all addresses of every listed uid that counts, and nothing else. */
  method BuildOnlineReport(traffic: seq<UserTraffic>, online: seq<OnlineUser>, devicemin: int)
    returns (data: map<int, seq<string>>)
    ensures forall uid :: uid in data <==> AddressesOf(online, uid) != [] && !NotCounted(traffic, devicemin, uid)
    ensures forall uid :: uid in data ==> data[uid] == AddressesOf(online, uid)
  {
    var nocount: set<int> := {};
    for i := 0 to |traffic|
      invariant forall uid :: uid in nocount <==> NotCounted(traffic[..i], devicemin, uid)
    {
      NotCountedStep(traffic[..i], traffic[i], devicemin);
      assert traffic[..i + 1] == traffic[..i] + [traffic[i]];
      if traffic[i].upload + traffic[i].download < devicemin * 1000 {
        nocount := nocount + {traffic[i].uid};
      }
    }
    assert traffic[..|traffic|] == traffic;
    data := map[];
    for i := 0 to |online|
      invariant forall uid :: uid in data <==> AddressesOf(online[..i], uid) != [] && uid !in nocount
      invariant forall uid :: uid in data ==> data[uid] == AddressesOf(online[..i], uid)
    {
      var u := online[i];
      assert online[..i + 1][..i] == online[..i];
      if u.uid !in nocount {
        data := data[u.uid := (if u.uid in data then data[u.uid] else []) + [u.ip]];
      }
    }
    assert online[..|online|] == online;
  }

  lemma NotCountedStep(traffic: seq<UserTraffic>, t: UserTraffic, devicemin: int)
    ensures forall uid :: NotCounted(traffic + [t], devicemin, uid) <==>
                          NotCounted(traffic, devicemin, uid) || (t.uid == uid && Little(t, devicemin))
  {
    forall uid | NotCounted(traffic, devicemin, uid) || (t.uid == uid && Little(t, devicemin))
      ensures NotCounted(traffic + [t], devicemin, uid)
    {
      if NotCounted(traffic, devicemin, uid) {
        var i :| 0 <= i < |traffic| && traffic[i].uid == uid && Little(traffic[i], devicemin);
        assert (traffic + [t])[i] == traffic[i];
      } else {
        assert (traffic + [t])[|traffic|] == t;
      }
    }
  }

  /** A uid is left out exactly when this round's traffic holds an entry of it with less than the device minimum. */
  lemma LeftOutExactly(traffic: seq<UserTraffic>, devicemin: int, uid: int)
    ensures NotCounted(traffic, devicemin, uid) <==>
            exists t :: t in traffic && t.uid == uid && t.upload + t.download < 1000 * devicemin
  {
    if t :| t in traffic && t.uid == uid && t.upload + t.download < 1000 * devicemin {
      var i :| 0 <= i < |traffic| && traffic[i] == t;
      assert Little(traffic[i], devicemin);
    }
  }

  ghost predicate NoRepeats(ips: seq<string>) {
    forall i, j :: 0 <= i < j < |ips| ==> ips[i] != ips[j]
  }

  lemma {:induction false} ListedFor(s: State, order: VisitOrder, k: string)
    requires OnlineOwned(s) && SoleUid(s, k) && AllTracked(order, s.online)
    requires forall i, j :: 0 <= i < j < |order| ==> order[i] != order[j]
    ensures var ips := AddressesOf(Listing(s.online, order), s.info[k].uid);
            && (forall ip :: ip in ips <==> (k, ip) in order)
            && NoRepeats(ips)
  {
    if order != [] {
      var init, last := order[..|order| - 1], order[|order| - 1];
      assert order == init + [last];
      ListedFor(s, init, k);
      assert Listing(s.online, order)[..|order| - 1] == Listing(s.online, init);
      assert Tracked(s.online, last.0, last.1) && s.online[last.0][last.1] == s.info[last.0].uid;
      assert last !in init;
      var ips := AddressesOf(Listing(s.online, init), s.info[k].uid);
      if last.0 == k {
        assert last == (k, last.1) && last.1 !in ips;
        assert AddressesOf(Listing(s.online, order), s.info[k].uid) == ips + [last.1];
      } else {
        assert s.info[last.0].uid != s.info[k].uid;
        assert AddressesOf(Listing(s.online, order), s.info[k].uid) == ips;
      }
    }
  }

  lemma {:induction false} NoRepeatsIsSet(ips: seq<string>, all: set<string>)
    requires forall ip :: ip in ips <==> ip in all
    requires NoRepeats(ips)
    ensures multiset(ips) == multiset(all)
  {
    if ips != [] {
      var init, last := ips[..|ips| - 1], ips[|ips| - 1];
      assert ips == init + [last] && last !in init;
      assert forall ip :: ip in ips <==> ip in init || ip == last;
      NoRepeatsIsSet(init, all - {last});
      assert all == (all - {last}) + {last};
      assert multiset(all) == multiset(all - {last}) + multiset{last};
    } else {
      assert all == {};
    }
  }

  /** The list of a report holds, for every user with a uid of its own, exactly its tracked addresses, each once. */
  lemma ReportedOncePerAddress(s: State, order: VisitOrder, k: string)
    requires OnlineOwned(s) && SoleUid(s, k) && Enumerates(order, s.online) && AllTracked(order, s.online)
    ensures multiset(AddressesOf(Listing(s.online, order), s.info[k].uid)) ==
            multiset(if k in s.online then s.online[k].Keys else {})
  {
    ListedFor(s, order, k);
    var ips := AddressesOf(Listing(s.online, order), s.info[k].uid);
    var all := if k in s.online then s.online[k].Keys else {};
    forall ip ensures ip in ips <==> ip in all {
      assert ip in ips <==> (k, ip) in order;
      assert (k, ip) in order <==> Tracked(s.online, k, ip);
      assert Tracked(s.online, k, ip) <==> ip in all;
    }
    NoRepeatsIsSet(ips, all);
  }
}
