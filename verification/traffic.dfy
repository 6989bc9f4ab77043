/** The per-node traffic counters, one uninterrupted reporting pass, and the map that is posted. */
module Traffic {
  import opened Panel

  datatype Bytes = Bytes(up: int, down: int)

  class TrafficStorage {
    var up: int
    var down: int

    constructor ()
      ensures up == 0 && down == 0
    {
      up, down := 0, 0;
    }
  }

  /** A storage is drained when it holds more than the threshold, given in kilobytes. */
  predicate Over(b: Bytes, min: int) {
    b.up + b.down > min * 1000
  }

  function Uid(uidMap: map<string, int>, email: string): int {
    if email in uidMap then uidMap[email] else 0
  }

  /** A pass hands this storage over: it is above the threshold and its user is known. */
  predicate HandsOver(view: map<string, Bytes>, uidMap: map<string, int>, min: int, email: string) {
    email in view && Over(view[email], min) && Uid(uidMap, email) != 0
  }

  class TrafficCounter {
    var counters: map<string, TrafficStorage>

    ghost function Storages(): set<TrafficStorage>
      reads this
    {
      set email | email in counters :: counters[email]
    }

    /** No two users share a storage. */
    ghost predicate Valid()
      reads this
    {
      forall e1, e2 :: e1 in counters && e2 in counters && e1 != e2 ==> counters[e1] != counters[e2]
    }

    ghost function View(): map<string, Bytes>
      reads this, Storages()
    {
      map email | email in counters :: Bytes(counters[email].up, counters[email].down)
    }

    constructor ()
      ensures Valid() && View() == map[] && Storages() == {}
    {
      counters := map[];
    }

    /** The storage of a user, made empty on first use; connections keep it and count into it. */
    method GetCounter(email: string) returns (storage: TrafficStorage)
      requires Valid()
      modifies this
      ensures Valid() && email in counters && counters[email] == storage
      ensures View() == if email in old(counters) then old(View()) else old(View())[email := Bytes(0, 0)]
      ensures forall e :: e in old(counters) ==> e in counters && counters[e] == old(counters[e])
      ensures fresh(Storages() - old(Storages()))
    {
      if email in counters {
        return counters[email];
      }
      storage := new TrafficStorage();
      counters := counters[email := storage];
    }

    method Rx(email: string, n: int)
      requires Valid()
      modifies this, Storages()
      ensures Valid()
      ensures var b := if email in old(counters) then old(View())[email] else Bytes(0, 0);
              View() == old(View())[email := b.(down := b.down + n)]
    {
      var storage := GetCounter(email);
      storage.down := storage.down + n;
    }

    method Tx(email: string, n: int)
      requires Valid()
      modifies this, Storages()
      ensures Valid()
      ensures var b := if email in old(counters) then old(View())[email] else Bytes(0, 0);
              View() == old(View())[email := b.(up := b.up + n)]
    {
      var storage := GetCounter(email);
      storage.up := storage.up + n;
    }

    method Delete(email: string)
      requires Valid()
      modifies this
      ensures Valid() && counters == old(counters) - {email} && View() == old(View()) - {email}
    {
      counters := counters - {email};
    }

    /** One pass over the storages in some order, with nothing counted meanwhile. */
    method GetUserTrafficSlice(uidMap: map<string, int>, min: int)
      returns (slice: seq<UserTraffic>, ghost order: seq<string>)
      requires Valid()
      modifies this, Storages()
      ensures Valid() && Storages() <= old(Storages())
      ensures Enumerates(order, old(View()).Keys) && slice == Slice(old(View()), uidMap, min, order)
      ensures View() == Drained(old(View()), uidMap, min, old(View()).Keys)
    {
      ghost var was := View();
      slice, order := [], [];
      var todo := counters.Keys;
      while todo != {}
        invariant Valid() && Storages() <= old(Storages()) && todo <= was.Keys && todo <= counters.Keys
        invariant Enumerates(order, was.Keys - todo) && slice == Slice(was, uidMap, min, order)
        invariant View() == Drained(was, uidMap, min, was.Keys - todo)
        decreases todo
      {
        var email :| email in todo;
        var uid := Uid(uidMap, email);
        assert email in View() && View()[email] == was[email];
        VisitStep(was, uidMap, min, order, was.Keys - todo, email);
        assert was.Keys - todo + {email} == was.Keys - (todo - {email});
        var up, down := Drain(email, min, uid);
        if up + down > min * 1000 && uid != 0 {
          slice := slice + [UserTraffic(uid, up, down)];
        }
        order := order + [email];
        todo := todo - {email};
      }
      assert was.Keys - {} == was.Keys;
    }

    /** Loads one storage; if it is over the threshold, zeroes it and drops it when the user is unknown. */
    method Drain(email: string, min: int, uid: int) returns (up: int, down: int)
      requires Valid() && email in counters
      modifies this, counters[email]
      ensures Valid() && Storages() <= old(Storages())
      ensures Bytes(up, down) == old(View())[email]
      ensures View() == DrainOne(old(View()), email, min, uid)
      ensures forall e :: e in counters <==> e in View()
    {
      var traffic := counters[email];
      up, down := traffic.up, traffic.down;
      if up + down > min * 1000 {
        traffic.up := 0;
        traffic.down := 0;
        assert View() == old(View())[email := Bytes(0, 0)];
        if uid == 0 {
          Delete(email);
        }
      }
    }
  }

  function DrainOne(view: map<string, Bytes>, email: string, min: int, uid: int): map<string, Bytes>
    requires email in view
  {
    if !Over(view[email], min) then view
    else if uid == 0 then view - {email}
    else view[email := Bytes(0, 0)]
  }

  /** The storages after those in `done` were visited. */
  function Drained(view: map<string, Bytes>, uidMap: map<string, int>, min: int, done: set<string>)
    : map<string, Bytes>
  {
    map email | email in view && (email in done && Over(view[email], min) ==> Uid(uidMap, email) != 0) ::
      if email in done && Over(view[email], min) then Bytes(0, 0) else view[email]
  }

  /** The entries of the visited storages over the threshold whose user is known, in order of the visit. */
  function Slice(view: map<string, Bytes>, uidMap: map<string, int>, min: int, order: seq<string>): seq<UserTraffic> {
    if order == [] then []
    else
      var init, email := Slice(view, uidMap, min, order[..|order| - 1]), order[|order| - 1];
      if HandsOver(view, uidMap, min, email)
      then init + [UserTraffic(Uid(uidMap, email), view[email].up, view[email].down)] else init
  }

  ghost predicate Enumerates(order: seq<string>, keys: set<string>) {
    && (forall i, j :: 0 <= i < j < |order| ==> order[i] != order[j])
    && (forall k :: k in order <==> k in keys)
  }

  lemma EnumeratesStep(order: seq<string>, keys: set<string>, k: string)
    requires Enumerates(order, keys) && k !in keys
    ensures Enumerates(order + [k], keys + {k})
  {
    assert k !in order;
  }

  lemma SliceStep(view: map<string, Bytes>, uidMap: map<string, int>, min: int, order: seq<string>, email: string)
    ensures Slice(view, uidMap, min, order + [email]) ==
            Slice(view, uidMap, min, order) +
            if HandsOver(view, uidMap, min, email)
            then [UserTraffic(Uid(uidMap, email), view[email].up, view[email].down)] else []
  {
    assert (order + [email])[..|order|] == order;
  }

  lemma DrainedStep(view: map<string, Bytes>, uidMap: map<string, int>, min: int, done: set<string>, email: string)
    requires email in view && email !in done
    ensures email in Drained(view, uidMap, min, done) && Drained(view, uidMap, min, done)[email] == view[email]
    ensures Drained(view, uidMap, min, done + {email}) ==
            DrainOne(Drained(view, uidMap, min, done), email, min, Uid(uidMap, email))
  {}

  lemma VisitStep(view: map<string, Bytes>, uidMap: map<string, int>, min: int, order: seq<string>, done: set<string>,
                  email: string)
    requires email in view && email !in done && Enumerates(order, done)
    ensures Enumerates(order + [email], done + {email})
    ensures Slice(view, uidMap, min, order + [email]) ==
            Slice(view, uidMap, min, order) +
            if HandsOver(view, uidMap, min, email)
            then [UserTraffic(Uid(uidMap, email), view[email].up, view[email].down)] else []
    ensures email in Drained(view, uidMap, min, done) && Drained(view, uidMap, min, done)[email] == view[email]
    ensures Drained(view, uidMap, min, done + {email}) ==
            DrainOne(Drained(view, uidMap, min, done), email, min, Uid(uidMap, email))
  {
    SliceStep(view, uidMap, min, order, email);
    DrainedStep(view, uidMap, min, done, email);
    EnumeratesStep(order, done, email);
  }

  // ---- what a pass means ----

  function Total(b: Bytes): int {
    b.up + b.down
  }

  /** Sums over the storages a pass visits. */
  function Held(view: map<string, Bytes>, order: seq<string>): int {
    if order == [] then 0
    else Held(view, order[..|order| - 1]) + if order[|order| - 1] in view then Total(view[order[|order| - 1]]) else 0
  }

  function Handed(slice: seq<UserTraffic>): int {
    if slice == [] then 0
    else Handed(slice[..|slice| - 1]) + slice[|slice| - 1].upload + slice[|slice| - 1].download
  }

  /** Bytes zeroed for users the core does not know. */
  function Dropped(view: map<string, Bytes>, uidMap: map<string, int>, min: int, order: seq<string>): int {
    if order == [] then 0
    else
      var email := order[|order| - 1];
      Dropped(view, uidMap, min, order[..|order| - 1]) +
      if email in view && Over(view[email], min) && Uid(uidMap, email) == 0 then Total(view[email]) else 0
  }

  lemma HandedStep(slice: seq<UserTraffic>, t: UserTraffic)
    ensures Handed(slice + [t]) == Handed(slice) + t.upload + t.download
  {
    assert (slice + [t])[..|slice|] == slice;
  }

  /** What a pass does with the bytes of one storage. */
  lemma StorageConserves(view: map<string, Bytes>, uidMap: map<string, int>, min: int, email: string)
    requires email in view
    ensures var left := Drained(view, uidMap, min, view.Keys);
            Total(view[email]) == (if email in left then Total(left[email]) else 0) +
                                  (if Over(view[email], min) then Total(view[email]) else 0)
  {}

  /** An uninterrupted pass loses nothing: what was held is handed over, still held, or dropped for unknown users. */
  lemma {:induction false} PassConserves(view: map<string, Bytes>, uidMap: map<string, int>, min: int,
          order: seq<string>)
    requires forall email :: email in order ==> email in view
    ensures Held(view, order) ==
            Handed(Slice(view, uidMap, min, order)) + Held(Drained(view, uidMap, min, view.Keys), order) +
            Dropped(view, uidMap, min, order)
  {
    if order != [] {
      var init, email := order[..|order| - 1], order[|order| - 1];
      assert order == init + [email];
      PassConserves(view, uidMap, min, init);
      StorageConserves(view, uidMap, min, email);
      SliceStep(view, uidMap, min, init, email);
      HandedStep(Slice(view, uidMap, min, init), UserTraffic(Uid(uidMap, email), view[email].up, view[email].down));
    }
  }

  /** After a pass every storage that is left is empty or at or below the threshold. */
  lemma PassLeavesLittle(view: map<string, Bytes>, uidMap: map<string, int>, min: int, email: string)
    requires email in Drained(view, uidMap, min, view.Keys)
    ensures var b := Drained(view, uidMap, min, view.Keys)[email]; b == Bytes(0, 0) || Total(b) <= min * 1000
  {}

  /** The user of a storage is known to the core under a uid that is not zero. */
  predicate IsKnown(uidMap: map<string, int>, email: string) {
    email in uidMap && uidMap[email] != 0
  }

  /** A storage with more than the threshold is emptied, or goes away when its user is unknown; every other storage
      stays as it is. */
  lemma PassDrainsExactly(view: map<string, Bytes>, uidMap: map<string, int>, min: int, email: string)
    ensures var left := Drained(view, uidMap, min, view.Keys);
            var over := email in view && view[email].up + view[email].down > min * 1000;
            && (email in left <==> email in view && (over ==> IsKnown(uidMap, email)))
            && (email in left ==> left[email] == if over then Bytes(0, 0) else view[email])
  {}

  ghost predicate InOrder(slice: seq<UserTraffic>, picked: seq<string>, view: map<string, Bytes>,
                          uidMap: map<string, int>) {
    |slice| == |picked| &&
    forall i :: 0 <= i < |slice| ==>
                  picked[i] in view && picked[i] in uidMap &&
                  slice[i] == UserTraffic(uidMap[picked[i]], view[picked[i]].up, view[picked[i]].down)
  }

  /** Those of the visited storages that hold more than the threshold and whose user is known. */
  function Picked(view: map<string, Bytes>, uidMap: map<string, int>, min: int, order: seq<string>): seq<string> {
    if order == [] then []
    else
      var init, email := Picked(view, uidMap, min, order[..|order| - 1]), order[|order| - 1];
      if email in view && view[email].up + view[email].down > min * 1000 && IsKnown(uidMap, email) then init + [email]
      else init
  }

  /** The slice has one entry for each of them, in the order of the visit: the user's uid, its uploads and downloads. */
  lemma {:induction false} SliceIsExact(view: map<string, Bytes>, uidMap: map<string, int>, min: int,
                                        order: seq<string>)
    ensures InOrder(Slice(view, uidMap, min, order), Picked(view, uidMap, min, order), view, uidMap)
  {
    if order != [] {
      SliceIsExact(view, uidMap, min, order[..|order| - 1]);
    }
  }
}
