/** The traffic reporter beside connections that keep counting, users that come and go, and posts that may fail: loads
    and zero-stores are separate steps. */
module TrafficRace {
  import opened Panel
  import opened Traffic
  import opened TrafficPosts

  /** One drained storage on its way to the panel. */
  datatype Entry = Entry(sid: nat, uid: int, up: int, down: int)

  /** Where the reporting task is: within one pass, or between the pass and the end of its post. */
  datatype Pc =
    | Idle
    | Ranging
    | GotUp(email: string, sid: nat, up: int)
    | GotBoth(email: string, sid: nat, up: int, down: int)
    | ZeroedUp(email: string, sid: nat, up: int, down: int)
    | ZeroedBoth(email: string, sid: nat, up: int, down: int)
    | Posting

  /** `names` is the shared counter map into the storages `cells`; `seen` are the names this pass has visited, `batch`
      the entries it has drained, and `reported` the entries the panel has received in all. */
  datatype State = State(names: map<string, nat>, cells: seq<Bytes>, uidMap: map<string, int>, pc: Pc,
                         seen: set<string>, batch: seq<Entry>, reported: seq<Entry>)

  /** Uploads and downloads of a storage are counted, loaded and zeroed apart from each other. */
  datatype Dir = Up | Down

  datatype Step =
    | Connect(email: string)
    | Add(sid: nat, dir: Dir, n: nat)
    | SetUid(email: string, uid: int)
    | DelUser(email: string)
    | BeginPass
    | LoadUp(email: string)
    | LoadDown
    | StoreUp
    | StoreDown
    | Finish
    | EndPass
    | Post(ok: bool)

  const INIT := State(map[], [], map[], Idle, {}, [], [])
  const ZERO := Bytes(0, 0)

  predicate Holding(pc: Pc) {
    pc.GotUp? || pc.GotBoth? || pc.ZeroedUp? || pc.ZeroedBoth?
  }

  /** The pass holds the read lock of the uid index, so users come and go only outside it; the range visits no name
      twice; connections count into any storage they were ever handed. */
  predicate Enabled(s: State, step: Step) {
    match step
    case Connect(_) => true
    case Add(sid, _, _) => sid < |s.cells|
    case SetUid(_, _) => s.pc.Idle? || s.pc.Posting?
    case DelUser(_) => s.pc.Idle? || s.pc.Posting?
    case BeginPass => s.pc.Idle?
    case LoadUp(email) => s.pc.Ranging? && email in s.names && email !in s.seen && s.names[email] < |s.cells|
    case LoadDown => s.pc.GotUp? && s.pc.sid < |s.cells|
    case StoreUp => s.pc.GotBoth? && s.pc.sid < |s.cells|
    case StoreDown => s.pc.ZeroedUp? && s.pc.sid < |s.cells|
    case Finish => s.pc.ZeroedBoth?
    case EndPass => s.pc.Ranging?
    case Post(_) => s.pc.Posting?
  }

  function Grown(b: Bytes, dir: Dir, n: nat): Bytes {
    if dir.Up? then b.(up := b.up + n) else b.(down := b.down + n)
  }

  function Next(min: int, s: State, step: Step): State
    requires Enabled(s, step)
  {
    match step
    case Connect(email) =>
      if email in s.names then s else s.(names := s.names[email := |s.cells|], cells := s.cells + [ZERO])
    case Add(sid, dir, n) => s.(cells := s.cells[sid := Grown(s.cells[sid], dir, n)])
    case SetUid(email, uid) => s.(uidMap := s.uidMap[email := uid])
    case DelUser(email) => s.(uidMap := s.uidMap - {email}, names := s.names - {email})
    case BeginPass => s.(pc := Ranging, seen := {}, batch := [])
    case LoadUp(email) =>
      var sid := s.names[email];
      s.(pc := GotUp(email, sid, s.cells[sid].up), seen := s.seen + {email})
    case LoadDown =>
      var pc, down := s.pc, s.cells[s.pc.sid].down;
      s.(pc := if Over(Bytes(pc.up, down), min) then GotBoth(pc.email, pc.sid, pc.up, down) else Ranging)
    case StoreUp =>
      var pc := s.pc;
      s.(pc := ZeroedUp(pc.email, pc.sid, pc.up, pc.down), cells := s.cells[pc.sid := s.cells[pc.sid].(up := 0)])
    case StoreDown =>
      var pc := s.pc;
      s.(pc := ZeroedBoth(pc.email, pc.sid, pc.up, pc.down), cells := s.cells[pc.sid := s.cells[pc.sid].(down := 0)])
    case Finish =>
      var pc, uid := s.pc, Uid(s.uidMap, s.pc.email);
      if uid == 0 then s.(pc := Ranging, names := s.names - {pc.email})
      else s.(pc := Ranging, batch := s.batch + [Entry(pc.sid, uid, pc.up, pc.down)])
    case EndPass => s.(pc := if s.batch == [] then Idle else Posting)
    case Post(ok) => s.(pc := Idle, batch := [], reported := if ok then s.reported + Delivered(s.batch) else s.reported)
  }

  /** The entries that get into the posted map: of those under one uid, the last. */
  function Delivered(batch: seq<Entry>): seq<Entry> {
    if batch == [] then []
    else if LaterUid(batch, 0) then Delivered(batch[1..])
    else [batch[0]] + Delivered(batch[1..])
  }

  predicate LaterUid(batch: seq<Entry>, i: nat)
    requires i < |batch|
  {
    exists j :: i < j < |batch| && batch[j].uid == batch[i].uid
  }

  predicate Runs(min: int, s: State, steps: seq<Step>)
    decreases |steps|
  {
    steps == [] || (Enabled(s, steps[0]) && Runs(min, Next(min, s, steps[0]), steps[1..]))
  }

  function End(min: int, s: State, steps: seq<Step>): State
    requires Runs(min, s, steps)
    decreases |steps|
  {
    if steps == [] then s else End(min, Next(min, s, steps[0]), steps[1..])
  }

  // ---- the books of one storage in one direction ----

  function Half(b: Bytes, dir: Dir): int {
    if dir.Up? then b.up else b.down
  }

  function EntryBytes(e: Entry, sid: nat, dir: Dir): int {
    if e.sid == sid then Half(Bytes(e.up, e.down), dir) else 0
  }

  function Sum(entries: seq<Entry>, sid: nat, dir: Dir): int {
    if entries == [] then 0 else EntryBytes(entries[0], sid, dir) + Sum(entries[1..], sid, dir)
  }

  /** Bytes in entries that a later entry of the same uid overwrites in the posted map. */
  function SumShadowed(batch: seq<Entry>, sid: nat, dir: Dir): int {
    if batch == [] then 0
    else (if LaterUid(batch, 0) then EntryBytes(batch[0], sid, dir) else 0) + SumShadowed(batch[1..], sid, dir)
  }

  predicate Names(s: State, email: string, sid: nat) {
    email in s.names && s.names[email] == sid && sid < |s.cells|
  }

  /** Some name still leads to the storage, so a later pass can drain it. */
  ghost predicate Reachable(s: State, sid: nat) {
    exists email :: Names(s, email, sid)
  }

  /** Bytes the panel has received. */
  function Reported(s: State, sid: nat, dir: Dir): int {
    Sum(s.reported, sid, dir)
  }

  /** Bytes wiped from the storage that are still on their way: in the reporter's hands, or in the batch. */
  function InFlight(s: State, sid: nat, dir: Dir): int {
    Sum(s.batch, sid, dir) + if Wiped(s.pc, dir) && s.pc.sid == sid then Half(Bytes(s.pc.up, s.pc.down), dir) else 0
  }

  predicate Wiped(pc: Pc, dir: Dir) {
    pc.ZeroedBoth? || (pc.ZeroedUp? && dir.Up?)
  }

  /** Bytes in a storage that a later pass can drain. */
  ghost function Live(s: State, sid: nat, dir: Dir): int {
    if sid < |s.cells| && Reachable(s, sid) then Half(s.cells[sid], dir) else 0
  }

  /** Bytes in a storage that no name leads to any more. */
  ghost function Stranded(s: State, sid: nat, dir: Dir): int {
    if sid < |s.cells| && !Reachable(s, sid) then Half(s.cells[sid], dir) else 0
  }

  /** Bytes that have reached the panel or still can. */
  ghost function Accounted(s: State, sid: nat, dir: Dir): int {
    Reported(s, sid, dir) + InFlight(s, sid, dir) + Live(s, sid, dir)
  }

  function AddedBy(step: Step, sid: nat, dir: Dir): int {
    if step.Add? && step.sid == sid && step.dir == dir then step.n else 0
  }

  /** Bytes that connections added to the storage. */
  function Added(steps: seq<Step>, sid: nat, dir: Dir): int {
    if steps == [] then 0 else AddedBy(steps[0], sid, dir) + Added(steps[1..], sid, dir)
  }

  /** The ways in which bytes are lost to the panel: wiped by a zero-store although the load before it missed them,
      drained for a user the core does not know, left in a storage no name leads to, dropped with a failed post, or
      overwritten in the posted map. */
  datatype Cause = Overwritten | Unknown | LeftBehind | PostFailed | Shadowed

  /** The step zeroes this half of the reporter's storage. */
  predicate Zeroes(step: Step, dir: Dir) {
    (step.StoreUp? && dir.Up?) || (step.StoreDown? && dir.Down?)
  }

  /** The step takes the storage's name away while the user is unknown to the core. */
  predicate Discards(s: State, step: Step, sid: nat)
    requires Enabled(s, step)
  {
    step.Finish? && s.pc.sid == sid && Uid(s.uidMap, s.pc.email) == 0
  }

  predicate Deletes(s: State, step: Step, sid: nat) {
    step.DelUser? && Names(s, step.email, sid)
  }

  ghost function Loss(s: State, step: Step, sid: nat, dir: Dir, cause: Cause): int
    requires Enabled(s, step)
  {
    match cause
    case Overwritten =>
      if Zeroes(step, dir) && s.pc.sid == sid then Half(s.cells[sid], dir) - Half(Bytes(s.pc.up, s.pc.down), dir) else 0
    case Unknown => if Discards(s, step, sid) then Half(Bytes(s.pc.up, s.pc.down), dir) else 0
    case LeftBehind =>
      if sid >= |s.cells| then 0
      else if Discards(s, step, sid) || Deletes(s, step, sid) then Half(s.cells[sid], dir)
      else if !Reachable(s, sid) then AddedBy(step, sid, dir)
      else 0
    case PostFailed => if step == Post(false) then Sum(s.batch, sid, dir) else 0
    case Shadowed => if step == Post(true) then SumShadowed(s.batch, sid, dir) else 0
  }

  ghost function Losses(min: int, s: State, steps: seq<Step>, sid: nat, dir: Dir, cause: Cause): int
    requires Runs(min, s, steps)
    decreases |steps|
  {
    if steps == [] then 0
    else Loss(s, steps[0], sid, dir, cause) + Losses(min, Next(min, s, steps[0]), steps[1..], sid, dir, cause)
  }

  ghost function AllLosses(min: int, s: State, steps: seq<Step>, sid: nat, dir: Dir): int
    requires Runs(min, s, steps)
  {
    Losses(min, s, steps, sid, dir, Overwritten) + Losses(min, s, steps, sid, dir, Unknown) +
    Losses(min, s, steps, sid, dir, LeftBehind) + Losses(min, s, steps, sid, dir, PostFailed) +
    Losses(min, s, steps, sid, dir, Shadowed)
  }

  ghost function StepLoss(s: State, step: Step, sid: nat, dir: Dir): int
    requires Enabled(s, step)
  {
    Loss(s, step, sid, dir, Overwritten) + Loss(s, step, sid, dir, Unknown) + Loss(s, step, sid, dir, LeftBehind) +
    Loss(s, step, sid, dir, PostFailed) + Loss(s, step, sid, dir, Shadowed)
  }

  // ---- the invariant ----

  predicate NonNegative(b: Bytes) {
    b.up >= 0 && b.down >= 0
  }

  ghost predicate EntriesNonNegative(entries: seq<Entry>) {
    forall i :: 0 <= i < |entries| ==> entries[i].up >= 0 && entries[i].down >= 0
  }

  /** The reporter's storage is the one its name leads to, and holds at least what was loaded and not yet wiped. */
  ghost predicate PcFits(s: State) {
    var pc := s.pc;
    Holding(pc) ==>
      && Names(s, pc.email, pc.sid) && pc.up >= 0
      && (pc.GotUp? || pc.GotBoth? ==> s.cells[pc.sid].up >= pc.up)
      && (!pc.GotUp? ==> pc.down >= 0)
      && (pc.GotBoth? || pc.ZeroedUp? ==> s.cells[pc.sid].down >= pc.down)
  }

  /** Distinct names lead to distinct storages, which hold no negative counts. */
  ghost predicate StoresFit(s: State) {
    && (forall email :: email in s.names ==> s.names[email] < |s.cells|)
    && (forall e1, e2 :: e1 in s.names && e2 in s.names && s.names[e1] == s.names[e2] ==> e1 == e2)
    && (forall sid :: 0 <= sid < |s.cells| ==> NonNegative(s.cells[sid]))
  }

  ghost predicate Inv(s: State) {
    StoresFit(s) && PcFits(s) && EntriesNonNegative(s.batch) && (s.pc.Idle? ==> s.batch == [])
  }

  lemma StepKeepsStores(min: int, s: State, step: Step)
    requires StoresFit(s) && PcFits(s) && Enabled(s, step)
    ensures StoresFit(Next(min, s, step))
  {}

  lemma StepKeepsPc(min: int, s: State, step: Step)
    requires StoresFit(s) && PcFits(s) && Enabled(s, step)
    ensures PcFits(Next(min, s, step))
  {}

  lemma StepKeepsInv(min: int, s: State, step: Step)
    requires Inv(s) && Enabled(s, step)
    ensures Inv(Next(min, s, step))
  {
    StepKeepsStores(min, s, step);
    StepKeepsPc(min, s, step);
  }

  lemma {:induction false} RunKeepsInv(min: int, s: State, steps: seq<Step>)
    requires Inv(s) && Runs(min, s, steps)
    ensures Inv(End(min, s, steps))
    decreases |steps|
  {
    if steps != [] {
      StepKeepsInv(min, s, steps[0]);
      RunKeepsInv(min, Next(min, s, steps[0]), steps[1..]);
    }
  }

  // ---- the balance ----

  lemma {:induction false} SumAppend(a: seq<Entry>, b: seq<Entry>, sid: nat, dir: Dir)
    ensures Sum(a + b, sid, dir) == Sum(a, sid, dir) + Sum(b, sid, dir)
  {
    if a == [] {
      assert a + b == b;
    } else {
      assert (a + b)[1..] == a[1..] + b;
      SumAppend(a[1..], b, sid, dir);
    }
  }

  lemma {:induction false} DeliveredSum(batch: seq<Entry>, sid: nat, dir: Dir)
    ensures Sum(batch, sid, dir) == Sum(Delivered(batch), sid, dir) + SumShadowed(batch, sid, dir)
  {
    if batch != [] {
      DeliveredSum(batch[1..], sid, dir);
      if !LaterUid(batch, 0) {
        assert ([batch[0]] + Delivered(batch[1..]))[1..] == Delivered(batch[1..]);
      }
    }
  }

  /** Only a first connection gives a storage a name, and only a deletion takes it away. */
  lemma ReachableAfter(min: int, s: State, step: Step, sid: nat)
    requires Inv(s) && Enabled(s, step)
    ensures Reachable(Next(min, s, step), sid) <==>
            (Reachable(s, sid) && !Deletes(s, step, sid) && !Discards(s, step, sid)) ||
            (step.Connect? && step.email !in s.names && sid == |s.cells|)
  {
    var t := Next(min, s, step);
    assert Holding(s.pc) ==> Names(s, s.pc.email, s.pc.sid);
    if email :| Names(s, email, sid) {
      assert email in t.names ==> Names(t, email, sid);
      if (step.DelUser? && step.email != email) || (step.Finish? && s.pc.email != email) {
        assert Names(t, email, sid);
      }
    }
    if step.Connect? && step.email !in s.names {
      assert Names(t, step.email, |s.cells|);
    }
    forall email | Names(t, email, sid) && !(step.Connect? && step.email !in s.names && email == step.email)
      ensures Names(s, email, sid) && !Deletes(s, step, sid) && !Discards(s, step, sid)
    {
      assert Names(s, email, sid);
      assert step.DelUser? ==> email != step.email;
      assert step.Finish? && Uid(s.uidMap, s.pc.email) == 0 ==> email != s.pc.email;
    }
  }

  lemma LiveAfter(min: int, s: State, step: Step, sid: nat, dir: Dir)
    requires Inv(s) && Enabled(s, step)
    ensures Live(s, sid, dir) + AddedBy(step, sid, dir) ==
            Live(Next(min, s, step), sid, dir) + Loss(s, step, sid, dir, LeftBehind) +
            if Zeroes(step, dir) && s.pc.sid == sid then Half(s.cells[sid], dir) else 0
  {
    ReachableAfter(min, s, step, sid);
    assert Holding(s.pc) ==> Names(s, s.pc.email, s.pc.sid);
    assert Deletes(s, step, sid) ==> Names(s, step.email, sid);
    if Reachable(s, sid) {
      assert sid < |s.cells|;
    }
  }

  lemma DrainedAfter(min: int, s: State, step: Step, sid: nat, dir: Dir)
    requires Inv(s) && Enabled(s, step)
    ensures Reported(s, sid, dir) + InFlight(s, sid, dir) +
            (if Zeroes(step, dir) && s.pc.sid == sid then Half(Bytes(s.pc.up, s.pc.down), dir) else 0) ==
            Reported(Next(min, s, step), sid, dir) + InFlight(Next(min, s, step), sid, dir) +
            Loss(s, step, sid, dir, Unknown) + Loss(s, step, sid, dir, PostFailed) + Loss(s, step, sid, dir, Shadowed)
  {
    match step
    case Finish =>
      var e := Entry(s.pc.sid, Uid(s.uidMap, s.pc.email), s.pc.up, s.pc.down);
      SumAppend(s.batch, [e], sid, dir);
      assert Sum([e], sid, dir) == EntryBytes(e, sid, dir);
    case Post(ok) =>
      SumAppend(s.reported, Delivered(s.batch), sid, dir);
      DeliveredSum(s.batch, sid, dir);
    case _ =>
  }

  /** One step moves bytes of a storage between the accounts, takes in what is added, and loses what it loses. */
  lemma StepBalances(min: int, s: State, step: Step, sid: nat, dir: Dir)
    requires Inv(s) && Enabled(s, step)
    ensures Accounted(s, sid, dir) + AddedBy(step, sid, dir) ==
            Accounted(Next(min, s, step), sid, dir) + StepLoss(s, step, sid, dir)
  {
    LiveAfter(min, s, step, sid, dir);
    DrainedAfter(min, s, step, sid, dir);
  }

  lemma {:induction false} RunBalances(min: int, s: State, steps: seq<Step>, sid: nat, dir: Dir)
    requires Inv(s) && Runs(min, s, steps)
    ensures Accounted(s, sid, dir) + Added(steps, sid, dir) ==
            Accounted(End(min, s, steps), sid, dir) + AllLosses(min, s, steps, sid, dir)
    decreases |steps|
  {
    if steps != [] {
      StepBalances(min, s, steps[0], sid, dir);
      StepKeepsInv(min, s, steps[0]);
      RunBalances(min, Next(min, s, steps[0]), steps[1..], sid, dir);
    }
  }

  lemma StrandedAfter(min: int, s: State, step: Step, sid: nat, dir: Dir)
    requires Inv(s) && Enabled(s, step)
    ensures Stranded(Next(min, s, step), sid, dir) == Stranded(s, sid, dir) + Loss(s, step, sid, dir, LeftBehind)
  {
    ReachableAfter(min, s, step, sid);
    assert Holding(s.pc) ==> Names(s, s.pc.email, s.pc.sid);
    assert Deletes(s, step, sid) ==> Names(s, step.email, sid);
  }

  lemma {:induction false} StrandedIsLeftBehind(min: int, s: State, steps: seq<Step>, sid: nat, dir: Dir)
    requires Inv(s) && Runs(min, s, steps)
    ensures Stranded(End(min, s, steps), sid, dir) ==
            Stranded(s, sid, dir) + Losses(min, s, steps, sid, dir, LeftBehind)
    decreases |steps|
  {
    if steps != [] {
      StrandedAfter(min, s, steps[0], sid, dir);
      StepKeepsInv(min, s, steps[0]);
      StrandedIsLeftBehind(min, Next(min, s, steps[0]), steps[1..], sid, dir);
    }
  }

  // ---- when bytes go missing ----

  lemma {:induction false} SumPositiveIff(entries: seq<Entry>, sid: nat, dir: Dir)
    requires EntriesNonNegative(entries)
    ensures Sum(entries, sid, dir) >= 0
    ensures Sum(entries, sid, dir) > 0 <==> exists i :: 0 <= i < |entries| && EntryBytes(entries[i], sid, dir) > 0
  {
    if entries != [] {
      var rest := entries[1..];
      SumPositiveIff(rest, sid, dir);
      assert EntryBytes(entries[0], sid, dir) >= 0;
      assert forall i :: 0 <= i < |rest| ==> rest[i] == entries[i + 1];
      if i :| 0 <= i < |entries| && EntryBytes(entries[i], sid, dir) > 0 {
        assert i == 0 || entries[i] == rest[i - 1];
      }
    }
  }

  ghost predicate IsShadowed(batch: seq<Entry>, i: nat, sid: nat, dir: Dir) {
    i < |batch| && EntryBytes(batch[i], sid, dir) > 0 && LaterUid(batch, i)
  }

  lemma {:induction false} ShadowedPositiveIff(batch: seq<Entry>, sid: nat, dir: Dir)
    requires EntriesNonNegative(batch)
    ensures SumShadowed(batch, sid, dir) >= 0
    ensures SumShadowed(batch, sid, dir) > 0 <==> exists i :: IsShadowed(batch, i, sid, dir)
  {
    if batch != [] {
      var rest := batch[1..];
      ShadowedPositiveIff(rest, sid, dir);
      assert EntryBytes(batch[0], sid, dir) >= 0;
      forall i: nat | i < |rest| ensures IsShadowed(rest, i, sid, dir) <==> IsShadowed(batch, i + 1, sid, dir) {
        LaterUidTail(batch, i);
      }
      if i: nat :| IsShadowed(batch, i, sid, dir) {
        assert i == 0 || IsShadowed(rest, i - 1, sid, dir);
      }
      assert SumShadowed(batch, sid, dir) > 0 && SumShadowed(rest, sid, dir) <= 0 ==> IsShadowed(batch, 0, sid, dir);
    }
  }

  lemma LaterUidTail(batch: seq<Entry>, i: nat)
    requires i + 1 < |batch|
    ensures LaterUid(batch[1..], i) <==> LaterUid(batch, i + 1)
  {
    var rest := batch[1..];
    if j :| i < j < |rest| && rest[j].uid == rest[i].uid {
      assert batch[j + 1].uid == batch[i + 1].uid;
    }
    if j :| i + 1 < j < |batch| && batch[j].uid == batch[i + 1].uid {
      assert rest[j - 1].uid == rest[i].uid;
    }
  }

  /** The guard under which a step makes bytes of the storage miss the panel for good. */
  ghost predicate Wastes(s: State, step: Step, sid: nat, dir: Dir)
    requires Enabled(s, step)
  {
    match step
    case StoreUp => dir.Up? && s.pc.sid == sid && s.cells[sid].up > s.pc.up
    case StoreDown => dir.Down? && s.pc.sid == sid && s.cells[sid].down > s.pc.down
    case Finish =>
      && s.pc.sid == sid && Uid(s.uidMap, s.pc.email) == 0
      && (Half(Bytes(s.pc.up, s.pc.down), dir) > 0 || (sid < |s.cells| && Half(s.cells[sid], dir) > 0))
    case DelUser(email) => Names(s, email, sid) && Half(s.cells[sid], dir) > 0
    case Add(sid', dir', n) => sid' == sid && dir' == dir && n > 0 && !Reachable(s, sid)
    case Post(true) => exists i :: IsShadowed(s.batch, i, sid, dir)
    case Post(false) => exists i :: 0 <= i < |s.batch| && EntryBytes(s.batch[i], sid, dir) > 0
    case _ => false
  }

  lemma LossIsNotNegative(s: State, step: Step, sid: nat, dir: Dir, cause: Cause)
    requires Inv(s) && Enabled(s, step)
    ensures Loss(s, step, sid, dir, cause) >= 0
  {
    SumPositiveIff(s.batch, sid, dir);
    ShadowedPositiveIff(s.batch, sid, dir);
    assert sid < |s.cells| ==> NonNegative(s.cells[sid]);
  }

  lemma WastesIff(s: State, step: Step, sid: nat, dir: Dir)
    requires Inv(s) && Enabled(s, step)
    ensures forall cause :: Loss(s, step, sid, dir, cause) >= 0
    ensures StepLoss(s, step, sid, dir) > 0 <==> Wastes(s, step, sid, dir)
  {
    forall cause ensures Loss(s, step, sid, dir, cause) >= 0 {
      LossIsNotNegative(s, step, sid, dir, cause);
    }
    match step
    case Post(ok) =>
      SumPositiveIff(s.batch, sid, dir);
      ShadowedPositiveIff(s.batch, sid, dir);
    case _ =>
  }

  /** Some step of the run wastes bytes of the storage. */
  ghost predicate SomeWaste(min: int, s: State, steps: seq<Step>, sid: nat, dir: Dir)
    requires Runs(min, s, steps)
    decreases |steps|
  {
    steps != [] && (Wastes(s, steps[0], sid, dir) || SomeWaste(min, Next(min, s, steps[0]), steps[1..], sid, dir))
  }

  lemma {:induction false} RunLosesIff(min: int, s: State, steps: seq<Step>, sid: nat, dir: Dir)
    requires Inv(s) && Runs(min, s, steps)
    ensures forall cause :: Losses(min, s, steps, sid, dir, cause) >= 0
    ensures AllLosses(min, s, steps, sid, dir) > 0 <==> SomeWaste(min, s, steps, sid, dir)
    decreases |steps|
  {
    if steps != [] {
      WastesIff(s, steps[0], sid, dir);
      StepKeepsInv(min, s, steps[0]);
      RunLosesIff(min, Next(min, s, steps[0]), steps[1..], sid, dir);
    }
  }

  /** Under every interleaving, at every moment: what was added is what the panel has, what is on its way, what a later
      pass can drain, and what the five kinds of losses took; nothing is counted twice. */
  lemma TrafficIsAccountedFor(min: int, steps: seq<Step>, sid: nat, dir: Dir)
    requires Runs(min, INIT, steps)
    ensures var s := End(min, INIT, steps);
            && Added(steps, sid, dir) ==
               Reported(s, sid, dir) + InFlight(s, sid, dir) + Live(s, sid, dir) + Stranded(s, sid, dir) +
               Losses(min, INIT, steps, sid, dir, Overwritten) + Losses(min, INIT, steps, sid, dir, Unknown) +
               Losses(min, INIT, steps, sid, dir, PostFailed) + Losses(min, INIT, steps, sid, dir, Shadowed)
            && (s.pc.Idle? ==> InFlight(s, sid, dir) == 0)
            && forall cause :: Losses(min, INIT, steps, sid, dir, cause) >= 0
  {
    RunKeepsInv(min, INIT, steps);
    RunBalances(min, INIT, steps, sid, dir);
    StrandedIsLeftBehind(min, INIT, steps, sid, dir);
    RunLosesIff(min, INIT, steps, sid, dir);
  }

  /** At any moment no byte is reported that was not added, nor reported and kept for a later report. */
  lemma NeverOverReported(min: int, steps: seq<Step>, sid: nat, dir: Dir)
    requires Runs(min, INIT, steps)
    ensures Accounted(End(min, INIT, steps), sid, dir) <= Added(steps, sid, dir)
  {
    RunBalances(min, INIT, steps, sid, dir);
    RunLosesIff(min, INIT, steps, sid, dir);
  }

  /** Between reports nothing is missing from what the panel has and later passes can drain, exactly when no step of the
      run wasted bytes. */
  lemma NothingMissingIff(min: int, steps: seq<Step>, sid: nat, dir: Dir)
    requires Runs(min, INIT, steps) && End(min, INIT, steps).pc.Idle?
    ensures var s := End(min, INIT, steps);
            Reported(s, sid, dir) + Live(s, sid, dir) == Added(steps, sid, dir) <==>
            !SomeWaste(min, INIT, steps, sid, dir)
  {
    RunKeepsInv(min, INIT, steps);
    RunBalances(min, INIT, steps, sid, dir);
    RunLosesIff(min, INIT, steps, sid, dir);
  }

  lemma StrandedStep(min: int, s: State, step: Step, sid: nat, dir: Dir)
    requires Inv(s) && Enabled(s, step) && sid < |s.cells| && !Reachable(s, sid)
    ensures var t := Next(min, s, step);
            && sid < |t.cells| && !Reachable(t, sid)
            && Half(t.cells[sid], dir) == Half(s.cells[sid], dir) + AddedBy(step, sid, dir)
            && Reported(t, sid, dir) + InFlight(t, sid, dir) <= Reported(s, sid, dir) + InFlight(s, sid, dir)
  {
    ReachableAfter(min, s, step, sid);
    assert Holding(s.pc) ==> Names(s, s.pc.email, s.pc.sid);
    DrainedAfter(min, s, step, sid, dir);
    WastesIff(s, step, sid, dir);
  }

  lemma {:induction false} StrandedIsNeverDrained(min: int, s: State, steps: seq<Step>, sid: nat, dir: Dir)
    requires Inv(s) && Runs(min, s, steps) && sid < |s.cells| && !Reachable(s, sid)
    ensures var t := End(min, s, steps);
            && sid < |t.cells| && !Reachable(t, sid)
            && Half(t.cells[sid], dir) == Half(s.cells[sid], dir) + Added(steps, sid, dir)
            && Reported(t, sid, dir) + InFlight(t, sid, dir) <= Reported(s, sid, dir) + InFlight(s, sid, dir)
    decreases |steps|
  {
    if steps != [] {
      StrandedStep(min, s, steps[0], sid, dir);
      StepKeepsInv(min, s, steps[0]);
      StrandedIsNeverDrained(min, Next(min, s, steps[0]), steps[1..], sid, dir);
    }
  }

  /** Once no name leads to a storage its bytes only grow, and between reports nothing more of it is ever reported. */
  lemma StrandedIsNeverReported(min: int, s: State, steps: seq<Step>, sid: nat, dir: Dir)
    requires Inv(s) && s.pc.Idle? && Runs(min, s, steps) && sid < |s.cells| && !Reachable(s, sid)
    ensures var t := End(min, s, steps);
            && Stranded(t, sid, dir) == Stranded(s, sid, dir) + Added(steps, sid, dir)
            && Reported(t, sid, dir) <= Reported(s, sid, dir)
  {
    StrandedIsNeverDrained(min, s, steps, sid, dir);
    RunKeepsInv(min, s, steps);
    SumPositiveIff(End(min, s, steps).batch, sid, dir);
  }

  // ---- what an overwrite loses ----

  /** The reporter has loaded this half of its storage and not yet zeroed it. */
  predicate InWindow(pc: Pc, dir: Dir) {
    if dir.Up? then pc.GotUp? || pc.GotBoth? else pc.GotBoth? || pc.ZeroedUp?
  }

  function Loaded(pc: Pc, dir: Dir): int
    requires InWindow(pc, dir)
  {
    if dir.Up? then pc.up else pc.down
  }

  predicate Loads(step: Step, dir: Dir) {
    if dir.Up? then step.LoadUp? else step.LoadDown?
  }

  predicate StaysInVisit(steps: seq<Step>, dir: Dir) {
    forall i :: 0 <= i < |steps| ==> !Loads(steps[i], dir) && !Zeroes(steps[i], dir)
  }

  /** Without another load no run gets back into the window between a load and its zero-store. */
  lemma {:induction false} WindowNeedsLoad(min: int, s: State, steps: seq<Step>, dir: Dir)
    requires Runs(min, s, steps) && StaysInVisit(steps, dir) && !InWindow(s.pc, dir)
    ensures !InWindow(End(min, s, steps).pc, dir)
    decreases |steps|
  {
    if steps != [] {
      assert !Loads(steps[0], dir);
      WindowNeedsLoad(min, Next(min, s, steps[0]), steps[1..], dir);
    }
  }

  lemma {:induction false} WindowCounts(min: int, s: State, steps: seq<Step>, dir: Dir)
    requires Inv(s) && Runs(min, s, steps) && StaysInVisit(steps, dir)
    requires InWindow(s.pc, dir) && InWindow(End(min, s, steps).pc, dir)
    ensures var t := End(min, s, steps);
            && t.pc.sid == s.pc.sid < |s.cells| <= |t.cells| && Loaded(t.pc, dir) == Loaded(s.pc, dir)
            && Half(t.cells[s.pc.sid], dir) - Half(s.cells[s.pc.sid], dir) == Added(steps, s.pc.sid, dir)
    decreases |steps|
  {
    if steps != [] {
      var s1 := Next(min, s, steps[0]);
      assert !Loads(steps[0], dir) && !Zeroes(steps[0], dir);
      StepKeepsInv(min, s, steps[0]);
      if InWindow(s1.pc, dir) {
        WindowCounts(min, s1, steps[1..], dir);
      } else {
        WindowNeedsLoad(min, s1, steps[1..], dir);
      }
    }
  }

  /** A zero-store loses exactly the bytes added between its own load and itself. */
  lemma OverwriteLosesWhatCameSince(min: int, s: State, load: Step, steps: seq<Step>, store: Step, dir: Dir)
    requires Inv(s) && Enabled(s, load) && Loads(load, dir)
    requires Runs(min, Next(min, s, load), steps) && StaysInVisit(steps, dir)
    requires Zeroes(store, dir) && Enabled(End(min, Next(min, s, load), steps), store)
    ensures var t := End(min, Next(min, s, load), steps);
            Loss(t, store, t.pc.sid, dir, Overwritten) == Added(steps, t.pc.sid, dir)
  {
    var s1 := Next(min, s, load);
    StepKeepsInv(min, s, load);
    if InWindow(s1.pc, dir) {
      WindowCounts(min, s1, steps, dir);
    } else {
      WindowNeedsLoad(min, s1, steps, dir);
    }
  }

  /** The step adds bytes to this half of the storage between the reporter's load and its zero-store. */
  predicate Races(s: State, step: Step, sid: nat, dir: Dir) {
    InWindow(s.pc, dir) && s.pc.sid == sid && AddedBy(step, sid, dir) > 0
  }

  predicate Quiet(min: int, s: State, steps: seq<Step>, sid: nat, dir: Dir)
    requires Runs(min, s, steps)
    decreases |steps|
  {
    steps == [] || (!Races(s, steps[0], sid, dir) && Quiet(min, Next(min, s, steps[0]), steps[1..], sid, dir))
  }

  lemma {:induction false} QuietOverwritesNothing(min: int, s: State, steps: seq<Step>, sid: nat, dir: Dir)
    requires Inv(s) && Runs(min, s, steps) && Quiet(min, s, steps, sid, dir)
    requires InWindow(s.pc, dir) && s.pc.sid == sid ==> Half(s.cells[sid], dir) == Loaded(s.pc, dir)
    ensures Losses(min, s, steps, sid, dir, Overwritten) == 0
    decreases |steps|
  {
    if steps != [] {
      StepKeepsInv(min, s, steps[0]);
      QuietOverwritesNothing(min, Next(min, s, steps[0]), steps[1..], sid, dir);
    }
  }

  /** With draining that no connection interrupts, all bytes are reported, can still be drained, stayed behind with a
      deleted user, were dropped for an unknown one, or went with their post. */
  lemma AtomicDrainConserves(min: int, steps: seq<Step>, sid: nat, dir: Dir)
    requires Runs(min, INIT, steps) && Quiet(min, INIT, steps, sid, dir) && End(min, INIT, steps).pc.Idle?
    ensures var s := End(min, INIT, steps);
            Added(steps, sid, dir) == Reported(s, sid, dir) + Live(s, sid, dir) + Stranded(s, sid, dir) +
                                      Losses(min, INIT, steps, sid, dir, Unknown) +
                                      Losses(min, INIT, steps, sid, dir, PostFailed) +
                                      Losses(min, INIT, steps, sid, dir, Shadowed)
  {
    TrafficIsAccountedFor(min, steps, sid, dir);
    QuietOverwritesNothing(min, INIT, steps, sid, dir);
  }

  // ---- the posted map ----

  function Traffics(batch: seq<Entry>): seq<UserTraffic> {
    if batch == [] then []
    else
      var e := batch[|batch| - 1];
      Traffics(batch[..|batch| - 1]) + [UserTraffic(e.uid, e.up, e.down)]
  }

  lemma {:induction false} PostedAt(batch: seq<Entry>, i: nat)
    requires i < |batch| && !LaterUid(batch, i)
    ensures var data, e := PushMap(Traffics(batch)), batch[i]; e.uid in data && data[e.uid] == [e.up, e.down]
  {
    var init, last := batch[..|batch| - 1], batch[|batch| - 1];
    var rest, t := Traffics(init), UserTraffic(last.uid, last.up, last.down);
    assert (rest + [t])[..|rest|] == rest;
    if i < |init| {
      assert batch[|batch| - 1].uid != batch[i].uid;
      forall j | i < j < |init| ensures init[j].uid != init[i].uid {
        assert batch[j].uid != batch[i].uid;
      }
      PostedAt(init, i);
    }
  }

  lemma {:induction false} DeliveredFrom(batch: seq<Entry>, n: nat, e: Entry)
    requires n <= |batch| && e in Delivered(batch[n..])
    ensures exists i: nat :: n <= i < |batch| && batch[i] == e && !LaterUid(batch, i)
    decreases |batch| - n
  {
    var rest := batch[n..];
    assert rest[1..] == batch[n + 1..];
    if e in Delivered(batch[n + 1..]) {
      DeliveredFrom(batch, n + 1, e);
    } else {
      assert e == batch[n] && !LaterUid(rest, 0);
      forall j | n < j < |batch| ensures batch[j].uid != batch[n].uid {
        assert rest[j - n].uid != rest[0].uid;
      }
    }
  }

  /** The delivered entries are what the posted map holds under their uids. */
  lemma DeliveredIsPosted(batch: seq<Entry>)
    ensures forall e :: e in Delivered(batch) ==>
                          var data := PushMap(Traffics(batch)); e.uid in data && data[e.uid] == [e.up, e.down]
  {
    forall e | e in Delivered(batch)
      ensures var data := PushMap(Traffics(batch)); e.uid in data && data[e.uid] == [e.up, e.down]
    {
      assert batch[0..] == batch;
      DeliveredFrom(batch, 0, e);
      var i: nat :| i < |batch| && batch[i] == e && !LaterUid(batch, i);
      PostedAt(batch, i);
    }
  }

  // ---- a pass that nothing interrupts ----

  /** The shared map as an uninterrupted pass sees it. */
  ghost function View(s: State): map<string, Bytes>
    requires StoresFit(s)
  {
    map email | email in s.names :: s.cells[s.names[email]]
  }

  /** Loading both halves of a storage decides to drain it exactly when together they hold more than the threshold. */
  lemma LoadsDecide(min: int, s: State, email: string)
    requires Inv(s) && Enabled(s, LoadUp(email))
    ensures var sid, s1 := s.names[email], Next(min, s, LoadUp(email));
            && Enabled(s1, LoadDown)
            && var t := Next(min, s1, LoadDown);
            && t == s.(pc := t.pc, seen := s.seen + {email})
            && t.pc == if s.cells[sid].up + s.cells[sid].down > min * 1000
                       then GotBoth(email, sid, s.cells[sid].up, s.cells[sid].down) else Ranging
  {}

  /** The zero-stores then empty it, and it is handed over under its user's uid or goes away if the user is unknown. */
  lemma StoresDrain(min: int, s: State)
    requires Inv(s) && s.pc.GotBoth?
    requires s.cells[s.pc.sid] == Bytes(s.pc.up, s.pc.down)
    ensures var steps := [StoreUp, StoreDown, Finish];
            && Runs(min, s, steps)
            && var t, known := End(min, s, steps), IsKnown(s.uidMap, s.pc.email);
            && t.cells == s.cells[s.pc.sid := Bytes(0, 0)] && t.pc == Ranging
            && t.uidMap == s.uidMap && t.seen == s.seen && t.reported == s.reported
            && t.names == (if known then s.names else s.names - {s.pc.email})
            && t.batch == s.batch + if known then [Entry(s.pc.sid, s.uidMap[s.pc.email], s.pc.up, s.pc.down)] else []
  {
    var s1 := Next(min, s, StoreUp);
    var s2 := Next(min, s1, StoreDown);
    Prepend(min, s2, Finish, [], Next(min, s2, Finish));
    Prepend(min, s1, StoreDown, [Finish] + [], Next(min, s2, Finish));
    Prepend(min, s, StoreUp, [StoreDown] + ([Finish] + []), Next(min, s2, Finish));
    assert [StoreUp] + ([StoreDown] + ([Finish] + [])) == [StoreUp, StoreDown, Finish];
  }

  predicate OnlyReporter(steps: seq<Step>) {
    forall i :: 0 <= i < |steps| ==>
                  !steps[i].Connect? && !steps[i].Add? && !steps[i].SetUid? && !steps[i].DelUser? && !steps[i].Post?
  }

  lemma EmptiedView(s: State, email: string)
    requires StoresFit(s) && email in s.names
    ensures var t := s.(cells := s.cells[s.names[email] := Bytes(0, 0)]);
            StoresFit(t) && View(t) == View(s)[email := Bytes(0, 0)]
  {
    forall e | e in s.names && e != email ensures s.names[e] != s.names[email] {}
  }

  lemma ForgottenView(s: State, email: string)
    requires StoresFit(s)
    ensures StoresFit(s.(names := s.names - {email})) && View(s.(names := s.names - {email})) == View(s) - {email}
  {}

  /** What a visit makes of the state. */
  ghost function Visited(min: int, s: State, email: string): State
    requires StoresFit(s) && email in s.names
  {
    var sid, b := s.names[email], s.cells[s.names[email]];
    if b.up + b.down <= min * 1000 then s.(seen := s.seen + {email})
    else if IsKnown(s.uidMap, email) then
      s.(seen := s.seen + {email}, cells := s.cells[sid := Bytes(0, 0)],
         batch := s.batch + [Entry(sid, s.uidMap[email], b.up, b.down)])
    else s.(seen := s.seen + {email}, cells := s.cells[sid := Bytes(0, 0)], names := s.names - {email})
  }

  lemma VisitReaches(min: int, s: State, email: string) returns (steps: seq<Step>)
    requires Inv(s) && s.pc.Ranging? && email in s.names && email !in s.seen
    ensures Runs(min, s, steps) && OnlyReporter(steps) && End(min, s, steps) == Visited(min, s, email)
  {
    var s1 := Next(min, s, LoadUp(email));
    var s2 := Next(min, s1, LoadDown);
    LoadsDecide(min, s, email);
    StepKeepsInv(min, s, LoadUp(email));
    StepKeepsInv(min, s1, LoadDown);
    steps := [];
    if s2.pc.GotBoth? {
      StoresDrain(min, s2);
      steps := [StoreUp, StoreDown, Finish];
      assert s.batch + [] == s.batch;
    }
    Prepend(min, s1, LoadDown, steps, Visited(min, s, email));
    steps := [LoadDown] + steps;
    Prepend(min, s, LoadUp(email), steps, Visited(min, s, email));
    steps := [LoadUp(email)] + steps;
  }

  lemma VisitedView(min: int, s: State, email: string)
    requires Inv(s) && email in s.names
    ensures var t := Visited(min, s, email);
            StoresFit(t) && View(t) == DrainOne(View(s), email, min, Uid(s.uidMap, email))
  {
    var emptied := s.(cells := s.cells[s.names[email] := Bytes(0, 0)]);
    EmptiedView(s, email);
    ForgottenView(emptied, email);
    assert View(s)[email := Bytes(0, 0)] - {email} == View(s) - {email};
  }

  lemma VisitRuns(min: int, s: State, email: string) returns (steps: seq<Step>)
    requires Inv(s) && s.pc.Ranging? && email in s.names && email !in s.seen
    ensures Runs(min, s, steps) && OnlyReporter(steps)
    ensures var t := End(min, s, steps);
            && Inv(t) && t.pc == Ranging && t.seen == s.seen + {email}
            && t.uidMap == s.uidMap && t.reported == s.reported
            && View(t) == DrainOne(View(s), email, min, Uid(s.uidMap, email))
            && t.batch == s.batch + if HandsOver(View(s), s.uidMap, min, email)
                                    then [Entry(s.names[email], Uid(s.uidMap, email),
                                                View(s)[email].up, View(s)[email].down)] else []
  {
    steps := VisitReaches(min, s, email);
    RunKeepsInv(min, s, steps);
    VisitedView(min, s, email);
    assert s.batch + [] == s.batch;
  }

  lemma TrafficsStep(batch: seq<Entry>, e: Entry)
    ensures Traffics(batch + [e]) == Traffics(batch) + [UserTraffic(e.uid, e.up, e.down)]
  {
    assert (batch + [e])[..|batch|] == batch;
  }

  lemma Joins(min: int, s: State, a: seq<Step>, b: seq<Step>)
    requires Runs(min, s, a) && Runs(min, End(min, s, a), b)
    ensures Runs(min, s, a + b) && End(min, s, a + b) == End(min, End(min, s, a), b)
    decreases |a|
  {
    if a == [] {
      assert a + b == b;
    } else {
      assert (a + b)[1..] == a[1..] + b;
      Joins(min, Next(min, s, a[0]), a[1..], b);
    }
  }

  /** The pass has dealt with the names visited so far as the single-step pass would. */
  ghost predicate Follows(min: int, s: State, view: map<string, Bytes>, done: seq<string>) {
    && Inv(s) && s.pc == Ranging && Enumerates(done, s.seen)
    && View(s) == Drained(view, s.uidMap, min, s.seen) && Traffics(s.batch) == Slice(view, s.uidMap, min, done)
  }

  lemma VisitFollows(min: int, s: State, view: map<string, Bytes>, done: seq<string>, email: string)
    returns (steps: seq<Step>)
    requires Follows(min, s, view, done) && email in view && email !in s.seen
    ensures Runs(min, s, steps) && OnlyReporter(steps)
    ensures var t := End(min, s, steps);
            Follows(min, t, view, done + [email]) && t.uidMap == s.uidMap && t.reported == s.reported
  {
    Traffic.VisitStep(view, s.uidMap, min, done, s.seen, email);
    assert email in View(s) && View(s)[email] == view[email];
    steps := VisitRuns(min, s, email);
    var e := Entry(s.names[email], Uid(s.uidMap, email), view[email].up, view[email].down);
    TrafficsStep(s.batch, e);
    assert s.batch + [] == s.batch;
  }

  lemma NextIsNew(order: seq<string>, n: nat, keys: set<string>, seen: set<string>)
    requires n < |order| && Enumerates(order, keys) && Enumerates(order[..n], seen)
    ensures order[n] in keys && order[n] !in seen && order[..n] + [order[n]] == order[..n + 1]
  {
    assert order[n] in order;
    assert order[n] !in order[..n];
  }

  lemma NextFollows(min: int, s: State, view: map<string, Bytes>, order: seq<string>, n: nat)
    returns (steps: seq<Step>)
    requires n < |order| && Enumerates(order, view.Keys) && Follows(min, s, view, order[..n])
    ensures Runs(min, s, steps) && OnlyReporter(steps)
    ensures var t := End(min, s, steps);
            Follows(min, t, view, order[..n + 1]) && t.uidMap == s.uidMap && t.reported == s.reported
  {
    NextIsNew(order, n, view.Keys, s.seen);
    steps := VisitFollows(min, s, view, order[..n], order[n]);
  }

  /** The rest of a pass, given what it has done to the first storages. */
  lemma {:induction false} RestOfPass(min: int, s: State, view: map<string, Bytes>, order: seq<string>, n: nat)
    returns (steps: seq<Step>)
    requires n <= |order| && Enumerates(order, view.Keys) && Follows(min, s, view, order[..n])
    ensures Runs(min, s, steps) && OnlyReporter(steps)
    ensures var t := End(min, s, steps);
            Follows(min, t, view, order[..|order|]) && t.uidMap == s.uidMap && t.reported == s.reported
    decreases |order| - n
  {
    steps := [];
    if n < |order| {
      var first := NextFollows(min, s, view, order, n);
      var more := RestOfPass(min, End(min, s, first), view, order, n + 1);
      Joins(min, s, first, more);
      steps := first + more;
    }
  }

  lemma PassBegins(min: int, s: State)
    requires Inv(s) && s.pc.Idle?
    ensures var t := Next(min, s, BeginPass);
            t == s.(pc := Ranging, seen := {}, batch := []) && Follows(min, t, View(s), [])
  {
    StepKeepsInv(min, s, BeginPass);
  }

  lemma PassEnds(min: int, s: State, visits: seq<Step>, t: State) returns (steps: seq<Step>)
    requires Inv(s) && s.pc.Idle? && OnlyReporter(visits)
    requires var s1 := Next(min, s, BeginPass); Runs(min, s1, visits) && End(min, s1, visits) == t
    requires Inv(t) && t.pc.Ranging?
    ensures Runs(min, s, steps) && OnlyReporter(steps)
    ensures End(min, s, steps) == t.(pc := if t.batch == [] then Idle else Posting) && Inv(End(min, s, steps))
  {
    var s1, last := Next(min, s, BeginPass), Next(min, t, EndPass);
    StepKeepsInv(min, t, EndPass);
    Prepend(min, t, EndPass, [], last);
    Joins(min, s1, visits, [EndPass] + []);
    steps := visits + ([EndPass] + []);
    Prepend(min, s, BeginPass, steps, last);
    steps := [BeginPass] + steps;
  }

  /** A pass that nothing interrupts, in whatever order it visits the names, does to the storages and puts into its
      batch exactly what the single-step pass does. */
  lemma QuietPassIsOnePass(min: int, s: State, order: seq<string>) returns (steps: seq<Step>)
    requires Inv(s) && s.pc.Idle? && Enumerates(order, s.names.Keys)
    ensures Runs(min, s, steps) && OnlyReporter(steps)
    ensures var t := End(min, s, steps);
            && Inv(t) && t.uidMap == s.uidMap && t.reported == s.reported
            && View(t) == Drained(View(s), s.uidMap, min, s.names.Keys)
            && Traffics(t.batch) == Slice(View(s), s.uidMap, min, order)
            && t.pc == if t.batch == [] then Idle else Posting
  {
    PassBegins(min, s);
    assert order[..0] == [] && order[..|order|] == order && View(s).Keys == s.names.Keys;
    var s1 := Next(min, s, BeginPass);
    var visits := RestOfPass(min, s1, View(s), order, 0);
    assert End(min, s1, visits).seen == s.names.Keys by {
      assert forall k :: k in End(min, s1, visits).seen <==> k in order;
    }
    steps := PassEnds(min, s, visits, End(min, s1, visits));
  }

  /** A post that succeeds adds the delivered entries to what the panel has; either way the batch is gone and the next
      pass can begin. */
  lemma PostEnds(min: int, s: State, ok: bool)
    requires s.pc.Posting?
    ensures var t := Next(min, s, Post(ok));
            && t == s.(pc := Idle, batch := [], reported := t.reported) && Enabled(t, BeginPass)
            && (!ok ==> t.reported == s.reported)
            && (ok ==> t.reported == s.reported + Delivered(s.batch))
  {}

  // ---- runs that lose bytes ----

  lemma Prepend(min: int, s: State, step: Step, rest: seq<Step>, t: State)
    requires Enabled(s, step) && Runs(min, Next(min, s, step), rest) && End(min, Next(min, s, step), rest) == t
    ensures Runs(min, s, [step] + rest) && End(min, s, [step] + rest) == t
    ensures forall sid, dir :: Added([step] + rest, sid, dir) == AddedBy(step, sid, dir) + Added(rest, sid, dir)
  {
    assert ([step] + rest)[1..] == rest;
  }

  /** Between reports, less is reported and drainable than was added to the storage. */
  ghost predicate Misses(min: int, steps: seq<Step>, sid: nat) {
    && Runs(min, INIT, steps) && End(min, INIT, steps).pc.Idle?
    && Reported(End(min, INIT, steps), sid, Up) + Live(End(min, INIT, steps), sid, Up) < Added(steps, sid, Up)
  }

  lemma FirstBytes(rest: seq<Step>, t: State) returns (steps: seq<Step>)
    requires var s := State(map["e" := 0], [Bytes(5, 0)], map["e" := 7], Idle, {}, [], []);
             Runs(0, s, rest) && End(0, s, rest) == t
    ensures Runs(0, INIT, steps) && End(0, INIT, steps) == t && Added(steps, 0, Up) == 5 + Added(rest, 0, Up)
    ensures forall step :: step in steps ==> step in rest || step.SetUid? || step.Connect? || step.Add?
  {
    var s1 := Next(0, INIT, SetUid("e", 7));
    var s2 := Next(0, s1, Connect("e"));
    var s3 := Next(0, s2, Add(0, Up, 5));
    assert s3 == State(map["e" := 0], [Bytes(5, 0)], map["e" := 7], Idle, {}, [], []);
    Prepend(0, s2, Add(0, Up, 5), rest, t);
    steps := [Add(0, Up, 5)] + rest;
    Prepend(0, s1, Connect("e"), steps, t);
    steps := [Connect("e")] + steps;
    Prepend(0, INIT, SetUid("e", 7), steps, t);
    steps := [SetUid("e", 7)] + steps;
  }

  /** Deleting a user loses what was counted since the last pass, without any pass. */
  lemma DeletedUserLosesBytes()
    ensures exists steps :: Misses(0, steps, 0) && BeginPass !in steps
  {
    var s := State(map["e" := 0], [Bytes(5, 0)], map["e" := 7], Idle, {}, [], []);
    var t := Next(0, s, DelUser("e"));
    Prepend(0, s, DelUser("e"), [], t);
    var steps := FirstBytes([DelUser("e")] + [], t);
    assert t.names == map[] && !Reachable(t, 0);
    assert Misses(0, steps, 0);
  }

  /** A byte counted between a load and its zero-store is lost although the user stays and the post succeeds. */
  lemma BytesCanBeLost()
    ensures exists steps :: Misses(0, steps, 0) && DelUser("e") !in steps && Post(false) !in steps
  {
    var s := State(map["e" := 0], [Bytes(5, 0)], map["e" := 7], Idle, {}, [], []);
    var t := s.(cells := [Bytes(0, 0)], seen := {"e"}, reported := [Entry(0, 7, 5, 0)]);
    var pass := RacingPass(s, t);
    var steps := FirstBytes(pass, t);
    assert Sum(t.reported, 0, Up) == 5;
    assert Misses(0, steps, 0);
  }

  lemma RacingPass(s: State, t: State) returns (steps: seq<Step>)
    requires s == State(map["e" := 0], [Bytes(5, 0)], map["e" := 7], Idle, {}, [], [])
    requires t == s.(cells := [Bytes(0, 0)], seen := {"e"}, reported := [Entry(0, 7, 5, 0)])
    ensures Runs(0, s, steps) && End(0, s, steps) == t && Added(steps, 0, Up) == 1
    ensures DelUser("e") !in steps && Post(false) !in steps
  {
    var begun := Next(0, s, BeginPass);
    var loaded := s.(pc := GotUp("e", 0, 5), seen := {"e"});
    var raced := loaded.(cells := [Bytes(6, 0)]);
    steps := DrainAfterRace(raced, t);
    assert Next(0, loaded, Add(0, Up, 1)) == raced;
    Prepend(0, loaded, Add(0, Up, 1), steps, t);
    steps := [Add(0, Up, 1)] + steps;
    assert Next(0, begun, LoadUp("e")) == loaded;
    Prepend(0, begun, LoadUp("e"), steps, t);
    steps := [LoadUp("e")] + steps;
    Prepend(0, s, BeginPass, steps, t);
    steps := [BeginPass] + steps;
  }

  lemma DrainAfterRace(s: State, t: State) returns (steps: seq<Step>)
    requires s == State(map["e" := 0], [Bytes(6, 0)], map["e" := 7], GotUp("e", 0, 5), {"e"}, [], [])
    requires t == s.(cells := [Bytes(0, 0)], pc := Idle, reported := [Entry(0, 7, 5, 0)])
    ensures Runs(0, s, steps) && End(0, s, steps) == t && Added(steps, 0, Up) == 0
    ensures DelUser("e") !in steps && Post(false) !in steps
  {
    var s1 := Next(0, s, LoadDown);
    var s2 := Next(0, s1, StoreUp);
    var s3 := Next(0, s2, StoreDown);
    var s4 := Next(0, s3, Finish);
    steps := PostAfterRace(s4, t);
    Prepend(0, s3, Finish, steps, t);
    steps := [Finish] + steps;
    Prepend(0, s2, StoreDown, steps, t);
    steps := [StoreDown] + steps;
    Prepend(0, s1, StoreUp, steps, t);
    steps := [StoreUp] + steps;
    Prepend(0, s, LoadDown, steps, t);
    steps := [LoadDown] + steps;
  }

  lemma PostAfterRace(s: State, t: State) returns (steps: seq<Step>)
    requires s == State(map["e" := 0], [Bytes(0, 0)], map["e" := 7], Ranging, {"e"}, [Entry(0, 7, 5, 0)], [])
    requires t == s.(pc := Idle, batch := [], reported := [Entry(0, 7, 5, 0)])
    ensures Runs(0, s, steps) && End(0, s, steps) == t && Added(steps, 0, Up) == 0
    ensures DelUser("e") !in steps && Post(false) !in steps
  {
    var s1 := Next(0, s, EndPass);
    assert !LaterUid(s.batch, 0) && Delivered(s.batch) == s.batch;
    Prepend(0, s1, Post(true), [], t);
    steps := [Post(true)] + [];
    Prepend(0, s, EndPass, steps, t);
    steps := [EndPass] + steps;
  }
}
