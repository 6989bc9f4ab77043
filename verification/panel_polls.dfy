/** The node beside its panel, reloads included: what the client's ETag does to a list that the node could not take. */
module PanelPolls {
  import opened Panel
  import opened LimiterSpec
  import opened CoreUsers
  import opened NodeSync

  /** `list` is the panel's present list; `delivered` is the last one the client has received, whose ETag it sends. */
  datatype World = World(node: NodeState, list: seq<UserInfo>, delivered: seq<UserInfo>)

  /** One run of the monitor task: whether the list request succeeds, whether the device counts arrive afterwards, and
      the inputs of the poll made with them. */
  datatype Monitor = Monitor(reached: bool, aliveArrives: bool, alive: Option<map<int, int>>,
                             deleted: seq<UserInfo>, delFault: Fault, addFault: Fault)

  /** A restart is a reload that succeeds, for whatever reason, a monitor that ran out of time included; it carries the
      device counts and the new core with the node's inbound. */
  datatype WorldEvent =
    | PanelChanges(users: seq<UserInfo>)
    | MonitorRuns(m: Monitor)
    | NodeEvent(e: Event)
    | Restart(alive: map<int, int>, core: CoreState)

  /** The panel answers an unchanged ETag without a list; the client takes the ETag of every list it can decode. */
  function PollOf(w: World, m: Monitor): PollResult {
    PollResult(if w.list == w.delivered then [] else w.list, m.alive, m.deleted, m.delFault, m.addFault)
  }

  ghost predicate Possible(w: World, e: WorldEvent) {
    match e
    case PanelChanges(_) => true
    case MonitorRuns(m) => m.reached && m.aliveArrives ==> Legal(w.node, Poll(PollOf(w, m)))
    case NodeEvent(e) => !e.Poll? && Legal(w.node, e)
    case Restart(_, _) => w.list != []
  }

  /** A restart makes a client without an ETag and starts the node on the list it then receives. */
  ghost function Next(cfg: Config, tag: string, w: World, e: WorldEvent): World
    requires Possible(w, e)
  {
    match e
    case PanelChanges(users) => w.(list := users)
    case MonitorRuns(m) =>
      if !m.reached then w
      else if !m.aliveArrives then w.(delivered := w.list)
      else w.(delivered := w.list, node := AfterPoll(cfg, tag, w.node, PollOf(w, m)))
    case NodeEvent(e) => w.(node := Apply(cfg, tag, w.node, e))
    case Restart(alive, core) => w.(node := Start(tag, w.list, alive, core), delivered := w.list)
  }

  ghost predicate Runs(cfg: Config, tag: string, w: World, es: seq<WorldEvent>)
    decreases |es|
  {
    es == [] || (Possible(w, es[0]) && Runs(cfg, tag, Next(cfg, tag, w, es[0]), es[1..]))
  }

  ghost function End(cfg: Config, tag: string, w: World, es: seq<WorldEvent>): World
    requires Runs(cfg, tag, w, es)
    decreases |es|
  {
    if es == [] then w else End(cfg, tag, Next(cfg, tag, w, es[0]), es[1..])
  }

  predicate PanelStays(es: seq<WorldEvent>) {
    forall i :: 0 <= i < |es| ==> !es[i].PanelChanges?
  }

  /** The node takes the list this run of the monitor delivers. */
  predicate Takes(tag: string, w: World, m: Monitor) {
    m.reached && m.aliveArrives && Accepted(tag, w.node, PollOf(w, m))
  }

  /** The first delivery of the run that a poll receives is taken. */
  ghost predicate FirstDeliveryTaken(cfg: Config, tag: string, w: World, es: seq<WorldEvent>)
    requires Runs(cfg, tag, w, es)
    decreases |es|
  {
    && es != []
    && if es[0].MonitorRuns? && es[0].m.reached then Takes(tag, w, es[0].m)
       else FirstDeliveryTaken(cfg, tag, Next(cfg, tag, w, es[0]), es[1..])
  }

  predicate SomeRestart(es: seq<WorldEvent>) {
    exists i :: 0 <= i < |es| && es[i].Restart?
  }

  lemma ListAfter(cfg: Config, tag: string, w: World, e: WorldEvent)
    requires Possible(w, e) && !e.PanelChanges?
    ensures var t := Next(cfg, tag, w, e);
            && t.list == w.list
            && t.delivered == (if e.Restart? || (e.MonitorRuns? && e.m.reached) then w.list else w.delivered)
            && t.node.userList == if e.Restart? then w.list
                                  else if e.MonitorRuns? && Takes(tag, w, e.m) then PollOf(w, e.m).users
                                  else w.node.userList
  {}

  lemma RestartTail(es: seq<WorldEvent>)
    requires es != []
    ensures SomeRestart(es) <==> es[0].Restart? || SomeRestart(es[1..])
  {
    if i :| 0 <= i < |es| && es[i].Restart? {
      assert i == 0 || es[1..][i - 1].Restart?;
    }
    if i :| 0 <= i < |es[1..]| && es[1..][i].Restart? {
      assert es[i + 1].Restart?;
    }
  }

  /** While the panel keeps a list that has been delivered, polling never changes the node's list: only a restart does,
      and it brings the panel's. */
  lemma {:induction false} DeliveredIsFinal(cfg: Config, tag: string, w: World, es: seq<WorldEvent>)
    requires Runs(cfg, tag, w, es) && PanelStays(es) && w.delivered == w.list
    ensures End(cfg, tag, w, es).node.userList == if SomeRestart(es) then w.list else w.node.userList
    decreases |es|
  {
    if es != [] {
      RestartTail(es);
      ListAfter(cfg, tag, w, es[0]);
      DeliveredIsFinal(cfg, tag, Next(cfg, tag, w, es[0]), es[1..]);
    }
  }

  /** However often it polls, a node comes to agree with a new list of the panel exactly when it takes the very first
      delivery of it or is restarted: a list that a failing core, missing device counts or emptiness kept it from taking
      does not come again by polling. */
  lemma {:induction false} AgreesWithPanelIff(cfg: Config, tag: string, w: World, es: seq<WorldEvent>)
    requires Runs(cfg, tag, w, es) && PanelStays(es) && w.list != w.delivered && w.node.userList != w.list
    ensures End(cfg, tag, w, es).node.userList == w.list <==>
            FirstDeliveryTaken(cfg, tag, w, es) || SomeRestart(es)
    decreases |es|
  {
    if es != [] {
      var t := Next(cfg, tag, w, es[0]);
      RestartTail(es);
      ListAfter(cfg, tag, w, es[0]);
      if es[0].Restart? || (es[0].MonitorRuns? && es[0].m.reached) {
        DeliveredIsFinal(cfg, tag, t, es[1..]);
      } else {
        AgreesWithPanelIff(cfg, tag, t, es[1..]);
      }
    }
  }
}
