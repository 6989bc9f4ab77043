/** The reload signal: a channel of capacity one that never blocks its senders and outlives every core. */
module ReloadSignal {
  import opened Panel

  /** A running task: the core of its controller, and the channel it copied from that core when it was set up. */
  datatype Task = Task(core: nat, ch: Option<nat>)

  /** Where the main loop is. A reload saves the old core's channel, closes the old generation and reads the
      configuration; then it makes a core, attaches the channel to it, and starts the tasks. The start of the program
      goes the same way with the channel it made itself. */
  datatype Phase =
    | Waiting
    | Closing(saved: Option<nat>)
    | Loaded(saved: Option<nat>)
    | Made(saved: Option<nat>)
    | Starting

  /** Channels are numbers, `mainCh` the one the main loop and the file watcher use, `full` those that hold a signal.
      `cores` holds the channel field of every core made so far, the newest last: stopped tasks of older cores may still
      finish a run. `version` counts the changes of the configuration, `signaled` the version of the last signal
      attempt, `loaded` the version the last reload read. `panicked`: some task had no channel to signal on. */
  datatype State = State(mainCh: nat, cores: seq<Option<nat>>, tasks: seq<Task>, full: set<nat>,
                         version: nat, signaled: nat, loaded: nat, phase: Phase, panicked: bool)

  datatype Step =
    | Change
    | MonitorSignal(task: nat)
    | TimeoutSignal(task: nat)
    | WatchSignal
    | Take
    | Load
    | NewCore
    | Attach
    | StartTask
    | Finish

  /** The program has made its channel and read its configuration. */
  const INIT := State(0, [], [], {}, 0, 0, 0, Loaded(Some(0)), false)

  predicate Enabled(s: State, step: Step) {
    match step
    case Change => true
    case MonitorSignal(task) => task < |s.tasks| && s.tasks[task].core < |s.cores|
    case TimeoutSignal(task) => task < |s.tasks|
    case WatchSignal => true
    case Take => s.phase.Waiting? && s.mainCh in s.full && s.cores != []
    case Load => s.phase.Closing?
    case NewCore => s.phase.Loaded?
    case Attach => s.phase.Made? && s.cores != []
    case StartTask => s.phase.Starting? && s.cores != []
    case Finish => s.phase.Starting?
  }

  /** Sends if there is room and drops the signal otherwise; without a channel the program panics. */
  function Send(s: State, ch: Option<nat>): State {
    match ch
    case Some(c) => s.(full := s.full + {c}, signaled := s.version)
    case None => s.(panicked := true)
  }

  /** The node monitor reads the channel from its core at the time of the signal, a timed-out task uses its copy. */
  function Next(s: State, step: Step): State
    requires Enabled(s, step)
  {
    var n := |s.cores|;
    match step
    case Change => s.(version := s.version + 1)
    case MonitorSignal(task) => Send(s, s.cores[s.tasks[task].core])
    case TimeoutSignal(task) => Send(s, s.tasks[task].ch)
    case WatchSignal => Send(s, Some(s.mainCh))
    case Take => s.(full := s.full - {s.mainCh}, phase := Closing(s.cores[n - 1]))
    case Load => s.(loaded := s.version, phase := Loaded(s.phase.saved))
    case NewCore => s.(cores := s.cores + [None], phase := Made(s.phase.saved))
    case Attach => s.(cores := s.cores[n - 1 := s.phase.saved], phase := Starting)
    case StartTask => s.(tasks := s.tasks + [Task(n - 1, s.cores[n - 1])])
    case Finish => s.(phase := Waiting)
  }

  predicate Runs(s: State, steps: seq<Step>)
    decreases |steps|
  {
    steps == [] || (Enabled(s, steps[0]) && Runs(Next(s, steps[0]), steps[1..]))
  }

  function End(s: State, steps: seq<Step>): State
    requires Runs(s, steps)
    decreases |steps|
  {
    if steps == [] then s else End(Next(s, steps[0]), steps[1..])
  }

  predicate Saves(phase: Phase) {
    phase.Closing? || phase.Loaded? || phase.Made?
  }

  /** Every core has the main loop's channel, except one just made, whose channel is at hand; so has every task. */
  ghost predicate OneChannel(s: State) {
    && (Saves(s.phase) ==> s.phase.saved == Some(s.mainCh))
    && (!s.phase.Loaded? ==> s.cores != [])
    && (s.phase.Made? ==> s.cores[|s.cores| - 1] == None)
    && (forall i :: 0 <= i < |s.cores| && !(s.phase.Made? && i == |s.cores| - 1) ==> s.cores[i] == Some(s.mainCh))
    && (forall i :: 0 <= i < |s.tasks| ==>
          && s.tasks[i].core < |s.cores| && s.tasks[i].ch == Some(s.mainCh)
          && !(s.phase.Made? && s.tasks[i].core == |s.cores| - 1))
  }

  /** A signaled change is loaded, or waits in the channel, or a reload that has yet to read is under way. */
  ghost predicate NothingForgotten(s: State) {
    s.signaled <= s.version && (s.signaled <= s.loaded || s.mainCh in s.full || s.phase.Closing?)
  }

  ghost predicate Inv(s: State) {
    OneChannel(s) && NothingForgotten(s) && !s.panicked
  }

  lemma StepKeepsInv(s: State, step: Step)
    requires Inv(s) && Enabled(s, step)
    ensures Inv(Next(s, step)) && Next(s, step).mainCh == s.mainCh
  {}

  /** Whatever is signaled, taken and reloaded in whatever order, every generation of tasks keeps sending where the main
      loop listens, no task is without a channel, and no signal is forgotten. */
  lemma {:induction false} RunKeepsSignals(s: State, steps: seq<Step>)
    requires Inv(s) && Runs(s, steps)
    ensures Inv(End(s, steps)) && End(s, steps).mainCh == s.mainCh
    decreases |steps|
  {
    if steps != [] {
      StepKeepsInv(s, steps[0]);
      RunKeepsSignals(Next(s, steps[0]), steps[1..]);
    }
  }

  /** Under every interleaving from the start of the program on: no task ever lacks its channel, and once the main loop
      waits on an empty channel, whatever was signaled has been loaded. */
  lemma QuietMeansLoaded(steps: seq<Step>)
    requires Runs(INIT, steps)
    ensures var s := End(INIT, steps);
            !s.panicked && (s.phase.Waiting? && s.mainCh !in s.full ==> s.loaded >= s.signaled)
  {
    RunKeepsSignals(INIT, steps);
  }

  predicate IsSignal(step: Step) {
    step.MonitorSignal? || step.TimeoutSignal? || step.WatchSignal?
  }

  lemma {:induction false} FullUntilTaken(s: State, steps: seq<Step>)
    requires s.mainCh in s.full && Runs(s, steps) && forall i :: 0 <= i < |steps| ==> !steps[i].Take?
    ensures End(s, steps).mainCh in End(s, steps).full
    decreases |steps|
  {
    if steps != [] {
      FullUntilTaken(Next(s, steps[0]), steps[1..]);
    }
  }

  /** A signal, sent or dropped, that no later take follows is still in the channel: the next reload covers it. */
  lemma {:induction false} SignalOutlivesRun(s: State, steps: seq<Step>, i: nat)
    requires Inv(s) && Runs(s, steps)
    requires i < |steps| && IsSignal(steps[i]) && forall j :: i < j < |steps| ==> !steps[j].Take?
    ensures End(s, steps).mainCh in End(s, steps).full
    decreases |steps|
  {
    var s1 := Next(s, steps[0]);
    StepKeepsInv(s, steps[0]);
    if i == 0 {
      FullUntilTaken(s1, steps[1..]);
    } else {
      SignalOutlivesRun(s1, steps[1..], i - 1);
    }
  }

  /** Were the saved channel not attached to the new core, the first task to time out would bring the program down. */
  lemma AttachingMatters(s: State)
    requires Inv(s) && s.phase.Made?
    ensures var steps := [StartTask, TimeoutSignal(|s.tasks|)];
            Runs(s.(phase := Starting), steps) && End(s.(phase := Starting), steps).panicked
  {
    var s0, steps := s.(phase := Starting), [StartTask, TimeoutSignal(|s.tasks|)];
    var s1 := Next(s0, StartTask);
    assert steps[1..] == [TimeoutSignal(|s.tasks|)] && steps[1..][1..] == [];
    assert s1.tasks[|s.tasks|].ch == None;
    assert End(s1, steps[1..]).panicked;
  }

  lemma RunsOne(s: State, step: Step, rest: seq<Step>)
    requires Enabled(s, step) && Runs(Next(s, step), rest)
    ensures Runs(s, [step] + rest) && End(s, [step] + rest) == End(Next(s, step), rest)
  {
    assert ([step] + rest)[1..] == rest;
  }

  lemma NewGeneration(s: State)
    requires Inv(s) && s.phase.Made?
    ensures var steps, n := [Attach, StartTask, Finish], |s.cores|;
            && Runs(s, steps)
            && End(s, steps) == s.(cores := s.cores[n - 1 := Some(s.mainCh)],
                                   tasks := s.tasks + [Task(n - 1, Some(s.mainCh))], phase := Waiting)
  {
    var s1 := Next(s, Attach);
    var s2 := Next(s1, StartTask);
    RunsOne(s2, Finish, []);
    RunsOne(s1, StartTask, [Finish] + []);
    RunsOne(s, Attach, [StartTask] + ([Finish] + []));
    assert [Attach] + ([StartTask] + ([Finish] + [])) == [Attach, StartTask, Finish];
  }

  /** A reload under way can always go on to its end; then the loop waits with the present configuration, the new core
      and its task have the channel, and a signal that came meanwhile can be taken at once. */
  lemma ReloadFinishes(s: State)
    requires Inv(s) && s.phase.Closing?
    ensures var steps := [Load, NewCore] + [Attach, StartTask, Finish];
            && Runs(s, steps)
            && var t := End(s, steps);
            && t == s.(loaded := s.version, phase := Waiting, cores := s.cores + [Some(s.mainCh)],
                       tasks := s.tasks + [Task(|s.cores|, Some(s.mainCh))])
            && (s.mainCh in s.full ==> Enabled(t, Take))
  {
    var s1 := Next(s, Load);
    var s2 := Next(s1, NewCore);
    StepKeepsInv(s, Load);
    StepKeepsInv(s1, NewCore);
    NewGeneration(s2);
    assert s2.cores[|s.cores| := Some(s.mainCh)] == s.cores + [Some(s.mainCh)];
    var rest := [Attach, StartTask, Finish];
    RunsOne(s1, NewCore, rest);
    RunsOne(s, Load, [NewCore] + rest);
    assert [Load] + ([NewCore] + rest) == [Load, NewCore] + rest;
  }

  /** Any signal to a waiting loop, of a task of whatever generation or of the file watcher, can be taken and leads into
      a reload that has yet to read the configuration; nothing else is in the channel then. */
  lemma SignalIsTaken(s: State, signal: Step)
    requires Inv(s) && s.phase.Waiting? && IsSignal(signal) && Enabled(s, signal)
    ensures var s1 := Next(s, signal);
            && s1.full == s.full + {s.mainCh} && s1.signaled == s.version && Enabled(s1, Take)
            && var t := Next(s1, Take);
            && Inv(t) && t.phase == Closing(Some(s.mainCh)) && t.full == s.full - {s.mainCh}
  {
    StepKeepsInv(s, signal);
    StepKeepsInv(Next(s, signal), Take);
  }
}
