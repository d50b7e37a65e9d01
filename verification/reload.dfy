// The agent's apply and reload protocol (agent/cmd/agent/main.go): what the files
// and the running Xray hold if the agent dies between any two steps.

/** The protocol as a state machine, with crashes and failures everywhere. */
module ReloadProtocol {
  import opened Wrappers
  import opened Xray

  /** The config file, the temporary file, the .reload-pending file and what Xray runs. */
  datatype Machine = Machine(file: Option<Config>, tmp: Option<Config>, marker: bool, running: Option<Config>)

  /** The steps of applyXrayConfig still to come, the next one named. */
  datatype Stage = WriteTmp | Test | Mark | Rename | Reload | Unmark

  /** Not running, at the top of the loop, or inside applyXrayConfig. */
  datatype Control = Down | Top | Applying(stage: Stage, doc: Config)

  datatype State = State(world: Machine, control: Control, pending: bool)

  /** The hash an agent reports: none while a reload is pending or the file is missing. */
  function ReportedHash(s: State): Option<Config> {
    if s.pending then None else s.world.file
  }

  /** The panel's answer to a report. */
  predicate RestartRequired(s: State, desired: Config) {
    ReportedHash(s) != Some(desired)
  }

  predicate Starts(s: State, t: State) {
    s.control.Down? && t == State(s.world, Top, s.world.marker)
  }

  predicate Crashes(s: State, t: State) {
    !s.control.Down? && t == s.(control := Down)
  }

  /** A failed heartbeat or sync, an up-to-date answer, or applying switched off. */
  predicate Idles(s: State, t: State) {
    s.control.Top? && t == s
  }

  predicate Begins(s: State, t: State) {
    s.control.Top? && t.control.Applying? && t.control.stage.WriteTmp? &&
    RestartRequired(s, t.control.doc) && t == s.(control := t.control)
  }

  predicate Advances(s: State, t: State) {
    s.control.Applying? &&
    var w, doc := s.world, s.control.doc;
    match s.control.stage
    case WriteTmp => t == s.(world := w.(tmp := Some(doc)), control := Applying(Test, doc))
    case Test => t == s.(control := Applying(Mark, doc))
    case Mark => t == s.(world := w.(marker := true), control := Applying(Rename, doc))
    case Rename => t == s.(world := w.(file := w.tmp, tmp := None), control := Applying(Reload, doc))
    case Reload => t == s.(world := w.(running := w.file), control := Applying(Unmark, doc))
    case Unmark => t == State(w.(marker := false), Top, false)
  }

  /** A step fails: the write may leave anything, a reload may leave Xray in any condition. */
  predicate Fails(s: State, t: State) {
    s.control.Applying? && t.control.Top? && t.pending &&
    var w := s.world;
    match s.control.stage
    case WriteTmp => t.world == w.(tmp := t.world.tmp)
    case Test => t.world == w.(tmp := t.world.tmp)
    case Mark => t.world == w || t.world == w.(marker := true)
    case Rename => t.world == w
    case Reload => t.world == w.(running := t.world.running)
    case Unmark => t.world == w
  }

  /** A crash in the middle of writing the temporary file leaves a partial one. */
  predicate Tears(s: State, t: State) {
    s.control.Applying? && s.control.stage.WriteTmp? && t == State(s.world.(tmp := t.world.tmp), Down, s.pending)
  }

  /** Xray is restarted by somebody else and reads the file. */
  predicate XrayRestarts(s: State, t: State) {
    t == s.(world := s.world.(running := s.world.file))
  }

  predicate Next(s: State, t: State) {
    Starts(s, t) || Crashes(s, t) || Idles(s, t) || Begins(s, t) || Advances(s, t) || Fails(s, t) || Tears(s, t) || XrayRestarts(s, t)
  }

  /** Installed, or left behind by an earlier agent: no marker means Xray runs what is on disk. */
  predicate Initial(s: State) {
    s.control.Down? && Confirmed(s.world)
  }

  predicate Confirmed(w: Machine) {
    !w.marker ==> w.running == w.file
  }

  predicate Invariant(s: State) {
    && Confirmed(s.world)
    && (s.control.Top? && !s.pending ==> !s.world.marker)
    && (s.control.Applying? ==>
      && (s.control.stage in {Test, Mark, Rename} ==> s.world.tmp == Some(s.control.doc))
      && (s.control.stage in {Rename, Reload, Unmark} ==> s.world.marker)
      && (s.control.stage in {Reload, Unmark} ==> s.world.file == Some(s.control.doc))
      && (s.control.stage == Unmark ==> s.world.running == s.world.file))
  }

  lemma NextKeepsInvariant(s: State, t: State)
    requires Invariant(s) && Next(s, t)
    ensures Invariant(t)
  {
  }

  /** A run: every state follows from the one before. */
  ghost predicate Behavior(run: seq<State>) {
    run != [] && forall i | 0 <= i < |run| - 1 :: Next(run[i], run[i + 1])
  }

  lemma {:induction false} InvariantHolds(run: seq<State>, i: nat)
    requires Behavior(run) && Invariant(run[0]) && i < |run|
    ensures Invariant(run[i])
    decreases i
  {
    if i > 0 {
      InvariantHolds(run, i - 1);
      NextKeepsInvariant(run[i - 1], run[i]);
    }
  }

  /**
   With crashes and failures between any two steps, at every moment of every run: without
   a marker file, Xray runs what is on disk; and whenever the panel answers an agent at the
   top of its loop that no restart is required, Xray runs the desired config.
   */
  lemma CrashSafe(run: seq<State>, i: nat, desired: Config)
    requires Behavior(run) && Initial(run[0]) && i < |run|
    ensures !run[i].world.marker ==> run[i].world.running == run[i].world.file
    ensures run[i].control.Top? && !RestartRequired(run[i], desired) ==>
      run[i].world.running == Some(desired) == run[i].world.file && !run[i].world.marker
  {
    InvariantHolds(run, i);
  }

  /** So the files an agent leaves at any moment are good enough for the next one to start on. */
  lemma AnyCrashCanRestart(run: seq<State>, i: nat, restarted: State)
    requires Behavior(run) && Initial(run[0]) && i < |run|
    requires Starts(run[i].(control := Down), restarted)
    ensures Invariant(restarted) && restarted.pending == restarted.world.marker
  {
    InvariantHolds(run, i);
  }

  /** The file on disk is only ever replaced by a document that passed through the temporary file whole. */
  lemma FileIsNeverTorn(run: seq<State>, i: nat)
    requires Behavior(run) && Initial(run[0]) && i + 1 < |run|
    requires run[i + 1].world.file != run[i].world.file
    ensures run[i].control.Applying? && run[i + 1].world.file == Some(run[i].control.doc)
  {
    InvariantHolds(run, i);
  }
}

/** The agent process; its ghost run shows that the code takes only steps of the protocol. */
module Agents {
  import opened Wrappers
  import opened Xray
  import opened ReloadProtocol

  /** Which operating-system steps succeed, and what a failing one leaves behind. */
  datatype Faults = Faults(
    mkdir: bool, writeTmp: bool, tmpLeft: Option<Config>, test: bool, removeTmp: bool,
    mark: bool, markLeft: bool, rename: bool, reload: bool, runningLeft: Option<Config>, unmark: bool)

  predicate Faultless(f: Faults) {
    f.mkdir && f.writeTmp && f.test && f.mark && f.rename && f.reload && f.unmark
  }

  /** Commands configured for the agent; an empty reload command never confirms a reload. */
  datatype Settings = Settings(hasTest: bool, hasReload: bool, applyConfig: bool)

  /** What reaches the agent in one iteration: the config is absent when the panel sent none. */
  datatype SyncResult = HeartbeatFailed | SyncFailed | Answer(desired: Config, config: Option<Config>)

  class Agent {
    var world: Machine
    var reloadPending: bool
    var reloads: nat
    const settings: Settings
    ghost var run: seq<State>

    /** The run so far is one of the protocol and has come to this state. */
    ghost predicate At(s: State)
      reads this`run
    {
      Behavior(run) && Invariant(run[0]) && run[|run| - 1] == s
    }

    ghost predicate Valid()
      reads this
    {
      At(State(world, Top, reloadPending))
    }

    /** main: a process starts on the files an earlier one left. */
    constructor (world: Machine, settings: Settings)
      requires Confirmed(world)
      ensures Valid() && this.world == world && this.settings == settings && reloads == 0
      ensures reloadPending == world.marker
    {
      this.world, this.settings, this.reloads := world, settings, 0;
      this.reloadPending := world.marker;
      this.run := [State(world, Down, false), State(world, Top, world.marker)];
    }

    ghost method Record(from: State, to: State)
      requires At(from) && Next(from, to)
      modifies this`run
      ensures At(to) && old(run) <= run
    {
      run := run + [to];
    }

    /** applyXrayConfig, up to its marker: everything that can fail before the config is replaced. */
    method Prepare(doc: Config, f: Faults) returns (ok: bool)
      requires At(State(world, Applying(WriteTmp, doc), reloadPending))
      modifies this`world, this`run, this`reloadPending
      ensures ok ==> At(State(world, Applying(Rename, doc), reloadPending)) && world.tmp == Some(doc)
      ensures !ok ==> Valid() && reloadPending
      ensures old(run) <= run
      ensures ok <==> f.mkdir && f.writeTmp && (settings.hasTest ==> f.test) && f.mark
      ensures world.file == old(world).file && world.running == old(world).running
    {
      ghost var before := State(world, Applying(WriteTmp, doc), reloadPending);
      ok := f.mkdir && f.writeTmp;
      if !ok {
        world, reloadPending := world.(tmp := if f.mkdir then f.tmpLeft else world.tmp), true;
        Record(before, State(world, Top, true));
        return;
      }
      world := world.(tmp := Some(doc));
      Record(before, State(world, Applying(Test, doc), reloadPending));
      ok := Check(doc, f);
    }

    /** The test command on the temporary file, then the marker. */
    method Check(doc: Config, f: Faults) returns (ok: bool)
      requires At(State(world, Applying(Test, doc), reloadPending)) && world.tmp == Some(doc)
      modifies this`world, this`run, this`reloadPending
      ensures ok ==> At(State(world, Applying(Rename, doc), reloadPending)) && world.tmp == Some(doc)
      ensures !ok ==> Valid() && reloadPending
      ensures old(run) <= run
      ensures ok <==> (settings.hasTest ==> f.test) && f.mark
      ensures world.file == old(world).file && world.running == old(world).running
    {
      ghost var before := State(world, Applying(Test, doc), reloadPending);
      if settings.hasTest && !f.test {
        world, reloadPending := world.(tmp := if f.removeTmp then None else world.tmp), true;
        Record(before, State(world, Top, true));
        return false;
      }
      ghost var tested := before.(control := Applying(Mark, doc));
      Record(before, tested);
      ok := f.mark;
      if !ok {
        world, reloadPending := world.(marker := world.marker || f.markLeft), true;
        Record(tested, State(world, Top, true));
        return;
      }
      world := world.(marker := true);
      Record(tested, State(world, Applying(Rename, doc), reloadPending));
    }

    /** applyXrayConfig, from the rename on, and the bookkeeping of its caller. */
    method Commit(doc: Config, f: Faults) returns (ok: bool)
      requires At(State(world, Applying(Rename, doc), reloadPending)) && world.tmp == Some(doc)
      modifies this
      ensures Valid() && old(run) <= run
      ensures ok <==> f.rename && settings.hasReload && f.reload && f.unmark
      ensures ok ==> world == Machine(Some(doc), None, false, Some(doc)) && !reloadPending
      ensures !ok ==> reloadPending
      ensures reloads == old(reloads) + if f.rename && settings.hasReload then 1 else 0
    {
      ghost var before := State(world, Applying(Rename, doc), reloadPending);
      ok := f.rename;
      if !ok {
        reloadPending := true;
        Record(before, State(world, Top, true));
        return;
      }
      world := world.(file := world.tmp, tmp := None);
      ghost var renamed := State(world, Applying(Reload, doc), reloadPending);
      Record(before, renamed);
      if !settings.hasReload {
        reloadPending := true;
        Record(renamed, State(world, Top, true));
        return false;
      }
      reloads := reloads + 1;
      ok := Activate(doc, f);
    }

    /** The reload command, then the removal of the marker. */
    method Activate(doc: Config, f: Faults) returns (ok: bool)
      requires At(State(world, Applying(Reload, doc), reloadPending))
      modifies this`world, this`run, this`reloadPending
      ensures Valid() && old(run) <= run
      ensures ok <==> f.reload && f.unmark
      ensures ok ==> world == old(world).(running := old(world).file, marker := false) && !reloadPending
      ensures !ok ==> reloadPending
    {
      ghost var before := State(world, Applying(Reload, doc), reloadPending);
      if !f.reload {
        world, reloadPending := world.(running := f.runningLeft), true;
        Record(before, State(world, Top, true));
        return false;
      }
      world := world.(running := world.file);
      ghost var reloaded := State(world, Applying(Unmark, doc), reloadPending);
      Record(before, reloaded);
      ok := f.unmark;
      if !ok {
        reloadPending := true;
        Record(reloaded, State(world, Top, true));
        return;
      }
      world, reloadPending := world.(marker := false), false;
      Record(reloaded, State(world, Top, false));
    }

    /** Applied: the desired config is on disk and running, and nothing is pending. */
    predicate Converged(desired: Config)
      reads this
    {
      world.file == Some(desired) && world.running == Some(desired) && !world.marker && !reloadPending
    }

    predicate Answered(result: SyncResult) {
      result.Answer? && settings.applyConfig && settings.hasReload && result.config == Some(result.desired)
    }

    /**
     One turn of the main loop. Every intermediate state is recorded, so a crash at any
     point of it is a crash of the protocol; without faults it converges, and a converged
     agent does nothing.
     */
    method LoopOnce(result: SyncResult, f: Faults)
      requires Valid()
      requires result.Answer? && result.config.Some? ==> result.config == Some(result.desired)
      modifies this
      ensures Valid() && old(run) <= run
      ensures Answered(result) && Faultless(f) ==> Converged(result.desired)
      ensures result.Answer? && old(Converged(result.desired)) ==>
        Converged(result.desired) && reloads == old(reloads) && world == old(world)
      ensures reloads <= old(reloads) + 1
      ensures !result.Answer? || !settings.applyConfig ==>
        world == old(world) && reloadPending == old(reloadPending) && reloads == old(reloads)
    {
      var hash := world.file;
      if result.HeartbeatFailed? {
        return;
      }
      if reloadPending {
        hash := None;
      }
      if result.SyncFailed? {
        return;
      }
      InvariantHolds(run, |run| - 1);
      if hash == Some(result.desired) {
        return;
      }
      if !settings.applyConfig {
        return;
      }
      ghost var begun := State(world, Applying(WriteTmp, result.desired), reloadPending);
      Record(State(world, Top, reloadPending), begun);
      if result.config == None {
        // applyXrayConfig returns its error before it touches any file
        reloadPending := true;
        Record(begun, State(world, Top, true));
        return;
      }
      var ok := Prepare(result.desired, f);
      if ok {
        ok := Commit(result.desired, f);
      }
    }

    /** However often the loop turns without faults on one desired config, Xray is reloaded at most once. */
    method Settle(desired: Config, f: Faults, turns: nat)
      requires Valid() && settings.applyConfig && settings.hasReload && Faultless(f)
      modifies this
      ensures Valid() && old(run) <= run
      ensures turns > 0 ==> Converged(desired)
      ensures reloads <= old(reloads) + 1
      ensures old(Converged(desired)) ==> reloads == old(reloads)
    {
      for i := 0 to turns
        invariant Valid() && old(run) <= run
        invariant i > 0 ==> Converged(desired)
        invariant reloads <= old(reloads) + if i > 0 then 1 else 0
        invariant old(Converged(desired)) ==> Converged(desired) && reloads == old(reloads)
      {
        LoopOnce(Answer(desired, Some(desired)), f);
      }
    }
  }
}
