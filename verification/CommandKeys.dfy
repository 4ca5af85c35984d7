/** Deduplicated configurations: what a skipped call stands for, and when
    cancelled interrupts come back. */
module CommandKeys {
  import opened Outcomes
  import opened RuntimeSession
  import opened CommandPort

  /** What a deduplication key is kept for. */
  datatype Kind = Devices | Interrupts

  function KeyOf(s: State, kind: Kind): Option<Key> {
    match kind
    case Devices => s.deviceKey
    case Interrupts => s.interruptKey
  }

  /** Commands that decide the configuration. */
  predicate Decides(kind: Kind, command: Command) {
    match kind
    case Devices => command.ConfigureDevices? || command.LoadProgram? || command.Reset? || command.ConfigureBoard?
    case Interrupts => command.ConfigureInterrupts? || command.CancelInterrupts? || command.Reset?
  }

  /** The command is the configuration that the key stands for. */
  predicate IsNamed(kind: Kind, command: Command, key: Key) {
    match kind
    case Devices => command == ConfigureDevices(key)
    case Interrupts => command.ConfigureInterrupts? && command.key == key
  }

  function LastDeciding(jobs: seq<Job>, kind: Kind): (k: Option<nat>)
    ensures k.Some? ==> k.value < |jobs| && Decides(kind, jobs[k.value].command)
    ensures k.Some? ==> forall i :: k.value < i < |jobs| ==> !Decides(kind, jobs[i].command)
    ensures k.None? ==> forall i :: 0 <= i < |jobs| ==> !Decides(kind, jobs[i].command)
  {
    if jobs == [] then None
    else if Decides(kind, jobs[|jobs| - 1].command) then Some(|jobs| - 1)
    else LastDeciding(jobs[..|jobs| - 1], kind)
  }

  /** Queued, running, applied, or failed with its clean-up still to come. */
  predicate Standing(phase: Phase) {
    phase.Settled? ==> phase.ending.Done? || !phase.cleaned
  }

  predicate Names(job: Job, kind: Kind, key: Key) {
    IsNamed(kind, job.command, key) && job.submitted.epoch == key.epoch && Standing(job.phase)
  }

  /** The key, while set, names the latest command that decides the configuration, and that command stands. */
  predicate HonestKey(jobs: seq<Job>, kind: Kind, key: Option<Key>) {
    key.Some? ==>
      var last := LastDeciding(jobs, kind);
      last.Some? && Names(jobs[last.value], kind, key.value)
  }

  predicate KeyHonest(s: State, kind: Kind) {
    HonestKey(s.jobs, kind, KeyOf(s, kind))
  }

  lemma {:induction false} LastOfAppended(jobs: seq<Job>, job: Job, kind: Kind)
    ensures LastDeciding(jobs + [job], kind)
            == if Decides(kind, job.command) then Some(|jobs|) else LastDeciding(jobs, kind)
  {
    assert (jobs + [job])[..|jobs|] == jobs;
  }

  lemma {:induction false} LastIgnoresPhases(jobs: seq<Job>, k: nat, phase: Phase, kind: Kind)
    requires k < |jobs|
    ensures LastDeciding(jobs[k := jobs[k].(phase := phase)], kind) == LastDeciding(jobs, kind)
  {
    var last := |jobs| - 1;
    var updated := jobs[k := jobs[k].(phase := phase)];
    if !Decides(kind, jobs[last].command) {
      if k < last {
        LastIgnoresPhases(jobs[..last], k, phase, kind);
        assert updated[..last] == jobs[..last][k := jobs[k].(phase := phase)];
      } else {
        assert updated[..last] == jobs[..last];
      }
    }
  }

  // --- How keys change ----------------------------------------------------------------------------------

  /** The key a command brings, if it is a configuration of this kind. */
  function BroughtKey(kind: Kind, command: Command): Option<Key> {
    match command
    case ConfigureDevices(key) => if kind.Devices? then Some(key) else None
    case ConfigureInterrupts(key, _) => if kind.Interrupts? then Some(key) else None
    case _ => None
  }

  /** A call is answered without a command exactly if it is a configuration whose key is set. */
  lemma {:induction false} SkippedExactly(s: State, command: Command)
    ensures Skipped(s, command) <==>
              exists kind :: BroughtKey(kind, command).Some? && BroughtKey(kind, command) == KeyOf(s, kind)
  {
    assert BroughtKey(Devices, command).Some? ==> command.ConfigureDevices?;
    assert BroughtKey(Interrupts, command).Some? ==> command.ConfigureInterrupts?;
  }

  /** The command gives the configuration up. */
  predicate GivesUp(kind: Kind, command: Command) {
    if kind.Devices? then command.LoadProgram? || command.Reset? else command.CancelInterrupts? || command.Reset?
  }

  /** The configuration of the present key has ended without being applied. */
  predicate HasFailed(s: State, k: nat, kind: Kind)
    requires k < |s.jobs| && s.jobs[k].phase.Settled?
  {
    && BroughtKey(kind, s.jobs[k].command).Some? && BroughtKey(kind, s.jobs[k].command) == KeyOf(s, kind)
    && !s.jobs[k].phase.ending.Done?
  }

  /** A key is set by its configurations, given up by the commands that undo
      them, forgotten when one of that key has failed, and never otherwise. */
  lemma {:induction false} KeyChangesExactly(s: State, a: Action, kind: Kind)
    requires Enabled(s, a)
    ensures KeyOf(Step(s, a), kind) ==
            match a
            case Submit(command) =>
              if BroughtKey(kind, command).Some? then BroughtKey(kind, command)
              else if GivesUp(kind, command) then None
              else KeyOf(s, kind)
            case CleanUp(k) => if HasFailed(s, k, kind) then None else KeyOf(s, kind)
            case _ => KeyOf(s, kind)
  {
  }

  // --- What keys stand for --------------------------------------------------------------------------------

  /** Submitting keeps a key honest exactly when it is not the single-board
      configuration under a set device key. */
  lemma {:induction false} SubmitKeepsKeyExactly(s: State, command: Command, kind: Kind)
    requires KeyHonest(s, kind) && KeyIsCurrent(s, command)
    ensures KeyHonest(Submitted(s, command), kind)
            <==> !(kind.Devices? && command.ConfigureBoard? && s.deviceKey.Some?)
  {
    hide LastDeciding;
    if !Skipped(s, command) {
      LastOfAppended(s.jobs, NewJob(Prepared(s, command), command), kind);
    }
  }

  lemma {:induction false} PhaseKeepsKey(jobs: seq<Job>, k: nat, phase: Phase, kind: Kind, key: Option<Key>)
    requires HonestKey(jobs, kind, key) && k < |jobs| && Standing(phase)
    ensures HonestKey(jobs[k := jobs[k].(phase := phase)], kind, key)
  {
    hide LastDeciding;
    LastIgnoresPhases(jobs, k, phase, kind);
  }

  lemma {:induction false} CleanUpKeepsKey(s: State, k: nat, kind: Kind)
    requires KeyHonest(s, kind) && CanCleanUp(s, k)
    ensures KeyHonest(CleanedUp(s, k), kind)
  {
    hide LastDeciding;
    LastIgnoresPhases(s.jobs, k, s.jobs[k].phase.(cleaned := true), kind);
  }

  /** Only the single-board configuration goes past the device key. */
  predicate MindsKey(a: Action, kind: Kind) {
    kind.Devices? ==> a != Submit(ConfigureBoard)
  }

  lemma {:induction false} StepKeepsKey(s: State, a: Action, kind: Kind)
    requires KeyHonest(s, kind) && Enabled(s, a) && MindsKey(a, kind)
    ensures KeyHonest(Step(s, a), kind)
  {
    hide HonestKey, CellOf;
    match a {
      case Submit(command) => SubmitKeepsKeyExactly(s, command, kind);
      case Start(k) => PhaseKeepsKey(s.jobs, k, Step(s, a).jobs[k].phase, kind, KeyOf(s, kind));
      case PassOn(k) => PhaseKeepsKey(s.jobs, k, Step(s, a).jobs[k].phase, kind, KeyOf(s, kind));
      case Finish(k, _) => PhaseKeepsKey(s.jobs, k, Step(s, a).jobs[k].phase, kind, KeyOf(s, kind));
      case SettleTail(_) =>
      case CleanUp(k) => CleanUpKeepsKey(s, k, kind);
      case Store(_) =>
    }
  }

  /** In every run, whatever fails or is replaced, a set key names the latest
      configuration, and that is queued, running, applied, or failed and about to be forgotten. */
  lemma {:induction false} RunKeepsKey(actions: seq<Action>, kind: Kind)
    requires After(START, actions).Some?
    requires forall i :: 0 <= i < |actions| ==> MindsKey(actions[i], kind)
    ensures KeyHonest(After(START, actions).value, kind)
  {
    hide KeyHonest, Step, Enabled;
    if actions != [] {
      RunKeepsKey(actions[..|actions| - 1], kind);
      StepKeepsKey(After(START, actions[..|actions| - 1]).value, actions[|actions| - 1], kind);
    } else {
      StartIsHonest(kind);
    }
  }

  lemma {:induction false} StartIsHonest(kind: Kind)
    ensures KeyHonest(START, kind)
  {
  }

  /** The configuration that a skipped call asks for. */
  predicate SkippedFor(s: State, command: Command, kind: Kind, key: Key) {
    Skipped(s, command) && KeyIsCurrent(s, command) && IsNamed(kind, command, key)
  }

  /** A skipped configuration is the latest deciding one, submitted to the
      current session. It may still be waiting or running, or have failed with its
      clean-up to come; if it has been applied, it was applied to that session. */
  lemma {:induction false} SkippedIsLatest(actions: seq<Action>, s: State, command: Command, kind: Kind, key: Key)
    requires After(START, actions) == Some(s) && SkippedFor(s, command, kind, key)
    requires forall i :: 0 <= i < |actions| ==> MindsKey(actions[i], kind)
    ensures var last := LastDeciding(s.jobs, kind);
      && last.Some?
      && var job := s.jobs[last.value];
        && IsNamed(kind, job.command, key) && job.submitted == s.store
        && Standing(job.phase)
        && (job.phase.Settled? && job.phase.ending.Done? ==> job.phase.ranAgainst == Some(s.store))
  {
    hide Orderly, CommandPort.After;
    RunKeepsKey(actions, kind);
    RunIsOrderly(actions);
    OrderlyAt(s, LastDeciding(s.jobs, kind).value);
  }

  // --- Automatic interrupts ---------------------------------------------------------------------------------

  /** A waiting configuration that will turn interrupts on when its turn comes. */
  predicate WillTurnOn(job: Job, store: Snapshot) {
    && job.phase.Queued? && job.command.ConfigureInterrupts? && job.command.levels != []
    && job.submitted == store && IsLocal(store)
  }

  predicate SomeWillTurnOn(s: State) {
    exists k :: 0 <= k < |s.jobs| && WillTurnOn(s.jobs[k], s.store)
  }

  /** No interrupt is configured any more. */
  predicate NoConfiguration(actions: seq<Action>) {
    forall i :: 0 <= i < |actions| ==> !(actions[i].Submit? && actions[i].command.ConfigureInterrupts?)
  }

  /** Some continuation without a new configuration turns interrupts on. */
  ghost predicate CanComeBack(s: State) {
    exists more, t :: NoConfiguration(more) && After(s, more) == Some(t) && t.localLevels != []
  }

  predicate Quiet(s: State) {
    s.localLevels == [] && !SomeWillTurnOn(s)
  }

  lemma {:induction false} QuietAfterStart(s: State, k: nat)
    requires Orderly(s) && Quiet(s) && CanStart(s, k)
    ensures Quiet(Started(s, k))
  {
    hide Orderly, CanStart;
    assert IsQueued(s, k) by { StartedIsQueued(s, k); }
    OrderlyAt(s, k);
    var s' := Started(s, k);
    assert !WillTurnOn(s.jobs[k], s.store);
    forall j | 0 <= j < |s'.jobs|
      ensures !WillTurnOn(s'.jobs[j], s'.store)
    {
      assert !WillTurnOn(s.jobs[j], s.store);
    }
  }

  lemma {:induction false} StartedIsQueued(s: State, k: nat)
    requires CanStart(s, k)
    ensures IsQueued(s, k)
  {
  }

  /** Jobs that are as before or no longer queued turn nothing on. */
  lemma {:induction false} QuietJobs(s: State, s': State)
    requires Quiet(s) && s'.localLevels == [] && s'.store == s.store && |s'.jobs| == |s.jobs|
    requires forall j :: 0 <= j < |s.jobs| ==> s'.jobs[j] == s.jobs[j] || !s'.jobs[j].phase.Queued?
    ensures Quiet(s')
  {
    forall j | 0 <= j < |s'.jobs|
      ensures !WillTurnOn(s'.jobs[j], s'.store)
    {
      assert !WillTurnOn(s.jobs[j], s.store);
    }
  }

  lemma {:induction false} QuietAfterSubmit(s: State, command: Command)
    requires Quiet(s) && !command.ConfigureInterrupts?
    ensures Quiet(Submitted(s, command))
  {
    var s' := Submitted(s, command);
    forall j | 0 <= j < |s'.jobs|
      ensures !WillTurnOn(s'.jobs[j], s'.store)
    {
      if j < |s.jobs| {
        assert !WillTurnOn(s.jobs[j], s.store);
      }
    }
  }

  lemma {:induction false} QuietAfterStore(s: State, action: StoreAction)
    requires Orderly(s) && Quiet(s)
    ensures Quiet(s.(store := StoreStep(s.store, action)))
  {
    hide Orderly;
    var s' := s.(store := StoreStep(s.store, action));
    forall j | 0 <= j < |s'.jobs|
      ensures !WillTurnOn(s'.jobs[j], s'.store)
    {
      OrderlyAt(s, j);
      assert !WillTurnOn(s.jobs[j], s.store);
    }
  }

  /** Without a new configuration, interrupts that are off and that nothing will turn on stay off. */
  lemma {:induction false} QuietStays(s: State, a: Action)
    requires Orderly(s) && Quiet(s) && Enabled(s, a) && NoConfiguration([a])
    ensures Quiet(Step(s, a))
  {
    hide Orderly, Quiet, CellOf, ResultOf, WithCell;
    assert [a][0] == a;
    match a {
      case Submit(command) => QuietAfterSubmit(s, command);
      case Start(k) => QuietAfterStart(s, k);
      case Store(action) => QuietAfterStore(s, action);
      case _ => QuietJobs(s, Step(s, a)) by { OffIsQuiet(s); }
    }
  }

  lemma {:induction false} OffIsQuiet(s: State)
    ensures Quiet(s) ==> s.localLevels == []
  {
  }

  lemma {:induction false} QuietForGood(s: State, more: seq<Action>)
    requires Orderly(s) && Quiet(s) && NoConfiguration(more) && After(s, more).Some?
    ensures Quiet(After(s, more).value)
  {
    hide Orderly, Quiet, Step, Enabled;
    if more != [] {
      var front, a := more[..|more| - 1], more[|more| - 1];
      assert NoConfiguration([a]);
      QuietForGood(s, front);
      StepsKeepOrder(s, front);
      QuietStays(After(s, front).value, a);
    }
  }

  lemma {:induction false} TurnsOn(s: State, k: nat) returns (more: seq<Action>, t: State)
    requires Orderly(s) && k < |s.jobs| && WillTurnOn(s.jobs[k], s.store)
    ensures NoConfiguration(more) && After(s, more) == Some(t) && t.localLevels != []
  {
    hide Orderly, CanStart, IsOver, CommandPort.After;
    var front, before := ComesToItsTurn(s, k, _ => false);
    StepsKeepOrder(s, front);
    assert before.jobs[k] == s.jobs[k];
    TurnHasCome(before, k);
    AfterMore(s, front, Start(k));
    more, t := front + [Start(k)], Started(before, k);
    assert forall i :: 0 <= i < |front| ==> IsChainStep(front[i]);
  }

  /** Interrupts that are off can come on again without a new configuration
      exactly if a configuration with levels is waiting, submitted to the session that is still there,
      and that session has no controller. */
  lemma {:induction false} ComesBackExactly(actions: seq<Action>, s: State)
    requires After(START, actions) == Some(s) && s.localLevels == []
    ensures CanComeBack(s) <==> SomeWillTurnOn(s)
  {
    hide Orderly, CommandPort.After, NoConfiguration, WillTurnOn;
    RunIsOrderly(actions);
    if SomeWillTurnOn(s) {
      var k :| 0 <= k < |s.jobs| && WillTurnOn(s.jobs[k], s.store);
      var more, t := TurnsOn(s, k);
    }
    if CanComeBack(s) {
      var more, t :| NoConfiguration(more) && After(s, more) == Some(t) && t.localLevels != [];
      if Quiet(s) {
        QuietForGood(s, more);
      }
    }
  }

  predicate TurnsOff(command: Command) {
    command.CancelInterrupts? || command.Reset?
  }

  lemma {:induction false} TurningOffKeepsWaiting(s: State, command: Command)
    requires TurnsOff(command)
    ensures Submitted(s, command).localLevels == []
    ensures SomeWillTurnOn(Submitted(s, command)) <==> SomeWillTurnOn(s)
  {
    var s' := Submitted(s, command);
    forall k | 0 <= k < |s.jobs|
      ensures s'.jobs[k] == s.jobs[k]
    {
    }
    assert !WillTurnOn(s'.jobs[|s.jobs|], s'.store);
  }

  /** So cancelling or resetting is final exactly if no such configuration is waiting when it is called. */
  lemma {:induction false} TurningOffIsFinalExactly(actions: seq<Action>, s: State, command: Command)
    requires After(START, actions) == Some(s) && TurnsOff(command)
    ensures After(START, actions + [Submit(command)]) == Some(Submitted(s, command))
    ensures CanComeBack(Submitted(s, command)) <==> SomeWillTurnOn(s)
  {
    hide CanComeBack, SomeWillTurnOn, Submitted, CommandPort.After;
    AfterMore(START, actions, Submit(command));
    TurningOffKeepsWaiting(s, command);
    ComesBackExactly(actions + [Submit(command)], Submitted(s, command));
  }

  /** For example: a session, a configuration, and a cancellation at once. */
  lemma {:induction false} CancelledInterruptsComeBack(settings: string, level: int)
    ensures exists actions, s ::
              && After(START, actions + [Submit(CancelInterrupts)]) == Some(s)
              && s.localLevels == [] && s.interruptKey.None? && CanComeBack(s)
  {
    hide CanComeBack;
    var session := Session(1, None, false);
    var command := ConfigureInterrupts(Key(1, settings), [level]);
    AfterMore(START, [], Store(Replace(session)));
    AfterMore(START, [Store(Replace(session))], Submit(command));
    assert [] + [Store(Replace(session))] == [Store(Replace(session))];
    var actions := [Store(Replace(session))] + [Submit(command)];
    var s := After(START, actions).value;
    assert WillTurnOn(s.jobs[0], s.store);
    TurningOffIsFinalExactly(actions, s, CancelInterrupts);
  }
}
