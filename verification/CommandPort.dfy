/** The runtime command port: a chain of promises that runs commands one at a
    time, in order, and only against the session they were submitted to. */
module CommandPort {
  import opened Outcomes
  import opened RuntimeSession

  /** The epoch and the settings a deduplication key is made of. */
  datatype Key = Key(epoch: nat, settings: string)

  datatype Command =
    | ConfigureDevices(key: Key)
    | ConfigureInterrupts(key: Key, levels: seq<int>)
    | CancelInterrupts
    | LoadProgram
    | Reset
    | ConfigureBoard
    | Other

  /** How a command ends; `Inherited` is a rejection passed on along the chain
      to a command that never got its turn. */
  datatype Ending = Done | Invalid | Failed | Stale | Unavailable | Inherited

  /** The snapshot is the one the operation was started against. */
  datatype Phase =
    | Queued
    | Running(against: Snapshot)
    | Settled(ending: Ending, ranAgainst: Option<Snapshot>, cleaned: bool)

  /** What a promise is worth so far. */
  datatype Cell = Pending | Fulfilled | Rejected

  /** A command with the promise it waits for, the one for its result, and the
      one that is the port's tail until the next command. */
  datatype Job = Job(command: Command, submitted: Snapshot, awaits: nat, result: nat, tail: nat, phase: Phase)

  datatype State = State(
    store: Snapshot, promises: seq<Cell>, tail: nat, jobs: seq<Job>,
    deviceKey: Option<Key>, interruptKey: Option<Key>, localLevels: seq<int>)

  const START := State(INITIAL, [Fulfilled], 0, [], None, None, [])

  datatype Action =
    | Submit(command: Command)
    | Start(job: nat)
    | PassOn(job: nat)
    | Finish(job: nat, ending: Ending)
    | SettleTail(job: nat)
    | CleanUp(job: nat)
    | Store(action: StoreAction)

  // --- Submitting -------------------------------------------------------------------------------

  function NewJob(s: State, command: Command): Job {
    Job(command, s.store, s.tail, |s.promises|, |s.promises| + 1, Queued)
  }

  /** The command waits for the tail, and its own tail takes that place. */
  function Enqueued(s: State, command: Command): State {
    s.(promises := s.promises + [Pending, Pending], tail := |s.promises| + 1, jobs := s.jobs + [NewJob(s, command)])
  }

  /** The call is answered without a command. */
  predicate Skipped(s: State, command: Command) {
    match command
    case ConfigureDevices(key) => s.deviceKey == Some(key)
    case ConfigureInterrupts(key, _) => s.interruptKey == Some(key)
    case _ => false
  }

  /** What a submission does to the keys and the local interrupts. */
  function Prepared(s: State, command: Command): State {
    match command
    case ConfigureDevices(key) => s.(deviceKey := Some(key))
    case ConfigureInterrupts(key, _) => s.(interruptKey := Some(key))
    case CancelInterrupts => s.(interruptKey := None, localLevels := [])
    case LoadProgram => s.(deviceKey := None)
    case Reset => s.(interruptKey := None, deviceKey := None, localLevels := [])
    case _ => s
  }

  function Submitted(s: State, command: Command): State {
    if Skipped(s, command) then s else Enqueued(Prepared(s, command), command)
  }

  // --- Running ------------------------------------------------------------------------------------

  predicate IsQueued(s: State, k: nat) {
    k < |s.jobs| && s.jobs[k].phase.Queued?
  }

  function CellOf(s: State, p: nat): Cell {
    if p < |s.promises| then s.promises[p] else Pending
  }

  function WithCell(promises: seq<Cell>, p: nat, cell: Cell): (after: seq<Cell>)
    ensures |after| == |promises|
  {
    if p < |promises| then promises[p := cell] else promises
  }

  /** The handler runs once the promise it waits for is fulfilled. */
  predicate CanStart(s: State, k: nat) {
    IsQueued(s, k) && CellOf(s, s.jobs[k].awaits).Fulfilled?
  }

  /** The chain has no handler for rejections here: they would be passed on. */
  predicate CanPassOn(s: State, k: nat) {
    IsQueued(s, k) && CellOf(s, s.jobs[k].awaits).Rejected?
  }

  predicate CanFinish(s: State, k: nat, ending: Ending) {
    k < |s.jobs| && s.jobs[k].phase.Running? && CanEnd(s.jobs[k].command, ending)
  }

  /** An operation returns or fails; only hardware configurations return an invalid result. */
  predicate CanEnd(command: Command, ending: Ending) {
    ending.Done? || ending.Failed? || (ending.Invalid? && (command.ConfigureDevices? || command.ConfigureBoard?))
  }

  predicate CanSettleTail(s: State, k: nat) {
    && k < |s.jobs| && CellOf(s, s.jobs[k].tail).Pending?
    && !CellOf(s, s.jobs[k].result).Pending?
  }

  predicate CanCleanUp(s: State, k: nat) {
    && k < |s.jobs| && !CellOf(s, s.jobs[k].result).Pending?
    && s.jobs[k].phase.Settled? && !s.jobs[k].phase.cleaned
  }

  function SetPhase(s: State, k: nat, phase: Phase): State
    requires k < |s.jobs|
  {
    s.(jobs := s.jobs[k := s.jobs[k].(phase := phase)])
  }

  /** An invalid configuration is a value like any other to the chain. */
  function ResultOf(ending: Ending): Cell {
    if ending.Done? || ending.Invalid? then Fulfilled else Rejected
  }

  /** The result promise is settled. */
  function Concluded(s: State, k: nat, ending: Ending, against: Option<Snapshot>): State
    requires k < |s.jobs|
  {
    SetPhase(s.(promises := WithCell(s.promises, s.jobs[k].result, ResultOf(ending))), k, Settled(ending, against, false))
  }

  /** The two handlers of the tail: one for values, and one for rejections. */
  function TailOf(result: Cell): Cell
    requires !result.Pending?
  {
    match result
    case Fulfilled => Fulfilled
    case Rejected => Fulfilled
  }

  function TailSettled(s: State, k: nat): State
    requires CanSettleTail(s, k)
  {
    s.(promises := WithCell(s.promises, s.jobs[k].tail, TailOf(CellOf(s, s.jobs[k].result))))
  }

  /** Interrupts are configured locally if the session has no controller. */
  predicate IsLocal(store: Snapshot) {
    store.session.Some? && !store.session.value.controlled
  }

  function LocalEffect(s: State, command: Command): State {
    if command.ConfigureInterrupts? && IsLocal(s.store) then s.(localLevels := command.levels) else s
  }

  predicate IsStale(s: State, job: Job) {
    s.store.epoch != job.submitted.epoch || s.store.session != job.submitted.session
  }

  function Started(s: State, k: nat): State
    requires CanStart(s, k)
  {
    var job := s.jobs[k];
    if IsStale(s, job) then Concluded(s, k, Stale, None)
    else if s.store.session.None? then Concluded(s, k, Unavailable, None)
    else LocalEffect(SetPhase(s, k, Running(s.store)), job.command)
  }

  function Finished(s: State, k: nat, ending: Ending): State
    requires CanFinish(s, k, ending)
  {
    Concluded(s, k, ending, Some(s.jobs[k].phase.against))
  }

  /** Only a configuration that was not applied is forgotten. */
  function Forgotten(s: State, job: Job): State
    requires job.phase.Settled?
  {
    if job.phase.ending.Done? then s
    else
      match job.command
      case ConfigureDevices(key) => if s.deviceKey == Some(key) then s.(deviceKey := None) else s
      case ConfigureInterrupts(key, _) => if s.interruptKey == Some(key) then s.(interruptKey := None) else s
      case _ => s
  }

  function CleanedUp(s: State, k: nat): State
    requires k < |s.jobs| && s.jobs[k].phase.Settled?
  {
    SetPhase(Forgotten(s, s.jobs[k]), k, s.jobs[k].phase.(cleaned := true))
  }

  /** What can happen next, in any interleaving. */
  predicate Enabled(s: State, a: Action) {
    match a
    case Submit(command) => KeyIsCurrent(s, command)
    case Start(k) => CanStart(s, k)
    case PassOn(k) => CanPassOn(s, k)
    case Finish(k, ending) => CanFinish(s, k, ending)
    case SettleTail(k) => CanSettleTail(s, k)
    case CleanUp(k) => CanCleanUp(s, k)
    case Store(_) => true
  }

  /** Keys are made with the epoch of the moment. */
  predicate KeyIsCurrent(s: State, command: Command) {
    match command
    case ConfigureDevices(key) => key.epoch == s.store.epoch
    case ConfigureInterrupts(key, _) => key.epoch == s.store.epoch
    case _ => true
  }

  function Step(s: State, a: Action): State
    requires Enabled(s, a)
  {
    match a
    case Submit(command) => Submitted(s, command)
    case Start(k) => Started(s, k)
    case PassOn(k) => Concluded(s, k, Inherited, None)
    case Finish(k, ending) => Finished(s, k, ending)
    case SettleTail(k) => TailSettled(s, k)
    case CleanUp(k) => CleanedUp(s, k)
    case Store(action) => s.(store := StoreStep(s.store, action))
  }

  /** The state after some actions, if each can happen in its turn. */
  function After(s: State, actions: seq<Action>): Option<State> {
    if actions == [] then Some(s)
    else
      match After(s, actions[..|actions| - 1])
      case None => None
      case Some(before) =>
        if Enabled(before, actions[|actions| - 1]) then Some(Step(before, actions[|actions| - 1])) else None
  }

  lemma {:induction false} AfterMore(s: State, actions: seq<Action>, a: Action)
    ensures After(s, actions + [a])
            == match After(s, actions)
               case None => None
               case Some(before) => if Enabled(before, a) then Some(Step(before, a)) else None
  {
    hide Enabled, Step;
    assert (actions + [a])[..|actions|] == actions;
  }

  lemma {:induction false} AfterBoth(s: State, actions: seq<Action>, more: seq<Action>)
    requires After(s, actions).Some?
    ensures After(s, actions + more) == After(After(s, actions).value, more)
  {
    hide Enabled, Step;
    if more == [] {
      assert actions + more == actions;
    } else {
      AfterBoth(s, actions, more[..|more| - 1]);
      assert (actions + more)[..|actions + more| - 1] == actions + more[..|more| - 1];
    }
  }

  // --- The chain ------------------------------------------------------------------------------------------

  /** Each command waits for the tail of the one submitted before it. */
  predicate Chained(jobs: seq<Job>, promises: nat, tail: nat) {
    && promises == 2 * |jobs| + 1 && tail == 2 * |jobs|
    && forall k :: 0 <= k < |jobs| ==> jobs[k].awaits == 2 * k && jobs[k].result == 2 * k + 1 && jobs[k].tail == 2 * k + 2
  }

  /** The promises tell the phase: a result is pending until its command has
      settled, a tail is never rejected, and a command that is no longer
      waiting found a fulfilled promise. */
  predicate JobAgrees(job: Job, awaited: Cell, result: Cell, tail: Cell) {
    && (result.Pending? <==> !job.phase.Settled?)
    && (job.phase.Settled? ==> result == ResultOf(job.phase.ending) && !job.phase.ending.Inherited?)
    && (!tail.Pending? ==> tail.Fulfilled? && job.phase.Settled?)
    && (!job.phase.Queued? ==> awaited.Fulfilled?)
  }

  predicate AllAgree(jobs: seq<Job>, promises: seq<Cell>)
    requires |promises| == 2 * |jobs| + 1
  {
    promises[0].Fulfilled? &&
    forall k :: 0 <= k < |jobs| ==> JobAgrees(jobs[k], promises[2 * k], promises[2 * k + 1], promises[2 * k + 2])
  }

  /** A started operation was started against the snapshot it was submitted
      under, and a session was there. */
  predicate Fenced(job: Job) {
    match job.phase
    case Queued => true
    case Running(at) => at == job.submitted && at.session.Some?
    case Settled(ending, at, _) =>
      && (at.Some? ==> at.value == job.submitted && at.value.session.Some?)
      && (at.Some? <==> CanEnd(job.command, ending))
  }

  /** A submitted snapshot is an earlier store snapshot: no newer, and the same if the epoch is the same. */
  predicate IsOld(job: Job, store: Snapshot) {
    && job.submitted.epoch <= store.epoch
    && (job.submitted.epoch == store.epoch ==> job.submitted == store)
  }

  predicate AllFenced(jobs: seq<Job>, store: Snapshot) {
    forall k :: 0 <= k < |jobs| ==> Fenced(jobs[k]) && IsOld(jobs[k], store)
  }

  predicate Orderly(s: State) {
    && Chained(s.jobs, |s.promises|, s.tail)
    && AllAgree(s.jobs, s.promises)
    && AllFenced(s.jobs, s.store)
  }

  lemma {:induction false} SubmitKeepsOrder(s: State, command: Command)
    requires Orderly(s)
    ensures Orderly(Submitted(s, command))
  {
    hide JobAgrees, Fenced;
    if !Skipped(s, command) {
      var job := NewJob(Prepared(s, command), command);
      var s' := Submitted(s, command);
      assert s'.jobs == s.jobs + [job] && s'.promises == s.promises + [Pending, Pending];
      NewJobAgrees(job, s.promises[s.tail]);
      forall k | 0 <= k < |s.jobs|
        ensures JobAgrees(s'.jobs[k], s'.promises[2 * k], s'.promises[2 * k + 1], s'.promises[2 * k + 2])
      {
        assert s'.jobs[k] == s.jobs[k];
      }
    }
  }

  lemma {:induction false} NewJobAgrees(job: Job, awaited: Cell)
    requires job.phase.Queued?
    ensures JobAgrees(job, awaited, Pending, Pending) && Fenced(job)
  {
  }

  /** One command's phase and result change, and no other's. */
  lemma {:induction false} PhaseKeepsOrder(s: State, k: nat, phase: Phase, promises: seq<Cell>)
    requires Orderly(s) && k < |s.jobs|
    requires |promises| == |s.promises| && promises == s.promises[2 * k + 1 := promises[2 * k + 1]]
    requires JobAgrees(s.jobs[k].(phase := phase), s.promises[2 * k], promises[2 * k + 1], s.promises[2 * k + 2])
    requires Fenced(s.jobs[k].(phase := phase))
    ensures Orderly(SetPhase(s.(promises := promises), k, phase))
  {
    hide JobAgrees, Fenced;
    var s' := SetPhase(s.(promises := promises), k, phase);
    forall j | 0 <= j < |s.jobs|
      ensures JobAgrees(s'.jobs[j], promises[2 * j], promises[2 * j + 1], promises[2 * j + 2])
      ensures Fenced(s'.jobs[j]) && IsOld(s'.jobs[j], s.store)
    {
      assert IsOld(s.jobs[j], s.store) && Fenced(s.jobs[j]);
      assert JobAgrees(s.jobs[j], s.promises[2 * j], s.promises[2 * j + 1], s.promises[2 * j + 2]);
    }
  }

  lemma {:induction false} ConcludingKeepsOrder(s: State, k: nat, ending: Ending, against: Option<Snapshot>)
    requires Orderly(s) && k < |s.jobs| && !s.jobs[k].phase.Settled? && s.promises[2 * k].Fulfilled? && !ending.Inherited?
    requires Fenced(s.jobs[k].(phase := Settled(ending, against, false)))
    ensures Orderly(Concluded(s, k, ending, against))
  {
    hide Fenced;
    var promises := WithCell(s.promises, s.jobs[k].result, ResultOf(ending));
    assert JobAgrees(s.jobs[k], s.promises[2 * k], s.promises[2 * k + 1], s.promises[2 * k + 2]);
    PhaseKeepsOrder(s, k, Settled(ending, against, false), promises);
  }

  lemma {:induction false} StartKeepsOrder(s: State, k: nat)
    requires Orderly(s) && CanStart(s, k)
    ensures Orderly(Started(s, k))
  {
    hide Orderly, Concluded;
    OrderlyAt(s, k);
    var job := s.jobs[k];
    if IsStale(s, job) {
      ConcludingKeepsOrder(s, k, Stale, None);
    } else if s.store.session.None? {
      ConcludingKeepsOrder(s, k, Unavailable, None);
    } else {
      PhaseKeepsOrder(s, k, Running(s.store), s.promises);
      LocalEffectKeepsOrder(SetPhase(s, k, Running(s.store)), job.command);
    }
  }

  lemma {:induction false} OrderlyAt(s: State, k: nat)
    requires Orderly(s) && k < |s.jobs|
    ensures |s.promises| == 2 * |s.jobs| + 1 && s.promises[0].Fulfilled?
    ensures s.jobs[k].awaits == 2 * k && s.jobs[k].result == 2 * k + 1 && s.jobs[k].tail == 2 * k + 2
    ensures JobAgrees(s.jobs[k], s.promises[2 * k], s.promises[2 * k + 1], s.promises[2 * k + 2])
    ensures Fenced(s.jobs[k]) && IsOld(s.jobs[k], s.store)
  {
    hide JobAgrees, Fenced;
  }

  lemma {:induction false} LocalEffectKeepsOrder(s: State, command: Command)
    requires Orderly(s)
    ensures Orderly(LocalEffect(s, command))
  {
    hide JobAgrees, Fenced;
  }

  lemma {:induction false} TailKeepsOrder(s: State, k: nat)
    requires Orderly(s) && CanSettleTail(s, k)
    ensures Orderly(TailSettled(s, k))
  {
    hide Fenced;
    OrderlyAt(s, k);
    var s' := TailSettled(s, k);
    assert s'.promises == s.promises[2 * k + 2 := Fulfilled];
    forall j | 0 <= j < |s.jobs|
      ensures JobAgrees(s'.jobs[j], s'.promises[2 * j], s'.promises[2 * j + 1], s'.promises[2 * j + 2])
    {
      assert JobAgrees(s.jobs[j], s.promises[2 * j], s.promises[2 * j + 1], s.promises[2 * j + 2]);
    }
  }

  lemma {:induction false} CleanUpKeepsOrder(s: State, k: nat)
    requires Orderly(s) && CanCleanUp(s, k)
    ensures Orderly(CleanedUp(s, k))
  {
    hide Orderly;
    OrderlyAt(s, k);
    PhaseKeepsOrder(s, k, s.jobs[k].phase.(cleaned := true), s.promises);
    KeysAreNoOrder(SetPhase(s, k, s.jobs[k].phase.(cleaned := true)), CleanedUp(s, k));
  }

  lemma {:induction false} KeysAreNoOrder(s: State, s': State)
    requires Orderly(s) && s'.jobs == s.jobs && s'.promises == s.promises && s'.tail == s.tail && s'.store == s.store
    ensures Orderly(s')
  {
    hide JobAgrees, Fenced;
  }

  lemma {:induction false} StoreKeepsOrder(s: State, action: StoreAction)
    requires Orderly(s)
    ensures Orderly(s.(store := StoreStep(s.store, action)))
  {
    hide JobAgrees, Fenced;
    forall k | 0 <= k < |s.jobs|
      ensures IsOld(s.jobs[k], StoreStep(s.store, action))
    {
      assert IsOld(s.jobs[k], s.store);
    }
  }

  /** A rejection would be passed on, but no tail is ever rejected. */
  lemma {:induction false} NothingIsPassedOn(s: State, k: nat)
    requires Orderly(s)
    ensures !CanPassOn(s, k)
  {
    if k < |s.jobs| {
      OrderlyAt(s, k);
      if k > 0 {
        OrderlyAt(s, k - 1);
      }
    }
  }

  lemma {:induction false} StepKeepsOrder(s: State, a: Action)
    requires Orderly(s) && Enabled(s, a)
    ensures Orderly(Step(s, a))
  {
    hide Orderly, CanStart, CanSettleTail, CanCleanUp, CanPassOn;
    match a {
      case Submit(command) => SubmitKeepsOrder(s, command);
      case Start(k) => StartKeepsOrder(s, k);
      case PassOn(k) =>
        NothingIsPassedOn(s, k);
        assert false;
      case Finish(k, ending) =>
        OrderlyAt(s, k);
        ConcludingKeepsOrder(s, k, ending, Some(s.jobs[k].phase.against));
      case SettleTail(k) => TailKeepsOrder(s, k);
      case CleanUp(k) => CleanUpKeepsOrder(s, k);
      case Store(action) => StoreKeepsOrder(s, action);
    }
  }

  lemma {:induction false} StepsKeepOrder(s: State, actions: seq<Action>)
    requires Orderly(s) && After(s, actions).Some?
    ensures Orderly(After(s, actions).value)
  {
    hide Orderly, Step, Enabled;
    if actions != [] {
      StepsKeepOrder(s, actions[..|actions| - 1]);
      StepKeepsOrder(After(s, actions[..|actions| - 1]).value, actions[|actions| - 1]);
    }
  }

  lemma {:induction false} StartIsOrderly()
    ensures Orderly(START)
  {
  }

  /** In every interleaving the chain stays in order. */
  lemma {:induction false} RunIsOrderly(actions: seq<Action>)
    requires After(START, actions).Some?
    ensures Orderly(After(START, actions).value)
  {
    hide Orderly;
    StartIsOrderly();
    StepsKeepOrder(START, actions);
  }

  // --- Order, exclusion and fencing -----------------------------------------------------------------------

  /** Whatever has begun, everything submitted before it is over. */
  lemma {:induction false} SettledBefore(s: State, k: nat, j: nat)
    requires Orderly(s) && j < k < |s.jobs| && !s.jobs[k].phase.Queued?
    ensures s.jobs[j].phase.Settled? && s.promises[s.jobs[j].tail].Fulfilled?
    decreases k
  {
    hide Orderly;
    OrderlyAt(s, k);
    OrderlyAt(s, k - 1);
    if j < k - 1 {
      SettledBefore(s, k - 1, j);
    }
  }

  /** In every reachable state at most one operation runs; everything
      submitted before it has settled, and everything after it still waits. */
  lemma {:induction false} OneAtATime(actions: seq<Action>, s: State, i: nat, j: nat)
    requires After(START, actions) == Some(s) && i < |s.jobs| && j < |s.jobs| && s.jobs[i].phase.Running?
    ensures j < i ==> s.jobs[j].phase.Settled?
    ensures j > i ==> s.jobs[j].phase.Queued?
  {
    hide Orderly;
    RunIsOrderly(actions);
    if j < i {
      SettledBefore(s, i, j);
    } else if j > i && !s.jobs[j].phase.Queued? {
      SettledBefore(s, j, i);
    }
  }

  /** Operations start in the order of their submission: when one starts, all before it are over. */
  lemma {:induction false} StartsInOrder(actions: seq<Action>, s: State, k: nat)
    requires After(START, actions) == Some(s) && Enabled(s, Start(k))
    ensures forall j :: 0 <= j < k ==> s.jobs[j].phase.Settled?
    ensures forall j :: k < j < |s.jobs| ==> s.jobs[j].phase.Queued?
  {
    hide Orderly;
    RunIsOrderly(actions);
    OrderlyAt(s, k);
    forall j | 0 <= j < k
      ensures s.jobs[j].phase.Settled?
    {
      OrderlyAt(s, k - 1);
      if j < k - 1 {
        SettledBefore(s, k - 1, j);
      }
    }
    forall j | k < j < |s.jobs|
      ensures s.jobs[j].phase.Queued?
    {
      if !s.jobs[j].phase.Queued? {
        SettledBefore(s, j, k);
      }
    }
  }

  /** An operation only ever runs under the session and epoch it was submitted
      with; a session or epoch of another time is refused, and so is no session. */
  lemma {:induction false} RunsAgainstItsSession(actions: seq<Action>, s: State, k: nat)
    requires After(START, actions) == Some(s) && k < |s.jobs|
    ensures Fenced(s.jobs[k])
  {
    hide Orderly;
    RunIsOrderly(actions);
    OrderlyAt(s, k);
  }

  /** The epoch check alone would do: with the same epoch, the session is the same. */
  lemma {:induction false} EpochFencesSession(actions: seq<Action>, s: State, k: nat)
    requires After(START, actions) == Some(s) && k < |s.jobs|
    ensures IsStale(s, s.jobs[k]) <==> s.jobs[k].submitted.epoch != s.store.epoch
  {
    hide Orderly;
    RunIsOrderly(actions);
    OrderlyAt(s, k);
  }

  // --- What a turn means ---------------------------------------------------------------------------------------

  /** Nothing but this command, its result and the local interrupts has changed. */
  predicate OnlyCommand(s: State, t: State, k: nat)
    requires k < |s.jobs|
  {
    && t == s.(jobs := t.jobs, promises := t.promises, localLevels := t.localLevels)
    && |t.jobs| == |s.jobs| && t.jobs[k] == s.jobs[k].(phase := t.jobs[k].phase)
    && (forall j :: 0 <= j < |s.jobs| && j != k ==> t.jobs[j] == s.jobs[j])
    && |t.promises| == |s.promises|
    && (forall p :: 0 <= p < |s.promises| && p != s.jobs[k].result ==> t.promises[p] == s.promises[p])
  }

  /** When its turn comes, a command submitted to the present session runs,
      whatever it is; it is refused as stale exactly if the snapshot has moved, and as
      unavailable exactly if it has not and there is no session. */
  lemma {:induction false} StartMeans(actions: seq<Action>, s: State, k: nat)
    requires After(START, actions) == Some(s) && CanStart(s, k)
    ensures var job, t := s.jobs[k], Step(s, Start(k));
      && OnlyCommand(s, t, k)
      && (t.jobs[k].phase == Running(s.store) <==> job.submitted == s.store && s.store.session.Some?)
      && (t.jobs[k].phase == Settled(Stale, None, false) <==> job.submitted != s.store)
      && (t.jobs[k].phase == Settled(Unavailable, None, false) <==> job.submitted == s.store && s.store.session.None?)
      && (CellOf(t, job.result).Rejected? <==> job.submitted != s.store || s.store.session.None?)
      && t.localLevels
         == if t.jobs[k].phase.Running? && job.command.ConfigureInterrupts? && !s.store.session.value.controlled
            then job.command.levels else s.localLevels
  {
    hide Orderly, After, JobAgrees, Fenced;
    RunIsOrderly(actions);
    OrderlyAt(s, k);
    assert s.promises[2 * k + 1].Pending? by { QueuedResult(s, k); }
  }

  lemma {:induction false} QueuedResult(s: State, k: nat)
    requires Orderly(s) && k < |s.jobs| && !s.jobs[k].phase.Settled?
    ensures |s.promises| == 2 * |s.jobs| + 1 && s.promises[2 * k + 1].Pending?
  {
    OrderlyAt(s, k);
  }

  /** A running operation settles as it ends: rejected exactly if it fails, and not before. */
  lemma {:induction false} FinishMeans(actions: seq<Action>, s: State, k: nat, ending: Ending)
    requires After(START, actions) == Some(s) && CanFinish(s, k, ending)
    ensures var job, t := s.jobs[k], Step(s, Finish(k, ending));
      && OnlyCommand(s, t, k) && t.localLevels == s.localLevels
      && t.jobs[k].phase == Settled(ending, Some(job.submitted), false)
      && CellOf(s, job.result).Pending?
      && (CellOf(t, job.result).Rejected? <==> ending.Failed?)
      && (CellOf(t, job.result).Fulfilled? <==> !ending.Failed?)
  {
    hide Orderly, After, JobAgrees;
    RunIsOrderly(actions);
    OrderlyAt(s, k);
    assert s.promises[2 * k + 1].Pending? by { QueuedResult(s, k); }
  }

  /** A call that is not answered without a command adds one: the command as
      given, for the present snapshot, waiting for the tail so far. */
  lemma {:induction false} SubmitMeans(s: State, command: Command)
    ensures Submitted(s, command).jobs
            == if Skipped(s, command) then s.jobs
               else s.jobs + [Job(command, s.store, s.tail, |s.promises|, |s.promises| + 1, Queued)]
    ensures !Skipped(s, command) ==> Submitted(s, command).promises == s.promises + [Pending, Pending]
    ensures !Skipped(s, command) ==> Submitted(s, command).tail == |s.promises| + 1
    ensures Skipped(s, command) ==> Submitted(s, command) == s
    ensures Submitted(s, command).store == s.store
    ensures Submitted(s, command).localLevels == if command.CancelInterrupts? || command.Reset? then [] else s.localLevels
  {
  }

  // --- Nothing blocks -----------------------------------------------------------------------------------------

  /** The command is over, and the next one can have its turn. */
  predicate IsOver(s: State, k: nat) {
    k < |s.jobs| && s.jobs[k].phase.Settled? && CellOf(s, s.jobs[k].tail).Fulfilled?
  }

  /** Nothing but the first `k` commands has moved. */
  predicate OnlyFirst(s: State, t: State, k: nat) {
    && |t.jobs| == |s.jobs| && t.store == s.store
    && forall j :: k <= j < |s.jobs| ==> t.jobs[j] == s.jobs[j]
  }

  /** The steps of the chain itself. */
  predicate IsChainStep(a: Action) {
    a.Start? || a.Finish? || a.SettleTail?
  }

  predicate ChainSteps(actions: seq<Action>) {
    forall i :: 0 <= i < |actions| ==> IsChainStep(actions[i])
  }

  function EndingOf(fails: bool): Ending {
    if fails then Failed else Done
  }

  /** One step of command `k`, from wherever it is. */
  lemma {:induction false} StepOn(s: State, k: nat, fails: bool) returns (a: Action)
    requires Orderly(s) && k < |s.jobs| && (k > 0 ==> IsOver(s, k - 1)) && !IsOver(s, k)
    ensures IsChainStep(a) && Enabled(s, a) && OnlyFirst(s, Step(s, a), k + 1)
    ensures Remaining(Step(s, a).jobs[k].phase, k, Step(s, a)) < Remaining(s.jobs[k].phase, k, s)
    ensures k > 0 ==> IsOver(Step(s, a), k - 1)
  {
    hide Orderly;
    OrderlyAt(s, k);
    if k > 0 {
      OrderlyAt(s, k - 1);
    }
    match s.jobs[k].phase {
      case Queued => a := Start(k);
      case Running(_) => a := Finish(k, EndingOf(fails));
      case Settled(_, _, _) => a := SettleTail(k);
    }
  }

  function Remaining(phase: Phase, k: nat, s: State): nat {
    match phase
    case Queued => 3
    case Running(_) => 2
    case Settled(_, _, _) => if IsOver(s, k) then 0 else 1
  }

  /** From wherever it is, a command comes to its end, and then so does its tail. */
  lemma {:induction false} ComesToItsEnd(s: State, k: nat, fails: bool) returns (actions: seq<Action>, t: State)
    requires Orderly(s) && k < |s.jobs| && (k > 0 ==> IsOver(s, k - 1))
    ensures ChainSteps(actions) && After(s, actions) == Some(t) && OnlyFirst(s, t, k + 1) && IsOver(t, k)
    decreases Remaining(s.jobs[k].phase, k, s)
  {
    hide Orderly, Enabled, Step, IsOver, Remaining;
    if IsOver(s, k) {
      actions, t := [], s;
    } else {
      var a := StepOn(s, k, fails);
      StepKeepsOrder(s, a);
      var more, last := ComesToItsEnd(Step(s, a), k, fails);
      AfterMore(s, [], a);
      AfterBoth(s, [a], more);
      assert [] + [a] == [a];
      actions, t := [a] + more, last;
    }
  }

  /** So do all commands before `k`, whichever of them fail. */
  lemma {:induction false} ComesToItsTurn(s: State, k: nat, fails: nat -> bool) returns (actions: seq<Action>, t: State)
    requires Orderly(s) && k < |s.jobs|
    ensures ChainSteps(actions) && After(s, actions) == Some(t) && OnlyFirst(s, t, k) && (k > 0 ==> IsOver(t, k - 1))
  {
    hide Orderly, IsOver;
    if k == 0 {
      actions, t := [], s;
    } else {
      var front, middle := ComesToItsTurn(s, k - 1, fails);
      StepsKeepOrder(s, front);
      var more, last := ComesToItsEnd(middle, k - 1, fails(k - 1));
      AfterBoth(s, front, more);
      actions, t := front + more, last;
    }
  }

  lemma {:induction false} TurnHasCome(s: State, k: nat)
    requires Orderly(s) && k < |s.jobs| && s.jobs[k].phase.Queued? && (k > 0 ==> IsOver(s, k - 1))
    ensures CanStart(s, k)
  {
    hide Orderly;
    OrderlyAt(s, k);
    if k > 0 {
      OrderlyAt(s, k - 1);
    }
  }

  /** From every reachable state every waiting command can get its turn,
      whichever of the commands before it fail, without another submission or session. */
  lemma {:induction false} NothingBlocks(actions: seq<Action>, s: State, k: nat, fails: nat -> bool)
    requires After(START, actions) == Some(s) && IsQueued(s, k)
    ensures exists more, t ::
              ChainSteps(more) && After(START, actions + more) == Some(t) && OnlyFirst(s, t, k) && CanStart(t, k)
  {
    hide Orderly, IsOver, CanStart;
    RunIsOrderly(actions);
    var more, t := ComesToItsTurn(s, k, fails);
    StepsKeepOrder(s, more);
    assert t.jobs[k] == s.jobs[k];
    TurnHasCome(t, k);
    AfterBoth(START, actions, more);
  }

  /** So every command of the present session comes to run, whichever of those before it fail. */
  lemma {:induction false} EveryCommandRuns(actions: seq<Action>, s: State, k: nat, fails: nat -> bool)
    requires After(START, actions) == Some(s) && IsQueued(s, k) && s.jobs[k].submitted == s.store && s.store.session.Some?
    ensures exists more, t ::
              && ChainSteps(more) && After(START, actions + more) == Some(t) && t.store == s.store
              && k < |t.jobs| && t.jobs[k].command == s.jobs[k].command && t.jobs[k].phase == Running(s.store)
  {
    hide Orderly, IsOver, CanStart, After, Step;
    NothingBlocks(actions, s, k, fails);
    var more, t :| ChainSteps(more) && After(START, actions + more) == Some(t) && OnlyFirst(s, t, k) && CanStart(t, k);
    assert t.jobs[k] == s.jobs[k];
    StartMeans(actions + more, t, k);
    AfterMore(START, actions + more, Start(k));
    assert actions + more + [Start(k)] == actions + (more + [Start(k)]);
    assert ChainSteps(more + [Start(k)]);
    assert After(START, actions + (more + [Start(k)])) == Some(Step(t, Start(k)));
  }

  // --- The port ------------------------------------------------------------------------------------------------

  /** The port's fields, with the promises and commands it has made. */
  class RuntimeCommandPort {
    const sessions: RuntimeSessionStore
    var promises: seq<Cell>
    var jobs: seq<Job>
    var tail: nat
    var hardwareDeviceConfigurationKey: Option<Key>
    var automaticInterruptConfigurationKey: Option<Key>
    var automaticInterruptLevels: seq<int>

    function Contents(): State
      reads this, sessions
    {
      State(sessions.snapshot, promises, tail, jobs, hardwareDeviceConfigurationKey,
            automaticInterruptConfigurationKey, automaticInterruptLevels)
    }

    constructor (sessions: RuntimeSessionStore)
      ensures this.sessions == sessions
      ensures Contents() == START.(store := sessions.snapshot)
    {
      this.sessions := sessions;
      promises, tail, jobs := [Fulfilled], 0, [];
      hardwareDeviceConfigurationKey, automaticInterruptConfigurationKey := None, None;
      automaticInterruptLevels := [];
    }

    /** Chains a handler to the tail, and a new tail to its result. */
    method Enqueue(command: Command)
      modifies this`promises, this`jobs, this`tail
      ensures Contents() == Enqueued(old(Contents()), command)
    {
      var submitted := sessions.snapshot;
      var awaits, result := tail, |promises|;
      promises := promises + [Pending];
      tail := |promises|;
      promises := promises + [Pending];
      jobs := jobs + [Job(command, submitted, awaits, result, tail, Queued)];
    }

    method ConfigureHardwareDevices(settings: string) returns (skipped: bool)
      modifies this
      ensures var command := ConfigureDevices(Key(sessions.snapshot.epoch, settings));
        && skipped == Skipped(old(Contents()), command)
        && Contents() == Submitted(old(Contents()), command)
    {
      var key := Key(sessions.snapshot.epoch, settings);
      if Some(key) == hardwareDeviceConfigurationKey {
        return true;
      }
      hardwareDeviceConfigurationKey := Some(key);
      Enqueue(ConfigureDevices(key));
      skipped := false;
    }

    method ConfigureAutomaticInterrupts(settings: string, levels: seq<int>) returns (skipped: bool)
      modifies this
      ensures var command := ConfigureInterrupts(Key(sessions.snapshot.epoch, settings), levels);
        && skipped == Skipped(old(Contents()), command)
        && Contents() == Submitted(old(Contents()), command)
    {
      var key := Key(sessions.snapshot.epoch, settings);
      if Some(key) == automaticInterruptConfigurationKey {
        return true;
      }
      automaticInterruptConfigurationKey := Some(key);
      Enqueue(ConfigureInterrupts(key, levels));
      skipped := false;
    }

    method CancelAutomaticInterrupts()
      modifies this
      ensures Contents() == Submitted(old(Contents()), CancelInterrupts)
    {
      automaticInterruptLevels := [];
      automaticInterruptConfigurationKey := None;
      Enqueue(CancelInterrupts);
    }

    method LoadProgram()
      modifies this
      ensures Contents() == Submitted(old(Contents()), Command.LoadProgram)
    {
      hardwareDeviceConfigurationKey := None;
      Enqueue(Command.LoadProgram);
    }

    method Reset()
      modifies this
      ensures Contents() == Submitted(old(Contents()), Command.Reset)
    {
      automaticInterruptLevels := [];
      automaticInterruptConfigurationKey := None;
      hardwareDeviceConfigurationKey := None;
      Enqueue(Command.Reset);
    }

    method Settle(promise: nat, cell: Cell)
      modifies this`promises
      ensures promises == WithCell(old(promises), promise, cell)
    {
      if promise < |promises| {
        promises := promises[promise := cell];
      }
    }

    method Conclude(k: nat, ending: Ending, against: Option<Snapshot>)
      requires k < |jobs|
      modifies this`promises, this`jobs
      ensures Contents() == Concluded(old(Contents()), k, ending, against)
    {
      Settle(jobs[k].result, ResultOf(ending));
      jobs := jobs[k := jobs[k].(phase := Settled(ending, against, false))];
    }

    /** The handler of command `k`, once the promise it waits for is fulfilled. */
    method RunHandler(k: nat)
      requires CanStart(Contents(), k)
      modifies this
      ensures Contents() == Started(old(Contents()), k)
    {
      hide Concluded;
      var job := jobs[k];
      var current := sessions.snapshot;
      if current.epoch != job.submitted.epoch || current.session != job.submitted.session {
        Conclude(k, Stale, None);
        return;
      }
      if current.session.None? {
        Conclude(k, Unavailable, None);
        return;
      }
      jobs := jobs[k := job.(phase := Running(current))];
      if job.command.ConfigureInterrupts? && !current.session.value.controlled {
        automaticInterruptLevels := job.command.levels;
      }
    }

    /** The tail's two handlers. */
    method RunTailHandler(k: nat)
      requires CanSettleTail(Contents(), k)
      modifies this
      ensures Contents() == TailSettled(old(Contents()), k)
    {
      match CellOf(Contents(), jobs[k].result) {
        case Fulfilled => Settle(jobs[k].tail, Fulfilled);
        case Rejected => Settle(jobs[k].tail, Fulfilled);
      }
    }

    /** The handlers attached to the result of a configuration. */
    method CleanUpAfter(k: nat)
      requires CanCleanUp(Contents(), k)
      modifies this
      ensures Contents() == CleanedUp(old(Contents()), k)
    {
      var job := jobs[k];
      if !job.phase.ending.Done? {
        match job.command {
          case ConfigureDevices(key) =>
            if hardwareDeviceConfigurationKey == Some(key) {
              hardwareDeviceConfigurationKey := None;
            }
          case ConfigureInterrupts(key, _) =>
            if automaticInterruptConfigurationKey == Some(key) {
              automaticInterruptConfigurationKey := None;
            }
          case _ =>
        }
      }
      jobs := jobs[k := job.(phase := job.phase.(cleaned := true))];
    }
  }
}
