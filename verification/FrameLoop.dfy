/** Running an emulator in frames, bounded by instructions and time. */
module FrameLoop {
  import opened Outcomes

  /** What a remote emulator answers to a step. */
  datatype Reply = Reply(halted: bool, waitingForInput: bool, exception: bool)

  /** A deterministic emulator, by what its queries answer and what a step does.
      The answer to a step, if there is one, may tell more than the queries do. */
  datatype Machine<!S(!new)> = Machine(
    step: S -> S,
    finishes: S -> bool,
    reply: S -> Option<Reply>,
    debugStop: S -> Option<string>,
    hasException: S -> bool,
    isHalted: S -> bool,
    waitsForInput: S -> bool,
    terminalVersions: S -> Option<(int, int)>)

  datatype Reason = Debug(reason: string) | Exception | Halted | WaitingForInput
                  | FrameBudget | InstructionBudget | TerminalChanged

  datatype FrameResult = FrameResult(executed: nat, reason: Reason, continues: bool)

  // --- The run without frames ------------------------------------------------------------------

  function After<S(!new)>(m: Machine<S>, s: S, n: nat): S {
    if n == 0 then s else m.step(After(m, s, n - 1))
  }

  lemma {:induction false} AfterAdds<S(!new)>(m: Machine<S>, s: S, i: nat, j: nat)
    ensures After(m, After(m, s, i), j) == After(m, s, i + j)
  {
    if j > 0 {
      AfterAdds(m, s, i, j - 1);
    }
  }

  /** Why the machine must not be stepped from this state. */
  function Blocked<S(!new)>(m: Machine<S>, s: S): Option<Reason> {
    if m.debugStop(s).Some? then Some(Debug(m.debugStop(s).value))
    else if m.hasException(s) then Some(Exception)
    else if m.isHalted(s) then Some(Halted)
    else None
  }

  predicate ReportsException<S(!new)>(m: Machine<S>, s: S) {
    m.reply(s).Some? && m.reply(s).value.exception
  }

  predicate ReportsHalt<S(!new)>(m: Machine<S>, s: S) {
    m.finishes(s) || (m.reply(s).Some? && m.reply(s).value.halted)
  }

  predicate ReportsWaiting<S(!new)>(m: Machine<S>, s: S) {
    m.reply(s).Some? && m.reply(s).value.waitingForInput
  }

  /** Why the run ends with the step from `s`. */
  function EndedBy<S(!new)>(m: Machine<S>, s: S): Option<Reason> {
    var t := m.step(s);
    if m.debugStop(t).Some? then Some(Debug(m.debugStop(t).value))
    else if ReportsException(m, s) || m.hasException(t) then Some(Exception)
    else if ReportsHalt(m, s) || m.isHalted(t) then Some(Halted)
    else if ReportsWaiting(m, s) || m.waitsForInput(t) then Some(WaitingForInput)
    else None
  }

  /** The run from `s` goes on through its first `n` instructions. */
  ghost predicate GoesOn<S(!new)>(m: Machine<S>, s: S, n: nat) {
    Blocked(m, s).None? && forall k :: 0 <= k < n ==> PassesAt(m, s, k)
  }

  /** The instruction after the first `k` does not end the run. */
  predicate PassesAt<S(!new)>(m: Machine<S>, s: S, k: nat) {
    EndedBy(m, After(m, s, k)).None?
  }

  /** The run from `s` ends after `n` instructions, for this reason. */
  ghost predicate EndsAt<S(!new)>(m: Machine<S>, s: S, n: nat, reason: Reason) {
    if n == 0 then Blocked(m, s) == Some(reason)
    else GoesOn(m, s, n - 1) && EndedBy(m, After(m, s, n - 1)) == Some(reason)
  }

  /** A run that goes on for `n` instructions does not end before. */
  lemma {:induction false} EndsLater<S(!new)>(m: Machine<S>, s: S, n: nat, end: nat, reason: Reason)
    requires GoesOn(m, s, n) && EndsAt(m, s, end, reason)
    ensures end > n
  {
    if end > 0 {
      assert !PassesAt(m, s, end - 1);
    }
  }

  lemma {:induction false} EndIsUnique<S(!new)>(m: Machine<S>, s: S, i: nat, a: Reason, j: nat, b: Reason)
    requires EndsAt(m, s, i, a) && EndsAt(m, s, j, b)
    ensures i == j && a == b
  {
    if i > 0 {
      EndsLater(m, s, i - 1, j, b);
    }
    if j > 0 {
      EndsLater(m, s, j - 1, i, a);
    }
  }

  /** A state the run goes on through does not block the next frame. */
  lemma {:induction false} NextFrameIsNotBlocked<S(!new)>(m: Machine<S>, s: S, n: nat)
    requires GoesOn(m, s, n)
    ensures Blocked(m, After(m, s, n)).None?
  {
    if n > 0 {
      assert PassesAt(m, s, n - 1);
    }
  }

  lemma {:induction false} GoesOnAdds<S(!new)>(m: Machine<S>, s: S, i: nat, j: nat)
    requires GoesOn(m, s, i) && GoesOn(m, After(m, s, i), j)
    ensures GoesOn(m, s, i + j)
  {
    forall k | 0 <= k < i + j
      ensures PassesAt(m, s, k)
    {
      if k >= i {
        AfterAdds(m, s, i, k - i);
        assert PassesAt(m, After(m, s, i), k - i);
      }
    }
  }

  lemma {:induction false} EndAdds<S(!new)>(m: Machine<S>, s: S, i: nat, j: nat, reason: Reason)
    requires GoesOn(m, s, i) && EndsAt(m, After(m, s, i), j, reason)
    ensures EndsAt(m, s, i + j, reason)
  {
    NextFrameIsNotBlocked(m, s, i);
    GoesOnAdds(m, s, i, j - 1);
    AfterAdds(m, s, i, j - 1);
  }

  // --- One frame ----------------------------------------------------------------------------------

  function MaxReal(a: real, b: real): real {
    if a >= b then a else b
  }

  /** Never less than one instruction, and never slowed down to less than a quarter. */
  function ScaledBudget(instructionBudget: real, speed: real): (budget: nat)
    ensures budget >= 1
  {
    var scaled := (instructionBudget * MaxReal(speed, 0.25)).Floor;
    if scaled < 1 then 1 else scaled
  }

  /** The budget is what fits into the scaled one, and no less than one. */
  lemma {:induction false} BudgetIsWhatFits(budget: real, speed: real)
    ensures var scaled := budget * (if speed >= 0.25 then speed else 0.25);
      && (ScaledBudget(budget, speed) > 1 ==> ScaledBudget(budget, speed) as real <= scaled)
      && scaled < ScaledBudget(budget, speed) as real + 1.0
  {
    assert MaxReal(speed, 0.25) == if speed >= 0.25 then speed else 0.25;
  }

  lemma {:induction false} BudgetGrowsWithSpeed(budget: real, slow: real, fast: real)
    requires budget >= 0.0 && slow <= fast
    ensures ScaledBudget(budget, slow) <= ScaledBudget(budget, fast)
  {
    assert budget * MaxReal(slow, 0.25) <= budget * MaxReal(fast, 0.25);
  }

  /** Options of a frame. `elapsed` is the clock: the time since the frame
      began, as read after so many instructions. */
  datatype Options = Options(
    budget: nat, frameBudget: real, elapsed: nat -> real, flush: bool, interval: nat)

  /** A frame has no room for another instruction once the clock has run out. */
  ghost predicate InTime(options: Options, executed: nat) {
    forall k :: 1 <= k < executed ==> options.elapsed(k) < options.frameBudget
  }

  /** After so many instructions a flushing frame would have to report. */
  predicate MovedAt<S(!new)>(m: Machine<S>, s: S, options: Options, k: nat) {
    var before, now := m.terminalVersions(s), m.terminalVersions(After(m, s, k));
    && options.flush && k >= options.interval && before.Some? && now.Some?
    && (before.value.0 != now.value.0 || before.value.1 != now.value.1)
  }

  ghost predicate Unmoved<S(!new)>(m: Machine<S>, s: S, options: Options, n: nat) {
    forall k :: 1 <= k < n ==> !MovedAt(m, s, options, k)
  }

  /** The frame stopped no later than its options allow, and for one of them only when it had to. */
  ghost predicate StopsInTime<S(!new)>(m: Machine<S>, s: S, options: Options, r: FrameResult) {
    && InTime(options, r.executed) && Unmoved(m, s, options, r.executed)
    && (r.reason.InstructionBudget? ==> r.executed == options.budget && !MovedAt(m, s, options, r.executed))
    && (r.reason.FrameBudget? ==>
          && 1 <= r.executed < options.budget && options.elapsed(r.executed) >= options.frameBudget
          && !MovedAt(m, s, options, r.executed))
    && (r.reason.TerminalChanged? ==> r.executed >= 1 && MovedAt(m, s, options, r.executed))
  }

  predicate TerminalMoved(before: Option<(int, int)>, now: Option<(int, int)>) {
    before.Some? && now.Some? && now != before
  }

  /** What any frame guarantees, whatever its budget and the clock. */
  ghost predicate FrameOk<S(!new)>(m: Machine<S>, s: S, budget: nat, r: FrameResult) {
    && r.executed <= budget
    && (!r.continues ==> EndsAt(m, s, r.executed, r.reason))
    && (r.continues ==> r.executed >= 1 && GoesOn(m, s, r.executed))
  }

  class Emulator<S(!new)> {
    const machine: Machine<S>
    var state: S
    ghost var steps: nat

    constructor (machine: Machine<S>, state: S)
      ensures this.machine == machine && this.state == state && steps == 0
    {
      this.machine, this.state, this.steps := machine, state, 0;
    }

    method EmulationStep() returns (finished: bool)
      modifies this
      ensures state == machine.step(old(state)) && finished == machine.finishes(old(state)) && steps == old(steps) + 1
    {
      finished := machine.finishes(state);
      state := machine.step(state);
      steps := steps + 1;
    }

    method RequestStep() returns (reply: Option<Reply>)
      modifies this
      ensures state == machine.step(old(state)) && reply == machine.reply(old(state)) && steps == old(steps) + 1
    {
      reply := machine.reply(state);
      state := machine.step(state);
      steps := steps + 1;
    }
  }

  /** The machine as the loop in the same process sees it: its steps answer only whether they finish. */
  function Local<S(!new)>(m: Machine<S>): Machine<S> {
    m.(reply := _ => None)
  }

  /** One frame: it steps the emulator exactly as often as it reports, stops
      where the run must end, within its budget, and otherwise makes progress. */
  method RunEmulationFrame<S(!new)>(emulator: Emulator<S>, options: Options) returns (r: FrameResult)
    requires options.budget >= 1
    modifies emulator
    ensures FrameOk(Local(emulator.machine), old(emulator.state), options.budget, r)
    ensures emulator.state == After(Local(emulator.machine), old(emulator.state), r.executed)
    ensures emulator.steps == old(emulator.steps) + r.executed
    ensures r.continues <==> r.reason.FrameBudget? || r.reason.InstructionBudget? || r.reason.TerminalChanged?
    ensures StopsInTime(Local(emulator.machine), old(emulator.state), options, r)
  {
    var m := Local(emulator.machine);
    ghost var start := emulator.state;
    var initialVersions := if options.flush then m.terminalVersions(emulator.state) else None;
    var executed := 0;
    while executed < options.budget
      invariant executed <= options.budget
      invariant emulator.state == After(m, start, executed)
      invariant emulator.steps == old(emulator.steps) + executed
      invariant executed > 0 ==> GoesOn(m, start, executed)
      invariant InTime(options, executed) && Unmoved(m, start, options, executed + 1)
    {
      var stop := m.debugStop(emulator.state);
      if stop.Some? {
        BlockedOnlyAtStart(m, start, executed);
        return FrameResult(executed, Debug(stop.value), false);
      }
      if m.hasException(emulator.state) {
        BlockedOnlyAtStart(m, start, executed);
        return FrameResult(executed, Exception, false);
      }
      if m.isHalted(emulator.state) {
        BlockedOnlyAtStart(m, start, executed);
        return FrameResult(executed, Halted, false);
      }
      if executed > 0 && options.elapsed(executed) >= options.frameBudget {
        return FrameResult(executed, FrameBudget, true);
      }
      ghost var before := emulator.state;
      assert GoesOn(m, start, executed);
      var finished := emulator.EmulationStep();
      executed := executed + 1;
      assert before == After(m, start, executed - 1);

      var stopAfter := m.debugStop(emulator.state);
      if stopAfter.Some? {
        return FrameResult(executed, Debug(stopAfter.value), false);
      }
      if m.hasException(emulator.state) {
        return FrameResult(executed, Exception, false);
      }
      if finished || m.isHalted(emulator.state) {
        return FrameResult(executed, Halted, false);
      }
      if m.waitsForInput(emulator.state) {
        return FrameResult(executed, WaitingForInput, false);
      }
      assert EndedBy(m, before).None? && PassesAt(m, start, executed - 1);
      if options.flush && executed >= options.interval {
        if TerminalMoved(initialVersions, m.terminalVersions(emulator.state)) {
          return FrameResult(executed, TerminalChanged, true);
        }
      }
    }
    r := FrameResult(executed, InstructionBudget, true);
  }

  /** Inside a frame, a state can only block the run if it is the first. */
  lemma {:induction false} BlockedOnlyAtStart<S(!new)>(m: Machine<S>, s: S, n: nat)
    requires Blocked(m, After(m, s, n)).Some? && (n > 0 ==> GoesOn(m, s, n))
    ensures n == 0
  {
    if n > 0 {
      NextFrameIsNotBlocked(m, s, n);
    }
  }

  // --- What a frame's end means ----------------------------------------------------------------------

  /** No instruction was executed where the machine had stopped, failed, halted
      or, within the frame, begun to wait. */
  ghost predicate Undisturbed<S(!new)>(m: Machine<S>, s: S, n: nat) {
    && (forall k :: 0 <= k < n ==> MayStep(m, After(m, s, k)))
    && (forall k :: 0 <= k < n - 1 ==> WentOn(m, After(m, s, k)))
  }

  predicate MayStep<S(!new)>(m: Machine<S>, s: S) {
    m.debugStop(s).None? && !m.hasException(s) && !m.isHalted(s)
  }

  /** The step from `s` neither finished, nor failed, nor led to waiting. */
  predicate WentOn<S(!new)>(m: Machine<S>, s: S) {
    && !m.finishes(s) && !m.waitsForInput(m.step(s))
    && (m.reply(s).Some? ==>
          !m.reply(s).value.halted && !m.reply(s).value.exception && !m.reply(s).value.waitingForInput)
  }

  lemma {:induction false} PassingMeans<S(!new)>(m: Machine<S>, s: S)
    ensures EndedBy(m, s).None? <==> WentOn(m, s) && MayStep(m, m.step(s))
    ensures Blocked(m, s).None? <==> MayStep(m, s)
  {
  }

  /** The last step of a run, and the reason it gives: a debug stop goes before
      an exception, that before a halt, and that before waiting. */
  predicate EndMeans<S(!new)>(m: Machine<S>, s: S, reason: Reason) {
    var t, reply := m.step(s), m.reply(s);
    match reason
    case Debug(text) => m.debugStop(t) == Some(text)
    case Exception => m.debugStop(t).None? && (m.hasException(t) || (reply.Some? && reply.value.exception))
    case Halted =>
      && m.debugStop(t).None? && !m.hasException(t) && (reply.Some? ==> !reply.value.exception)
      && (m.isHalted(t) || m.finishes(s) || (reply.Some? && reply.value.halted))
    case WaitingForInput =>
      && MayStep(m, t) && !m.finishes(s) && (reply.Some? ==> !reply.value.exception && !reply.value.halted)
      && (m.waitsForInput(t) || (reply.Some? && reply.value.waitingForInput))
    case _ => false
  }

  lemma {:induction false} EndingMeans<S(!new)>(m: Machine<S>, s: S, reason: Reason)
    requires EndedBy(m, s) == Some(reason)
    ensures EndMeans(m, s, reason)
  {
  }

  lemma {:induction false} GoingOnMeans<S(!new)>(m: Machine<S>, s: S, n: nat)
    requires GoesOn(m, s, n)
    ensures Undisturbed(m, s, n + 1)
  {
    PassingMeans(m, s);
    forall k | 0 <= k < n
      ensures WentOn(m, After(m, s, k))
    {
      assert PassesAt(m, s, k);
      PassingMeans(m, After(m, s, k));
    }
    forall k | 0 <= k < n + 1
      ensures MayStep(m, After(m, s, k))
    {
      if k > 0 {
        assert PassesAt(m, s, k - 1);
        PassingMeans(m, After(m, s, k - 1));
      }
    }
  }

  /** No frame steps past a debug stop, an exception, a halt or waiting, and one
      that does not continue ends for the reason it reports. */
  lemma {:induction false} FrameMeans<S(!new)>(m: Machine<S>, s: S, budget: nat, r: FrameResult)
    requires FrameOk(m, s, budget, r)
    ensures Undisturbed(m, s, r.executed)
    ensures r.continues ==> Undisturbed(m, s, r.executed + 1)
    ensures !r.continues && r.executed > 0 ==> EndMeans(m, After(m, s, r.executed - 1), r.reason)
    ensures !r.continues && r.executed == 0 ==> !MayStep(m, s)
  {
    hide EndedBy, Blocked, MayStep, WentOn;
    if r.continues {
      GoingOnMeans(m, s, r.executed);
    } else if r.executed > 0 {
      GoingOnMeans(m, s, r.executed - 1);
      EndingMeans(m, After(m, s, r.executed - 1), r.reason);
    } else {
      PassingMeans(m, s);
    }
  }

  // --- Frames in a row -----------------------------------------------------------------------------

  function Total(frames: seq<FrameResult>): nat {
    if frames == [] then 0 else Total(frames[..|frames| - 1]) + frames[|frames| - 1].executed
  }

  /** Frames run one after the other, each from where the last left off, with
      any budgets and clocks; all but the last continue. */
  ghost predicate IsFrameRun<S(!new)>(m: Machine<S>, s: S, budgets: seq<nat>, frames: seq<FrameResult>) {
    && |budgets| == |frames|
    && (forall k :: 0 <= k < |frames| ==> FrameOk(m, After(m, s, Total(frames[..k])), budgets[k], frames[k]))
    && forall k :: 0 <= k < |frames| - 1 ==> frames[k].continues
  }

  lemma {:induction false} FramesGoOn<S(!new)>(m: Machine<S>, s: S, budgets: seq<nat>, frames: seq<FrameResult>, k: nat)
    requires IsFrameRun(m, s, budgets, frames) && 0 < k <= |frames|
    requires forall i :: 0 <= i < k ==> frames[i].continues
    ensures GoesOn(m, s, Total(frames[..k]))
    decreases k
  {
    assert frames[..k][..k - 1] == frames[..k - 1];
    assert FrameOk(m, After(m, s, Total(frames[..k - 1])), budgets[k - 1], frames[k - 1]);
    if k > 1 {
      FramesGoOn(m, s, budgets, frames, k - 1);
      GoesOnAdds(m, s, Total(frames[..k - 1]), frames[k - 1].executed);
    }
  }

  /** A run of frames that comes to an end ends exactly where the run without frames does. */
  lemma {:induction false} FramesEndWhereTheRunEnds<S(!new)>(m: Machine<S>, s: S, budgets: seq<nat>, frames: seq<FrameResult>)
    requires IsFrameRun(m, s, budgets, frames) && frames != [] && !frames[|frames| - 1].continues
    ensures EndsAt(m, s, Total(frames), frames[|frames| - 1].reason)
  {
    var last := |frames| - 1;
    assert FrameOk(m, After(m, s, Total(frames[..last])), budgets[last], frames[last]);
    assert frames[..|frames|] == frames;
    if last > 0 {
      FramesGoOn(m, s, budgets, frames, last);
      EndAdds(m, s, Total(frames[..last]), frames[last].executed, frames[last].reason);
    }
  }

  /** However a run is cut into frames, it executes the same number of
      instructions, ends in the same state, and for the same reason. */
  lemma {:induction false} SlicingIsTransparent<S(!new)>(m: Machine<S>, s: S, budgets: seq<nat>, frames: seq<FrameResult>,
                                      budgets': seq<nat>, frames': seq<FrameResult>)
    requires IsFrameRun(m, s, budgets, frames) && frames != [] && !frames[|frames| - 1].continues
    requires IsFrameRun(m, s, budgets', frames') && frames' != [] && !frames'[|frames'| - 1].continues
    ensures Total(frames) == Total(frames')
    ensures After(m, s, Total(frames)) == After(m, s, Total(frames'))
    ensures frames[|frames| - 1].reason == frames'[|frames'| - 1].reason
  {
    FramesEndWhereTheRunEnds(m, s, budgets, frames);
    FramesEndWhereTheRunEnds(m, s, budgets', frames');
    EndIsUnique(m, s, Total(frames), frames[|frames| - 1].reason, Total(frames'), frames'[|frames'| - 1].reason);
  }

  /** Every frame that continues has executed at least one instruction, so so
      many frames get at least so far, and no further than the end of the run. */
  lemma {:induction false} FramesMakeProgress<S(!new)>(m: Machine<S>, s: S, budgets: seq<nat>, frames: seq<FrameResult>,
                                    end: nat, reason: Reason)
    requires IsFrameRun(m, s, budgets, frames) && EndsAt(m, s, end, reason)
    requires forall k :: 0 <= k < |frames| ==> frames[k].continues
    ensures |frames| <= Total(frames)
    ensures frames != [] ==> Total(frames) < end
  {
    if frames != [] {
      var last := |frames| - 1;
      assert frames[..|frames|] == frames;
      FramesGoOn(m, s, budgets, frames, |frames|);
      EndsLater(m, s, Total(frames), end, reason);
      var front, fronts := frames[..last], budgets[..last];
      forall k | 0 <= k < last
        ensures FrameOk(m, After(m, s, Total(front[..k])), fronts[k], front[k])
      {
        assert front[..k] == frames[..k];
        assert FrameOk(m, After(m, s, Total(frames[..k])), budgets[k], frames[k]);
      }
      FramesMakeProgress(m, s, fronts, front, end, reason);
      assert FrameOk(m, After(m, s, Total(frames[..last])), budgets[last], frames[last]);
    }
  }

  lemma {:induction false} GoesOnFromStart<S(!new)>(m: Machine<S>, s: S)
    requires Blocked(m, s).None?
    ensures GoesOn(m, s, 0)
  {
  }

  lemma {:induction false} GoesOnNext<S(!new)>(m: Machine<S>, s: S, n: nat)
    requires GoesOn(m, s, n) && EndedBy(m, After(m, s, n)).None?
    ensures GoesOn(m, s, n + 1)
  {
    assert PassesAt(m, s, n);
  }

  // --- The asynchronous frame -----------------------------------------------------------------------

  /** The machine as the asynchronous loop sees it: without debug stops. */
  function Remote<S(!new)>(m: Machine<S>): Machine<S> {
    m.(debugStop := _ => None, finishes := _ => false)
  }

  /** The same guarantees, so slicing is transparent for asynchronous frames too. */
  method RunAsyncEmulationFrame<S(!new)>(emulator: Emulator<S>, options: Options) returns (r: FrameResult)
    requires options.budget >= 1
    modifies emulator
    ensures FrameOk(Remote(emulator.machine), old(emulator.state), options.budget, r)
    ensures emulator.state == After(Remote(emulator.machine), old(emulator.state), r.executed)
    ensures emulator.steps == old(emulator.steps) + r.executed
    ensures r.continues <==> r.reason.FrameBudget? || r.reason.InstructionBudget? || r.reason.TerminalChanged?
    ensures StopsInTime(Remote(emulator.machine), old(emulator.state), options, r)
  {
    hide GoesOn, PassesAt;
    var m := emulator.machine;
    ghost var remote := Remote(m);
    ghost var start := emulator.state;
    var initialVersions := if options.flush then m.terminalVersions(emulator.state) else None;
    var executed := 0;
    while executed < options.budget
      invariant executed <= options.budget
      invariant emulator.state == After(remote, start, executed)
      invariant emulator.steps == old(emulator.steps) + executed
      invariant executed > 0 ==> GoesOn(remote, start, executed)
      invariant InTime(options, executed) && Unmoved(remote, start, options, executed + 1)
    {
      if m.hasException(emulator.state) {
        BlockedOnlyAtStart(remote, start, executed);
        return FrameResult(executed, Exception, false);
      }
      if m.isHalted(emulator.state) {
        BlockedOnlyAtStart(remote, start, executed);
        return FrameResult(executed, Halted, false);
      }
      if executed > 0 && options.elapsed(executed) >= options.frameBudget {
        return FrameResult(executed, FrameBudget, true);
      }
      if executed == 0 {
        GoesOnFromStart(remote, start);
      }
      ghost var before := emulator.state;
      var answer := emulator.RequestStep();
      executed := executed + 1;
      assert before == After(remote, start, executed - 1);
      if (answer.Some? && answer.value.exception) || m.hasException(emulator.state) {
        return FrameResult(executed, Exception, false);
      }
      if (answer.Some? && answer.value.halted) || m.isHalted(emulator.state) {
        return FrameResult(executed, Halted, false);
      }
      if (answer.Some? && answer.value.waitingForInput) || m.waitsForInput(emulator.state) {
        return FrameResult(executed, WaitingForInput, false);
      }
      GoesOnNext(remote, start, executed - 1);
      if options.flush && executed >= options.interval {
        if TerminalMoved(initialVersions, m.terminalVersions(emulator.state)) {
          return FrameResult(executed, TerminalChanged, true);
        }
      }
    }
    r := FrameResult(executed, InstructionBudget, true);
  }

  // --- The local run of a debugger command ------------------------------------------------------------

  const MAXIMUM_INSTRUCTIONS := 1_000_000

  /** The step from `s` ends a local run; waiting for input does not. */
  predicate EndsLocally<S(!new)>(m: Machine<S>, s: S) {
    var t := m.step(s);
    m.debugStop(t).Some? || m.finishes(s) || m.isHalted(t) || m.hasException(t)
  }

  /** Stops with the first instruction that ends the run, or pauses after a million. */
  method RunLocalUntilDebugStop<S(!new)>(emulator: Emulator<S>) returns (executed: nat, paused: bool)
    modifies emulator
    ensures 1 <= executed <= MAXIMUM_INSTRUCTIONS
    ensures emulator.state == After(emulator.machine, old(emulator.state), executed)
    ensures emulator.steps == old(emulator.steps) + executed
    ensures forall k :: 0 <= k < executed - 1 ==> !EndsLocally(emulator.machine, After(emulator.machine, old(emulator.state), k))
    ensures paused <==> !EndsLocally(emulator.machine, After(emulator.machine, old(emulator.state), executed - 1))
    ensures paused ==> executed == MAXIMUM_INSTRUCTIONS
  {
    var m := emulator.machine;
    ghost var start := emulator.state;
    executed := 0;
    while executed < MAXIMUM_INSTRUCTIONS
      invariant executed <= MAXIMUM_INSTRUCTIONS
      invariant emulator.state == After(m, start, executed)
      invariant emulator.steps == old(emulator.steps) + executed
      invariant forall k :: 0 <= k < executed ==> !EndsLocally(m, After(m, start, k))
    {
      ghost var before := emulator.state;
      var finished := emulator.EmulationStep();
      executed := executed + 1;
      assert before == After(m, start, executed - 1);
      if m.debugStop(emulator.state).Some? || finished || m.isHalted(emulator.state) || m.hasException(emulator.state) {
        assert EndsLocally(m, before);
        return executed, false;
      }
      assert !EndsLocally(m, before);
    }
    paused := true;
  }
}
