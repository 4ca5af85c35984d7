/** The register cache: registers are read again only when their version has moved. */
module RegisterCache {
  import opened Outcomes

  datatype Control = Control(
    pc: int, ccr: int, sr: int, usp: int, ssp: int, vbr: int, sfc: int, dfc: int, isp: int, msp: int, cacr: int, caar: int)

  /** A runtime, by identity; `version` grows with every register change, where it is reported. */
  datatype Runtime = Runtime(id: nat, version: Option<nat>, raw: seq<int>, control: Control)

  datatype Registers = Registers(raw: seq<int>, control: Control)

  datatype Flags = Flags(x: bool, n: bool, z: bool, v: bool, c: bool)

  function BuildRegisters(raw: seq<int>, control: Control): Registers {
    Registers(raw, control)
  }

  function Bit(value: int, weight: int): bool
    requires weight > 0
  {
    value / weight % 2 != 0
  }

  function BuildFlags(ccr: int): Flags {
    Flags(Bit(ccr, 16), Bit(ccr, 8), Bit(ccr, 4), Bit(ccr, 2), Bit(ccr, 1))
  }

  /** The condition codes are X, N, Z, V and C from bit 4 down to bit 0; the bits above do not matter. */
  lemma {:induction false} ConditionCodesAreRead(flags: Flags, rest: nat)
    ensures var codes := 16 * One(flags.x) + 8 * One(flags.n) + 4 * One(flags.z) + 2 * One(flags.v) + One(flags.c);
      BuildFlags(32 * rest + codes) == flags
  {
    hide Bit, One;
    var x, n, z, v, c := One(flags.x), One(flags.n), One(flags.z), One(flags.v), One(flags.c);
    OneIsSmall(flags);
    BitFour(rest, flags.x, 8 * n + 4 * z + 2 * v + c);
    BitThree(2 * rest + x, flags.n, 4 * z + 2 * v + c);
    BitTwo(4 * rest + 2 * x + n, flags.z, 2 * v + c);
    BitOne(8 * rest + 4 * x + 2 * n + z, flags.v, c);
    BitZero(16 * rest + 8 * x + 4 * n + 2 * z + v, flags.c);
  }

  lemma {:induction false} OneIsSmall(flags: Flags)
    ensures One(flags.x) <= 1 && One(flags.n) <= 1 && One(flags.z) <= 1 && One(flags.v) <= 1 && One(flags.c) <= 1
  {
  }

  lemma {:induction false} BitFour(above: nat, bit: bool, below: nat)
    requires below < 16
    ensures Bit(32 * above + 16 * One(bit) + below, 16) == bit
  {
  }

  lemma {:induction false} BitThree(above: nat, bit: bool, below: nat)
    requires below < 8
    ensures Bit(16 * above + 8 * One(bit) + below, 8) == bit
  {
  }

  lemma {:induction false} BitTwo(above: nat, bit: bool, below: nat)
    requires below < 4
    ensures Bit(8 * above + 4 * One(bit) + below, 4) == bit
  {
  }

  lemma {:induction false} BitOne(above: nat, bit: bool, below: nat)
    requires below < 2
    ensures Bit(4 * above + 2 * One(bit) + below, 2) == bit
  {
  }

  lemma {:induction false} BitZero(above: nat, bit: bool)
    ensures Bit(2 * above + One(bit), 1) == bit
  {
  }

  function One(bit: bool): nat {
    if bit then 1 else 0
  }

  datatype Cache = Cache(
    runtime: Option<nat>, version: Option<nat>, values: Option<Registers>, registers: Option<Registers>, flags: Option<Flags>)

  const NO_CACHE := Cache(None, None, None, None, None)

  /** The runtime, the cache, and what the interface shows. */
  datatype State = State(runtime: Runtime, cache: Cache, shownRegisters: Registers, shownFlags: Flags)

  function ForRuntime(cache: Cache, id: nat): Cache {
    if cache.runtime == Some(id) then cache else Cache(Some(id), None, None, None, None)
  }

  predicate VersionMoved(cache: Cache, runtime: Runtime) {
    runtime.version.None? || cache.version.None? || cache.version != runtime.version
  }

  /** The registers and flags of a frame, where it has them, and the cache they leave. */
  datatype Frame = Frame(cache: Cache, registers: Option<Registers>, flags: Option<Flags>)

  function ReadFrame(cache: Cache, runtime: Runtime): Frame {
    var changed := cache.values != Some(Registers(runtime.raw, runtime.control));
    var reuse := !changed && cache.registers.Some?;
    var registers := if reuse then cache.registers.value else BuildRegisters(runtime.raw, runtime.control);
    var kept := if reuse then cache
                else cache.(values := Some(Registers(runtime.raw, runtime.control)), registers := Some(registers));
    var flags := if !changed && cache.flags.Some? then cache.flags.value else BuildFlags(runtime.control.ccr);
    Frame(kept.(flags := Some(flags)), Some(registers), Some(flags))
  }

  function NextFrame(cache: Cache, runtime: Runtime, suppress: bool): Frame {
    if suppress || !VersionMoved(cache, runtime) then Frame(cache, None, None) else ReadFrame(cache, runtime)
  }

  function Synced(s: State, suppress: bool): State {
    var frame := NextFrame(ForRuntime(s.cache, s.runtime.id), s.runtime, suppress);
    var version := if s.runtime.version.Some? then s.runtime.version else frame.cache.version;
    s.(cache := frame.cache.(version := version),
       shownRegisters := frame.registers.GetOr(s.shownRegisters), shownFlags := frame.flags.GetOr(s.shownFlags))
  }

  datatype Action =
    | Change(raw: seq<int>, control: Control)
    | Replace(runtime: Runtime)
    | Sync(suppress: bool)

  /** A register change always moves the version; a new runtime has its own identity. */
  predicate Enabled(s: State, a: Action) {
    match a
    case Replace(runtime) => s.cache.runtime != Some(runtime.id)
    case _ => true
  }

  function Step(s: State, a: Action): State
    requires Enabled(s, a)
  {
    match a
    case Change(raw, control) =>
      s.(runtime := s.runtime.(raw := raw, control := control,
                               version := if s.runtime.version.Some? then Some(s.runtime.version.value + 1) else None))
    case Replace(runtime) => s.(runtime := runtime)
    case Sync(suppress) => Synced(s, suppress)
  }

  /** The interface shows the runtime's registers and the flags in its condition codes. */
  predicate Shows(s: State) {
    && s.shownRegisters == BuildRegisters(s.runtime.raw, s.runtime.control)
    && s.shownFlags == BuildFlags(s.runtime.control.ccr)
  }

  /** The cached values are those the cached registers and flags were built from. */
  predicate Coherent(cache: Cache) {
    cache.values.Some? ==>
      && cache.registers == Some(BuildRegisters(cache.values.value.raw, cache.values.value.control))
      && cache.flags == Some(BuildFlags(cache.values.value.control.ccr))
  }

  /** The cache is of this runtime and not from its future. */
  predicate NotAhead(s: State) {
    s.cache.runtime == Some(s.runtime.id) && s.cache.version.Some? ==>
      s.runtime.version.Some? && s.cache.version.value <= s.runtime.version.value
  }

  predicate UpToDate(s: State) {
    s.cache.runtime == Some(s.runtime.id) && !VersionMoved(s.cache, s.runtime)
  }

  predicate Sound(s: State) {
    Coherent(s.cache) && NotAhead(s) && (UpToDate(s) ==> Shows(s))
  }

  lemma {:induction false} StepKeepsSound(s: State, a: Action)
    requires Sound(s) && Enabled(s, a) && a != Sync(true)
    ensures Sound(Step(s, a))
    ensures a.Sync? ==> Shows(Step(s, a))
  {
    hide BuildFlags;
  }

  ghost predicate IsRun(run: seq<State>, actions: seq<Action>) {
    && |run| == |actions| + 1
    && forall k :: 0 <= k < |actions| ==> Enabled(run[k], actions[k]) && run[k + 1] == Step(run[k], actions[k])
  }

  lemma {:induction false} RunIsSound(run: seq<State>, actions: seq<Action>, k: nat)
    requires IsRun(run, actions) && k < |run| && run[0].cache == NO_CACHE
    requires forall i :: 0 <= i < |actions| ==> actions[i] != Sync(true)
    ensures Sound(run[k])
    decreases k
  {
    hide Step, Enabled;
    if k > 0 {
      RunIsSound(run, actions, k - 1);
      StepKeepsSound(run[k - 1], actions[k - 1]);
    }
  }

  /** In every run without suppressed syncs, each sync leaves the interface
      with the runtime's current registers and flags, however few it reads. */
  lemma {:induction false} EverySyncShows(run: seq<State>, actions: seq<Action>, k: nat)
    requires IsRun(run, actions) && k < |actions| && run[0].cache == NO_CACHE
    requires forall i :: 0 <= i < |actions| ==> actions[i] != Sync(true)
    requires actions[k].Sync?
    ensures Shows(run[k + 1])
  {
    hide Step, Enabled;
    RunIsSound(run, actions, k);
    StepKeepsSound(run[k], actions[k]);
  }

  /** A suppressed sync takes over the version without the registers, so the
      next sync does not show a change made before it. */
  lemma {:induction false} SuppressedSyncGoesStale(s: State, raw: seq<int>, control: Control)
    requires Sound(s) && s.runtime.version.Some? && s.shownRegisters != BuildRegisters(raw, control)
    ensures !Shows(Step(Step(Step(s, Change(raw, control)), Sync(true)), Sync(false)))
  {
    hide BuildFlags;
    var changed := Step(s, Change(raw, control));
    var suppressed := Step(changed, Sync(true));
    assert UpToDate(suppressed) && !Shows(suppressed);
  }

  // --- When a sync shows the registers, whatever they are ------------------------------------------

  /** An action without the values it brings. */
  datatype Event =
    | Changed
    | Replaced(id: nat, version: Option<nat>)
    | SyncedAs(suppress: bool)

  /** The values before the first event, and those each event brings. */
  type Values = nat -> Registers

  function ActionOf(event: Event, values: Registers): Action {
    match event
    case Changed => Change(values.raw, values.control)
    case Replaced(id, version) => Replace(Runtime(id, version, values.raw, values.control))
    case SyncedAs(suppress) => Sync(suppress)
  }

  /** An interface, and a runtime it has not read yet. */
  datatype Origin = Origin(id: nat, version: Option<nat>, shownRegisters: Registers, shownFlags: Flags)

  function Started(origin: Origin, values: Registers): State {
    State(Runtime(origin.id, origin.version, values.raw, values.control), NO_CACHE, origin.shownRegisters, origin.shownFlags)
  }

  /** The runtime whose cache there is, if any. */
  function CachedId(origin: Origin, events: seq<Event>): Option<nat> {
    if events == [] then None
    else if events[|events| - 1].SyncedAs? then Some(CurrentId(origin, events[..|events| - 1]))
    else CachedId(origin, events[..|events| - 1])
  }

  function CurrentId(origin: Origin, events: seq<Event>): nat {
    if events == [] then origin.id
    else if events[|events| - 1].Replaced? then events[|events| - 1].id
    else CurrentId(origin, events[..|events| - 1])
  }

  /** A new runtime has its own identity. */
  predicate Possible(origin: Origin, events: seq<Event>) {
    events != [] ==>
      var front := events[..|events| - 1];
      && Possible(origin, front)
      && (events[|events| - 1].Replaced? ==> CachedId(origin, front) != Some(events[|events| - 1].id))
  }

  function RunOf(origin: Origin, events: seq<Event>, values: Values): (s: State)
    requires Possible(origin, events)
    ensures s.runtime.id == CurrentId(origin, events) && s.cache.runtime == CachedId(origin, events)
  {
    if events == [] then Started(origin, values(0))
    else Step(RunOf(origin, events[..|events| - 1], values), ActionOf(events[|events| - 1], values(|events|)))
  }

  function VersionReported(origin: Origin, events: seq<Event>): bool {
    if events == [] then origin.version.Some?
    else if events[|events| - 1].Replaced? then events[|events| - 1].version.Some?
    else VersionReported(origin, events[..|events| - 1])
  }

  /** Whether the first sync since the last change or replacement was suppressed, if there was one. */
  function FirstSync(events: seq<Event>): Option<bool> {
    if events == [] || !events[|events| - 1].SyncedAs? then None
    else
      match FirstSync(events[..|events| - 1])
      case None => Some(events[|events| - 1].suppress)
      case Some(first) => Some(first)
  }

  /** When the values now current came: 0 for the beginning. */
  function LastChange(events: seq<Event>): (k: nat)
    ensures k <= |events|
  {
    if events == [] then 0
    else if events[|events| - 1].SyncedAs? then LastChange(events[..|events| - 1])
    else |events|
  }

  /** What the first sync since the last change decides. */
  predicate Tracked(s: State, reported: bool, first: Option<bool>) {
    && Coherent(s.cache) && NotAhead(s)
    && (s.runtime.version.Some? <==> reported)
    && (first.None? ==> !UpToDate(s))
    && (first == Some(false) ==> Shows(s))
    && (first == Some(true) && reported ==> UpToDate(s))
  }

  function ReportedAfter(event: Event, reported: bool): bool {
    if event.Replaced? then event.version.Some? else reported
  }

  function FirstAfter(event: Event, first: Option<bool>): Option<bool> {
    if !event.SyncedAs? then None else if first.Some? then first else Some(event.suppress)
  }

  lemma {:induction false} ChangeIsTracked(s: State, event: Event, values: Registers, reported: bool, first: Option<bool>)
    requires Tracked(s, reported, first) && Enabled(s, ActionOf(event, values)) && !event.SyncedAs?
    ensures Tracked(Step(s, ActionOf(event, values)), ReportedAfter(event, reported), FirstAfter(event, first))
  {
    hide BuildFlags;
  }

  lemma {:induction false} SyncIsTracked(s: State, suppress: bool, reported: bool, first: Option<bool>)
    requires Tracked(s, reported, first)
    ensures Tracked(Synced(s, suppress), reported, FirstAfter(SyncedAs(suppress), first))
  {
    hide BuildFlags;
  }

  lemma {:induction false} RunIsTracked(origin: Origin, events: seq<Event>, values: Values)
    requires Possible(origin, events)
    ensures Tracked(RunOf(origin, events, values), VersionReported(origin, events), FirstSync(events))
  {
    hide BuildFlags, Tracked, Synced;
    if events == [] {
      StartIsTracked(origin, values(0));
    } else {
      var front, event := events[..|events| - 1], events[|events| - 1];
      RunIsTracked(origin, front, values);
      if event.SyncedAs? {
        SyncIsTracked(RunOf(origin, front, values), event.suppress, VersionReported(origin, front), FirstSync(front));
      } else {
        ChangeIsTracked(RunOf(origin, front, values), event, values(|events|), VersionReported(origin, front), FirstSync(front));
      }
    }
  }

  lemma {:induction false} StartIsTracked(origin: Origin, values: Registers)
    ensures Tracked(Started(origin, values), origin.version.Some?, None)
  {
  }

  lemma {:induction false} OnlyPastValuesMatter(origin: Origin, events: seq<Event>, values: Values, others: Values)
    requires Possible(origin, events) && forall k :: 0 <= k <= |events| ==> values(k) == others(k)
    ensures RunOf(origin, events, values) == RunOf(origin, events, others)
  {
    hide Step;
    if events != [] {
      OnlyPastValuesMatter(origin, events[..|events| - 1], values, others);
    }
  }

  /** What the interface showed before the values now current came. */
  function ShownBefore(origin: Origin, events: seq<Event>, values: Values): Registers
    requires Possible(origin, events)
  {
    if events == [] then origin.shownRegisters
    else if events[|events| - 1].SyncedAs? then ShownBefore(origin, events[..|events| - 1], values)
    else RunOf(origin, events[..|events| - 1], values).shownRegisters
  }

  /** If the first sync was suppressed, the values now current have never been read. */
  lemma {:induction false} NeverRead(origin: Origin, events: seq<Event>, values: Values)
    requires Possible(origin, events) && VersionReported(origin, events) && FirstSync(events) != Some(false)
    ensures var s := RunOf(origin, events, values);
      && s.shownRegisters == ShownBefore(origin, events, values)
      && Registers(s.runtime.raw, s.runtime.control) == values(LastChange(events))
  {
    hide BuildFlags;
    if events != [] && events[|events| - 1].SyncedAs? {
      NeverRead(origin, events[..|events| - 1], values);
      RunIsTracked(origin, events[..|events| - 1], values);
    }
  }

  lemma {:induction false} ShownBeforeIsPast(origin: Origin, events: seq<Event>, values: Values, others: Values)
    requires Possible(origin, events) && forall k :: 0 <= k < LastChange(events) ==> values(k) == others(k)
    ensures ShownBefore(origin, events, values) == ShownBefore(origin, events, others)
  {
    if events != [] {
      if events[|events| - 1].SyncedAs? {
        ShownBeforeIsPast(origin, events[..|events| - 1], values, others);
      } else {
        OnlyPastValuesMatter(origin, events[..|events| - 1], values, others);
      }
    }
  }

  function OtherRegisters(registers: Registers): (other: Registers)
    ensures other != registers
  {
    registers.(raw := registers.raw + [0])
  }

  /** A sync shows the current registers and flags, whatever values there have been, if and only if
      the first sync since the last change or replacement was not a suppressed
      one, or the runtime reports no versions. */
  lemma {:induction false} SyncShowsExactly(origin: Origin, events: seq<Event>)
    requires Possible(origin, events)
    ensures (forall values: Values :: Shows(Synced(RunOf(origin, events, values), false)))
            <==> FirstSync(events) != Some(true) || !VersionReported(origin, events)
  {
    hide BuildFlags, RunOf, VersionReported;
    if FirstSync(events) != Some(true) || !VersionReported(origin, events) {
      forall values: Values
        ensures Shows(Synced(RunOf(origin, events, values), false))
      {
        RunIsTracked(origin, events, values);
      }
    } else {
      var base: Values := (_: nat) => origin.shownRegisters;
      var before := ShownBefore(origin, events, base);
      var values: Values := (k: nat) => if k == LastChange(events) then OtherRegisters(before) else base(k);
      ShownBeforeIsPast(origin, events, base, values);
      NeverRead(origin, events, values);
      RunIsTracked(origin, events, values);
      var s := RunOf(origin, events, values);
      assert values(LastChange(events)) == OtherRegisters(before);
      assert UpToDate(s) && s.shownRegisters == before != Registers(s.runtime.raw, s.runtime.control);
      assert !Shows(Synced(RunOf(origin, events, values), false));
    }
  }

  // --- The cache object ---------------------------------------------------------------------------

  method RawRegistersEqual(left: seq<int>, right: seq<int>) returns (equal: bool)
    ensures equal <==> left == right
  {
    if |left| != |right| {
      return false;
    }
    for index := 0 to |left|
      invariant left[..index] == right[..index]
    {
      if left[index] != right[index] {
        return false;
      }
    }
    equal := true;
  }

  class RuntimeFrameSync {
    var cache: Cache
    var shownRegisters: Registers
    var shownFlags: Flags

    function Contents(runtime: Runtime): State
      reads this
    {
      State(runtime, cache, shownRegisters, shownFlags)
    }

    constructor (registers: Registers, flags: Flags)
      ensures forall runtime :: Contents(runtime) == State(runtime, NO_CACHE, registers, flags)
    {
      cache, shownRegisters, shownFlags := NO_CACHE, registers, flags;
    }

    method SyncRuntimeFrameToIde(runtime: Runtime, suppress: bool)
      modifies this
      ensures Contents(runtime) == Synced(old(Contents(runtime)), suppress)
    {
      hide BuildFlags;
      if cache.runtime != Some(runtime.id) {
        cache := Cache(Some(runtime.id), None, None, None, None);
      }
      if !suppress && VersionMoved(cache, runtime) {
        var changed := true;
        if cache.values.Some? && cache.values.value.control == runtime.control {
          var equal := RawRegistersEqual(cache.values.value.raw, runtime.raw);
          changed := !equal;
        }
        if !changed && cache.registers.Some? {
          shownRegisters := cache.registers.value;
        } else {
          shownRegisters := BuildRegisters(runtime.raw, runtime.control);
          cache := cache.(values := Some(Registers(runtime.raw, runtime.control)), registers := Some(shownRegisters));
        }
        if !changed && cache.flags.Some? {
          shownFlags := cache.flags.value;
        } else {
          shownFlags := BuildFlags(runtime.control.ccr);
          cache := cache.(flags := Some(shownFlags));
        }
      }
      if runtime.version.Some? {
        cache := cache.(version := runtime.version);
      }
    }
  }
}
