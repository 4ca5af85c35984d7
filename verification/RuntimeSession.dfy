/** The runtime session store: the current session under a growing epoch. */
module RuntimeSession {
  import opened Outcomes

  datatype Transport = InProcess | Worker

  /** A session, by identity; `transport` is what it reports, if it does, and
      `controlled` whether it has a controller. */
  datatype Session = Session(id: nat, transport: Option<Transport>, controlled: bool)

  datatype Snapshot = Snapshot(session: Option<Session>, transport: Option<Transport>, ready: bool, epoch: nat)

  const INITIAL := Snapshot(None, None, false, 0)

  datatype StoreAction =
    | Replace(session: Session)
    | Clear(expected: Option<Option<Session>>)
    | Dispose(target: Option<Session>)

  function Published(s: Snapshot, session: Option<Session>): Snapshot {
    Snapshot(session, match session case Some(x) => Some(x.transport.GetOr(InProcess)) case None => None,
             session.Some?, s.epoch + 1)
  }

  function StoreStep(s: Snapshot, a: StoreAction): Snapshot {
    match a
    case Replace(session) => if s.session != Some(session) then Published(s, Some(session)) else s
    case Clear(expected) =>
      if (expected.Some? && s.session != expected.value) || s.session.None? then s else Published(s, None)
    case Dispose(target) =>
      if target.Some? && s.session == target then Published(s, None) else s
  }

  class RuntimeSessionStore {
    var snapshot: Snapshot

    constructor ()
      ensures snapshot == INITIAL
    {
      snapshot := INITIAL;
    }

    method Publish(session: Option<Session>)
      modifies this
      ensures snapshot == Published(old(snapshot), session)
    {
      snapshot := Snapshot(session, if session.Some? then Some(session.value.transport.GetOr(InProcess)) else None,
                           session.Some?, snapshot.epoch + 1);
    }

    method Replace(session: Session) returns (previous: Option<Session>)
      modifies this
      ensures snapshot == StoreStep(old(snapshot), StoreAction.Replace(session)) && previous == old(snapshot).session
    {
      previous := snapshot.session;
      if previous != Some(session) {
        Publish(Some(session));
      }
    }

    /** With an expected session, clears only that one. */
    method Clear(expected: Option<Option<Session>>) returns (previous: Option<Session>)
      modifies this
      ensures snapshot == StoreStep(old(snapshot), StoreAction.Clear(expected))
      ensures previous == if expected.Some? && old(snapshot).session != expected.value then None else old(snapshot).session
    {
      previous := snapshot.session;
      if expected.Some? && previous != expected.value {
        return None;
      }
      if previous.Some? {
        Publish(None);
      }
    }

    method Dispose(target: Option<Session>)
      modifies this
      ensures snapshot == StoreStep(old(snapshot), StoreAction.Dispose(target))
    {
      if target.None? {
        return;
      }
      if snapshot.session == target {
        Publish(None);
      }
    }
  }

  /** A snapshot is ready, with a transport, exactly when it has a session. */
  predicate Consistent(s: Snapshot) {
    && (s.ready <==> s.session.Some?)
    && (s.transport.Some? <==> s.session.Some?)
    && (s.session.Some? ==> s.transport.value == s.session.value.transport.GetOr(InProcess))
  }

  predicate IsStoreRun(run: seq<Snapshot>, actions: seq<StoreAction>) {
    && |run| == |actions| + 1
    && forall k :: 0 <= k < |actions| ==> run[k + 1] == StoreStep(run[k], actions[k])
  }

  lemma {:induction false} StoreRunIsConsistent(run: seq<Snapshot>, actions: seq<StoreAction>, k: nat)
    requires IsStoreRun(run, actions) && run[0] == INITIAL && k < |run|
    ensures Consistent(run[k])
    decreases k
  {
    if k > 0 {
      StoreRunIsConsistent(run, actions, k - 1);
    }
  }

  /** Epochs never shrink, and a snapshot with the same epoch is the same snapshot. */
  lemma {:induction false} EpochsIdentifySnapshots(run: seq<Snapshot>, actions: seq<StoreAction>, i: nat, j: nat)
    requires IsStoreRun(run, actions) && i <= j < |run|
    ensures run[i].epoch <= run[j].epoch
    ensures run[i].epoch == run[j].epoch <==> run[i] == run[j]
    decreases j
  {
    if i < j {
      EpochsIdentifySnapshots(run, actions, i, j - 1);
    }
  }
}
