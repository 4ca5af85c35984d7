/** The terminal surface: dirty rows on their way from a frame buffer to the screen. */
module TerminalSurface {
  import opened Outcomes
  import Ansi

  /** What a row shows, and everything else a snapshot reports (cursor, output, versions). */
  type Content = seq<Ansi.Glyph>
  type Meta = string

  datatype Shot = Shot(meta: Meta, dirtyRows: seq<nat>)

  datatype Surface = Surface(
    rows: seq<Content>,
    flags: seq<bool>,
    pending: Option<Shot>,
    snapshot: Shot,
    scheduled: bool,
    screen: seq<Content>,
    consumed: bool)
  {
    predicate Valid() {
      |flags| == |rows| == |screen|
    }
  }

  // --- Dirty rows -----------------------------------------------------------------------------

  function DirtyRows(flags: seq<bool>): seq<nat> {
    if flags == [] then []
    else DirtyRows(flags[..|flags| - 1]) + if flags[|flags| - 1] then [|flags| - 1] else []
  }

  lemma {:induction false} DirtyRowsAreFlagged(flags: seq<bool>)
    ensures forall r: nat :: r in DirtyRows(flags) <==> r < |flags| && flags[r]
  {
    if flags != [] {
      DirtyRowsAreFlagged(flags[..|flags| - 1]);
    }
  }

  predicate Increasing(rows: seq<nat>) {
    forall i, j :: 0 <= i < j < |rows| ==> rows[i] < rows[j]
  }

  function InsertRow(rows: seq<nat>, r: nat): seq<nat> {
    if rows == [] || r < rows[0] then [r] + rows
    else if r == rows[0] then rows
    else [rows[0]] + InsertRow(rows[1..], r)
  }

  /** Both lists' rows, in order and each once. */
  function Merged(a: seq<nat>, b: seq<nat>): seq<nat> {
    if b != [] then InsertRow(Merged(a, b[..|b| - 1]), b[|b| - 1])
    else if a != [] then InsertRow(Merged(a[..|a| - 1], []), a[|a| - 1])
    else []
  }

  lemma {:induction false} InsertRowInserts(rows: seq<nat>, r: nat)
    ensures forall x: nat :: x in InsertRow(rows, r) <==> x in rows || x == r
    ensures Increasing(rows) ==> Increasing(InsertRow(rows, r))
  {
    if rows != [] && r > rows[0] {
      InsertRowInserts(rows[1..], r);
      assert rows == [rows[0]] + rows[1..];
      if Increasing(rows) {
        var tail := InsertRow(rows[1..], r);
        forall j | 0 <= j < |tail|
          ensures rows[0] < tail[j]
        {
          assert tail[j] in rows[1..] || tail[j] == r;
        }
      }
    }
  }

  lemma {:induction false} MergedIsUnion(a: seq<nat>, b: seq<nat>)
    ensures forall x: nat :: x in Merged(a, b) <==> x in a || x in b
    ensures Increasing(Merged(a, b))
    decreases |b|, |a|
  {
    if b != [] {
      MergedIsUnion(a, b[..|b| - 1]);
      InsertRowInserts(Merged(a, b[..|b| - 1]), b[|b| - 1]);
      assert b == b[..|b| - 1] + [b[|b| - 1]];
    } else if a != [] {
      MergedIsUnion(a[..|a| - 1], []);
      InsertRowInserts(Merged(a[..|a| - 1], []), a[|a| - 1]);
      assert a == a[..|a| - 1] + [a[|a| - 1]];
    }
  }

  // --- Actions -----------------------------------------------------------------------------------

  datatype Action =
    | Write(row: nat, content: Content)
    | PublishFrame(meta: Meta)
    | PublishNow(meta: Meta)
    | AnimationFrame
    | Consume

  function Written(s: Surface, row: nat, content: Content): Surface
    requires s.Valid() && row < |s.rows|
  {
    if s.rows[row] == content then s else s.(rows := s.rows[row := content], flags := s.flags[row := true])
  }

  function Clean(n: nat): (flags: seq<bool>)
    ensures |flags| == n
  {
    seq(n, _ => false)
  }

  /** Nothing to publish: same report, and no dirty row. */
  predicate Unchanged(s: Surface, meta: Meta) {
    s.pending.GetOr(s.snapshot).meta == meta && DirtyRows(s.flags) == []
  }

  /** Deferred: merged into what is pending, for the next animation frame. */
  function Deferred(s: Surface, meta: Meta): Surface {
    if Unchanged(s, meta) then s
    else
      var dirty := DirtyRows(s.flags);
      s.(pending := Some(Shot(meta, if s.pending.Some? then Merged(s.pending.value.dirtyRows, dirty) else dirty)),
         flags := Clean(|s.flags|), scheduled := true)
  }

  /** At once: what is pending is given up. */
  function Immediate(s: Surface, meta: Meta): Surface {
    if Unchanged(s, meta) then s
    else
      s.(pending := None, scheduled := false, snapshot := Shot(meta, DirtyRows(s.flags)), flags := Clean(|s.flags|),
         consumed := false)
  }

  function Delivered(s: Surface): Surface {
    if s.pending.None? then s.(scheduled := false)
    else s.(scheduled := false, snapshot := s.pending.value, pending := None, consumed := false)
  }

  /** The screen repaints the snapshot's rows from the frame buffer as it is by then. */
  function Repainted(s: Surface): (screen: seq<Content>)
    requires s.Valid()
    ensures |screen| == |s.rows|
  {
    seq(|s.rows|, r requires 0 <= r < |s.rows| => if r in s.snapshot.dirtyRows then s.rows[r] else s.screen[r])
  }

  predicate Enabled(s: Surface, a: Action) {
    match a
    case Write(row, _) => row < |s.rows|
    case AnimationFrame => s.scheduled
    case _ => true
  }

  function Step(s: Surface, a: Action): (next: Surface)
    requires s.Valid() && Enabled(s, a)
    ensures next.Valid() && |next.rows| == |s.rows|
  {
    match a
    case Write(row, content) => Written(s, row, content)
    case PublishFrame(meta) => Deferred(s, meta)
    case PublishNow(meta) => Immediate(s, meta)
    case AnimationFrame => Delivered(s)
    case Consume => s.(screen := Repainted(s), consumed := true)
  }

  // --- No dirty row is lost --------------------------------------------------------------------------

  predicate Differs(s: Surface, r: nat)
    requires s.Valid() && r < |s.rows|
  {
    s.screen[r] != s.rows[r]
  }

  /** The row will still be painted: it is flagged, pending, or in a snapshot not yet consumed. */
  predicate OnItsWay(s: Surface, r: nat)
    requires s.Valid() && r < |s.rows|
  {
    || s.flags[r]
    || (s.pending.Some? && r in s.pending.value.dirtyRows)
    || (!s.consumed && r in s.snapshot.dirtyRows)
  }

  predicate NoRowLost(s: Surface)
    requires s.Valid()
  {
    forall r :: 0 <= r < |s.rows| && Differs(s, r) ==> OnItsWay(s, r)
  }

  /** Nothing is waiting that a new snapshot would replace. */
  predicate Settled(s: Surface) {
    s.pending.None? && s.consumed
  }

  lemma {:induction false} DeferringKeepsRows(s: Surface, meta: Meta)
    requires s.Valid() && NoRowLost(s)
    ensures NoRowLost(Deferred(s, meta))
  {
    var s' := Deferred(s, meta);
    DirtyRowsAreFlagged(s.flags);
    if s.pending.Some? {
      MergedIsUnion(s.pending.value.dirtyRows, DirtyRows(s.flags));
    }
    forall r | 0 <= r < |s'.rows| && Differs(s', r)
      ensures OnItsWay(s', r)
    {
      assert Differs(s, r);
    }
  }

  /** The row is pending, or in a snapshot not yet consumed. */
  predicate Waiting(s: Surface, r: nat) {
    (s.pending.Some? && r in s.pending.value.dirtyRows) || (!s.consumed && r in s.snapshot.dirtyRows)
  }

  /** Nothing to publish, or every waiting row is flagged again. */
  predicate SafeToPublish(s: Surface, meta: Meta)
    requires s.Valid()
  {
    Unchanged(s, meta) || forall r: nat :: r < |s.rows| && Waiting(s, r) ==> s.flags[r]
  }

  /** Every row of the snapshot that gets replaced is consumed, pending or flagged. */
  predicate SafeToDeliver(s: Surface)
    requires s.Valid()
  {
    s.pending.None? || s.consumed ||
    forall r: nat :: r < |s.rows| && r in s.snapshot.dirtyRows ==> s.flags[r] || r in s.pending.value.dirtyRows
  }

  /** The action loses no row, whatever the screen shows. */
  ghost predicate NeverLoses(s: Surface, a: Action)
    requires s.Valid() && Enabled(s, a)
  {
    forall screen: seq<Content> | |screen| == |s.rows| && NoRowLost(s.(screen := screen)) ::
      NoRowLost(Step(s.(screen := screen), a))
  }

  lemma {:induction false} DecideNeverLoses(s: Surface, a: Action, screen: seq<Content>)
    requires s.Valid() && Enabled(s, a) && |screen| == |s.rows| && NoRowLost(s.(screen := screen))
    ensures NeverLoses(s, a) ==> NoRowLost(Step(s.(screen := screen), a))
  {
  }

  lemma {:induction false} StepFlags(s: Surface, a: Action, r: nat)
    requires s.Valid() && Enabled(s, a) && r < |s.rows| && (a.PublishNow? || a.AnimationFrame?)
    ensures Step(s, a).rows == s.rows && Step(s, a).screen == s.screen
    ensures a.PublishNow? && !Unchanged(s, a.meta) ==> (OnItsWay(Step(s, a), r) <==> s.flags[r])
    ensures a.AnimationFrame? && s.pending.Some? ==>
              (OnItsWay(Step(s, a), r) <==> s.flags[r] || r in s.pending.value.dirtyRows)
  {
    DirtyRowsAreFlagged(s.flags);
  }

  function OtherContent(content: Content): (other: Content)
    ensures other != content
  {
    if content == [] then [Ansi.Glyph(' ', Ansi.PLAIN)] else []
  }

  /** A screen that differs in one row loses that row, if it is on its way before and not after. */
  lemma {:induction false} OneRowIsLost(s: Surface, a: Action, r: nat)
    requires s.Valid() && Enabled(s, a) && (a.PublishNow? || a.AnimationFrame?)
    requires r < |s.rows| && OnItsWay(s, r) && !OnItsWay(Step(s, a), r)
    ensures !NeverLoses(s, a)
  {
    hide Step, NeverLoses;
    var screen := s.rows[r := OtherContent(s.rows[r])];
    var s' := s.(screen := screen);
    forall k | 0 <= k < |s'.rows| && Differs(s', k)
      ensures OnItsWay(s', k)
    {
      assert k == r;
    }
    StepFlags(s', a, r);
    StepFlags(s, a, r);
    ScreenIsImmaterial(s, a, screen, r);
    DecideNeverLoses(s, a, screen);
    assert Differs(Step(s', a), r);
  }

  lemma {:induction false} ScreenIsImmaterial(s: Surface, a: Action, screen: seq<Content>, r: nat)
    requires s.Valid() && Enabled(s, a) && (a.PublishNow? || a.AnimationFrame?) && |screen| == |s.rows| && r < |s.rows|
    ensures Step(s, a).rows == s.rows
    ensures Step(s.(screen := screen), a).rows == s.rows
    ensures OnItsWay(Step(s.(screen := screen), a), r) <==> OnItsWay(Step(s, a), r)
  {
  }

  /** Publishing at once loses no row, whatever the screen shows, if and only
      if there is nothing to publish or every waiting row is flagged. */
  lemma {:induction false} ImmediateKeepsRowsExactly(s: Surface, meta: Meta)
    requires s.Valid()
    ensures NeverLoses(s, PublishNow(meta)) <==> SafeToPublish(s, meta)
  {
    hide Step, NeverLoses;
    if SafeToPublish(s, meta) {
      forall screen: seq<Content> | |screen| == |s.rows| && NoRowLost(s.(screen := screen))
        ensures NoRowLost(Step(s.(screen := screen), PublishNow(meta)))
      {
        SafePublishing(s.(screen := screen), meta);
      }
      NeverLosesIf(s, PublishNow(meta));
    } else {
      var r: nat :| r < |s.rows| && Waiting(s, r) && !s.flags[r];
      StepFlags(s, PublishNow(meta), r);
      OneRowIsLost(s, PublishNow(meta), r);
    }
  }

  lemma {:induction false} NeverLosesIf(s: Surface, a: Action)
    requires s.Valid() && Enabled(s, a)
    requires forall screen: seq<Content> | |screen| == |s.rows| && NoRowLost(s.(screen := screen)) ::
               NoRowLost(Step(s.(screen := screen), a))
    ensures NeverLoses(s, a)
  {
  }

  lemma {:induction false} SafePublishing(s: Surface, meta: Meta)
    requires s.Valid() && NoRowLost(s) && SafeToPublish(s, meta)
    ensures NoRowLost(Step(s, PublishNow(meta)))
  {
    hide Step;
    var s' := Step(s, PublishNow(meta));
    UnchangedPublishing(s, meta);
    if !Unchanged(s, meta) {
      StepKeepsScreen(s, PublishNow(meta));
      forall r | 0 <= r < |s'.rows| && Differs(s', r)
        ensures OnItsWay(s', r)
      {
        StepFlags(s, PublishNow(meta), r);
        assert Differs(s, r) && OnItsWay(s, r);
        assert Waiting(s, r) ==> s.flags[r];
      }
    }
  }

  lemma {:induction false} UnchangedPublishing(s: Surface, meta: Meta)
    requires s.Valid()
    ensures Unchanged(s, meta) ==> Step(s, PublishNow(meta)) == s
  {
  }

  lemma {:induction false} StepKeepsScreen(s: Surface, a: Action)
    requires s.Valid() && Enabled(s, a) && (a.PublishNow? || a.AnimationFrame?)
    ensures Step(s, a).rows == s.rows && Step(s, a).screen == s.screen
  {
  }

  /** An animation frame loses no row, whatever the screen shows, if and only
      if no row of the snapshot it replaces is neither consumed, pending nor flagged. */
  lemma {:induction false} DeliveryKeepsRowsExactly(s: Surface)
    requires s.Valid() && Enabled(s, AnimationFrame)
    ensures NeverLoses(s, AnimationFrame) <==> SafeToDeliver(s)
  {
    hide Step, NeverLoses;
    if SafeToDeliver(s) {
      forall screen: seq<Content> | |screen| == |s.rows| && NoRowLost(s.(screen := screen))
        ensures NoRowLost(Step(s.(screen := screen), AnimationFrame))
      {
        SafeDelivery(s.(screen := screen));
      }
      NeverLosesIf(s, AnimationFrame);
    } else {
      var r: nat :| r < |s.rows| && r in s.snapshot.dirtyRows && !s.flags[r] && r !in s.pending.value.dirtyRows;
      StepFlags(s, AnimationFrame, r);
      OneRowIsLost(s, AnimationFrame, r);
    }
  }

  lemma {:induction false} SafeDelivery(s: Surface)
    requires s.Valid() && Enabled(s, AnimationFrame) && NoRowLost(s) && SafeToDeliver(s)
    ensures NoRowLost(Step(s, AnimationFrame))
  {
    var s' := Step(s, AnimationFrame);
    forall r | 0 <= r < |s'.rows| && Differs(s', r)
      ensures OnItsWay(s', r)
    {
      StepFlags(s, AnimationFrame, r);
      assert Differs(s, r) && OnItsWay(s, r);
    }
  }

  /** Exactly the actions that lose no row, whatever the screen shows. */
  predicate Orderly(s: Surface, a: Action)
    requires s.Valid()
  {
    match a
    case PublishNow(meta) => SafeToPublish(s, meta)
    case AnimationFrame => SafeToDeliver(s)
    case _ => true
  }

  lemma {:induction false} OrderlyExactly(s: Surface, a: Action)
    requires s.Valid() && Enabled(s, a)
    ensures Orderly(s, a) <==> NeverLoses(s, a)
  {
    hide Step, NeverLoses, SafeToPublish, SafeToDeliver;
    match a {
      case PublishNow(meta) => ImmediateKeepsRowsExactly(s, meta);
      case AnimationFrame => DeliveryKeepsRowsExactly(s);
      case _ =>
        forall screen: seq<Content> | |screen| == |s.rows| && NoRowLost(s.(screen := screen))
          ensures NoRowLost(Step(s.(screen := screen), a))
        {
          OtherStepsKeepRows(s.(screen := screen), a);
        }
        NeverLosesIf(s, a);
    }
  }

  lemma {:induction false} OtherStepsKeepRows(s: Surface, a: Action)
    requires s.Valid() && NoRowLost(s) && Enabled(s, a) && !a.PublishNow? && !a.AnimationFrame?
    ensures NoRowLost(Step(s, a))
  {
    match a {
      case Write(row, content) =>
        var s' := Step(s, a);
        forall r | 0 <= r < |s'.rows| && Differs(s', r)
          ensures OnItsWay(s', r)
        {
          if r != row {
            assert Differs(s, r);
          }
        }
      case PublishFrame(meta) => DeferringKeepsRows(s, meta);
      case Consume =>
        var s' := Step(s, a);
        forall r | 0 <= r < |s'.rows| && Differs(s', r)
          ensures OnItsWay(s', r)
        {
          assert Differs(s, r) && r !in s.snapshot.dirtyRows;
        }
    }
  }

  lemma {:induction false} StepKeepsRows(s: Surface, a: Action)
    requires s.Valid() && NoRowLost(s) && Enabled(s, a) && Orderly(s, a)
    ensures NoRowLost(Step(s, a))
  {
    hide Step;
    match a {
      case PublishNow(meta) => SafePublishing(s, meta);
      case AnimationFrame => SafeDelivery(s);
      case _ => OtherStepsKeepRows(s, a);
    }
  }

  ghost predicate IsRun(run: seq<Surface>, actions: seq<Action>) {
    && |run| == |actions| + 1
    && forall k :: 0 <= k < |actions| ==>
         run[k].Valid() && Enabled(run[k], actions[k]) && run[k + 1] == Step(run[k], actions[k])
  }

  /** Over any orderly run from a state that has lost no row (a painted screen,
      say), no row is ever lost. */
  lemma {:induction false} RunLosesNoRow(run: seq<Surface>, actions: seq<Action>, k: nat)
    requires IsRun(run, actions) && k < |run|
    requires run[0].Valid() && NoRowLost(run[0])
    requires forall i :: 0 <= i < |actions| ==> Orderly(run[i], actions[i])
    ensures run[k].Valid() && NoRowLost(run[k])
    decreases k
  {
    hide NoRowLost, Step, Enabled, Orderly;
    if k > 0 {
      RunLosesNoRow(run, actions, k - 1);
      StepKeepsRows(run[k - 1], actions[k - 1]);
    }
  }

  /** When everything has been published, delivered and consumed, the screen is the frame buffer. */
  lemma {:induction false} QuietScreenIsCurrent(s: Surface)
    requires s.Valid() && NoRowLost(s) && Settled(s) && DirtyRows(s.flags) == []
    ensures s.screen == s.rows
  {
    DirtyRowsAreFlagged(s.flags);
    forall r | 0 <= r < |s.rows|
      ensures s.screen[r] == s.rows[r]
    {
      assert !OnItsWay(s, r) && !Differs(s, r);
    }
  }

  // --- What is published arrives -------------------------------------------------------------------------

  /** An animation frame has been requested for what is pending. */
  predicate IsRequested(s: Surface) {
    s.pending.Some? ==> Enabled(s, AnimationFrame)
  }

  lemma {:induction false} StepKeepsRequest(s: Surface, a: Action)
    requires s.Valid() && IsRequested(s) && Enabled(s, a)
    ensures IsRequested(Step(s, a))
  {
  }

  /** In every run, whatever is pending has its animation frame requested. */
  lemma {:induction false} RunKeepsRequest(run: seq<Surface>, actions: seq<Action>, k: nat)
    requires IsRun(run, actions) && k < |run| && run[0].Valid() && IsRequested(run[0])
    ensures IsRequested(run[k])
    decreases k
  {
    hide Step, IsRequested, Enabled;
    if k > 0 {
      RunKeepsRequest(run, actions, k - 1);
      StepKeepsRequest(run[k - 1], actions[k - 1]);
    }
  }

  /** Writing puts the content into its row, and flags the row exactly if that
      changes it; nothing else is touched. */
  lemma {:induction false} WritingMarks(s: Surface, row: nat, content: Content)
    requires s.Valid() && row < |s.rows|
    ensures var t := Step(s, Write(row, content));
      && t.rows == s.rows[row := content] && t == s.(rows := t.rows, flags := t.flags)
      && (forall r :: 0 <= r < |s.rows| ==> (t.flags[r] <==> s.flags[r] || (r == row && s.rows[row] != content)))
  {
  }

  /** After publishing, deferred or at once, the latest report is the one published, and no row is flagged. */
  lemma {:induction false} PublishingReports(s: Surface, meta: Meta)
    requires s.Valid()
    ensures var deferred := Step(s, PublishFrame(meta));
      && deferred.pending.GetOr(deferred.snapshot).meta == meta && DirtyRows(deferred.flags) == []
      && deferred.rows == s.rows && deferred.screen == s.screen
    ensures var now := Step(s, PublishNow(meta));
      && now.pending.GetOr(now.snapshot).meta == meta && DirtyRows(now.flags) == []
      && now.rows == s.rows && now.screen == s.screen
  {
    DirtyRowsAreFlagged(s.flags);
    DirtyRowsAreFlagged(Clean(|s.flags|));
    NoneOfNone(Clean(|s.flags|));
  }

  lemma {:induction false} NoneOfNone(flags: seq<bool>)
    requires forall k :: 0 <= k < |flags| ==> !flags[k]
    ensures DirtyRows(flags) == []
  {
    if flags != [] {
      NoneOfNone(flags[..|flags| - 1]);
    }
  }

  /** A snapshot is published as it is: what is pending becomes the current
      snapshot, and nothing stays pending. */
  lemma {:induction false} DeliveringShows(s: Surface)
    requires s.Valid() && Enabled(s, AnimationFrame)
    ensures var t := Step(s, AnimationFrame);
      && t.pending.None? && t.snapshot == s.pending.GetOr(s.snapshot) && !t.scheduled
      && t.rows == s.rows && t.flags == s.flags && t.screen == s.screen && (s.pending.Some? ==> !t.consumed)
  {
  }

  /** What to do until nothing waits: consume, publish, deliver if a frame has been requested, and consume. */
  function Draining(s: Surface, meta: Meta): seq<Action>
    requires s.Valid()
  {
    if Step(Step(s, Consume), PublishFrame(meta)).scheduled then [Consume, PublishFrame(meta), AnimationFrame, Consume]
    else [Consume, PublishFrame(meta), Consume]
  }

  /** The state after some actions, if they are enabled in turn. */
  function After(s: Surface, actions: seq<Action>): (t: Option<Surface>)
    requires s.Valid()
    ensures t.Some? ==> t.value.Valid()
    decreases |actions|
  {
    if actions == [] then Some(s)
    else if Enabled(s, actions[0]) then After(Step(s, actions[0]), actions[1..])
    else None
  }

  lemma {:induction false} AfterThree(s: Surface, a: Action, b: Action, c: Action)
    requires s.Valid() && Enabled(s, a) && Enabled(Step(s, a), b) && Enabled(Step(Step(s, a), b), c)
    ensures After(s, [a, b, c]) == Some(Step(Step(Step(s, a), b), c))
  {
    hide Step, Enabled;
    var t := Step(s, a);
    var u := Step(t, b);
    var v := Step(u, c);
    assert [a, b, c][1..] == [b, c] && [b, c][1..] == [c] && [c][1..] == [];
    assert After(v, []) == Some(v);
    assert After(u, [c]) == Some(v);
    assert After(t, [b, c]) == Some(v);
  }

  lemma {:induction false} AfterFour(s: Surface, a: Action, b: Action, c: Action, d: Action)
    requires s.Valid() && Enabled(s, a) && Enabled(Step(s, a), b) && Enabled(Step(Step(s, a), b), c)
    requires Enabled(Step(Step(Step(s, a), b), c), d)
    ensures After(s, [a, b, c, d]) == Some(Step(Step(Step(Step(s, a), b), c), d))
  {
    hide Step, Enabled;
    assert [a, b, c, d][1..] == [b, c, d];
    AfterThree(Step(s, a), b, c, d);
  }

  /** From every state that has lost no row and whose pending snapshot has its
      frame requested, publishing, delivering and consuming what waits can
      always be carried out, and ends with the screen equal to the frame
      buffer and the report delivered. */
  lemma {:induction false} DrainingShowsFrame(s: Surface, meta: Meta)
    requires s.Valid() && NoRowLost(s) && IsRequested(s)
    ensures After(s, Draining(s, meta)).Some?
    ensures var t := After(s, Draining(s, meta)).value;
      t.screen == t.rows == s.rows && t.snapshot.meta == meta && t.pending.None?
  {
    hide NoRowLost, DirtyRows, Step;
    ConsumingIsSafe(s);
    var s1 := Step(s, Consume);
    StepKeepsRows(s, Consume);
    StepKeepsRequest(s, Consume);
    var s2 := Step(s1, PublishFrame(meta));
    StepKeepsRows(s1, PublishFrame(meta));
    StepKeepsRequest(s1, PublishFrame(meta));
    PublishingReports(s1, meta);
    PublishingKeepsConsumed(s1, meta);
    if s2.scheduled {
      var s3 := Step(s2, AnimationFrame);
      DeliveringShows(s2);
      StepKeepsRows(s2, AnimationFrame);
      ConsumingShows(s3);
      AfterFour(s, Consume, PublishFrame(meta), AnimationFrame, Consume);
    } else {
      ConsumingShows(s2);
      AfterThree(s, Consume, PublishFrame(meta), Consume);
    }
  }

  lemma {:induction false} ConsumingIsSafe(s: Surface)
    requires s.Valid()
    ensures Enabled(s, Consume) && Orderly(s, Consume)
    ensures Step(s, Consume).rows == s.rows && Step(s, Consume).consumed
  {
  }

  lemma {:induction false} PublishingKeepsConsumed(s: Surface, meta: Meta)
    requires s.Valid()
    ensures Step(s, PublishFrame(meta)).consumed == s.consumed && Step(s, PublishFrame(meta)).rows == s.rows
  {
    hide DirtyRows, Merged;
  }

  /** With nothing pending and nothing flagged, consuming completes the screen. */
  lemma {:induction false} ConsumingShows(s: Surface)
    requires s.Valid() && NoRowLost(s) && s.pending.None? && DirtyRows(s.flags) == []
    ensures var t := Step(s, Consume);
      t.screen == t.rows == s.rows && t.snapshot == s.snapshot && t.pending.None?
  {
    hide NoRowLost, DirtyRows;
    ConsumingIsSafe(s);
    StepKeepsRows(s, Consume);
    QuietScreenIsCurrent(Step(s, Consume));
  }

  /** So from every state of an orderly run the frame reaches the screen. */
  lemma {:induction false} RunReachesScreen(run: seq<Surface>, actions: seq<Action>, k: nat, meta: Meta)
    requires IsRun(run, actions) && k < |run|
    requires run[0].Valid() && NoRowLost(run[0]) && IsRequested(run[0])
    requires forall i :: 0 <= i < |actions| ==> Orderly(run[i], actions[i])
    ensures run[k].Valid() && After(run[k], Draining(run[k], meta)).Some?
    ensures var t := After(run[k], Draining(run[k], meta)).value;
      t.screen == t.rows == run[k].rows && t.snapshot.meta == meta && t.pending.None?
  {
    hide NoRowLost, IsRequested, Orderly, Enabled, Step, Draining, After;
    RunLosesNoRow(run, actions, k);
    RunKeepsRequest(run, actions, k);
    DrainingShowsFrame(run[k], meta);
  }

  /** Publishing at once over a pending frame can lose a row for good. */
  lemma {:induction false} ImmediateCanLoseARow(before: Content, after: Content, meta: Meta, later: Meta)
    requires before != after && meta != later
    ensures var s0 := Surface([before], [false], None, Shot(meta, []), false, [before], true);
      var s3 := Step(Step(Step(s0, Write(0, after)), PublishFrame(meta)), PublishNow(later));
      NoRowLost(s0) && !NoRowLost(s3) && Step(s3, Consume).screen == [before]
  {
    var s0 := Surface([before], [false], None, Shot(meta, []), false, [before], true);
    var s1 := Step(s0, Write(0, after));
    DirtyRowsAreFlagged(s1.flags);
    assert 0 in DirtyRows(s1.flags);
    var s2 := Step(s1, PublishFrame(meta));
    DirtyRowsAreFlagged(s2.flags);
    assert DirtyRows(s2.flags) == [];
    var s3 := Step(s2, PublishNow(later));
    assert Differs(s3, 0) && !OnItsWay(s3, 0);
    assert Step(s3, Consume).screen[0] == before;
  }

  // --- The store -----------------------------------------------------------------------------------------

  class FrameBuffer {
    var rows: seq<Content>
    const dirtyRowFlags: array<bool>

    ghost predicate Valid()
      reads this
    {
      dirtyRowFlags.Length == |rows|
    }

    constructor (rows: seq<Content>)
      ensures Valid() && this.rows == rows && fresh(dirtyRowFlags)
      ensures forall r :: 0 <= r < |rows| ==> dirtyRowFlags[r]
    {
      this.rows := rows;
      dirtyRowFlags := new bool[|rows|](_ => true);
    }

    method WriteRow(row: nat, content: Content)
      requires Valid() && row < |rows|
      modifies this`rows, dirtyRowFlags
      ensures Valid()
      ensures rows == old(rows)[row := content]
      ensures dirtyRowFlags[..] == if old(rows)[row] == content then old(dirtyRowFlags[..])
                                   else old(dirtyRowFlags[..])[row := true]
    {
      if rows[row] == content {
        return;
      }
      rows := rows[row := content];
      dirtyRowFlags[row] := true;
    }

    method CollectDirtyRows() returns (dirty: seq<nat>)
      requires Valid()
      ensures dirty == DirtyRows(dirtyRowFlags[..])
    {
      dirty := [];
      for r := 0 to dirtyRowFlags.Length
        invariant dirty == DirtyRows(dirtyRowFlags[..r])
      {
        assert dirtyRowFlags[..r + 1][..r] == dirtyRowFlags[..r];
        if dirtyRowFlags[r] {
          dirty := dirty + [r];
        }
      }
      assert dirtyRowFlags[..dirtyRowFlags.Length] == dirtyRowFlags[..];
    }

    method ClearDirtyRows()
      modifies dirtyRowFlags
      ensures dirtyRowFlags[..] == Clean(dirtyRowFlags.Length)
    {
      for r := 0 to dirtyRowFlags.Length
        invariant forall k :: 0 <= k < r ==> !dirtyRowFlags[k]
      {
        dirtyRowFlags[r] := false;
      }
    }
  }

  /** The store for one frame buffer; `screen` and `consumed` are the reader's. */
  class TerminalSurfaceStore {
    const buffer: FrameBuffer
    var pendingSnapshot: Option<Shot>
    var snapshot: Shot
    var notificationFrame: bool
    var screen: seq<Content>
    var consumed: bool

    function Contents(): Surface
      reads this, buffer, buffer.dirtyRowFlags
    {
      Surface(buffer.rows, buffer.dirtyRowFlags[..], pendingSnapshot, snapshot, notificationFrame, screen, consumed)
    }

    constructor (buffer: FrameBuffer, meta: Meta, screen: seq<Content>)
      requires buffer.Valid()
      ensures this.buffer == buffer
      ensures Contents() == Surface(buffer.rows, buffer.dirtyRowFlags[..], None, Shot(meta, DirtyRows(buffer.dirtyRowFlags[..])),
                                    false, screen, false)
    {
      this.buffer := buffer;
      pendingSnapshot, notificationFrame := None, false;
      this.screen, consumed := screen, false;
      var dirty := buffer.CollectDirtyRows();
      snapshot := Shot(meta, dirty);
    }

    method Publish(meta: Meta, defer: bool)
      requires buffer.Valid()
      modifies this, buffer.dirtyRowFlags
      ensures Contents() == if defer then Deferred(old(Contents()), meta) else Immediate(old(Contents()), meta)
      ensures buffer.Valid()
    {
      hide DirtyRows, Merged;
      var dirty := buffer.CollectDirtyRows();
      var comparison := pendingSnapshot.GetOr(snapshot);
      if comparison.meta == meta && dirty == [] {
        return;
      }
      if defer {
        var merged := dirty;
        if pendingSnapshot.Some? {
          merged := Merged(pendingSnapshot.value.dirtyRows, dirty);
        }
        pendingSnapshot := Some(Shot(meta, merged));
        buffer.ClearDirtyRows();
        notificationFrame := true;
        return;
      }
      notificationFrame := false;
      pendingSnapshot := None;
      snapshot := Shot(meta, dirty);
      consumed := false;
      buffer.ClearDirtyRows();
    }

    method DeliverFrame()
      requires notificationFrame
      modifies this
      ensures Contents() == Delivered(old(Contents()))
    {
      notificationFrame := false;
      if pendingSnapshot.None? {
        return;
      }
      snapshot := pendingSnapshot.value;
      pendingSnapshot := None;
      consumed := false;
    }
  }
}
