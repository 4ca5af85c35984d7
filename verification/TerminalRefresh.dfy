/** The whole refresh path: dirty rows through the surface store, compiled to
    control sequences, onto a terminal. */
module TerminalRefresh {
  import A = Ansi
  import opened AnsiMeaning
  import opened TerminalSurface

  /** The surface's rows are the frame buffer's, and its screen is the terminal's. */
  ghost predicate Represents(s: Surface, fb: A.FrameBuffer, decode: A.Charset, terminal: A.Screen) {
    && s.Valid() && fb.Valid() && |s.rows| == fb.rows
    && A.Fits(terminal, fb.rows, fb.columns)
    && (forall r :: 0 <= r < fb.rows ==> s.rows[r] == FrameRow(fb, decode, r))
    && s.screen == terminal.cells
  }

  function Numbers(rows: seq<nat>): (numbers: seq<int>)
    ensures |numbers| == |rows| && forall k :: 0 <= k < |rows| ==> numbers[k] == rows[k]
  {
    seq(|rows|, k requires 0 <= k < |rows| => rows[k])
  }

  /** Writing the compiled patch of a snapshot to the terminal is what the
      surface means by consuming it. */
  lemma {:induction false} PatchConsumes(s: Surface, fb: A.FrameBuffer, decode: A.Charset, terminal: A.Screen)
    requires Represents(s, fb, decode, terminal) && Printable(fb, decode)
    ensures Represents(Step(s, Consume), fb, decode,
                       A.Interpret(terminal, A.Patch(fb, decode, Numbers(s.snapshot.dirtyRows))))
  {
    hide A.Interpret, A.Patch, FrameRow, Printable;
    var numbers := Numbers(s.snapshot.dirtyRows);
    var after := A.Interpret(terminal, A.Patch(fb, decode, numbers));
    PatchShowsDirtyRows(terminal, fb, decode, numbers);
    forall r | 0 <= r < fb.rows
      ensures Repainted(s)[r] == after.cells[r]
    {
      SameMembers(s.snapshot.dirtyRows, r);
    }
    assert Repainted(s) == after.cells;
  }

  lemma {:induction false} SameMembers(rows: seq<nat>, r: nat)
    ensures r in Numbers(rows) <==> r in rows
  {
    if r in rows {
      var k :| 0 <= k < |rows| && rows[k] == r;
      assert Numbers(rows)[k] == r;
    }
  }

  /** End to end: once nothing is dirty, pending or waiting to be consumed, and
      no row was lost on the way, the terminal shows the frame buffer cell by cell. */
  lemma {:induction false} QuietTerminalShowsFrame(s: Surface, fb: A.FrameBuffer, decode: A.Charset, terminal: A.Screen)
    requires Represents(s, fb, decode, terminal)
    requires NoRowLost(s) && Settled(s) && DirtyRows(s.flags) == []
    ensures forall r :: 0 <= r < fb.rows ==> terminal.cells[r] == FrameRow(fb, decode, r)
  {
    hide FrameRow, NoRowLost, DirtyRows, Settled;
    QuietScreenIsCurrent(s);
  }

  /** Consuming the last snapshot of an orderly run leaves the terminal with
      the frame buffer's cells, although only the dirty rows were sent. */
  lemma {:induction false} LastPatchCompletesTheScreen(run: seq<Surface>, actions: seq<Action>, k: nat,
                                                       fb: A.FrameBuffer, decode: A.Charset, terminal: A.Screen)
    requires IsRun(run, actions) && k < |run| && run[0].Valid() && NoRowLost(run[0])
    requires forall i :: 0 <= i < |actions| ==> Orderly(run[i], actions[i])
    requires Represents(run[k], fb, decode, terminal) && Printable(fb, decode)
    requires run[k].pending.None? && DirtyRows(run[k].flags) == []
    ensures var after := A.Interpret(terminal, A.Patch(fb, decode, Numbers(run[k].snapshot.dirtyRows)));
      A.Fits(after, fb.rows, fb.columns) && forall r :: 0 <= r < fb.rows ==> after.cells[r] == FrameRow(fb, decode, r)
  {
    hide A.Interpret, A.Patch, FrameRow, Printable, NoRowLost, DirtyRows, Orderly, A.Fits;
    var s := run[k];
    var after := A.Interpret(terminal, A.Patch(fb, decode, Numbers(s.snapshot.dirtyRows)));
    RunLosesNoRow(run, actions, k);
    StepKeepsRows(s, Consume) by { ConsumingIsOrderly(s); }
    PatchConsumes(s, fb, decode, terminal);
    QuietTerminalShowsFrame(Step(s, Consume), fb, decode, after);
  }

  lemma {:induction false} ConsumingIsOrderly(s: Surface)
    requires s.Valid()
    ensures Enabled(s, Consume) && Orderly(s, Consume)
  {
  }
}
