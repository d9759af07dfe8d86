/**
 * The stroke recorder: the drawing history together with the canvas's
 * `isDrawing` flag, and the operations that pointer input and the Clear
 * button apply to them.
 */
module Recorder {
  import opened Results
  import opened Canvas

  /** What goes wrong when a point is pushed onto a stroke that does not exist. */
  datatype Fault = NoStrokeToExtend

  /** The recorder state: the stroke history and whether a stroke is being recorded. */
  datatype State = State(history: History, isDrawing: bool)

  /** Empty history; the flag starts out unset. */
  const Initial: State := State([], false)

  /**
   * The invariant the recorder relies on: every stroke has a first point,
   * and while the flag is up there is a last stroke to extend.
   */
  predicate Valid(s: State) {
    WellFormed(s.history) && (s.isDrawing ==> s.history != [])
  }

  /** Pointer-down: open a new one-point stroke after all existing ones and raise the flag. */
  function StartDrawing(s: State, p: Point): (r: State)
    ensures r.isDrawing
    ensures |r.history| == |s.history| + 1
    ensures r.history[..|s.history|] == s.history
    ensures r.history[|s.history|] == [p]
  {
    State(s.history + [[p]], true)
  }

  /**
   * Pointer-move: while the flag is up, push the point onto the last stroke.
   * With the flag up and no stroke at all, the push has nothing to act on.
   */
  function Draw(s: State, p: Point): (r: Result<State, Fault>)
    ensures !s.isDrawing ==> r == Ok(s)
    ensures r.Err? <==> s.isDrawing && s.history == []
    ensures r.Ok? && s.isDrawing ==>
      var n := |s.history|;
      && r.value.isDrawing
      && |r.value.history| == n
      && r.value.history[n - 1] == s.history[n - 1] + [p]
      && forall i :: 0 <= i < n - 1 ==> r.value.history[i] == s.history[i]
  {
    if !s.isDrawing then Ok(s)
    else if s.history == [] then Err(NoStrokeToExtend)
    else
      var last := |s.history| - 1;
      Ok(State(s.history[last := s.history[last] + [p]], true))
  }

  /** Pointer-up: lower the flag. */
  function StopDrawing(s: State): (r: State)
    ensures !r.isDrawing
    ensures r.history == s.history
  {
    State(s.history, false)
  }

  /** The Clear button: the history becomes empty and the flag keeps its value. */
  function Clear(s: State): (r: State)
    ensures r.history == []
    ensures r.isDrawing == s.isDrawing
  {
    State([], s.isDrawing)
  }

  /** Clear as evidently intended: it also ends any stroke in progress. */
  function ClearResettingPen(s: State): (r: State)
    ensures r.history == []
    ensures !r.isDrawing
    ensures Valid(r)
  {
    State([], false)
  }

  // ---------------------------------------------------------------------------
  // The invariant under each operation
  // ---------------------------------------------------------------------------

  lemma StartDrawingKeepsValid(s: State, p: Point)
    requires WellFormed(s.history)
    ensures Valid(StartDrawing(s, p))
  {
    var r := StartDrawing(s, p);
    forall i | 0 <= i < |r.history|
      ensures |r.history[i]| > 0
    {
      if i < |s.history| {
        assert r.history[i] == r.history[..|s.history|][i];
      }
    }
  }

  /** From a valid state, `Draw` never fails and keeps the state valid. */
  lemma DrawKeepsValid(s: State, p: Point)
    requires Valid(s)
    ensures Draw(s, p).Ok?
    ensures Valid(Draw(s, p).value)
  {
  }

  lemma StopDrawingKeepsValid(s: State)
    requires Valid(s)
    ensures Valid(StopDrawing(s))
  {
  }

  /** Stopping twice is the same as stopping once. */
  lemma StopDrawingIdempotent(s: State)
    ensures StopDrawing(StopDrawing(s)) == StopDrawing(s)
  {
  }

  /** Clear keeps every stroke well formed, but with the flag up it breaks the invariant. */
  lemma ClearBreaksValid(s: State)
    requires s.isDrawing
    ensures WellFormed(Clear(s).history)
    ensures !Valid(Clear(s))
  {
  }

  /** Clearing in the middle of a stroke and then moving makes the next push fail. */
  lemma DrawAfterClearFails(s: State, p: Point)
    requires s.isDrawing
    ensures Draw(Clear(s), p) == Err(NoStrokeToExtend)
  {
  }

  /** With the corrected Clear, the next move is always accepted. */
  lemma DrawAfterClearResettingPenSucceeds(s: State, p: Point)
    ensures Draw(ClearResettingPen(s), p) == Ok(ClearResettingPen(s))
  {
  }

  // ---------------------------------------------------------------------------
  // Input sequences and gestures
  // ---------------------------------------------------------------------------

  /** Pointer input after translation to canvas coordinates (mouse and touch alike). */
  datatype Input = Down(at: Point) | Move(at: Point) | Up

  /** Applies one pointer input. */
  function Apply(s: State, i: Input): Result<State, Fault> {
    match i
    case Down(p) => Ok(StartDrawing(s, p))
    case Move(p) => Draw(s, p)
    case Up => Ok(StopDrawing(s))
  }

  lemma ApplyKeepsValid(s: State, i: Input)
    ensures Valid(s) ==> Apply(s, i).Ok? && Valid(Apply(s, i).value)
  {
    if Valid(s) {
      match i
      case Down(p) => StartDrawingKeepsValid(s, p);
      case Move(p) => DrawKeepsValid(s, p);
      case Up => StopDrawingKeepsValid(s);
    }
  }

  /** Applies pointer inputs in delivery order, stopping at the first failure. */
  function Feed(s: State, ins: seq<Input>): (r: Result<State, Fault>)
    ensures Valid(s) ==> r.Ok? && Valid(r.value)
    decreases |ins|
  {
    if ins == [] then Ok(s)
    else
      ApplyKeepsValid(s, ins[0]);
      match Apply(s, ins[0])
      case Err(f) => Err(f)
      case Ok(s') => Feed(s', ins[1..])
  }

  lemma {:induction false} FeedAppend(s: State, a: seq<Input>, b: seq<Input>)
    ensures Feed(s, a + b) == match Feed(s, a) case Err(f) => Err(f) case Ok(s') => Feed(s', b)
    decreases |a|
  {
    if a == [] {
      assert a + b == b;
    } else {
      assert (a + b)[0] == a[0];
      assert (a + b)[1..] == a[1..] + b;
      match Apply(s, a[0])
      case Err(f) =>
      case Ok(s') => FeedAppend(s', a[1..], b);
    }
  }

  /** One move per point. */
  function Moves(qs: seq<Point>): seq<Input> {
    seq(|qs|, i requires 0 <= i < |qs| => Move(qs[i]))
  }

  /** Moves while a stroke is open extend that stroke, point by point, and touch nothing else. */
  lemma {:induction false} MovesExtendLastStroke(s: State, qs: seq<Point>)
    requires s.isDrawing && s.history != []
    ensures var n := |s.history|;
      Feed(s, Moves(qs)) == Ok(State(s.history[..n - 1] + [s.history[n - 1] + qs], true))
    decreases |qs|
  {
    var n := |s.history|;
    if qs == [] {
      assert s.history[n - 1] + qs == s.history[n - 1];
      assert s.history[..n - 1] + [s.history[n - 1]] == s.history;
    } else {
      var s' := Draw(s, qs[0]).value;
      assert Moves(qs)[0] == Move(qs[0]);
      assert Moves(qs)[1..] == Moves(qs[1..]);
      MovesExtendLastStroke(s', qs[1..]);
      assert s'.history[..n - 1] == s.history[..n - 1];
      assert s'.history[n - 1] + qs[1..] == s.history[n - 1] + qs;
    }
  }

  /** Pointer input that reaches the canvas between gestures: a hover move or a stray release. */
  datatype Idle = Hover(at: Point) | Release

  function IdleInput(i: Idle): Input {
    match i
    case Hover(p) => Move(p)
    case Release => Up
  }

  function IdleInputs(idle: seq<Idle>): seq<Input> {
    seq(|idle|, k requires 0 <= k < |idle| => IdleInput(idle[k]))
  }

  /** With the flag down, hovering and releasing change nothing. */
  lemma {:induction false} IdleIsNoOp(s: State, idle: seq<Idle>)
    requires !s.isDrawing
    ensures Feed(s, IdleInputs(idle)) == Ok(s)
    decreases |idle|
  {
    if idle != [] {
      assert IdleInputs(idle)[0] == IdleInput(idle[0]);
      assert IdleInputs(idle)[1..] == IdleInputs(idle[1..]);
      IdleIsNoOp(s, idle[1..]);
    }
  }

  /**
   * A gesture: whatever idle input comes first, then one pointer-down,
   * a run of moves and a pointer-up.
   */
  datatype Gesture = Gesture(lead: seq<Idle>, down: Point, moves: seq<Point>)

  /** The pressed part of a gesture: down, moves, up. */
  function Pressed(g: Gesture): seq<Input> {
    [Down(g.down)] + Moves(g.moves) + [Up]
  }

  function Inputs(g: Gesture): seq<Input> {
    IdleInputs(g.lead) + Pressed(g)
  }

  /** The stroke a gesture should leave behind: its points in delivery order. */
  function Trace(g: Gesture): Path {
    [g.down] + g.moves
  }

  /** Down, moves and up append exactly the gesture's points, as one stroke, from any state. */
  lemma PressRecordsOneStroke(s: State, g: Gesture)
    ensures Feed(s, Pressed(g)) == Ok(State(s.history + [Trace(g)], false))
  {
    var started := StartDrawing(s, g.down);
    var n := |started.history|;
    FeedAppend(s, [Down(g.down)], Moves(g.moves) + [Up]);
    assert [Down(g.down)] + (Moves(g.moves) + [Up]) == Pressed(g);
    assert Feed(s, [Down(g.down)]) == Ok(started);
    FeedAppend(started, Moves(g.moves), [Up]);
    MovesExtendLastStroke(started, g.moves);
    assert started.history[..n - 1] == s.history;
  }

  /**
   * A gesture appends exactly its own points, as one stroke, and leaves the
   * flag down. Idle input before it is harmless unless a stroke is still
   * open, in which case hover moves would extend that stroke.
   */
  lemma GestureRecordsOneStroke(s: State, g: Gesture)
    requires s.isDrawing ==> g.lead == []
    ensures Feed(s, Inputs(g)) == Ok(State(s.history + [Trace(g)], false))
  {
    FeedAppend(s, IdleInputs(g.lead), Pressed(g));
    if g.lead == [] {
      assert IdleInputs(g.lead) == [];
    } else {
      IdleIsNoOp(s, g.lead);
    }
    PressRecordsOneStroke(s, g);
  }

  function AllInputs(gs: seq<Gesture>): seq<Input> {
    if gs == [] then [] else Inputs(gs[0]) + AllInputs(gs[1..])
  }

  /**
   * Any sequence of gestures appends one stroke per gesture, in order, and
   * nothing else; the flag ends down unless there was no gesture at all.
   * Every gesture after the first starts with the flag down, so only the
   * first one must start at once when a stroke is still open.
   */
  lemma {:induction false} GesturesRecordStrokes(s: State, gs: seq<Gesture>)
    requires s.isDrawing && gs != [] ==> gs[0].lead == []
    ensures Feed(s, AllInputs(gs))
         == Ok(State(s.history + seq(|gs|, i requires 0 <= i < |gs| => Trace(gs[i])),
                     s.isDrawing && gs == []))
    decreases |gs|
  {
    var traces := seq(|gs|, i requires 0 <= i < |gs| => Trace(gs[i]));
    if gs == [] {
      assert s.history + traces == s.history;
    } else {
      FeedAppend(s, Inputs(gs[0]), AllInputs(gs[1..]));
      GestureRecordsOneStroke(s, gs[0]);
      var s' := State(s.history + [Trace(gs[0])], false);
      GesturesRecordStrokes(s', gs[1..]);
      var later := seq(|gs[1..]|, i requires 0 <= i < |gs[1..]| => Trace(gs[1..][i]));
      assert traces == [Trace(gs[0])] + later;
      assert s.history + traces == s.history + [Trace(gs[0])] + later;
    }
  }
}
