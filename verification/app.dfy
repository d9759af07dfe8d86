/**
 * The drawing component as a whole: the recorder, the three render
 * parameters, and what the canvas last showed. Each event runs its handler
 * and then, if one of the redraw effect's dependencies changed, the full
 * redraw.
 *
 * `Build` selects between the component as written and a corrected one that
 * differs in exactly two places: Clear also lowers the pen, and the text
 * colour is a dependency of the redraw.
 */
module App {
  import opened Results
  import opened Canvas
  import opened Recorder

  datatype Build = AsWritten | Corrected

  /** The stroke widths offered by the size selector, in pixels. */
  const FontSizeOptions: seq<int> := [2, 5, 10, 15, 20, 25, 30, 40]

  const InitialTextColor: Color := "#000000"
  const InitialBackground: Color := "#FFFFFF"
  const InitialFontSize: int := 5

  predicate IsFontSizeOption(n: int) {
    n in FontSizeOptions
  }

  /** What the user can do to the component (Save and Retrieve aside). */
  datatype Event =
    | Pointer(input: Input)
    | ClearClicked
    | TextColorPicked(color: Color)
    | BackgroundPicked(color: Color)
    | FontSizePicked(size: int)

  /** Component state; `shown` is the command list of the most recent redraw. */
  datatype AppState = AppState(
    recorder: State,
    textColor: Color,
    backgroundColor: Color,
    fontSize: int,
    shown: seq<Command>)

  /** What the canvas would show if it were redrawn now. */
  function Current(st: AppState): seq<Command>
    requires WellFormed(st.recorder.history)
  {
    Render(st.recorder.history, st.backgroundColor, st.textColor, st.fontSize)
  }

  /** The recorder invariant holds and the canvas shows exactly the current redraw. */
  predicate Consistent(st: AppState) {
    Valid(st.recorder) && st.shown == Current(st)
  }

  /**
   * The canvas shows the current strokes, background and width, painted in
   * some colour that need not be the current one.
   */
  ghost predicate ShowsCurrentStrokes(st: AppState) {
    && WellFormed(st.recorder.history)
    && exists c :: st.shown == Render(st.recorder.history, st.backgroundColor, c, st.fontSize)
  }

  /** The first render: empty history, default parameters, and the effect run once on mount. */
  function Mount(): (st: AppState)
    ensures Consistent(st)
    ensures IsFontSizeOption(st.fontSize)
    ensures !st.recorder.isDrawing && st.recorder.history == []
    ensures st.shown == [Fill(InitialBackground)]
    ensures st.textColor == InitialTextColor && st.backgroundColor == InitialBackground
    ensures st.fontSize == InitialFontSize
  {
    var st := AppState(Initial, InitialTextColor, InitialBackground, InitialFontSize, []);
    st.(shown := Current(st))
  }

  /**
   * Runs the handler of one event. The flag in the result says whether the
   * handler replaced the history array, which always counts as a change.
   */
  function Handle(build: Build, st: AppState, e: Event): (r: Result<(AppState, bool), Fault>)
    requires WellFormed(st.recorder.history)
    ensures r.Err? <==> e.Pointer? && e.input.Move? && st.recorder.isDrawing && st.recorder.history == []
    ensures r.Ok? ==> WellFormed(r.value.0.recorder.history) && r.value.0.shown == st.shown
    ensures r.Ok? ==>
      (r.value.1 <==> e.ClearClicked? || (e.Pointer? && (e.input.Down? || (e.input.Move? && st.recorder.isDrawing))))
  {
    match e
    case Pointer(Down(p)) =>
      StartDrawingKeepsValid(st.recorder, p);
      Ok((st.(recorder := StartDrawing(st.recorder, p)), true))
    case Pointer(Move(p)) =>
      if !st.recorder.isDrawing then Ok((st, false))
      else (
        match Draw(st.recorder, p)
        case Err(f) => Err(f)
        case Ok(s) => Ok((st.(recorder := s), true)))
    case Pointer(Up) =>
      Ok((st.(recorder := StopDrawing(st.recorder)), false))
    case ClearClicked =>
      var s := if build == AsWritten then Clear(st.recorder) else ClearResettingPen(st.recorder);
      Ok((st.(recorder := s), true))
    case TextColorPicked(c) => Ok((st.(textColor := c), false))
    case BackgroundPicked(c) => Ok((st.(backgroundColor := c), false))
    case FontSizePicked(n) => Ok((st.(fontSize := n), false))
  }

  /** Whether the redraw effect runs after a handler took `before` to `after`. */
  predicate RedrawDue(build: Build, before: AppState, after: AppState, historyReplaced: bool) {
    || historyReplaced
    || after.backgroundColor != before.backgroundColor
    || after.fontSize != before.fontSize
    || (build == Corrected && after.textColor != before.textColor)
  }

  /**
   * The events after which the redraw effect runs, stated per event: those
   * that replace the history array, and real changes of the background or
   * the size (and, in the corrected build, of the text colour).
   */
  predicate ChangesDependency(build: Build, st: AppState, e: Event) {
    match e
    case Pointer(Down(_)) => true
    case Pointer(Move(_)) => st.recorder.isDrawing
    case Pointer(Up) => false
    case ClearClicked => true
    case TextColorPicked(c) => build == Corrected && c != st.textColor
    case BackgroundPicked(c) => c != st.backgroundColor
    case FontSizePicked(n) => n != st.fontSize
  }

  /** One event: its handler, then the redraw if a dependency changed. */
  function Step(build: Build, st: AppState, e: Event): (r: Result<AppState, Fault>)
    requires WellFormed(st.recorder.history)
    ensures r.Err? <==> e.Pointer? && e.input.Move? && st.recorder.isDrawing && st.recorder.history == []
    ensures r.Ok? ==> WellFormed(r.value.recorder.history)
    ensures r.Ok? ==> r.value.shown == st.shown || r.value.shown == Current(r.value)
    ensures r.Ok? && (e.Pointer? || e.ClearClicked?) ==>
      && r.value.textColor == st.textColor
      && r.value.backgroundColor == st.backgroundColor
      && r.value.fontSize == st.fontSize
    ensures r.Ok? && !e.Pointer? && !e.ClearClicked? ==> r.value.recorder == st.recorder
    // what each handler does to the recorder and the parameters
    ensures r.Ok? && e.Pointer? ==>
      Apply(st.recorder, e.input).Ok? && r.value.recorder == Apply(st.recorder, e.input).value
    ensures e.ClearClicked? ==>
      r.Ok? &&
      r.value.recorder == (if build == AsWritten then Clear(st.recorder) else ClearResettingPen(st.recorder))
    ensures e.TextColorPicked? ==>
      r.Ok? && r.value.textColor == e.color
      && r.value.backgroundColor == st.backgroundColor && r.value.fontSize == st.fontSize
    ensures e.BackgroundPicked? ==>
      r.Ok? && r.value.backgroundColor == e.color
      && r.value.textColor == st.textColor && r.value.fontSize == st.fontSize
    ensures e.FontSizePicked? ==>
      r.Ok? && r.value.fontSize == e.size
      && r.value.textColor == st.textColor && r.value.backgroundColor == st.backgroundColor
    // the redraw runs exactly when a dependency of the effect changed
    ensures r.Ok? && ChangesDependency(build, st, e) ==> r.value.shown == Current(r.value)
    ensures r.Ok? && !ChangesDependency(build, st, e) ==> r.value.shown == st.shown
  {
    match Handle(build, st, e)
    case Err(f) => Err(f)
    case Ok((after, historyReplaced)) =>
      if RedrawDue(build, st, after, historyReplaced) then Ok(after.(shown := Current(after)))
      else Ok(after)
  }

  /** Events in order, stopping at the first failure. */
  function Run(build: Build, st: AppState, es: seq<Event>): (r: Result<AppState, Fault>)
    requires WellFormed(st.recorder.history)
    ensures r.Ok? ==> WellFormed(r.value.recorder.history)
    decreases |es|
  {
    if es == [] then Ok(st)
    else
      match Step(build, st, es[0])
      case Err(f) => Err(f)
      case Ok(st') => Run(build, st', es[1..])
  }

  // ---------------------------------------------------------------------------
  // Properties common to both builds
  // ---------------------------------------------------------------------------

  /** A new stroke is painted on top of everything already shown, which stays as it was. */
  lemma NewStrokePaintedOnTop(build: Build, st: AppState, p: Point)
    requires Consistent(st)
    ensures Step(build, st, Pointer(Down(p)))
         == Ok(st.(recorder := StartDrawing(st.recorder, p),
                   shown := st.shown + [MoveTo(p), Stroke(st.textColor, st.fontSize)]))
  {
    RenderAppend(st.recorder.history, [p], st.backgroundColor, st.textColor, st.fontSize);
    assert PaintPath([p], st.textColor, st.fontSize) == [MoveTo(p), Stroke(st.textColor, st.fontSize)];
  }

  /** After Clear the canvas shows only the background fill. */
  lemma ClearShowsOnlyBackground(build: Build, st: AppState)
    requires WellFormed(st.recorder.history)
    ensures Step(build, st, ClearClicked).Ok?
    ensures Step(build, st, ClearClicked).value.recorder.history == []
    ensures Step(build, st, ClearClicked).value.shown == [Fill(st.backgroundColor)]
  {
  }

  /** The size only ever takes values offered by the selector. */
  lemma {:induction false} FontSizeStaysAnOption(build: Build, st: AppState, es: seq<Event>)
    requires WellFormed(st.recorder.history)
    requires IsFontSizeOption(st.fontSize)
    requires forall i :: 0 <= i < |es| && es[i].FontSizePicked? ==> IsFontSizeOption(es[i].size)
    ensures Run(build, st, es).Ok? ==> IsFontSizeOption(Run(build, st, es).value.fontSize)
    decreases |es|
  {
    if es != [] {
      match Step(build, st, es[0])
      case Err(_) =>
      case Ok(st') =>
        assert IsFontSizeOption(st'.fontSize);
        FontSizeStaysAnOption(build, st', es[1..]);
    }
  }

  // ---------------------------------------------------------------------------
  // The component as written
  // ---------------------------------------------------------------------------

  /** Picking a text colour neither changes the history nor redraws. */
  lemma TextColorAloneDoesNotRedraw(st: AppState, c: Color)
    requires WellFormed(st.recorder.history)
    ensures Step(AsWritten, st, TextColorPicked(c)) == Ok(st.(textColor := c))
  {
  }

  lemma AsWrittenStepShowsCurrentStrokes(st: AppState, e: Event)
    requires ShowsCurrentStrokes(st)
    ensures Step(AsWritten, st, e).Ok? ==> ShowsCurrentStrokes(Step(AsWritten, st, e).value)
  {
    var r := Step(AsWritten, st, e);
    if r.Ok? {
      var c :| st.shown == Render(st.recorder.history, st.backgroundColor, c, st.fontSize);
      if r.value.shown == Current(r.value) {
        assert r.value.shown == Render(r.value.recorder.history, r.value.backgroundColor, r.value.textColor, r.value.fontSize);
      } else {
        assert r.value.shown == Render(r.value.recorder.history, r.value.backgroundColor, c, r.value.fontSize);
      }
    }
  }

  /**
   * As written, the strokes, background and width on the canvas are always
   * the current ones; only the colour can lag behind.
   */
  lemma {:induction false} AsWrittenRunShowsCurrentStrokes(st: AppState, es: seq<Event>)
    requires ShowsCurrentStrokes(st)
    ensures Run(AsWritten, st, es).Ok? ==> ShowsCurrentStrokes(Run(AsWritten, st, es).value)
    decreases |es|
  {
    if es != [] {
      AsWrittenStepShowsCurrentStrokes(st, es[0]);
      match Step(AsWritten, st, es[0])
      case Err(_) =>
      case Ok(st') => AsWrittenRunShowsCurrentStrokes(st', es[1..]);
    }
  }

  /** A new text colour leaves the strokes on the canvas in the old colour. */
  lemma AsWrittenTextColorLeavesStaleStrokes(st: AppState, c: Color)
    requires Consistent(st) && st.recorder.history != []
    requires c != st.textColor
    ensures Step(AsWritten, st, TextColorPicked(c)).Ok?
    ensures !Consistent(Step(AsWritten, st, TextColorPicked(c)).value)
  {
    RenderShowsColor(st.recorder.history, st.backgroundColor, st.textColor, c, st.fontSize);
  }

  /**
   * Press on the canvas, release outside it (the canvas never sees the
   * release), press Clear, move back over the canvas: the move fails.
   */
  lemma AsWrittenClearThenMoveFails(p: Point, q: Point)
    ensures Run(AsWritten, Mount(), [Pointer(Down(p)), ClearClicked, Pointer(Move(q))])
         == Err(NoStrokeToExtend)
  {
    var es := [Pointer(Down(p)), ClearClicked, Pointer(Move(q))];
    var s1 := Step(AsWritten, Mount(), es[0]).value;
    var s2 := Step(AsWritten, s1, es[1]).value;
    assert s2.recorder.isDrawing && s2.recorder.history == [];
    assert es[1..][1..] == [Pointer(Move(q))];
    assert Run(AsWritten, s2, [Pointer(Move(q))]) == Err(NoStrokeToExtend);
    assert Run(AsWritten, s1, es[1..]) == Run(AsWritten, s2, es[1..][1..]);
    assert Run(AsWritten, Mount(), es) == Run(AsWritten, s1, es[1..]);
  }

  // ---------------------------------------------------------------------------
  // The corrected component
  // ---------------------------------------------------------------------------

  lemma CorrectedStepKeepsConsistent(st: AppState, e: Event)
    requires Consistent(st)
    ensures Step(Corrected, st, e).Ok?
    ensures Consistent(Step(Corrected, st, e).value)
  {
    match e
    case Pointer(i) => ApplyKeepsValid(st.recorder, i);
    case _ =>
  }

  /**
   * With the two corrections, no event sequence fails, and the canvas always
   * shows the redraw of the current history with the current parameters.
   */
  lemma {:induction false} CorrectedRunKeepsConsistent(st: AppState, es: seq<Event>)
    requires Consistent(st)
    ensures Run(Corrected, st, es).Ok?
    ensures Consistent(Run(Corrected, st, es).value)
    decreases |es|
  {
    if es != [] {
      CorrectedStepKeepsConsistent(st, es[0]);
      CorrectedRunKeepsConsistent(Step(Corrected, st, es[0]).value, es[1..]);
    }
  }
}
