# Freehand drawing canvas: stroke recorder and redraw, in Dafny

This project models the drawing logic of a single React component,
`src/App.jsx`. The component keeps the strokes the user has drawn as a
history. Each stroke is a list of points. A full redraw paints the
background and then every stroke in the current colour and width.

- `Canvas` (canvas.dfy) holds points, paths and the history. It defines the
  redraw `Render`: a pure function from the history, background colour, text
  colour and font size to a list of abstract 2D-context commands (`Fill`,
  `MoveTo`, `LineTo`, `Stroke`). It also defines an inverse, `Replay`, which
  reads a command list back into a background and a history.
- `Recorder` (recorder.dfy) holds the recorder state, which is the history
  plus the canvas's `isDrawing` flag. It models `startDrawing`, `draw`,
  `stopDrawing` and the history reset done by Clear. It also models sequences
  of translated pointer inputs and whole gestures (down, moves, up).
- `App` (app.dfy) holds the whole component: the recorder, the three render
  parameters, and the commands of the last redraw. Each event runs its
  handler. If one of the effect's dependencies changed, the redraw runs
  next. React compares dependencies by value for strings and numbers. Every
  `setDrawing` call produces a new array, so it always counts as a change.
  `Build.AsWritten` is the component as the source has it. `Build.Corrected`
  fixes the two defects listed under "## Findings".
- `Results` (results.dfy) holds `Option` and `Result`.

A `draw` with the flag raised and an empty history reads
`newDrawing[newDrawing.length - 1]` as `undefined` and calls `push` on it,
which throws. The model returns `Err(NoStrokeToExtend)` for this case.

Two points where the code departs from what a drawing canvas is expected to
do are modelled as the code has them:
- One would expect a change of stroke colour to repaint every stroke, as a
  change of width does. In the code, `textColor` is not among the redraw
  effect's dependencies (src/App.jsx:38). Picking a colour therefore changes
  nothing on screen until the next redraw.
- One would expect the pointer leaving the canvas to end a stroke. The canvas
  has no pointer-leave handler, so only mouse-up and touch-end on the canvas
  lower the flag.

## Model

| member | source | states |
|---|---|---|
| Canvas.Segments | src/App.jsx:31-33 | every point after the first becomes one `LineTo` of that point, in order |
| Canvas.PaintPath | src/App.jsx:29-36 | a stored path is painted as `MoveTo(path[0])`, then one `LineTo` per later point in order, then one `Stroke` in the current colour and width; a one-point path gives no `LineTo` |
| Canvas.PaintAll | src/App.jsx:28-37 | replaying the history issues one command per point plus one `Stroke` per path; it contains no fill, and every `Stroke` uses the same current style |
| Canvas.Render | src/App.jsx:24-37 | the redraw starts with `Fill(background)`, issues exactly 1 + Σ(\|path\| + 1) commands, and paints every path in the current text colour and font size |
| Canvas.ReplayRender | src/App.jsx:24-37 | the redraw loses nothing: reading its commands back recovers the background and the history exactly |
| Canvas.RenderDeterminesHistory | src/App.jsx:24-37 | two redraws that issue the same commands come from the same history and background |
| Canvas.RestyleRender | src/App.jsx:34-35 | redrawing with another colour and width changes the style of every stroke command, including strokes drawn earlier, and nothing else |
| Canvas.RenderShowsColor | src/App.jsx:34 | with at least one stroke, redraws in two different colours differ |
| Canvas.PaintAllAppend | src/App.jsx:28-37 | replaying `h1 + h2` is replaying `h1` followed by replaying `h2` |
| Canvas.RenderAppend | src/App.jsx:28-37 | later strokes are painted on top: the redraw of `h + [path]` is the redraw of `h`, unchanged, followed by that path's commands |
| Recorder.StartDrawing | src/App.jsx:73-80 | raises the flag and appends exactly one stroke `[p]`; every earlier stroke stays as it was |
| Recorder.Draw | src/App.jsx:82-96 | with the flag down nothing changes; with the flag up, `p` is appended to the last stroke only and the stroke count stays the same; it fails exactly when the flag is up and the history is empty |
| Recorder.StopDrawing | src/App.jsx:99-102 | lowers the flag and leaves the history unchanged |
| Recorder.StopDrawingIdempotent | src/App.jsx:99-102 | stopping twice is the same as stopping once |
| Recorder.Clear | src/App.jsx:40-47 | the history becomes empty and the flag keeps whatever value it had |
| Recorder.ClearResettingPen | src/App.jsx:40-47 | corrected Clear: empty history, flag lowered, so the recorder invariant holds afterwards |
| Recorder.StartDrawingKeepsValid | src/App.jsx:78-79 | a new stroke keeps every stroke non-empty and leaves a last stroke for the raised flag |
| Recorder.DrawKeepsValid | src/App.jsx:86-95 | from a valid state a move never fails and keeps every stroke non-empty |
| Recorder.StopDrawingKeepsValid | src/App.jsx:99-102 | lowering the flag keeps the recorder invariant |
| Recorder.ClearBreaksValid | src/App.jsx:40-47 | Clear during a stroke keeps the strokes well formed but leaves the flag up over an empty history |
| Recorder.DrawAfterClearFails | src/App.jsx:91-95 | after Clear during a stroke, the next move fails to find a stroke to extend |
| Recorder.DrawAfterClearResettingPenSucceeds | src/App.jsx:86-96 | after the corrected Clear, a move is accepted and changes nothing |
| Recorder.ApplyKeepsValid | src/App.jsx:105-124 | every translated pointer input (mouse or touch) keeps the recorder invariant and never fails from a valid state |
| Recorder.Feed | src/App.jsx:105-124 | a sequence of pointer inputs fed to a valid recorder never fails and ends valid |
| Recorder.MovesExtendLastStroke | src/App.jsx:82-96 | moves during a stroke append their points, in order, to the last stroke and change no other stroke |
| Recorder.IdleIsNoOp | src/App.jsx:82-102 | with the flag down, hover moves and stray releases leave the recorder exactly as it was |
| Recorder.PressRecordsOneStroke | src/App.jsx:73-102 | from any state, down, moves, up appends exactly one stroke holding the gesture's points in delivery order, and lowers the flag |
| Recorder.GestureRecordsOneStroke | src/App.jsx:73-102 | a gesture, including the hover moves and releases before it, appends exactly its own stroke and lowers the flag, provided no stroke is still open when those idle inputs arrive |
| Recorder.GesturesRecordStrokes | src/App.jsx:73-102 | gestures with idle input between them append one stroke per gesture, in order, and nothing else; the flag ends down unless there was no gesture |
| App.Mount | src/App.jsx:5-38 | the first render has an empty history, the flag down, text colour black, background white, font size 5 (one of the options), and a canvas showing only the white background |
| App.Handle | src/App.jsx:40-102 | a handler fails only for a move with the flag up and an empty history; handlers keep every stroke non-empty; the history array is replaced exactly by Clear, pointer-down and a move with the flag up; the modelled canvas changes only through the redraw that follows a handler |
| App.Step | src/App.jsx:21-102 | an event fails only for a move with the flag up and an empty history; a pointer event applies the matching recorder operation and Clear empties the history (lowering the flag only in the corrected build); each picker sets its own parameter and nothing else; the redraw (line 38; `ChangesDependency` names the triggering events) runs after pointer-down, an accepted move, Clear, and a real change of background or size (and, corrected, of text colour), and the canvas is left alone after pointer-up, an idle move, a same-value pick and, as written, any text-colour pick |
| App.Run | src/App.jsx:21-102 | any accepted event sequence keeps every stroke non-empty, so the redraw's `path[0]` always exists |
| App.NewStrokePaintedOnTop | src/App.jsx:73-80 | from a consistent state (canvas equal to the current redraw), on pointer-down the canvas keeps everything it showed and adds `MoveTo(p)` and one `Stroke` in the current style |
| App.ClearShowsOnlyBackground | src/App.jsx:40-47 | after Clear the history is empty and the canvas shows only the background fill |
| App.FontSizeStaysAnOption | src/App.jsx:141-144 | starting from an offered size, picks from the selector keep the font size in {2, 5, 10, 15, 20, 25, 30, 40} |
| App.TextColorAloneDoesNotRedraw | src/App.jsx:38 | as written, picking a text colour changes only the colour and does not redraw |
| App.AsWrittenStepShowsCurrentStrokes | src/App.jsx:21-38 | as written, after any event the canvas shows the current strokes, background and width, in some colour |
| App.AsWrittenRunShowsCurrentStrokes | src/App.jsx:21-38 | as written, over any event sequence only the colour on the canvas can lag behind the state |
| App.AsWrittenTextColorLeavesStaleStrokes | src/App.jsx:34-38 | as written, a new text colour leaves the existing strokes shown in the old colour |
| App.AsWrittenClearThenMoveFails | src/App.jsx:40-96 | as written, pointer-down, Clear, pointer-move from startup fails in `draw` |
| App.CorrectedStepKeepsConsistent | src/App.jsx:21-102 | corrected: every event succeeds and the canvas shows exactly the redraw of current state |
| App.CorrectedRunKeepsConsistent | src/App.jsx:21-102 | corrected: no event sequence fails, and the canvas always equals the redraw of the current history and parameters |

## Left out

- Save and Retrieve (src/App.jsx:49-70): `toDataURL`, `localStorage`, the download link and the asynchronous `Image.onload` are browser calls with no logic to model. Retrieve paints over the canvas outside the history. With Retrieve included, the canvas would no longer equal any redraw.
- The canvas-width effect (src/App.jsx:11-19): it depends on the window size and resize events. Width and height do not appear in the commands; `Fill` covers the whole canvas. Setting the width (src/App.jsx:14, 150) resets the canvas bitmap, and `canvasWidth` is not a dependency of the redraw (src/App.jsx:38). So on a window narrower than 768px the fill painted at mount is wiped straight away. Every later resize that changes `canvasWidth` (a window narrower than 768px, or one crossing that size) erases the strokes until some other change redraws. At 768px or wider the width is set to 820 again, and React skips an unchanged value. With width changes included, the canvas would again not equal any redraw: App.Mount's white canvas and App.AsWrittenRunShowsCurrentStrokes hold only while the width stays fixed.
- Mouse and touch adapters (src/App.jsx:104-124): the model takes points already in canvas coordinates. `Recorder.Input` stands for both device families.
- The live painting inside `startDrawing` and `draw` (src/App.jsx:74-77, 83-90): every history change is followed by a full redraw, which overwrites it.
- Clear's own `clearRect`/`fillRect` (src/App.jsx:43-45): the redraw that follows `setDrawing([])` paints the same single fill.
- `beginPath` is folded into `MoveTo`.
- JSX layout and styling (src/App.jsx:126-162).
- Coordinates are integers, and colours are opaque strings. Rasterisation, line joins and colour parsing are not modelled.
- Recorder.GesturesRecordStrokes: when a stroke is still open at the start (the pointer was released outside the canvas), the first gesture must begin at once. Hover moves at that point extend the open stroke instead (Recorder.MovesExtendLastStroke); after any gesture the flag is down and idle input is harmless.
- Recorder.GestureRecordsOneStroke: idle input before the gesture is covered only when no stroke is open, for the same reason.
- Recorder.Draw: does not model the in-place `push` on the stroke array, which the previous state shares. It also does not model a development-mode double call of the updater that would push the point twice. The model appends once, to a fresh value.

## Findings

| source | as written | input that shows it | evidently intended | confidence | as-written member | corrected member |
|---|---|---|---|---|---|---|
| src/App.jsx:40-47 | Clear empties the history but leaves `canvas.isDrawing` raised, and `draw` then pushes onto `newDrawing[-1]`, which is `undefined` | press the mouse on the canvas, release it outside the canvas (the canvas has no leave handler), click Clear, move the mouse over the canvas | Clear also ends the stroke in progress, so a move after Clear is ignored | medium, not executed | App.AsWrittenClearThenMoveFails | App.CorrectedRunKeepsConsistent |
| src/App.jsx:38 | the redraw effect depends on `backgroundColor`, `fontSize` and `drawing` but not `textColor`, so picking a text colour leaves earlier strokes in the old colour until some other change | draw one stroke, then pick a different text colour | `textColor` is a dependency too, so the canvas always shows the current style | medium, not executed | App.AsWrittenTextColorLeavesStaleStrokes | App.CorrectedStepKeepsConsistent |
