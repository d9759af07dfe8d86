/**
 * The drawing surface: points, paths, the stroke history, and the full
 * redraw that turns a history plus the current style into a list of
 * abstract 2D-context commands.
 */
module Canvas {
  import opened Results

  /** A point in canvas-local pixel coordinates. */
  datatype Point = Point(x: int, y: int)

  /** One stroke: the points captured between pointer-down and pointer-up, in order. */
  type Path = seq<Point>

  /** Every stroke recorded so far, oldest first. */
  type History = seq<Path>

  /** A CSS colour value, kept opaque. */
  type Color = string

  /** The 2D-context calls the redraw issues, abstracted from pixels. */
  datatype Command =
    | Fill(color: Color)                 // fillStyle := color; fillRect over the whole canvas
    | MoveTo(to: Point)                  // beginPath(); moveTo(to)
    | LineTo(to: Point)                  // lineTo(to)
    | Stroke(color: Color, width: int)   // strokeStyle := color; lineWidth := width; stroke()

  /** Every stroke has a first point, which the redraw reads as `path[0]`. */
  predicate WellFormed(h: History) {
    forall i :: 0 <= i < |h| ==> |h[i]| > 0
  }

  /** The number of commands the strokes of `h` produce: one per point plus one `Stroke` each. */
  function CommandCount(h: History): nat {
    if h == [] then 0 else |h[0]| + 1 + CommandCount(h[1..])
  }

  /** Commands after the first one contain no fill, and every stroke uses the given style. */
  predicate PaintedIn(cs: seq<Command>, color: Color, width: int) {
    forall i :: 0 <= i < |cs| ==> !cs[i].Fill? && (cs[i].Stroke? ==> cs[i] == Stroke(color, width))
  }

  /** One `lineTo` per point, in order. */
  function Segments(ps: seq<Point>): (cs: seq<Command>)
    ensures |cs| == |ps|
    ensures forall i :: 0 <= i < |ps| ==> cs[i] == LineTo(ps[i])
  {
    if ps == [] then [] else [LineTo(ps[0])] + Segments(ps[1..])
  }

  /** The commands that paint one stored path. */
  function PaintPath(path: Path, color: Color, width: int): (cs: seq<Command>)
    requires |path| > 0
    ensures |cs| == |path| + 1
    ensures cs[0] == MoveTo(path[0])
    ensures forall i :: 1 <= i < |path| ==> cs[i] == LineTo(path[i])
    ensures cs[|path|] == Stroke(color, width)
    ensures PaintedIn(cs, color, width)
  {
    [MoveTo(path[0])] + Segments(path[1..]) + [Stroke(color, width)]
  }

  /** The commands that paint every stored path, in history order. */
  function PaintAll(h: History, color: Color, width: int): (cs: seq<Command>)
    requires WellFormed(h)
    ensures |cs| == CommandCount(h)
    ensures PaintedIn(cs, color, width)
  {
    if h == [] then []
    else
      var first := PaintPath(h[0], color, width);
      var rest := PaintAll(h[1..], color, width);
      assert forall i :: |first| <= i < |first| + |rest| ==> (first + rest)[i] == rest[i - |first|];
      first + rest
  }

  /**
   * The full redraw: fill the background, then replay every stored path with
   * the current colour and width.
   */
  function Render(h: History, background: Color, color: Color, width: int): (cs: seq<Command>)
    requires WellFormed(h)
    ensures |cs| == 1 + CommandCount(h)
    ensures cs[0] == Fill(background)
    ensures PaintedIn(cs[1..], color, width)
  {
    [Fill(background)] + PaintAll(h, color, width)
  }

  // ---------------------------------------------------------------------------
  // Reading a command list back into a background and a history
  // ---------------------------------------------------------------------------

  /** Splits off the leading run of `lineTo` commands, returning their points and what follows. */
  function ReadSegments(cs: seq<Command>): (r: (seq<Point>, seq<Command>))
    ensures |r.1| <= |cs|
  {
    if cs != [] && cs[0].LineTo? then
      var (ps, rest) := ReadSegments(cs[1..]);
      ([cs[0].to] + ps, rest)
    else
      ([], cs)
  }

  /** Reads `moveTo lineTo* stroke` groups back into paths; `None` if the list has another shape. */
  function ReadPaths(cs: seq<Command>): (r: Option<History>)
    ensures r.Some? ==> WellFormed(r.value)
    decreases |cs|
  {
    if cs == [] then Some([])
    else if !cs[0].MoveTo? then None
    else
      var (ps, rest) := ReadSegments(cs[1..]);
      if rest == [] || !rest[0].Stroke? then None
      else
        match ReadPaths(rest[1..])
        case None => None
        case Some(h) => Some([[cs[0].to] + ps] + h)
  }

  /** Recovers the background and the history that a redraw painted. */
  function Replay(cs: seq<Command>): (r: Option<(Color, History)>)
    ensures r.Some? ==> WellFormed(r.value.1)
  {
    if cs == [] || !cs[0].Fill? then None
    else
      match ReadPaths(cs[1..])
      case None => None
      case Some(h) => Some((cs[0].color, h))
  }

  lemma {:induction false} ReadSegmentsOfSegments(ps: seq<Point>, tail: seq<Command>)
    requires tail == [] || !tail[0].LineTo?
    ensures ReadSegments(Segments(ps) + tail) == (ps, tail)
  {
    if ps == [] {
      assert Segments(ps) + tail == tail;
    } else {
      assert Segments(ps) + tail == [LineTo(ps[0])] + (Segments(ps[1..]) + tail);
      ReadSegmentsOfSegments(ps[1..], tail);
      assert [ps[0]] + ps[1..] == ps;
    }
  }

  /** Reading back one painted path consumes exactly that path's commands. */
  lemma ReadPathsOfPaintPath(path: Path, color: Color, width: int, rest: seq<Command>)
    requires |path| > 0
    ensures ReadPaths(PaintPath(path, color, width) + rest)
         == match ReadPaths(rest) case None => None case Some(h) => Some([path] + h)
  {
    var tail := [Stroke(color, width)] + rest;
    var cs := PaintPath(path, color, width) + rest;
    assert cs == [MoveTo(path[0])] + (Segments(path[1..]) + tail);
    assert cs[1..] == Segments(path[1..]) + tail;
    ReadSegmentsOfSegments(path[1..], tail);
    assert tail[1..] == rest;
    assert [path[0]] + path[1..] == path;
  }

  lemma {:induction false} ReadPathsOfPaintAll(h: History, color: Color, width: int)
    requires WellFormed(h)
    ensures ReadPaths(PaintAll(h, color, width)) == Some(h)
  {
    if h != [] {
      ReadPathsOfPaintPath(h[0], color, width, PaintAll(h[1..], color, width));
      ReadPathsOfPaintAll(h[1..], color, width);
      assert [h[0]] + h[1..] == h;
    }
  }

  /** The redraw loses nothing: the background and every stored point can be read back from it. */
  lemma ReplayRender(h: History, background: Color, color: Color, width: int)
    requires WellFormed(h)
    ensures Replay(Render(h, background, color, width)) == Some((background, h))
  {
    var cs := Render(h, background, color, width);
    assert cs[1..] == PaintAll(h, color, width);
    ReadPathsOfPaintAll(h, color, width);
  }

  /** Two redraws that issue the same commands were made from the same history and background. */
  lemma RenderDeterminesHistory(h1: History, b1: Color, c1: Color, w1: int,
                                h2: History, b2: Color, c2: Color, w2: int)
    requires WellFormed(h1) && WellFormed(h2)
    requires Render(h1, b1, c1, w1) == Render(h2, b2, c2, w2)
    ensures h1 == h2 && b1 == b2
  {
    ReplayRender(h1, b1, c1, w1);
    ReplayRender(h2, b2, c2, w2);
  }

  // ---------------------------------------------------------------------------
  // Style is applied at redraw time, not stored with the stroke
  // ---------------------------------------------------------------------------

  /** Replaces the style of every `Stroke` command, leaving all other commands as they are. */
  function Restyle(cs: seq<Command>, color: Color, width: int): seq<Command> {
    seq(|cs|, i requires 0 <= i < |cs| => if cs[i].Stroke? then Stroke(color, width) else cs[i])
  }

  lemma RestyleConcat(a: seq<Command>, b: seq<Command>, color: Color, width: int)
    ensures Restyle(a + b, color, width) == Restyle(a, color, width) + Restyle(b, color, width)
  {
    var l, r := Restyle(a + b, color, width), Restyle(a, color, width) + Restyle(b, color, width);
    assert |l| == |r|;
    forall i | 0 <= i < |l|
      ensures l[i] == r[i]
    {
      if i < |a| {
        assert (a + b)[i] == a[i];
      } else {
        assert (a + b)[i] == b[i - |a|];
      }
    }
  }

  lemma RestylePaintPath(path: Path, c1: Color, w1: int, c2: Color, w2: int)
    requires |path| > 0
    ensures Restyle(PaintPath(path, c1, w1), c2, w2) == PaintPath(path, c2, w2)
  {
    var l, r := Restyle(PaintPath(path, c1, w1), c2, w2), PaintPath(path, c2, w2);
    assert |l| == |r|;
    forall i | 0 <= i < |l|
      ensures l[i] == r[i]
    {
    }
  }

  lemma {:induction false} RestylePaintAll(h: History, c1: Color, w1: int, c2: Color, w2: int)
    requires WellFormed(h)
    ensures Restyle(PaintAll(h, c1, w1), c2, w2) == PaintAll(h, c2, w2)
  {
    if h != [] {
      RestylePaintPath(h[0], c1, w1, c2, w2);
      RestylePaintAll(h[1..], c1, w1, c2, w2);
      RestyleConcat(PaintPath(h[0], c1, w1), PaintAll(h[1..], c1, w1), c2, w2);
    }
  }

  /**
   * Retroactive styling: redrawing the same history in another colour and
   * width changes exactly the style of every stroke command and nothing else.
   */
  lemma RestyleRender(h: History, background: Color, c1: Color, w1: int, c2: Color, w2: int)
    requires WellFormed(h)
    ensures Render(h, background, c2, w2) == Restyle(Render(h, background, c1, w1), c2, w2)
  {
    var p1 := PaintAll(h, c1, w1);
    RestylePaintAll(h, c1, w1, c2, w2);
    RestyleConcat([Fill(background)], p1, c2, w2);
  }

  /** With at least one stroke, the colour in force is visible in the redraw. */
  lemma RenderShowsColor(h: History, background: Color, c1: Color, c2: Color, width: int)
    requires WellFormed(h) && h != []
    requires c1 != c2
    ensures Render(h, background, c1, width) != Render(h, background, c2, width)
  {
    var k := |h[0]| + 1;
    assert Render(h, background, c1, width)[k] == Stroke(c1, width);
    assert Render(h, background, c2, width)[k] == Stroke(c2, width);
  }

  // ---------------------------------------------------------------------------
  // Appending to the history
  // ---------------------------------------------------------------------------

  lemma WellFormedAppend(h1: History, h2: History)
    requires WellFormed(h1) && WellFormed(h2)
    ensures WellFormed(h1 + h2)
  {
    forall i | 0 <= i < |h1 + h2|
      ensures |(h1 + h2)[i]| > 0
    {
      if i < |h1| {
        assert (h1 + h2)[i] == h1[i];
      } else {
        assert (h1 + h2)[i] == h2[i - |h1|];
      }
    }
  }

  lemma {:induction false} PaintAllAppend(h1: History, h2: History, color: Color, width: int)
    requires WellFormed(h1) && WellFormed(h2)
    ensures WellFormed(h1 + h2)
    ensures PaintAll(h1 + h2, color, width) == PaintAll(h1, color, width) + PaintAll(h2, color, width)
    decreases |h1|
  {
    WellFormedAppend(h1, h2);
    if h1 == [] {
      assert h1 + h2 == h2;
    } else {
      var t := h1[1..];
      assert (h1 + h2)[0] == h1[0];
      assert (h1 + h2)[1..] == t + h2;
      PaintAllAppend(t, h2, color, width);
      var a := PaintPath(h1[0], color, width);
      assert PaintAll(h1 + h2, color, width) == a + PaintAll(t + h2, color, width);
      assert PaintAll(h1, color, width) == a + PaintAll(t, color, width);
      assert a + (PaintAll(t, color, width) + PaintAll(h2, color, width))
          == (a + PaintAll(t, color, width)) + PaintAll(h2, color, width);
    }
  }

  /** A history of one path is painted as that path alone. */
  lemma PaintAllSingle(path: Path, color: Color, width: int)
    requires |path| > 0
    ensures WellFormed([path])
    ensures PaintAll([path], color, width) == PaintPath(path, color, width)
  {
    assert [path][0] == path;
    assert [path][1..] == [];
    assert PaintAll([path], color, width) == PaintPath(path, color, width) + PaintAll([], color, width);
  }

  /**
   * Later strokes are painted on top: the redraw of a longer history starts
   * with the redraw of the shorter one, unchanged.
   */
  lemma RenderAppend(h: History, path: Path, background: Color, color: Color, width: int)
    requires WellFormed(h) && |path| > 0
    ensures WellFormed(h + [path])
    ensures Render(h + [path], background, color, width)
         == Render(h, background, color, width) + PaintPath(path, color, width)
  {
    PaintAllSingle(path, color, width);
    PaintAllAppend(h, [path], color, width);
    var before := PaintAll(h, color, width);
    var added := PaintPath(path, color, width);
    assert PaintAll(h + [path], color, width) == before + added;
    assert [Fill(background)] + (before + added) == ([Fill(background)] + before) + added;
  }
}
