/** The gesture state of the client's `Canvas`: pressing starts a local
    stroke, each move adds a segment from the last point to the new one, and
    releasing decides whether the stroke is kept (which is what makes the
    client send `draw-end`). Rendering is not modelled; points are opaque. */
module Canvas {
  import opened Common

  /** A stroke as the client keeps it: its segments and the tool, colour and
      size in force when it started. */
  datatype LocalStroke = LocalStroke(lines: seq<Segment>, tool: string, color: Color, size: int)

  datatype CanvasState = CanvasState(
    isDrawing: bool,
    tool: string,
    color: Color,
    size: int,
    lastX: int,
    lastY: int,
    localStrokes: seq<LocalStroke>,
    current: Option<LocalStroke>)

  /** A gesture call's new state and its return value. */
  datatype Reply<T> = Reply(canvas: CanvasState, value: T)

  const DefaultTool: string := "pen"
  const DefaultColor: Color := "#000000"
  const DefaultSize: int := 5

  /** The state a new canvas starts in. */
  function Init(): (c: CanvasState)
    ensures !c.isDrawing && c.current == None && c.localStrokes == []
    ensures c.tool == DefaultTool && c.color == DefaultColor && c.size == DefaultSize
  {
    CanvasState(false, DefaultTool, DefaultColor, DefaultSize, 0, 0, [], None)
  }

  /** Each segment starts where the one before it ended. */
  predicate Chained(lines: seq<Segment>) {
    forall i :: 0 < i < |lines| ==> lines[i].x0 == lines[i - 1].x1 && lines[i].y0 == lines[i - 1].y1
  }

  /** While drawing there is a stroke, its segments chain, and the last one
      ends at the last point seen. */
  predicate Valid(c: CanvasState) {
    c.isDrawing ==>
      && c.current.Some?
      && Chained(c.current.value.lines)
      && (|c.current.value.lines| > 0 ==>
            && c.current.value.lines[|c.current.value.lines| - 1].x1 == c.lastX
            && c.current.value.lines[|c.current.value.lines| - 1].y1 == c.lastY)
  }

  /** `startDrawing` at point (x, y): begins a fresh empty stroke carrying the
      current tool, colour and size, remembers the point, and reports true. */
  function StartDrawing(c: CanvasState, x: int, y: int): (r: Reply<bool>)
    ensures r.value && r.canvas.isDrawing
    ensures r.canvas.current == Some(LocalStroke([], c.tool, c.color, c.size))
    ensures r.canvas.lastX == x && r.canvas.lastY == y
    ensures r.canvas.localStrokes == c.localStrokes
    ensures r.canvas.tool == c.tool && r.canvas.color == c.color && r.canvas.size == c.size
    ensures Valid(r.canvas)
  {
    Reply(c.(isDrawing := true, lastX := x, lastY := y, current := Some(LocalStroke([], c.tool, c.color, c.size))), true)
  }

  /** `draw` at point (x, y): when not drawing, returns nothing and changes
      nothing; otherwise returns the segment from the last point to (x, y)
      in the current colour, size and tool, adds it to the stroke, and makes
      (x, y) the last point. */
  function Draw(c: CanvasState, x: int, y: int): (r: Reply<Option<Segment>>)
    ensures !c.isDrawing ==> r == Reply(c, None)
    ensures c.isDrawing ==>
      && r.value == Some(Segment(c.lastX, c.lastY, x, y, c.color, c.size, c.tool))
      && r.canvas.lastX == x && r.canvas.lastY == y
      && r.canvas.isDrawing
      && (c.current.Some? ==> r.canvas.current == Some(c.current.value.(lines := c.current.value.lines + [r.value.value])))
      && (c.current.None? ==> r.canvas.current == None)
    ensures r.canvas.localStrokes == c.localStrokes
    ensures r.canvas.tool == c.tool && r.canvas.color == c.color && r.canvas.size == c.size
    ensures Valid(c) ==> Valid(r.canvas)
  {
    if !c.isDrawing then Reply(c, None)
    else
      var seg := Segment(c.lastX, c.lastY, x, y, c.color, c.size, c.tool);
      var current := match c.current
        case Some(s) => Some(s.(lines := s.lines + [seg]))
        case None => None;
      Reply(c.(lastX := x, lastY := y, current := current), Some(seg))
  }

  /** `stopDrawing`: keeps the stroke and reports true exactly when drawing
      was on and the stroke has a segment; drawing is off afterwards either
      way, and on the false path nothing else changes. */
  function StopDrawing(c: CanvasState): (r: Reply<bool>)
    ensures r.value <==> c.isDrawing && c.current.Some? && |c.current.value.lines| > 0
    ensures !r.canvas.isDrawing
    ensures r.value ==> r.canvas.localStrokes == c.localStrokes + [c.current.value] && r.canvas.current == None
    ensures !r.value ==> r.canvas == c.(isDrawing := false)
    ensures r.canvas.tool == c.tool && r.canvas.color == c.color && r.canvas.size == c.size
    ensures Valid(r.canvas)
  {
    if c.isDrawing && c.current.Some? && |c.current.value.lines| > 0 then
      Reply(c.(localStrokes := c.localStrokes + [c.current.value], current := None, isDrawing := false), true)
    else
      Reply(c.(isDrawing := false), false)
  }

  /** `clearCanvas`: forgets the strokes kept locally. */
  function ClearCanvas(c: CanvasState): (r: CanvasState)
    ensures r.localStrokes == []
    ensures r.isDrawing == c.isDrawing && r.current == c.current
    ensures r.lastX == c.lastX && r.lastY == c.lastY
    ensures r.tool == c.tool && r.color == c.color && r.size == c.size
    ensures Valid(c) ==> Valid(r)
  {
    c.(localStrokes := [])
  }

  /** `setTool`: changes the tool and nothing else. */
  function SetTool(c: CanvasState, tool: string): (r: CanvasState)
    ensures r.tool == tool && r.color == c.color && r.size == c.size
    ensures r.isDrawing == c.isDrawing && r.current == c.current && r.localStrokes == c.localStrokes
    ensures r.lastX == c.lastX && r.lastY == c.lastY
    ensures Valid(c) ==> Valid(r)
  {
    c.(tool := tool)
  }

  /** `setColor`: changes the colour and nothing else. */
  function SetColor(c: CanvasState, color: Color): (r: CanvasState)
    ensures r.color == color && r.tool == c.tool && r.size == c.size
    ensures r.isDrawing == c.isDrawing && r.current == c.current && r.localStrokes == c.localStrokes
    ensures r.lastX == c.lastX && r.lastY == c.lastY
    ensures Valid(c) ==> Valid(r)
  {
    c.(color := color)
  }

  /** `setSize`: changes the size and nothing else. */
  function SetSize(c: CanvasState, size: int): (r: CanvasState)
    ensures r.size == size && r.tool == c.tool && r.color == c.color
    ensures r.isDrawing == c.isDrawing && r.current == c.current && r.localStrokes == c.localStrokes
    ensures r.lastX == c.lastX && r.lastY == c.lastY
    ensures Valid(c) ==> Valid(r)
  {
    c.(size := size)
  }

  // ---------------------------------------------------------------------
  // Whole gestures
  // ---------------------------------------------------------------------

  /** The segments a drag from (x, y) through `pts` draws with fixed colour,
      size and tool: each one from the previous point to the next. */
  function ChainThrough(x: int, y: int, pts: seq<(int, int)>, color: Color, size: int, tool: string): (r: seq<Segment>)
    ensures |r| == |pts|
    decreases |pts|
  {
    if |pts| == 0 then []
    else [Segment(x, y, pts[0].0, pts[0].1, color, size, tool)] + ChainThrough(pts[0].0, pts[0].1, pts[1..], color, size, tool)
  }

  /** Moves through `pts` one after another. */
  function DrawAll(c: CanvasState, pts: seq<(int, int)>): CanvasState
    decreases |pts|
  {
    if |pts| == 0 then c else DrawAll(Draw(c, pts[0].0, pts[0].1).canvas, pts[1..])
  }

  /** The segments `draw` returns along `pts`, the ones the client sends. */
  function Emitted(c: CanvasState, pts: seq<(int, int)>): seq<Segment>
    decreases |pts|
  {
    if |pts| == 0 then []
    else
      var step := Draw(c, pts[0].0, pts[0].1);
      (if step.value.Some? then [step.value.value] else []) + Emitted(step.canvas, pts[1..])
  }

  /** Moving through `pts` while drawing adds to the stroke exactly the
      chain of segments from the last point through `pts`, and those are
      exactly the segments returned. */
  lemma {:induction false} DrawAllChains(c: CanvasState, pts: seq<(int, int)>)
    requires c.isDrawing && c.current.Some?
    ensures var r := DrawAll(c, pts);
      && r.isDrawing
      && r.current == Some(c.current.value.(lines := c.current.value.lines + ChainThrough(c.lastX, c.lastY, pts, c.color, c.size, c.tool)))
      && r.localStrokes == c.localStrokes
      && r.tool == c.tool && r.color == c.color && r.size == c.size
      && Emitted(c, pts) == ChainThrough(c.lastX, c.lastY, pts, c.color, c.size, c.tool)
    decreases |pts|
  {
    if |pts| > 0 {
      var step := Draw(c, pts[0].0, pts[0].1);
      DrawAllChains(step.canvas, pts[1..]);
      var seg := Segment(c.lastX, c.lastY, pts[0].0, pts[0].1, c.color, c.size, c.tool);
      var rest := ChainThrough(pts[0].0, pts[0].1, pts[1..], c.color, c.size, c.tool);
      assert c.current.value.lines + [seg] + rest == c.current.value.lines + ([seg] + rest);
    } else {
      assert c.current.value.lines + [] == c.current.value.lines;
    }
  }

  /** The chain through a path of points is chained. */
  lemma {:induction false} ChainThroughIsChained(x: int, y: int, pts: seq<(int, int)>, color: Color, size: int, tool: string)
    ensures Chained(ChainThrough(x, y, pts, color, size, tool))
    ensures |pts| > 0 ==> ChainThrough(x, y, pts, color, size, tool)[0].x0 == x
    ensures |pts| > 0 ==> ChainThrough(x, y, pts, color, size, tool)[0].y0 == y
    decreases |pts|
  {
    if |pts| > 1 {
      ChainThroughIsChained(pts[0].0, pts[0].1, pts[1..], color, size, tool);
    }
  }

  /** A whole gesture (press at (x, y), move through `pts`, release) keeps a
      stroke exactly when it moved at least once; the kept stroke is the
      chain from (x, y) through `pts` in the settings in force at the press.
      A gesture that did not move keeps nothing. */
  lemma GestureKeepsItsChain(c: CanvasState, x: int, y: int, pts: seq<(int, int)>)
    ensures var pressed := StartDrawing(c, x, y).canvas;
      var released := StopDrawing(DrawAll(pressed, pts));
      && (released.value <==> |pts| > 0)
      && !released.canvas.isDrawing
      && (|pts| > 0 ==>
            released.canvas.localStrokes == c.localStrokes + [LocalStroke(ChainThrough(x, y, pts, c.color, c.size, c.tool), c.tool, c.color, c.size)])
      && (|pts| == 0 ==> released.canvas.localStrokes == c.localStrokes)
  {
    var pressed := StartDrawing(c, x, y).canvas;
    DrawAllChains(pressed, pts);
    assert [] + ChainThrough(x, y, pts, c.color, c.size, c.tool) == ChainThrough(x, y, pts, c.color, c.size, c.tool);
  }

  /** One call of the gesture interface. */
  datatype Action =
    | Press(px: int, py: int)
    | Move(mx: int, my: int)
    | Release
    | Clear
    | PickTool(tool: string)
    | PickColor(color: Color)
    | PickSize(size: int)

  function Perform(c: CanvasState, a: Action): CanvasState {
    match a
    case Press(x, y) => StartDrawing(c, x, y).canvas
    case Move(x, y) => Draw(c, x, y).canvas
    case Release => StopDrawing(c).canvas
    case Clear => ClearCanvas(c)
    case PickTool(t) => SetTool(c, t)
    case PickColor(col) => SetColor(c, col)
    case PickSize(n) => SetSize(c, n)
  }

  function PerformAll(c: CanvasState, actions: seq<Action>): CanvasState
    decreases |actions|
  {
    if |actions| == 0 then c else PerformAll(Perform(c, actions[0]), actions[1..])
  }

  /** Whatever the user does, from a new canvas, the gesture state stays
      valid: segments keep chaining even when colour, size or tool change
      mid-stroke. */
  lemma {:induction false} PerformAllKeepsValid(c: CanvasState, actions: seq<Action>)
    requires Valid(c)
    ensures Valid(PerformAll(c, actions))
    decreases |actions|
  {
    if |actions| > 0 {
      PerformAllKeepsValid(Perform(c, actions[0]), actions[1..]);
    }
  }
}
