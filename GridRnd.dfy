/**
 * The gesture interceptor of src/index.tsx: the fixed 50-pixel snapping
 * function `grid`, and the five adapters built by `useGridRnd` that sit
 * between the drag/resize primitive and the caller's own callbacks.
 *
 * The DOM state the adapters write is the class `Interceptor`:
 *   - the mask overlay's inline `transform` (a translation, or unset) and its
 *     inline width/height;
 *   - the live panel element's "resizing" class and its inline width/height;
 *   - the history of calls forwarded to the caller.
 * Each adapter is a method whose new state is `Step` of the old one; the
 * pure `Step` and its fold `Run` carry the properties proved below.
 *
 * The primitive's measurement `getBoundingClientRect()` arrives as a method
 * argument, and "the caller supplied this callback" as a boolean argument.
 */
module GridRnd {
  import opened Wrappers
  import opened Quantizer

  /** The cell size hard-wired into `grid`. */
  const CellSize: int := 50

  /** `grid`: snap a pixel value to the nearest multiple of 50, ties upward. */
  function Grid(num: int): (r: int)
    ensures r % CellSize == 0
    ensures -CellSize <= 2 * (num - r) < CellSize
  {
    MultipleMod(JsRound(num, CellSize), CellSize);
    JsRound(num, CellSize) * CellSize
  }

  /** The primitive's native event; only its identity is relayed. */
  datatype NativeEvent = NativeEvent(id: int)

  /** The drag data the primitive reports: current, previous and delta position. */
  datatype DraggableData = DraggableData(x: int, y: int, deltaX: int, deltaY: int, lastX: int, lastY: int)

  /** The handle being dragged in a resize. */
  datatype Direction = Top | Right | Bottom | Left | TopRight | BottomRight | BottomLeft | TopLeft

  /** How far the size has changed since the resize began. */
  datatype ResizableDelta = ResizableDelta(width: int, height: int)

  /** The panel's position as the primitive reports it during a resize. */
  datatype Position = Position(x: int, y: int)

  /** The live element's measured bounding box. */
  datatype Size = Size(width: int, height: int)

  /** The mask's `translate(dx px, dy px)`. */
  datatype Offset = Offset(dx: int, dy: int)

  /** One call made to a caller-supplied callback, with the arguments it received. */
  datatype Forwarded =
    | DragForwarded(e: NativeEvent, data: DraggableData)
    | DragStopForwarded(e: NativeEvent, data: DraggableData)
    | ResizeStartForwarded(e: NativeEvent, dir: Direction)
    | ResizeForwarded(e: NativeEvent, dir: Direction, delta: ResizableDelta, position: Position)
    | ResizeStopForwarded(e: NativeEvent, dir: Direction, delta: ResizableDelta, position: Position)

  /**
   * One event from the primitive, with the bounding box measured for the
   * resize events and whether the caller supplied the matching callback.
   */
  datatype Gesture =
    | Drag(e: NativeEvent, data: DraggableData, hasCallback: bool)
    | DragStop(e: NativeEvent, data: DraggableData, hasCallback: bool)
    | ResizeStart(e: NativeEvent, dir: Direction, hasCallback: bool)
    | Resize(e: NativeEvent, dir: Direction, delta: ResizableDelta, position: Position, bbox: Size, hasCallback: bool)
    | ResizeStop(e: NativeEvent, dir: Direction, delta: ResizableDelta, position: Position, bbox: Size, hasCallback: bool)

  /**
   * Everything the adapters write. `None` in a mask style property means it
   * is unset (the empty string), so `maskTransform == None` is the neutral
   * transform; `None` in the live element's `width`/`height` means no adapter
   * has written it (the primitive sizes the element from its own props).
   */
  datatype HookState = HookState(
    maskPresent: bool,
    maskTransform: Option<Offset>,
    maskWidth: Option<int>,
    maskHeight: Option<int>,
    resizing: bool,
    width: Option<int>,
    height: Option<int>,
    forwarded: seq<Forwarded>)

  /** The state at mount: nothing written, nothing forwarded. */
  function Initial(maskPresent: bool): (r: HookState)
    ensures r.maskPresent == maskPresent && !r.resizing && r.forwarded == []
    ensures r.maskTransform == None && r.maskWidth == None && r.maskHeight == None
    ensures r.width == None && r.height == None
    ensures DragStopsOnGrid(r.forwarded)
  {
    HookState(maskPresent, None, None, None, false, None, None, [])
  }

  /**
   * The mask offset written while dragging: minus the distance from the
   * snapped previous position to the current one, so that the live element
   * plus the offset sits on the grid.
   */
  function DragOffset(data: DraggableData): (o: Offset)
    ensures data.x + o.dx == Grid(data.lastX) && data.y + o.dy == Grid(data.lastY)
    ensures (data.x + o.dx) % CellSize == 0 && (data.y + o.dy) % CellSize == 0
  {
    var diffX := data.x - Grid(data.lastX);
    var diffY := data.y - Grid(data.lastY);
    Offset(-diffX, -diffY)
  }

  /** The drag data handed to the caller on drag stop: position snapped, all else kept. */
  function SnappedData(data: DraggableData): (r: DraggableData)
    ensures r.x % CellSize == 0 && r.y % CellSize == 0
    ensures -CellSize <= 2 * (data.x - r.x) < CellSize && -CellSize <= 2 * (data.y - r.y) < CellSize
    ensures r.(x := data.x, y := data.y) == data
  {
    data.(x := Grid(data.x), y := Grid(data.y))
  }

  /** What the caller's callback receives for a gesture: raw arguments, except the snapped drag stop. */
  function Delivery(g: Gesture): (r: Forwarded)
    ensures r.e == g.e
    ensures g.Drag? <==> r.DragForwarded?
    ensures g.DragStop? <==> r.DragStopForwarded?
    ensures g.ResizeStart? <==> r.ResizeStartForwarded?
    ensures g.Resize? <==> r.ResizeForwarded?
    ensures g.ResizeStop? <==> r.ResizeStopForwarded?
    ensures g.Drag? ==> r.data == g.data
    ensures g.DragStop? ==> r.data.(x := g.data.x, y := g.data.y) == g.data
    ensures g.DragStop? ==> r.data.x % CellSize == 0 && r.data.y % CellSize == 0
    ensures !g.Drag? && !g.DragStop? ==> r.dir == g.dir
    ensures (g.Resize? || g.ResizeStop?) ==> r.delta == g.delta && r.position == g.position
  {
    match g
    case Drag(e, data, _) => DragForwarded(e, data)
    case DragStop(e, data, _) => DragStopForwarded(e, SnappedData(data))
    case ResizeStart(e, dir, _) => ResizeStartForwarded(e, dir)
    case Resize(e, dir, delta, position, _, _) => ResizeForwarded(e, dir, delta, position)
    case ResizeStop(e, dir, delta, position, _, _) => ResizeStopForwarded(e, dir, delta, position)
  }

  /** The calls forwarded for a gesture: its delivery if the caller has that callback. */
  function Forward(g: Gesture): (r: seq<Forwarded>)
    ensures r != [] <==> g.hasCallback
    ensures forall i :: 0 <= i < |r| ==> r[i] == Delivery(g)
    ensures |r| <= 1
  {
    if g.hasCallback then [Delivery(g)] else []
  }

  /** The effect of one adapter on the state. */
  function Step(s: HookState, g: Gesture): (r: HookState)
    ensures r.maskPresent == s.maskPresent
    ensures r.forwarded == s.forwarded + Forward(g)
    ensures IsResizeMarker(g) ==> r.resizing == g.ResizeStart?
    ensures !IsResizeMarker(g) ==> r.resizing == s.resizing
    ensures !g.ResizeStop? ==> r.width == s.width && r.height == s.height
    ensures !g.Resize? ==> r.maskWidth == s.maskWidth && r.maskHeight == s.maskHeight
    ensures !g.Drag? && !g.DragStop? ==> r.maskTransform == s.maskTransform
    ensures !s.maskPresent ==> r.maskTransform == s.maskTransform && r.maskWidth == s.maskWidth && r.maskHeight == s.maskHeight
  {
    match g
    case Drag(_, data, _) =>
      s.(maskTransform := if s.maskPresent then Some(DragOffset(data)) else s.maskTransform,
         forwarded := s.forwarded + Forward(g))
    case DragStop(_, _, _) =>
      s.(maskTransform := if s.maskPresent then None else s.maskTransform,
         forwarded := s.forwarded + Forward(g))
    case ResizeStart(_, _, _) =>
      s.(resizing := true, forwarded := s.forwarded + Forward(g))
    case Resize(_, _, _, _, bbox, _) =>
      s.(maskHeight := if s.maskPresent then Some(Grid(bbox.height)) else s.maskHeight,
         maskWidth := if s.maskPresent then Some(Grid(bbox.width)) else s.maskWidth,
         forwarded := s.forwarded + Forward(g))
    case ResizeStop(_, _, _, _, bbox, _) =>
      s.(resizing := false, width := Some(Grid(bbox.width)), height := Some(Grid(bbox.height)),
         forwarded := s.forwarded + Forward(g))
  }

  /** The state after a sequence of events, delivered one at a time. */
  function Run(s: HookState, gs: seq<Gesture>): HookState
    decreases |gs|
  {
    if gs == [] then s else Step(Run(s, gs[..|gs| - 1]), gs[|gs| - 1])
  }

  /** All calls forwarded for a sequence of events, in order. */
  function Deliveries(gs: seq<Gesture>): seq<Forwarded>
    decreases |gs|
  {
    if gs == [] then [] else Deliveries(gs[..|gs| - 1]) + Forward(gs[|gs| - 1])
  }

  /** The two events that toggle the live element's "resizing" class. */
  predicate IsResizeMarker(g: Gesture) {
    g.ResizeStart? || g.ResizeStop?
  }

  /** Every drag stop ever forwarded carried a position on the grid. */
  predicate DragStopsOnGrid(fs: seq<Forwarded>) {
    forall i :: 0 <= i < |fs| && fs[i].DragStopForwarded? ==>
      fs[i].data.x % CellSize == 0 && fs[i].data.y % CellSize == 0
  }

  // ---------------------------------------------------------------------
  // The adapters one by one
  // ---------------------------------------------------------------------

  /** `grid` is `createGridWith(50)`. */
  lemma GridIsCreateGridWith50(n: int)
    ensures CreateGridWith(CellSize).Success?
    ensures CreateGridWith(CellSize).value(n) == Grid(n)
  {
  }

  /**
   * onDrag: with the mask present, the mask is moved so that it shows the
   * snapped previous position; without it, the mask is untouched. The
   * caller gets the raw data, and nothing else changes.
   */
  lemma DragPreviewsSnappedPosition(s: HookState, e: NativeEvent, data: DraggableData, cb: bool)
    ensures var t := Step(s, Drag(e, data, cb));
      && (s.maskPresent ==>
            t.maskTransform.Some? &&
            data.x + t.maskTransform.value.dx == Grid(data.lastX) &&
            data.y + t.maskTransform.value.dy == Grid(data.lastY))
      && (!s.maskPresent ==> t.maskTransform == s.maskTransform)
      && t.forwarded == s.forwarded + (if cb then [DragForwarded(e, data)] else [])
      && t.(maskTransform := s.maskTransform, forwarded := s.forwarded) == s
  {
  }

  /**
   * onDragStop: the mask transform goes back to neutral (when the mask is
   * present), and the caller gets the data with x, y snapped: multiples of
   * 50, every other field unchanged.
   */
  lemma DragStopSnapsForwardedPosition(s: HookState, e: NativeEvent, data: DraggableData, cb: bool)
    ensures var t := Step(s, DragStop(e, data, cb));
      && (s.maskPresent ==> t.maskTransform == None)
      && (!s.maskPresent ==> t.maskTransform == s.maskTransform)
      && t.forwarded == s.forwarded + (if cb then [DragStopForwarded(e, data.(x := Grid(data.x), y := Grid(data.y)))] else [])
      && t.(maskTransform := s.maskTransform, forwarded := s.forwarded) == s
  {
  }

  /** onResizeStart: the resizing class is set, the caller gets the raw arguments, nothing else changes. */
  lemma ResizeStartMarksResizing(s: HookState, e: NativeEvent, dir: Direction, cb: bool)
    ensures var t := Step(s, ResizeStart(e, dir, cb));
      && t.resizing
      && t.forwarded == s.forwarded + (if cb then [ResizeStartForwarded(e, dir)] else [])
      && t.(resizing := s.resizing, forwarded := s.forwarded) == s
  {
  }

  /**
   * onResize: the mask (when present) is sized to the snapped bounding box;
   * the live element's own size and class are untouched, and the caller gets
   * the raw arguments.
   */
  lemma ResizePreviewsSnappedSize(s: HookState, e: NativeEvent, dir: Direction, delta: ResizableDelta,
                                  position: Position, bbox: Size, cb: bool)
    ensures var t := Step(s, Resize(e, dir, delta, position, bbox, cb));
      && (s.maskPresent ==> t.maskWidth == Some(Grid(bbox.width)) && t.maskHeight == Some(Grid(bbox.height)))
      && (!s.maskPresent ==> t.maskWidth == s.maskWidth && t.maskHeight == s.maskHeight)
      && t.width == s.width && t.height == s.height && t.resizing == s.resizing
      && t.forwarded == s.forwarded + (if cb then [ResizeForwarded(e, dir, delta, position)] else [])
      && t.(maskWidth := s.maskWidth, maskHeight := s.maskHeight, forwarded := s.forwarded) == s
  {
  }

  /**
   * onResizeStop: the resizing class is removed and the live element itself
   * is sized to the snapped bounding box; the mask is untouched, and the
   * caller gets the original arguments, not a snapped size.
   */
  lemma ResizeStopSnapsLiveElement(s: HookState, e: NativeEvent, dir: Direction, delta: ResizableDelta,
                                   position: Position, bbox: Size, cb: bool)
    ensures var t := Step(s, ResizeStop(e, dir, delta, position, bbox, cb));
      && !t.resizing
      && t.width == Some(Grid(bbox.width)) && t.height == Some(Grid(bbox.height))
      && t.maskTransform == s.maskTransform && t.maskWidth == s.maskWidth && t.maskHeight == s.maskHeight
      && t.forwarded == s.forwarded + (if cb then [ResizeStopForwarded(e, dir, delta, position)] else [])
      && t.(resizing := s.resizing, width := s.width, height := s.height, forwarded := s.forwarded) == s
  {
  }

  /**
   * Without a callback an adapter still has all its own effects, and
   * forwards nothing; with one, its effects are the same and one call is added.
   */
  lemma EffectsDoNotDependOnCallback(s: HookState, g: Gesture)
    ensures Step(s, g.(hasCallback := false)).forwarded == s.forwarded
    ensures Step(s, g).(forwarded := s.forwarded) == Step(s, g.(hasCallback := false))
    ensures g.hasCallback ==> Step(s, g).forwarded == s.forwarded + [Delivery(g)]
  {
  }

  /** A drag stop at (173, 212) delivers (150, 200). */
  lemma DragStopExample(s: HookState, e: NativeEvent, data: DraggableData)
    requires data.x == 173 && data.y == 212
    ensures Step(s, DragStop(e, data, true)).forwarded == s.forwarded + [DragStopForwarded(e, data.(x := 150, y := 200))]
  {
  }

  /**
   * A resize stop measuring 243 x 198 sets the live element to 250 x 200
   * and forwards the original arguments.
   */
  lemma ResizeStopExample(s: HookState, e: NativeEvent, dir: Direction, delta: ResizableDelta, position: Position)
    ensures var t := Step(s, ResizeStop(e, dir, delta, position, Size(243, 198), true));
      t.width == Some(250) && t.height == Some(200) && !t.resizing
      && t.forwarded == s.forwarded + [ResizeStopForwarded(e, dir, delta, position)]
  {
  }

  // ---------------------------------------------------------------------
  // Sequences of events
  // ---------------------------------------------------------------------

  /**
   * The resizing class reflects the latest ResizeStart or ResizeStop: it is
   * present from a ResizeStart until the next ResizeStop, absent after it,
   * whatever drags and resize moves come in between.
   */
  lemma {:induction false} LatestMarkerDecidesResizing(s: HookState, gs: seq<Gesture>, i: nat)
    requires i < |gs| && IsResizeMarker(gs[i])
    requires forall j :: i < j < |gs| ==> !IsResizeMarker(gs[j])
    ensures Run(s, gs).resizing == gs[i].ResizeStart?
    decreases |gs|
  {
    if i < |gs| - 1 {
      var pre := gs[..|gs| - 1];
      assert forall j :: i < j < |pre| ==> pre[j] == gs[j];
      LatestMarkerDecidesResizing(s, pre, i);
      assert !IsResizeMarker(gs[|gs| - 1]);
    }
  }

  /** Drags and resize moves alone never touch the resizing class. */
  lemma {:induction false} OnlyMarkersChangeResizing(s: HookState, gs: seq<Gesture>)
    requires forall j :: 0 <= j < |gs| ==> !IsResizeMarker(gs[j])
    ensures Run(s, gs).resizing == s.resizing
    decreases |gs|
  {
    if gs != [] {
      var pre := gs[..|gs| - 1];
      assert forall j :: 0 <= j < |pre| ==> pre[j] == gs[j];
      OnlyMarkersChangeResizing(s, pre);
      assert !IsResizeMarker(gs[|gs| - 1]);
    }
  }

  /**
   * The caller receives exactly the deliveries the events determine, in
   * order, whatever the DOM state.
   */
  lemma {:induction false} RunForwardsDeliveries(s: HookState, gs: seq<Gesture>)
    ensures Run(s, gs).forwarded == s.forwarded + Deliveries(gs)
    decreases |gs|
  {
    if gs != [] {
      RunForwardsDeliveries(s, gs[..|gs| - 1]);
    }
  }

  /** Every position the caller is given on drag stop is grid-aligned on both axes. */
  lemma {:induction false} DragStopsStayOnGrid(s: HookState, gs: seq<Gesture>)
    requires DragStopsOnGrid(s.forwarded)
    ensures DragStopsOnGrid(Run(s, gs).forwarded)
    decreases |gs|
  {
    if gs != [] {
      DragStopsStayOnGrid(s, gs[..|gs| - 1]);
      var t := Run(s, gs[..|gs| - 1]);
      var g := gs[|gs| - 1];
      var fs := Step(t, g).forwarded;
      forall i | 0 <= i < |fs| && fs[i].DragStopForwarded?
        ensures fs[i].data.x % CellSize == 0 && fs[i].data.y % CellSize == 0
      {
        if i >= |t.forwarded| {
          assert fs[i] == Delivery(g);
        } else {
          assert fs[i] == t.forwarded[i];
        }
      }
    }
  }

  /** The mask element is created once and stays: no event mounts or unmounts it. */
  lemma {:induction false} MaskPresenceIsStable(s: HookState, gs: seq<Gesture>)
    ensures Run(s, gs).maskPresent == s.maskPresent
    decreases |gs|
  {
    if gs != [] {
      MaskPresenceIsStable(s, gs[..|gs| - 1]);
    }
  }

  /**
   * With the mask present, the overlay stays neutral from a drag stop until
   * the next drag move, whatever resize events come in between.
   */
  lemma {:induction false} DragStopLeavesMaskNeutral(s: HookState, gs: seq<Gesture>, i: nat)
    requires s.maskPresent
    requires i < |gs| && gs[i].DragStop?
    requires forall j :: i < j < |gs| ==> !gs[j].Drag?
    ensures Run(s, gs).maskTransform == None
    decreases |gs|
  {
    var pre := gs[..|gs| - 1];
    MaskPresenceIsStable(s, pre);
    if i < |gs| - 1 {
      assert forall j :: i < j < |pre| ==> pre[j] == gs[j];
      DragStopLeavesMaskNeutral(s, pre, i);
      assert !gs[|gs| - 1].Drag?;
    }
  }

  // ---------------------------------------------------------------------
  // The adapters as they run, writing the DOM in place
  // ---------------------------------------------------------------------

  /**
   * The DOM state one GridRnd instance owns, and its five adapters. The
   * mask reference starts as an empty object rather than null, so it is
   * present from the first render on.
   */
  class Interceptor {
    var maskPresent: bool
    var maskTransform: Option<Offset>
    var maskWidth: Option<int>
    var maskHeight: Option<int>
    var resizing: bool
    var width: Option<int>
    var height: Option<int>
    var forwarded: seq<Forwarded>

    /** The fields as a value. */
    function State(): HookState
      reads this
    {
      HookState(maskPresent, maskTransform, maskWidth, maskHeight, resizing, width, height, forwarded)
    }

    constructor (maskMounted: bool)
      ensures State() == Initial(maskMounted)
    {
      maskPresent := maskMounted;
      maskTransform, maskWidth, maskHeight := None, None, None;
      resizing := false;
      width, height := None, None;
      forwarded := [];
    }

    method OnDrag(e: NativeEvent, data: DraggableData, hasCallback: bool)
      modifies this
      ensures State() == Step(old(State()), Drag(e, data, hasCallback))
    {
      if maskPresent {
        var diffX := data.x - Grid(data.lastX);
        var diffY := data.y - Grid(data.lastY);
        maskTransform := Some(Offset(-diffX, -diffY));
      }
      if hasCallback {
        forwarded := forwarded + [DragForwarded(e, data)];
      }
    }

    method OnDragStop(e: NativeEvent, data: DraggableData, hasCallback: bool)
      modifies this
      ensures State() == Step(old(State()), DragStop(e, data, hasCallback))
    {
      if maskPresent {
        maskTransform := None;
      }
      if hasCallback {
        forwarded := forwarded + [DragStopForwarded(e, data.(x := Grid(data.x), y := Grid(data.y)))];
      }
    }

    method OnResizeStart(e: NativeEvent, dir: Direction, hasCallback: bool)
      modifies this
      ensures State() == Step(old(State()), ResizeStart(e, dir, hasCallback))
    {
      resizing := true;
      if hasCallback {
        forwarded := forwarded + [ResizeStartForwarded(e, dir)];
      }
    }

    method OnResize(e: NativeEvent, dir: Direction, delta: ResizableDelta, position: Position,
                    bbox: Size, hasCallback: bool)
      modifies this
      ensures State() == Step(old(State()), Resize(e, dir, delta, position, bbox, hasCallback))
    {
      if maskPresent {
        maskHeight := Some(Grid(bbox.height));
        maskWidth := Some(Grid(bbox.width));
      }
      if hasCallback {
        forwarded := forwarded + [ResizeForwarded(e, dir, delta, position)];
      }
    }

    method OnResizeStop(e: NativeEvent, dir: Direction, delta: ResizableDelta, position: Position,
                        bbox: Size, hasCallback: bool)
      modifies this
      ensures State() == Step(old(State()), ResizeStop(e, dir, delta, position, bbox, hasCallback))
    {
      resizing := false;
      width := Some(Grid(bbox.width));
      height := Some(Grid(bbox.height));
      if hasCallback {
        forwarded := forwarded + [ResizeStopForwarded(e, dir, delta, position)];
      }
    }
  }

  /** A resize gesture as a caller sees it, using only the adapters' contracts. */
  method ResizeGestureScenario(e: NativeEvent, delta: ResizableDelta, position: Position)
  {
    var hooks := new Interceptor(true);
    hooks.OnResizeStart(e, BottomRight, true);
    assert hooks.resizing;
    hooks.OnResize(e, BottomRight, delta, position, Size(243, 198), true);
    assert hooks.resizing && hooks.maskWidth == Some(250) && hooks.maskHeight == Some(200);
    hooks.OnResizeStop(e, BottomRight, delta, position, Size(243, 198), true);
    assert !hooks.resizing && hooks.width == Some(250) && hooks.height == Some(200);
    assert hooks.forwarded[2] == ResizeStopForwarded(e, BottomRight, delta, position);
  }
}
