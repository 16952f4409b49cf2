# react-grid-rnd, modelled in Dafny

`react-grid-rnd` wraps the `react-rnd` drag/resize panel so that it snaps to a
grid. It has two parts, and this project models both:

- **The grid quantizer** (`createGridWith`). It refuses a grid size that is not
  positive. Otherwise it returns `num => Math.round(num / gridSize) * gridSize`.
  `grid` in `src/index.tsx` is the same formula with the size fixed at 50.
- **The gesture interceptor** (`useGridRnd`). Five adapters sit between the
  primitive and the caller's callbacks:
  - `onDrag` moves a translucent mask so that it previews the snapped previous position.
  - `onDragStop` resets the mask and hands the caller a snapped position.
  - `onResizeStart` and `onResizeStop` add and remove the live element's
    "resizing" class.
  - `onResize` sizes the mask to the snapped bounding box.
  - `onResizeStop` also sizes the live element itself to the snapped box.

Files:

- `Wrappers.dfy`: the `Option` and `Result` datatypes.
- `Quantizer.dfy`: `src/utils/createGridWith.ts`. `JsRound` is JavaScript's
  `Math.round(num / den)` on integers: floor(num/den + 1/2), computed as
  `(2*num + den) / (2*den)`. `Quantize` is the closure. `CreateGridWith` returns
  `Failure(GridSizeNotPositive(size))` where the source throws. The lemmas show
  that the closure gives the unique nearest multiple, with ties going upward,
  and that it is idempotent and monotone.
- `GridRnd.dfy`: `src/index.tsx`.
  - `Grid` is the fixed-size quantizer.
  - `HookState` lists every DOM property the adapters write, plus the history
    of calls they forwarded to the caller.
  - `Step` gives the effect of one adapter on that state. `Run` applies a
    sequence of events.
  - The class `Interceptor` holds the same state as mutable fields. It has one
    method per adapter, and each method's new `State()` is `Step` of the old one.
- Inputs become parameters:
  - the bounding box the source measures with `getBoundingClientRect()`;
  - whether the caller supplied the matching callback (a boolean);
  - the primitive's event object (an opaque `NativeEvent`).
- The mask's inline `transform`, `width` and `height` are `Option`s. `None`
  means the property is unset (the empty string). For the transform, `None` is
  the neutral value. `Some(Offset(dx, dy))` stands for `translate(dx px, dy px)`.
- The live element's inline `width` and `height` are `Option`s too. There
  `None` means no adapter has written them yet; the primitive sizes the element
  from its own props.

Three facts about the code that the model keeps:

- `Math.round` rounds half toward +infinity, so `Grid(-25) == 0`
  (`Quantizer.TiesRoundUpward`).
- `onResizeStop` forwards the primitive's original arguments, not a snapped
  size (src/index.tsx:89). It snaps only the live element's inline style
  (`GridRnd.ResizeStopSnapsLiveElement`).
- `index.tsx` fixes the cell at 50 (src/index.tsx:9). Only `createGridWith`
  takes a size.

## Model

| member | source | states |
|---|---|---|
| Quantizer.JsRound | src/utils/createGridWith.ts:5 | `Math.round(num/den)` is the integer r with r - 1/2 <= num/den < r + 1/2, so ties go to the larger integer |
| Quantizer.Quantize | src/utils/createGridWith.ts:5 | the closure's result is a multiple of gridSize and lies in (v - gridSize/2, v + gridSize/2] |
| Quantizer.CreateGridWith | src/utils/createGridWith.ts:1-6 | fails exactly when gridSize <= 0, and no default is substituted; the rejected size inside the error is the model's addition, the thrown `Error` carries only a message. Otherwise every value the closure returns is a multiple of gridSize |
| Quantizer.NearestMultipleIsUnique | src/utils/createGridWith.ts:5 | any multiple k*gridSize in (v - gridSize/2, v + gridSize/2] is the closure's result, so "nearest multiple, ties upward" fully defines it |
| Quantizer.QuantizeNearest | src/utils/createGridWith.ts:5 | the result is at most half a cell from v, and no multiple of gridSize is closer |
| Quantizer.MultipleIsFixedPoint | src/utils/createGridWith.ts:5 | every multiple k*gridSize maps to itself |
| Quantizer.QuantizeIdempotent | src/utils/createGridWith.ts:5 | snapping an already snapped value changes nothing |
| Quantizer.QuantizeMonotone | src/utils/createGridWith.ts:5 | v1 <= v2 implies g(v1) <= g(v2) |
| Quantizer.ZeroSizeRejected | test/createGridWith.test.tsx:15-17 | createGridWith(0) fails |
| Quantizer.NegativeSizeRejected | test/createGridWith.test.tsx:11-13 | createGridWith(-5) fails |
| Quantizer.SizeTwentyExamples | test/createGridWith.test.tsx:4-9 | with size 20, 15 maps to 20 and 143 maps to 140 |
| Quantizer.TiesRoundUpward | src/utils/createGridWith.ts:5 | with size 50: 25 maps to 50, -25 to 0, 149 to 150, 0 to 0 and -30 to -50 |
| GridRnd.Grid | src/index.tsx:9 | `grid(n)` is a multiple of 50 and lies in (n - 25, n + 25] |
| GridRnd.Initial | src/index.tsx:128 | at mount the mask has no transform or size written, the resizing class is absent, the live element's size is unwritten and nothing has been forwarded |
| GridRnd.Delivery | src/index.tsx:23-25 | each event is forwarded as the callback of the same kind with the same event object. Drag, resize-start, resize and resize-stop arguments go unchanged; drag-stop data keeps every field but x and y, which are multiples of 50 (also lines 37-45, 55-57, 72-74, 88-90) |
| GridRnd.Forward | src/index.tsx:37-45 | a handler forwards one call exactly when the caller supplied that callback, and that call is the event's delivery (also lines 23-25, 55-57, 72-74, 88-90) |
| GridRnd.Step | src/index.tsx:14-93 | one handler leaves mask presence alone and appends exactly its forwarded calls. Only resize start and stop set the resizing class, to true and false. Only resize stop writes the live size, only resize writes the mask size, only drag and drag stop write the mask transform, and nothing touches the mask when it is absent |
| GridRnd.GridIsCreateGridWith50 | src/index.tsx:9 | `grid` is the closure createGridWith(50), so it inherits every quantizer property above |
| GridRnd.DragOffset | src/index.tsx:19-21 | live position plus mask offset equals the snapped previous position, a multiple of 50 on both axes |
| GridRnd.SnappedData | src/index.tsx:40-44 | the drag-stop data keeps every field except x and y, which become their nearest multiples of 50 |
| GridRnd.DragPreviewsSnappedPosition | src/index.tsx:14-28 | onDrag: with the mask present, the mask offset moves the element onto grid(lastX), grid(lastY). Without the mask, nothing on the mask changes. The raw args are forwarded only when a callback exists. Nothing else changes |
| GridRnd.DragStopSnapsForwardedPosition | src/index.tsx:30-49 | onDragStop: the mask transform becomes neutral when the mask is present. The caller gets the data with x and y snapped and every other field intact. Nothing else changes |
| GridRnd.ResizeStartMarksResizing | src/index.tsx:51-60 | onResizeStart: the resizing class is set, the raw args are forwarded when a callback exists, and nothing else changes |
| GridRnd.ResizePreviewsSnappedSize | src/index.tsx:62-77 | onResize: the mask, when present, gets the snapped bounding-box width and height. The live element's size and class are untouched, and the raw args are forwarded |
| GridRnd.ResizeStopSnapsLiveElement | src/index.tsx:79-93 | onResizeStop: the resizing class is cleared and the live element's inline size is the snapped bounding box. The mask is untouched. The original args are forwarded, not a snapped size |
| GridRnd.EffectsDoNotDependOnCallback | src/index.tsx:23-25 | without a callback, an adapter's own effects are the same as with one and nothing is forwarded. With one, exactly one call is forwarded (also lines 37, 55, 72, 88) |
| GridRnd.DragStopExample | src/index.tsx:37-45 | a drag stop at (173, 212) delivers (150, 200) |
| GridRnd.ResizeStopExample | src/index.tsx:84-89 | a resize stop measuring 243 x 198 sets the live element to 250 x 200 and forwards the raw args |
| GridRnd.LatestMarkerDecidesResizing | src/index.tsx:53 | after any sequence of events, the resizing class is present exactly when the latest ResizeStart/ResizeStop was a ResizeStart (line 53 adds it, line 82 removes it) |
| GridRnd.OnlyMarkersChangeResizing | src/index.tsx:14-49 | drags, drag stops and resize moves never touch the resizing class (also lines 62-77) |
| GridRnd.RunForwardsDeliveries | src/index.tsx:13-102 | over any sequence of events, the calls forwarded to the caller are exactly those the events determine, in order, whatever the DOM state |
| GridRnd.DragStopsStayOnGrid | src/index.tsx:38-45 | every position ever delivered on drag stop is a multiple of 50 on both axes |
| GridRnd.DragStopLeavesMaskNeutral | src/index.tsx:33-35 | with the mask present, after a drag stop and no later drag move, the mask transform is neutral whatever other events follow (line 21 is the only other write) |
| GridRnd.MaskPresenceIsStable | src/index.tsx:128 | no event mounts or removes the mask element |
| GridRnd.Interceptor.constructor | src/index.tsx:128-129 | a new instance has nothing written and nothing forwarded. Whether the mask is present is a parameter |
| GridRnd.Interceptor.OnDrag | src/index.tsx:14-28 | the fields after the call are Step of the fields before, for a drag event |
| GridRnd.Interceptor.OnDragStop | src/index.tsx:30-49 | the fields after the call are Step of the fields before, for a drag-stop event |
| GridRnd.Interceptor.OnResizeStart | src/index.tsx:51-60 | the fields after the call are Step of the fields before, for a resize-start event |
| GridRnd.Interceptor.OnResize | src/index.tsx:62-77 | the fields after the call are Step of the fields before, for a resize event with the measured box |
| GridRnd.Interceptor.OnResizeStop | src/index.tsx:79-93 | the fields after the call are Step of the fields before, for a resize-stop event with the measured box |

## Left out

- React plumbing (`useCallback`/`useMemo` memoisation, `useRef`, the JSX of `GridRnd`): it holds no logic of its own.
  The mask reference starts as an empty object, not null (src/index.tsx:128), so in the source the mask counts as present from the first render on. The constructor takes presence as a parameter.
- Before mount, that empty object has no `style`, so a mask write would throw. The model assumes a present mask is a mounted element.
- The styled-components CSS and the dragging class: they are presentational, and the primitive owns the dragging class.
- The `react-rnd` primitive: pointer capture, bounds and `getBoundingClientRect` measurement. Measurements and event data are method parameters.
- The element reference passed to the resize callbacks is not recorded in the forwarded calls. In this component it is always the panel's own element, whose state the `Interceptor` fields already hold.
- The drag data's `node` field (the dragged DOM node) is not modelled. The spread at src/index.tsx:41 passes it on to the caller unchanged; `DraggableData` keeps only the numeric fields.
- String formatting: `translate(...)` and `${n}px` are numeric fields, not strings.
- Floating point: `Number(num) / gridSize` and `Math.round` are modelled on integers. Non-integer pixel values and grid sizes, NaN, infinities and `-0` are not modelled.
- The Storybook demo (stories/GridRnd.stories.tsx) holds React state only.
- Re-entrant callbacks that start a new gesture inside a forwarded call are not modelled. Each forwarded call is only recorded.
