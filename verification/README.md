# react-draw-lines: the line-drawing canvas, modelled in Dafny

The application lets an operator trace a path over a floor-plan image by
clicking on a canvas. This project models the two pieces of that code that
carry logic:

- **The canvas component's click state machine** (`src/components/Canvas.tsx`).
  The component keeps a list of committed lines and an optional pivot
  (`currentStart`). The first click sets the pivot. Every later click commits
  a line from the pivot to the click point and moves the pivot there, so the
  lines form one chained polyline. Mouse moves only record the pointer while a
  pivot exists; the preview line runs from the pivot to the pointer. Line `i`
  is stroked red (`#D80300`) when `i` is even and green (`#39FF14`) otherwise.
  The preview takes the colour of index `lines.length`. Each committed line
  stores its length, printed with five decimals and read back.
- **The shared length helper** `calculateLineLength` (`src/utils/calculations.tsx`).
  It returns `Math.round(Math.sqrt(dx² + dy²))`. Over whole-pixel coordinates,
  and with the exact square root, this is the nearest integer to √d with
  d = dx² + dy². A tie is impossible, because (n + ½)² is never a whole number.
  The double-precision square root can disagree once d is around 2^50 or more
  (see "## Left out"). The model states it without reals:
  n is the result exactly when 4d < (2n+1)² and, for n > 0, (2n−1)² ≤ 4d.

Modules: `Types` (points, the optional pivot, the line record), `Calculations`
(`calculations.tsx`) and `CanvasComponent` (`Canvas.tsx`, with the class
`Canvas` holding the component state).

The class `Canvas` keeps a ghost record `clicks` of every handled click. Its
invariant `Valid()` says that the lines are `Polyline(FixedLength, clicks)`
and the pivot is the last click. `Polyline` is a reference definition with one
line per pair of consecutive clicks. It takes the length function as a
parameter (`measure`), so its lemmas hold for any stored length; the
component passes `FixedLength`. The lemmas about `Polyline` give the chaining, counting
and append-only properties. The two handlers are proved against it.

The component defines its own length function (`Canvas.tsx:29-31`). It is
distinct from the utilities' rounded length. The model keeps the two apart:
`FixedLength` is the five-decimal value and `CalculateLineLength` the rounded
one. `FixedLengthIsNotRounded` exhibits a segment on which they differ.

`src/utils/types.tsx:13-23` declares a `Dot` record (pixel and meter
positions, a zone id), `src/utils/savesUtils.tsx` sends lists of lines, dots
and zones to the server, and `src/App.tsx:34-36` shows hints for the Z, X and
C keys. No code in the repository computes with dots or zones or handles those
keys, so none of it is modelled. The committed line
in the code holds only `start`, `end` and `length`. The `color` and `index`
fields declared in `types.tsx:5-11` are not stored by the component, so the
model follows the code and derives the colour from the position in the list.

## Model

| member | source | states |
|---|---|---|
| `Calculations.CalculateLineLength` | src/utils/calculations.tsx:1-3 | the result n is the nearest integer to √(dx²+dy²): 4d < (2n+1)² and, when n > 0, (2n−1)² ≤ 4d; it is a natural number |
| `Calculations.IntSqrt` | src/utils/calculations.tsx:2 | the floor square root: r² ≤ d < (r+1)² |
| `Calculations.NearestSqrt` | src/utils/calculations.tsx:2 | rounding the square root of a whole number half up lands within half a unit of √d, as the nearest-integer bounds say |
| `Calculations.NearestSqrtUnique` | src/utils/calculations.tsx:2 | at most one natural number meets the nearest-integer bounds, so they determine the length |
| `Calculations.NearestSqrtOfSquare` | src/utils/calculations.tsx:2 | the rounded root of a perfect square k² is exactly k |
| `Calculations.NearestSqrtIsNearest` | src/utils/calculations.tsx:2 | every other whole k is at least as far from √d as the result: √d lies on the result's side of the midpoint (n+k)/2 |
| `Calculations.LineLengthSymmetric` | src/utils/calculations.tsx:2 | swapping start and end gives the same length |
| `Calculations.LineLengthZero` | src/utils/calculations.tsx:2 | a segment whose ends coincide has length 0 |
| `Calculations.LineLengthTranslation` | src/utils/calculations.tsx:2 | moving both ends by the same vector leaves the length unchanged |
| `Calculations.LineLengthAxisAligned` | src/utils/calculations.tsx:2 | a horizontal segment measures exactly abs(dx), a vertical one exactly abs(dy) |
| `Calculations.LineLengthThreeFourFive` | src/utils/calculations.tsx:2 | (0,0) to (3,4) measures 5 |
| `Calculations.LineLengthIs` | src/utils/calculations.tsx:2 | any natural number meeting the nearest-integer bounds is the length, so the bounds characterise the result completely |
| `Calculations.LineLengthRoundsDown` | src/utils/calculations.tsx:2 | (0,0) to (1,2), √5 ≈ 2.24, measures 2 |
| `Calculations.LineLengthRoundsUp` | src/utils/calculations.tsx:2 | (0,0) to (2,2), √8 ≈ 2.83, measures 3: the length rounds rather than truncates |
| `CanvasComponent.FixedLengthUnits` | src/components/Canvas.tsx:29-31 | the five-decimal length, in hundred-thousandths of a pixel, is the nearest integer to 100000·√d |
| `CanvasComponent.FixedLength` | src/components/Canvas.tsx:43-44 | the length stored with a committed line is never negative |
| `CanvasComponent.FixedLengthAxisAligned` | src/components/Canvas.tsx:29-31 | the stored length of a horizontal line is exactly abs(dx) |
| `CanvasComponent.FixedLengthIsNotRounded` | src/components/Canvas.tsx:29-31 | the component's length is not the utilities' one: the unit diagonal is stored as 1.41421 where `calculateLineLength` gives 1 |
| `CanvasComponent.StrokeStyle` | src/components/Canvas.tsx:84 | a committed line is stroked in one of the two colours, red or green |
| `CanvasComponent.StrokeStyleAlternates` | src/components/Canvas.tsx:135 | two lines share a colour exactly when their indices have the same parity; neighbouring lines always differ |
| `CanvasComponent.Strokes` | src/components/Canvas.tsx:130-137 | one stroke per committed line, in order, from the line's start to its end; the first is red and neighbouring strokes never share a colour |
| `CanvasComponent.TemporaryStroke` | src/components/Canvas.tsx:98-101 | there is a preview exactly when a pivot exists; it runs from the pivot to the pointer and its colour differs from that of the last committed line |
| `CanvasComponent.ToCanvas` | src/components/Canvas.tsx:37-39 | subtracting the canvas's top-left corner is undone by adding it back, and the canvas origin is the one client point that maps to (0,0) |
| `CanvasComponent.PolylineClick` | src/components/Canvas.tsx:41-49 | a click before any pivot commits nothing; a click with a pivot appends exactly the segment from the pivot to the click and keeps every earlier line |
| `CanvasComponent.PolylineLength` | src/components/Canvas.tsx:33-50 | from the empty state, k ≥ 1 clicks commit exactly k − 1 lines, and no clicks commit none |
| `CanvasComponent.PolylineAt` | src/components/Canvas.tsx:44-45 | for every pair of consecutive clicks i, i + 1 there is a line i, and it runs from click i to click i + 1 and stores the measured length of that pair |
| `CanvasComponent.PolylineChained` | src/components/Canvas.tsx:44-45 | consecutive lines chain (`lines[i].end == lines[i+1].start`), and when there are lines the pivot is the last line's end |
| `CanvasComponent.PolylineGrows` | src/components/Canvas.tsx:44 | later clicks never remove or alter a committed line: the old lines are a prefix of the new ones |
| `CanvasComponent.PreviewIsNextStroke` | src/components/Canvas.tsx:98-101 | the preview line from the pivot to the pointer, with its colour chosen by `lines.length`, is exactly the stroke that clicking at the pointer commits |
| `CanvasComponent.Canvas.constructor` | src/components/Canvas.tsx:9-11 | the component starts with no lines, no pivot and no pointer position |
| `CanvasComponent.Canvas.HandleCanvasClick` | src/components/Canvas.tsx:33-50 | an unmounted canvas ignores the click; otherwise the click point becomes the pivot and, if a pivot existed, one line from it to the click is appended; afterwards the lines are chained, the pivot is the last end, the line count is clicks − 1, and the appended stroke equals the preview drawn, before the click, from the old pivot to the click point |
| `CanvasComponent.Canvas.HandleMouseMove` | src/components/Canvas.tsx:52-63 | lines and pivot never change; the pointer position is recorded only when a pivot exists and the canvas is mounted |

## Left out

- Image loading and all painting on the canvas (`Canvas.tsx:14-27`, the painting in `drawTemporaryLine` and `drawLines`, the endpoint dots, the JSX list of lengths). These are rendering side effects. The geometry and colour of each stroke are modelled as data by `Strokes` and `TemporaryStroke`; the `canvasRef.current`/`ctx` early returns of the painting code (`Canvas.tsx:69`, `Canvas.tsx:120`) only guard the painting.
- `drawPerpendicularLine` (`calculations.tsx:5-24`): trigonometry plus canvas calls.
- `src/utils/savesUtils.tsx`, the map fetch in `src/App.tsx`, `src/pages/MapSelector.tsx` and `src/setupProxy.js`: HTTP I/O, page layout and dev-server configuration.
- `src/utils/isMouseOverLine.tsx`: a floating-point distance-sum test with a 0.01 tolerance, whose meaning depends on rounding error.
- Fractional pixel coordinates: browser coordinates are doubles, and points are modelled as whole pixels. Loss of precision in `Math.pow` and the sum once dx² + dy² passes 2^53 is not modelled either.
- Calculations.CalculateLineLength: the model takes the exact square root. The double `Math.sqrt` rounds its result to 53 bits, so once d is about 2^50 or more it can return exactly n + ½ where the true root is just below it, and `Math.round` then gives n + 1 where the model gives n. For example, (0,0) to (−32679914, 7610762) has d = 33554440·33554441, `Math.sqrt(d)` is 33554440.5, and the source returns 33554441 while the model returns 33554440.
- CanvasComponent.FixedLength: computed over exact reals. The rounding error of the double-precision `Math.sqrt`, of `toFixed(5)` and of `parseFloat` is not modelled. Its contract only says the value is non-negative; `FixedLengthUnits` carries the exact five-decimal meaning.
- The canvas's bounding rectangle and the `canvasRef.current` check are inputs to the handlers (`bounds`, `None` when unmounted), not read from a DOM.
- React's asynchronous state updates: each handler is modelled as acting on the state of the previous event. This matches the component because every event is handled after the re-render of the previous one.
- The `Dot` record (`types.tsx:13-23`) and the saving of dots and zones (`savesUtils.tsx:24-62`): declarations and HTTP requests, with no computation on them in the code.
