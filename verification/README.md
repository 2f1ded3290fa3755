# Shape-element state machine of SvgConverter

SvgConverter turns an SVG document into path records for a cutting/plotting
exporter. The SVG++ traversal engine walks the document and gives each shape
element (`<path>`, `<rect>`, …) its own `ShapeContext`. The engine first reduces
the shape to a few path commands. The context then receives three kinds of event:

- **Geometry events** (`path_move_to`, `path_line_to`, `path_cubic_bezier_to`,
  `path_close_subpath`). Each one appends a command to the context's local path.
- **Attribute events** for `stroke-dasharray`, `stroke` and `fill`. These update
  the dash list, the stroke flag and the fill pattern reference. A paint value the
  context does not support is only logged: a plain colour at debug level, anything
  else at warn level.
- **The element exit.** The context transforms the path by the composed coordinate
  transform. If the fill reference is non-empty, it loads the referenced pattern,
  seeded with the transformed outline. If the stroke is on, it hands the outline
  and the dash list to the exporter's `plot`.

The project models this as a pure state machine:

- `geometry.dfy` (module `Geometry`): points, the four path commands, and applying
  a coordinate transform to a path. The transform is kept abstract, as any total
  map on points.
- `paint.dfy` (module `Paint`): the paint values the engine delivers, and the
  severity chosen for an unsupported one.
- `shape.dfy` (module `Shape`): the context record, one function per event handler
  of the class, `Step` (deliver one event) and `Replay` (deliver a sequence of
  events). Side effects become an effect trace: `Log(severity, attribute)`,
  `PatternLoad(iri, outline)` and `Plot(path, dashes)`, in the order they happen.
- `shape_traces.dfy` (module `ShapeTraces`): reference definitions that read an
  event sequence directly, and lemmas linking them to `Replay`. The reference
  definitions are: the geometry commands in event order, the last dash list, the
  last fill reference, whether `stroke: none` occurred, and the log lines.

Paint values are told apart by the argument list the engine passes to the `set`
overloads. `Paint.ArgsOf` gives that list for each paint value. `fill: url(#id)` with nothing after it reaches the three-argument
overload and sets the reference. A fragment IRI followed by a fallback has more
arguments, so it reaches the variadic overload and is only logged. For `stroke`,
every value other than `none` reaches the variadic overload. The debug-level
overload takes a colour integer, optionally followed by a skipped ICC colour. A
colour with a real ICC value therefore warns.

The engine delivers an element's exit once, as the last event of that element.
`Step` and `Replay` require this. The whole-element lemmas take the attribute and
geometry events `body` and append `ExitElement`.

One might expect a fill reference whose id is not in the document to skip the
pattern load. The code calls `find_by_id` and passes the result to the pattern load
unconditionally (src/parsing/context/shape.h:121-131). The model follows the code:
a non-empty fill reference always produces a `PatternLoad` effect. What the load
does with a missing node is not part of this model, and the model assumes the load
returns normally (see "## Left out").

## Model

| member | source | states |
|---|---|---|
| `Geometry.TransformCommand` | src/parsing/context/shape.h:119 | Transforming a command keeps its kind. It maps the point of a move, line or Bézier, and both Bézier control points. A close-subpath command is left as it is. |
| `Geometry.TransformPath` | src/parsing/context/shape.h:119 | The transformed path has the same length, and its i-th command is the transform of the i-th original command, so drawing order is kept. |
| `Geometry.TransformCompose` | src/parsing/context/shape.h:119 | Transforming a path by f and then by g equals transforming it once by the composition of g after f. |
| `Geometry.TransformAppend` | src/parsing/context/shape.h:119 | Transforming the whole path at exit equals transforming each appended part separately and concatenating the results. |
| `Paint.SeverityFollowsOverload` | src/parsing/context/shape.h:23-38 | The severity of an unsupported paint value is debug exactly when the debug-level overload accepts the value's argument list: a colour integer, optionally followed by a skipped ICC colour. Otherwise the variadic overload is chosen and the severity is warn. |
| `Shape.PaintOverloads` | src/parsing/context/shape.h:155-177 | A value is `none` exactly when its argument list is the `none` tag alone. A fill value is acted on exactly when its argument list matches the `none` overload or the three-argument `iri_fragment, id` overload. |
| `Shape.OnMoveTo` | src/parsing/context/shape.h:83-85 | Appends exactly `MoveTo((x, y))` at the end of the path. Earlier commands, the dash list, the fill reference, the stroke flag and the phase are unchanged, and there are no effects. |
| `Shape.OnLineTo` | src/parsing/context/shape.h:90-92 | Appends exactly `LineTo((x, y))` at the end of the path and changes nothing else. |
| `Shape.OnCubicBezierTo` | src/parsing/context/shape.h:97-101 | Appends one Bézier command whose point is the end point (x, y), whose first control point is (x1, y1) and whose second is (x2, y2). Nothing else changes. |
| `Shape.OnCloseSubpath` | src/parsing/context/shape.h:106 | Appends exactly one close-subpath command and changes nothing else. |
| `Shape.SetDashArrayNone` | src/parsing/context/shape.h:143-145 | `stroke-dasharray: none` leaves the dash list empty whatever it was before. No other field changes. |
| `Shape.SetDashArray` | src/parsing/context/shape.h:150-153 | A dash list value replaces the dash list with exactly that list. No other field changes. |
| `Shape.SetStroke` | src/parsing/context/shape.h:155-162 | After the event, the stroke flag is on exactly when it was on before and the value is not `none`. Any other value leaves the whole context unchanged and logs exactly once with the severity chosen for it. `none` logs nothing. |
| `Shape.SetFill` | src/parsing/context/shape.h:164-177 | `none` empties the fill reference. A bare `url(#id)` sets it to exactly `id`. Any other value leaves the whole context unchanged and logs exactly once. Only the fill reference can change. |
| `Shape.OnExitElement` | src/parsing/context/shape.h:113-138 | The path becomes its transform by the composed transform, and the context is finalized. There is one pattern load exactly when the fill reference is non-empty. It comes first and carries that reference and the transformed path. Since the load is assumed to return normally, there is exactly one plot when the stroke is on and none otherwise. The plot is last and carries the transformed path and the dash list. The exit itself logs nothing. |
| `Shape.Step` | src/parsing/context/shape.h:80-177 | Only the exit event finalizes the context. Every other event leaves it accumulating and produces at most log effects. |
| `Shape.Replay` | src/parsing/context/shape.h:80-177 | Replaying events without an exit leaves the context accumulating, and every effect is a log line. With an exit, the context ends finalized. |
| `ShapeTraces.ReplayLogs` | src/parsing/context/shape.h:155-177 | Before the exit, the effects are exactly the log lines of the unsupported stroke and fill values, one per event, in event order. |
| `ShapeTraces.GeometryCommands` | src/parsing/context/shape.h:83-106 | Geometry events contribute one command each, the i-th command being the i-th event's, and no log lines. |
| `ShapeTraces.ReplayPath` | src/parsing/context/shape.h:83-106 | After any non-exit events, the path is the starting path followed by the commands of the geometry events, in event order. |
| `ShapeTraces.GeometryInEventOrder` | src/parsing/context/shape.h:83-106 | After n geometry events the path has grown by exactly n commands. The old commands are kept as a prefix, the i-th new command is the i-th event's command, the other fields are unchanged and there are no effects. |
| `ShapeTraces.ReplayDash` | src/parsing/context/shape.h:143-153 | The final dash list is the one written by the last dash event, or the starting one if there is none (last write wins). |
| `ShapeTraces.DashLastWriteWins` | src/parsing/context/shape.h:143-153 | If event k is the last dash event, the final dash list is what event k wrote: empty for `none`, the list otherwise. |
| `ShapeTraces.ReplayFill` | src/parsing/context/shape.h:164-177 | The final fill reference is the one set by the last `none` or bare `url(#id)` fill event, or the starting one if there is none. |
| `ShapeTraces.FillLastWriteWins` | src/parsing/context/shape.h:164-177 | If event k is the last `none` or bare `url(#id)` fill event, the final fill reference is empty or `id` accordingly. |
| `ShapeTraces.ReplayStroke` | src/parsing/context/shape.h:155-162 | The stroke is on after the events exactly when it was on before and no event was `stroke: none`. |
| `ShapeTraces.StrokeStaysOff` | src/parsing/context/shape.h:73-162 | Once the stroke flag is off, no later event in the element turns it back on. |
| `ShapeTraces.UnsupportedPaintOnlyLogs` | src/parsing/context/shape.h:155-167 | An unsupported stroke or fill value leaves the context unchanged and produces exactly one log line for that attribute. The line is at debug level exactly when the debug-level overload accepts the value's argument list. |
| `ShapeTraces.ElementTraceFrom` | src/parsing/context/shape.h:83-177 | From any accumulating context, the events of an element followed by its exit produce, in order: the log lines, then a pattern load with the last fill reference if it is non-empty, then a plot with the last dash list if the stroke stayed on. Both carry the transformed accumulated path. |
| `ShapeTraces.ElementTrace` | src/parsing/context/shape.h:54-177 | The same trace from a freshly constructed context. The context starts with an empty path, no dashes, no fill reference and the stroke on. |
| `ShapeTraces.NoStrokeAttributeIsPlotted` | src/parsing/context/shape.h:70-73 | For an element with no `stroke` event, the shape's own outline is plotted exactly once. That plot is its last effect and carries the transformed geometry and the last dash list. |
| `ShapeTraces.NoFillAttributeIsNotFilled` | src/parsing/context/shape.h:61-68 | An element with no `fill` event never loads a pattern. |
| `ShapeTraces.StrokeNoneSuppressesPlot` | src/parsing/context/shape.h:133-137 | With `stroke: none` anywhere among an element's events, the shape's own outline is not plotted, whatever the fill. |
| `ShapeTraces.TranslatedSegmentIsPlotted` | src/parsing/context/shape.h:113-138 | Consider move (0,0), line (10,0), close, under a translation by (dx, dy), with no attributes. The only effect is one plot of move (dx,dy), line (10+dx,dy), close, with no dashes. |
| `ShapeTraces.PatternWithoutStroke` | src/parsing/context/shape.h:121-137 | `stroke: none` together with `fill: url(#id)` for a non-empty id gives exactly one pattern load for `id`, and no plot. |

## Left out

- src/conversion.cpp: it only wires the SVG++ traversal to libxml2 and lists the processed elements and attributes as compile-time type lists. It has no behaviour of its own.
- The base context (`GraphicsElementContext`, `coordinate_system()`, viewport, exporter and document handles) is not part of this model. The composed transform is a parameter of the exit.
- The pattern traversal (`PatternPseudoContext`, `DocumentTraversal::load_referenced_element`, `find_by_id`) is external. It appears only as the `PatternLoad` effect. The model emits that effect for every non-empty fill reference and does not guard against cyclic pattern references. The sub-context built there shares this context's exporter and logger, so the pattern's own children may plot and log. `PatternLoad` stands for that whole sub-traversal, including its plots and log lines. `CountPlots` and the plot and log statements about a trace count only this shape's own outline plot and this shape's own log lines. The model assumes the pattern load returns normally, so the plot always follows it. For a missing id, or a reference to an element other than `<pattern>` (the load expects only `<pattern>`, src/parsing/context/shape.h:114-130), the traversal's error handling decides whether the exit reaches `plot`; that handling is not part of this model.
- `Path::transform` and the matrix arithmetic (path.h, math_defs.h) are not part of this model. The transform is an uninterpreted point map. Coordinates and dash lengths (`dasharray_` is a vector of doubles, src/parsing/context/shape.h:59) are exact reals rather than doubles.
- No inverse transform travels with the plot: the exit passes only the path and the dash list to `plot`.
- Log message formatting and the logger itself: a log line is reduced to its severity and attribute.
- Moving the path and dash list into `plot` is an ownership detail. It only shows as `plot` being the last effect of the exit.
- `path_exit` (src/parsing/context/shape.h:111) does nothing, so it has no event in the model.
- The context factory, structural elements and viewport handling lie outside the shape context.
