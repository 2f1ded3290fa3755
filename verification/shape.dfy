/** The state machine of one shape element: geometry events build a local path,
    attribute events resolve the dash list, the stroke flag and the fill pattern
    reference, and the element exit finalizes the shape into effects on the
    pattern traversal and the exporter. */
module Shape {
  import opened Geometry
  import opened Paint

  /** A context accumulates until its element exits, and is finalized afterwards. */
  datatype Phase = Accumulating | Finalized

  /** The fields of a shape context. `fillIri` empty means "not filled";
      `stroke` says whether the outline is plotted. */
  datatype ShapeContext = ShapeContext(
    path: Path,
    dasharray: seq<real>,
    fillIri: string,
    stroke: bool,
    phase: Phase)

  /** A freshly constructed context: no geometry, solid stroke, no fill, stroked. */
  function Init(): ShapeContext
  {
    ShapeContext([], [], [], true, Accumulating)
  }

  /** What a shape context does beyond changing its own fields. */
  datatype Effect =
    | Log(severity: Severity, attribute: PaintAttribute)
    | PatternLoad(iri: string, outline: Path)
    | Plot(path: Path, dashes: seq<real>)

  /** The context after an event, with the effects the event produced, in order. */
  datatype Outcome = Outcome(context: ShapeContext, effects: seq<Effect>)

  /** The events the traversal engine delivers to a shape context. A cubic Bézier
      event lists its control points before its end point. */
  datatype Event =
    | PathMoveTo(p: Point)
    | PathLineTo(p: Point)
    | PathCubicBezierTo(c1: Point, c2: Point, end: Point)
    | PathCloseSubpath
    | DashArrayNone
    | DashArray(values: seq<real>)
    | StrokeSet(paint: Paint)
    | FillSet(paint: Paint)
    | ExitElement
  {
    predicate IsGeometry()
    {
      PathMoveTo? || PathLineTo? || PathCubicBezierTo? || PathCloseSubpath?
    }
  }

  /** The fields other than the path are equal. */
  predicate SameAttributes(a: ShapeContext, b: ShapeContext)
  {
    a.dasharray == b.dasharray && a.fillIri == b.fillIri && a.stroke == b.stroke && a.phase == b.phase
  }

  /** `after` is `before` with `cmd` appended at the end of the path and nothing else changed. */
  predicate AppendedOne(before: ShapeContext, after: ShapeContext, cmd: Command)
  {
    && |after.path| == |before.path| + 1
    && after.path[..|before.path|] == before.path
    && after.path[|before.path|] == cmd
    && SameAttributes(before, after)
  }

  function OnMoveTo(c: ShapeContext, x: real, y: real): (r: Outcome)
    ensures AppendedOne(c, r.context, MoveTo(Point(x, y)))
    ensures r.effects == []
  {
    Outcome(c.(path := c.path + [MoveTo(Point(x, y))]), [])
  }

  function OnLineTo(c: ShapeContext, x: real, y: real): (r: Outcome)
    ensures AppendedOne(c, r.context, LineTo(Point(x, y)))
    ensures r.effects == []
  {
    Outcome(c.(path := c.path + [LineTo(Point(x, y))]), [])
  }

  /** The end point `(x, y)` becomes the command's point; `(x1, y1)` and `(x2, y2)`
      become its first and second control points. */
  function OnCubicBezierTo(c: ShapeContext, x1: real, y1: real, x2: real, y2: real, x: real, y: real): (r: Outcome)
    ensures AppendedOne(c, r.context, BezierTo(Point(x, y), Point(x1, y1), Point(x2, y2)))
    ensures r.effects == []
  {
    Outcome(c.(path := c.path + [BezierTo(Point(x, y), Point(x1, y1), Point(x2, y2))]), [])
  }

  function OnCloseSubpath(c: ShapeContext): (r: Outcome)
    ensures AppendedOne(c, r.context, CloseSubpath)
    ensures r.effects == []
  {
    Outcome(c.(path := c.path + [CloseSubpath]), [])
  }

  /** `stroke-dasharray: none` gives a solid stroke whatever came before. */
  function SetDashArrayNone(c: ShapeContext): (r: Outcome)
    ensures r.context.dasharray == []
    ensures r.context == c.(dasharray := r.context.dasharray)
    ensures r.effects == []
  {
    Outcome(c.(dasharray := []), [])
  }

  /** A dash list replaces the previous one entirely. */
  function SetDashArray(c: ShapeContext, values: seq<real>): (r: Outcome)
    ensures r.context.dasharray == values
    ensures r.context == c.(dasharray := r.context.dasharray)
    ensures r.effects == []
  {
    Outcome(c.(dasharray := values), [])
  }

  /** `stroke: none` turns the stroke off; any other stroke value is only logged. */
  function SetStroke(c: ShapeContext, paint: Paint): (r: Outcome)
    ensures r.context.stroke == (c.stroke && paint != NoPaint)
    ensures r.context == c.(stroke := r.context.stroke)
    ensures paint != NoPaint ==> r.context == c
    ensures paint == NoPaint <==> r.effects == []
    ensures forall k :: 0 <= k < |r.effects| ==> r.effects[k] == Log(UnsupportedSeverity(paint), Stroke)
    ensures |r.effects| <= 1
  {
    if paint == NoPaint then
      Outcome(c.(stroke := false), [])
    else
      Outcome(c, [Log(UnsupportedSeverity(paint), Stroke)])
  }

  /** The fill values the shape context acts on: `none` and a bare fragment IRI. */
  predicate FillHandled(paint: Paint)
  {
    paint == NoPaint || (paint.FragmentIri? && paint.fallback == NoFallback)
  }

  /** The overloads the shape context declares for `stroke` and `fill` other than the
      variadic one: `set(stroke, none)`, `set(fill, none)` and
      `set(fill, iri_fragment, id)`. A value is acted on exactly when its argument
      list matches one of them. */
  lemma PaintOverloads(paint: Paint)
    ensures paint == NoPaint <==> ArgsOf(paint) == [NoneTag]
    ensures FillHandled(paint) <==>
              ArgsOf(paint) == [NoneTag]
              || (|ArgsOf(paint)| == 2 && ArgsOf(paint)[0] == IriFragmentTag && ArgsOf(paint)[1] == IriString)
  {
    match paint
    case Iri(_, _) => assert ArgsOf(paint)[0] == IriString;
    case FragmentIri(_, f) => assert ArgsOf(paint)[0] == IriFragmentTag;
    case _ =>
  }

  /** `fill: none` clears the pattern reference, `fill: url(#id)` sets it to `id`;
      any other fill value is only logged. */
  function SetFill(c: ShapeContext, paint: Paint): (r: Outcome)
    ensures paint == NoPaint ==> r.context.fillIri == []
    ensures paint.FragmentIri? && paint.fallback == NoFallback ==> r.context.fillIri == paint.id
    ensures r.context == c.(fillIri := r.context.fillIri)
    ensures !FillHandled(paint) ==> r.context == c
    ensures FillHandled(paint) <==> r.effects == []
    ensures forall k :: 0 <= k < |r.effects| ==> r.effects[k] == Log(UnsupportedSeverity(paint), Fill)
    ensures |r.effects| <= 1
  {
    match paint
    case NoPaint => Outcome(c.(fillIri := []), [])
    case FragmentIri(id, NoFallback) => Outcome(c.(fillIri := id), [])
    case _ => Outcome(c, [Log(UnsupportedSeverity(paint), Fill)])
  }

  /** There is a pattern load among `effects`. */
  predicate HasPatternLoad(effects: seq<Effect>)
  {
    exists k :: 0 <= k < |effects| && effects[k].PatternLoad?
  }

  /** The number of plots among `effects`. */
  function CountPlots(effects: seq<Effect>): nat
  {
    if effects == [] then 0
    else (if effects[0].Plot? then 1 else 0) + CountPlots(effects[1..])
  }

  lemma CountPlotsAppend(a: seq<Effect>, b: seq<Effect>)
    ensures CountPlots(a + b) == CountPlots(a) + CountPlots(b)
  {
    if a == [] {
      assert a + b == b;
    } else {
      assert (a + b)[0] == a[0];
      assert (a + b)[1..] == a[1..] + b;
      CountPlotsAppend(a[1..], b);
    }
  }

  /** Element exit: the path is transformed by the composed transform `ctm`; then a
      non-empty fill reference loads the pattern with that outline; then, if the
      stroke is on, the outline and dash list are plotted, once, as the last effect. */
  function OnExitElement(c: ShapeContext, ctm: Transform): (r: Outcome)
    ensures r.context.path == TransformPath(ctm, c.path)
    ensures r.context.phase == Finalized
    ensures |r.effects| == (if c.fillIri != [] then 1 else 0) + (if c.stroke then 1 else 0)
    ensures HasPatternLoad(r.effects) <==> c.fillIri != []
    ensures forall k :: 0 <= k < |r.effects| && r.effects[k].PatternLoad? ==>
              k == 0 && r.effects[k] == PatternLoad(c.fillIri, TransformPath(ctm, c.path))
    ensures CountPlots(r.effects) == (if c.stroke then 1 else 0)
    ensures c.stroke ==> r.effects[|r.effects| - 1] == Plot(TransformPath(ctm, c.path), c.dasharray)
    ensures forall k :: 0 <= k < |r.effects| ==> !r.effects[k].Log?
  {
    var outline := TransformPath(ctm, c.path);
    var loads := if c.fillIri != [] then [PatternLoad(c.fillIri, outline)] else [];
    var plots := if c.stroke then [Plot(outline, c.dasharray)] else [];
    CountPlotsAppend(loads, plots);
    Outcome(c.(path := outline, phase := Finalized), loads + plots)
  }

  /** Delivers one event to an accumulating context. */
  function Step(c: ShapeContext, e: Event, ctm: Transform): (r: Outcome)
    requires c.phase == Accumulating
    ensures r.context.phase == (if e.ExitElement? then Finalized else Accumulating)
    ensures !e.ExitElement? ==> forall k :: 0 <= k < |r.effects| ==> r.effects[k].Log?
  {
    match e
    case PathMoveTo(p) => OnMoveTo(c, p.x, p.y)
    case PathLineTo(p) => OnLineTo(c, p.x, p.y)
    case PathCubicBezierTo(c1, c2, end) => OnCubicBezierTo(c, c1.x, c1.y, c2.x, c2.y, end.x, end.y)
    case PathCloseSubpath => OnCloseSubpath(c)
    case DashArrayNone => SetDashArrayNone(c)
    case DashArray(values) => SetDashArray(c, values)
    case StrokeSet(paint) => SetStroke(c, paint)
    case FillSet(paint) => SetFill(c, paint)
    case ExitElement => OnExitElement(c, ctm)
  }

  /** No event is an element exit. */
  predicate NoExit(events: seq<Event>)
  {
    forall i :: 0 <= i < |events| ==> !events[i].ExitElement?
  }

  /** An element exit, if any, is the last event: the engine delivers nothing to a
      context after its element has exited. */
  predicate ExitOnlyLast(events: seq<Event>)
  {
    forall i :: 0 <= i < |events| - 1 ==> !events[i].ExitElement?
  }

  /** Delivers `events` in order, collecting their effects in order. Attribute and
      geometry events only ever log; the pattern load and the plot happen at exit. */
  function Replay(c: ShapeContext, events: seq<Event>, ctm: Transform): (r: Outcome)
    requires c.phase == Accumulating
    requires ExitOnlyLast(events)
    ensures NoExit(events) ==> r.context.phase == Accumulating
    ensures !NoExit(events) ==> r.context.phase == Finalized
    ensures NoExit(events) ==> forall k :: 0 <= k < |r.effects| ==> r.effects[k].Log?
    decreases |events|
  {
    if events == [] then Outcome(c, [])
    else
      var first := Step(c, events[0], ctm);
      if events[0].ExitElement? then first
      else
        var rest := Replay(first.context, events[1..], ctm);
        Outcome(rest.context, first.effects + rest.effects)
  }
}
