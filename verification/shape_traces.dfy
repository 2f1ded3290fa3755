/** Properties of whole event sequences delivered to a shape context, stated
    against reference definitions that read the events directly: the geometry in
    event order, the last dash list, the last fill reference, and whether any
    `stroke: none` occurred. */
module ShapeTraces {
  import opened Geometry
  import opened Paint
  import opened Shape

  /** The path command a geometry event appends. */
  function CommandOf(e: Event): Command
    requires e.IsGeometry()
  {
    match e
    case PathMoveTo(p) => MoveTo(p)
    case PathLineTo(p) => LineTo(p)
    case PathCubicBezierTo(c1, c2, end) => BezierTo(end, c1, c2)
    case PathCloseSubpath => CloseSubpath
  }

  /** The commands of the geometry events, in event order. */
  function Commands(events: seq<Event>): Path
  {
    if events == [] then []
    else (if events[0].IsGeometry() then [CommandOf(events[0])] else []) + Commands(events[1..])
  }

  /** The dash list after `events`, read from the last dash event; `init` if there is none. */
  function FinalDash(events: seq<Event>, init: seq<real>): seq<real>
  {
    if events == [] then init
    else match events[|events| - 1]
      case DashArrayNone => []
      case DashArray(values) => values
      case _ => FinalDash(events[..|events| - 1], init)
  }

  /** The fill reference after `events`, read from the last `none` or bare fragment
      fill; `init` if there is none. */
  function FinalFill(events: seq<Event>, init: string): string
  {
    if events == [] then init
    else match events[|events| - 1]
      case FillSet(NoPaint) => []
      case FillSet(FragmentIri(id, NoFallback)) => id
      case _ => FinalFill(events[..|events| - 1], init)
  }

  /** The log line an event produces: one for each stroke or fill value the context
      does not act on. */
  function LogOf(e: Event): seq<Effect>
  {
    match e
    case StrokeSet(paint) => if paint != NoPaint then [Log(UnsupportedSeverity(paint), Stroke)] else []
    case FillSet(paint) => if !FillHandled(paint) then [Log(UnsupportedSeverity(paint), Fill)] else []
    case _ => []
  }

  /** The log lines of `events`, in event order. */
  function Logs(events: seq<Event>): (r: seq<Effect>)
    ensures forall k :: 0 <= k < |r| ==> r[k].Log?
  {
    if events == [] then [] else LogOf(events[0]) + Logs(events[1..])
  }

  /** The stroke survives `events` exactly when none of them is `stroke: none`. */
  predicate StrokeKept(events: seq<Event>)
  {
    StrokeSet(NoPaint) !in events
  }

  /** Exit-free events followed by events with an exit only at their end still have
      an exit only at their end. */
  lemma ExitOnlyLastAppend(a: seq<Event>, b: seq<Event>)
    requires NoExit(a) && ExitOnlyLast(b)
    ensures ExitOnlyLast(a + b)
  {
    forall i | 0 <= i < |a + b| - 1
      ensures !(a + b)[i].ExitElement?
    {
      if i < |a| {
        assert (a + b)[i] == a[i];
      } else {
        assert (a + b)[i] == b[i - |a|];
      }
    }
  }

  /** The events after the first of an exit-free sequence are exit-free too. */
  lemma NoExitTail(a: seq<Event>)
    requires a != [] && NoExit(a)
    ensures !a[0].ExitElement? && NoExit(a[1..])
  {
    forall i | 0 <= i < |a| - 1
      ensures !a[1..][i].ExitElement?
    {
      assert a[1..][i] == a[i + 1];
    }
  }

  lemma {:induction false} ReplayAppend(c: ShapeContext, a: seq<Event>, b: seq<Event>, ctm: Transform)
    requires c.phase == Accumulating
    requires NoExit(a) && ExitOnlyLast(b)
    ensures ExitOnlyLast(a + b)
    ensures Replay(c, a, ctm).context.phase == Accumulating
    ensures Replay(c, a + b, ctm)
         == Outcome(Replay(Replay(c, a, ctm).context, b, ctm).context,
                    Replay(c, a, ctm).effects + Replay(Replay(c, a, ctm).context, b, ctm).effects)
    decreases |a|
  {
    ExitOnlyLastAppend(a, b);
    if a == [] {
      assert a + b == b;
    } else {
      assert (a + b)[0] == a[0];
      assert (a + b)[1..] == a[1..] + b;
      var first := Step(c, a[0], ctm);
      NoExitTail(a);
      ReplayAppend(first.context, a[1..], b, ctm);
      var ra := Replay(first.context, a[1..], ctm);
      var rb := Replay(ra.context, b, ctm);
      assert first.effects + (ra.effects + rb.effects) == (first.effects + ra.effects) + rb.effects;
    }
  }

  /** Replaying one more event at the end is one more step. */
  lemma ReplaySnoc(c: ShapeContext, front: seq<Event>, e: Event, ctm: Transform)
    requires c.phase == Accumulating
    requires NoExit(front)
    ensures ExitOnlyLast(front + [e])
    ensures Replay(c, front, ctm).context.phase == Accumulating
    ensures Replay(c, front + [e], ctm)
         == Outcome(Step(Replay(c, front, ctm).context, e, ctm).context,
                    Replay(c, front, ctm).effects + Step(Replay(c, front, ctm).context, e, ctm).effects)
  {
    ReplayAppend(c, front, [e], ctm);
    var rf := Replay(c, front, ctm).context;
    assert [e][1..] == [];
    assert Step(rf, e, ctm).effects + [] == Step(rf, e, ctm).effects;
  }

  /** One non-exit event extends the path by its own command, if it has one. */
  lemma StepPath(c: ShapeContext, e: Event, ctm: Transform)
    requires c.phase == Accumulating
    requires !e.ExitElement?
    ensures Step(c, e, ctm).context.path == c.path + (if e.IsGeometry() then [CommandOf(e)] else [])
  {
    if !e.IsGeometry() {
      assert c.path + [] == c.path;
    }
  }

  /** The path is the starting path followed by the geometry commands in event order. */
  lemma {:induction false} ReplayPath(c: ShapeContext, events: seq<Event>, ctm: Transform)
    requires c.phase == Accumulating
    requires NoExit(events)
    ensures Replay(c, events, ctm).context.path == c.path + Commands(events)
    decreases |events|
  {
    if events == [] {
      assert c.path + [] == c.path;
    } else {
      var e := events[0];
      var first := Step(c, e, ctm);
      StepPath(c, e, ctm);
      ReplayPath(first.context, events[1..], ctm);
      var own := if e.IsGeometry() then [CommandOf(e)] else [];
      assert Commands(events) == own + Commands(events[1..]);
      assert (c.path + own) + Commands(events[1..]) == c.path + (own + Commands(events[1..]));
    }
  }

  /** One non-exit event produces exactly its own log line, if any. */
  lemma StepLogs(c: ShapeContext, e: Event, ctm: Transform)
    requires c.phase == Accumulating
    requires !e.ExitElement?
    ensures Step(c, e, ctm).effects == LogOf(e)
  {
  }

  /** Before the exit, the effects are exactly the log lines of the unsupported paint
      values, in event order. */
  lemma {:induction false} ReplayLogs(c: ShapeContext, events: seq<Event>, ctm: Transform)
    requires c.phase == Accumulating
    requires NoExit(events)
    ensures Replay(c, events, ctm).effects == Logs(events)
    decreases |events|
  {
    if events != [] {
      var first := Step(c, events[0], ctm);
      StepLogs(c, events[0], ctm);
      ReplayLogs(first.context, events[1..], ctm);
    }
  }

  /** Each geometry event appends exactly one command, so command order is event
      order, and geometry leaves the dash list, fill reference and stroke alone. */
  lemma GeometryInEventOrder(c: ShapeContext, events: seq<Event>, ctm: Transform)
    requires c.phase == Accumulating
    requires forall i :: 0 <= i < |events| ==> events[i].IsGeometry()
    ensures NoExit(events)
    ensures |Replay(c, events, ctm).context.path| == |c.path| + |events|
    ensures Replay(c, events, ctm).context.path[..|c.path|] == c.path
    ensures forall i :: 0 <= i < |events| ==>
              Replay(c, events, ctm).context.path[|c.path| + i] == CommandOf(events[i])
    ensures SameAttributes(c, Replay(c, events, ctm).context)
    ensures Replay(c, events, ctm).effects == []
  {
    var r := Replay(c, events, ctm).context;
    ReplayPath(c, events, ctm);
    GeometryCommands(events);
    assert r.path[..|c.path|] == c.path;
    ReplayLogs(c, events, ctm);
    ReplayDash(c, events, ctm);
    NoDashEventKeepsDash(events, c.dasharray);
    ReplayFill(c, events, ctm);
    NoFillEventKeepsFill(events, c.fillIri);
    ReplayStroke(c, events, ctm);
  }

  /** Geometry events contribute exactly their own commands, one each, and no log lines. */
  lemma {:induction false} GeometryCommands(events: seq<Event>)
    requires forall i :: 0 <= i < |events| ==> events[i].IsGeometry()
    ensures |Commands(events)| == |events|
    ensures forall i :: 0 <= i < |events| ==> Commands(events)[i] == CommandOf(events[i])
    ensures Logs(events) == []
  {
    if events != [] {
      GeometryCommands(events[1..]);
      forall i | 1 <= i < |events|
        ensures Commands(events)[i] == CommandOf(events[i])
      {
        assert events[1..][i - 1] == events[i];
      }
    }
  }

  /** Last write wins for `stroke-dasharray`. */
  lemma {:induction false} ReplayDash(c: ShapeContext, events: seq<Event>, ctm: Transform)
    requires c.phase == Accumulating
    requires NoExit(events)
    ensures Replay(c, events, ctm).context.dasharray == FinalDash(events, c.dasharray)
    decreases |events|
  {
    if events != [] {
      var front := events[..|events| - 1];
      var last := events[|events| - 1];
      assert events == front + [last];
      ReplayDash(c, front, ctm);
      ReplaySnoc(c, front, last, ctm);
    }
  }

  /** Last write wins for the fill reference, among `none` and bare fragment IRIs. */
  lemma {:induction false} ReplayFill(c: ShapeContext, events: seq<Event>, ctm: Transform)
    requires c.phase == Accumulating
    requires NoExit(events)
    ensures Replay(c, events, ctm).context.fillIri == FinalFill(events, c.fillIri)
    decreases |events|
  {
    if events != [] {
      var front := events[..|events| - 1];
      var last := events[|events| - 1];
      assert events == front + [last];
      ReplayFill(c, front, ctm);
      ReplaySnoc(c, front, last, ctm);
    }
  }

  /** The stroke is on after `events` exactly when it was on before and no event was
      `stroke: none`. */
  lemma {:induction false} ReplayStroke(c: ShapeContext, events: seq<Event>, ctm: Transform)
    requires c.phase == Accumulating
    requires NoExit(events)
    ensures Replay(c, events, ctm).context.stroke == (c.stroke && StrokeKept(events))
    decreases |events|
  {
    if events != [] {
      var first := Step(c, events[0], ctm);
      ReplayStroke(first.context, events[1..], ctm);
      assert events == [events[0]] + events[1..];
    }
  }

  /** Once the stroke is off, no later event in the element turns it back on. */
  lemma StrokeStaysOff(c: ShapeContext, events: seq<Event>, ctm: Transform)
    requires c.phase == Accumulating
    requires NoExit(events)
    requires !c.stroke
    ensures !Replay(c, events, ctm).context.stroke
  {
    ReplayStroke(c, events, ctm);
  }

  /** The exit appends its own effects to those of the events before it. */
  lemma ExitAfter(c: ShapeContext, body: seq<Event>, ctm: Transform)
    requires c.phase == Accumulating
    requires NoExit(body)
    ensures ExitOnlyLast(body + [ExitElement])
    ensures Replay(c, body + [ExitElement], ctm).effects
         == Replay(c, body, ctm).effects + OnExitElement(Replay(c, body, ctm).context, ctm).effects
  {
    ReplaySnoc(c, body, ExitElement, ctm);
  }

  /** The exit effects after `body`, from any accumulating context. */
  lemma ElementTraceFrom(c: ShapeContext, body: seq<Event>, ctm: Transform)
    requires c.phase == Accumulating
    requires NoExit(body)
    ensures ExitOnlyLast(body + [ExitElement])
    ensures Replay(c, body + [ExitElement], ctm).effects
         == Logs(body)
            + (if FinalFill(body, c.fillIri) != [] then [PatternLoad(FinalFill(body, c.fillIri), TransformPath(ctm, c.path + Commands(body)))] else [])
            + (if c.stroke && StrokeKept(body) then [Plot(TransformPath(ctm, c.path + Commands(body)), FinalDash(body, c.dasharray))] else [])
  {
    ExitAfter(c, body, ctm);
    ReplayPath(c, body, ctm);
    ReplayDash(c, body, ctm);
    ReplayFill(c, body, ctm);
    ReplayStroke(c, body, ctm);
    ReplayLogs(c, body, ctm);
    ExitEffects(Replay(c, body, ctm).context, ctm);
  }

  /** The whole life of a shape element: after the attribute and geometry events of
      `body`, the exit adds a pattern load with the last fill reference exactly when
      that reference is non-empty, then a plot with the last dash list exactly when
      no `stroke: none` occurred; both carry the transformed geometry of `body`. */
  lemma ElementTrace(body: seq<Event>, ctm: Transform)
    requires NoExit(body)
    ensures ExitOnlyLast(body + [ExitElement])
    ensures Replay(Init(), body + [ExitElement], ctm).effects
         == Logs(body)
            + (if FinalFill(body, []) != [] then [PatternLoad(FinalFill(body, []), TransformPath(ctm, Commands(body)))] else [])
            + (if StrokeKept(body) then [Plot(TransformPath(ctm, Commands(body)), FinalDash(body, []))] else [])
  {
    ElementTraceFrom(Init(), body, ctm);
    assert [] + Commands(body) == Commands(body);
  }

  /** The effects of an exit, as one expression. */
  lemma ExitEffects(c: ShapeContext, ctm: Transform)
    ensures OnExitElement(c, ctm).effects
         == (if c.fillIri != [] then [PatternLoad(c.fillIri, TransformPath(ctm, c.path))] else [])
            + (if c.stroke then [Plot(TransformPath(ctm, c.path), c.dasharray)] else [])
  {
  }

  /** An element with no `stroke` attribute is plotted exactly once, last. */
  lemma NoStrokeAttributeIsPlotted(body: seq<Event>, ctm: Transform)
    requires NoExit(body)
    requires forall i :: 0 <= i < |body| ==> !body[i].StrokeSet?
    ensures ExitOnlyLast(body + [ExitElement])
    ensures CountPlots(Replay(Init(), body + [ExitElement], ctm).effects) == 1
    ensures var trace := Replay(Init(), body + [ExitElement], ctm).effects;
            trace[|trace| - 1] == Plot(TransformPath(ctm, Commands(body)), FinalDash(body, []))
  {
    ElementTrace(body, ctm);
    assert StrokeKept(body);
    var logs := Logs(body);
    var outline := TransformPath(ctm, Commands(body));
    var loads := if FinalFill(body, []) != [] then [PatternLoad(FinalFill(body, []), outline)] else [];
    var plot := [Plot(outline, FinalDash(body, []))];
    CountPlotsAppend(logs + loads, plot);
    CountPlotsAppend(logs, loads);
    CountPlotsLogs(logs);
  }

  /** Log effects contain no plot. */
  lemma CountPlotsLogs(effects: seq<Effect>)
    requires forall k :: 0 <= k < |effects| ==> effects[k].Log?
    ensures CountPlots(effects) == 0
  {
    if effects != [] {
      CountPlotsLogs(effects[1..]);
    }
  }

  /** The fill reference of a context without `fill` events stays what it was. */
  lemma {:induction false} NoFillEventKeepsFill(events: seq<Event>, init: string)
    requires forall i :: 0 <= i < |events| ==> !events[i].FillSet?
    ensures FinalFill(events, init) == init
    decreases |events|
  {
    if events != [] {
      NoFillEventKeepsFill(events[..|events| - 1], init);
    }
  }

  /** The dash list of a context without dash events stays what it was. */
  lemma {:induction false} NoDashEventKeepsDash(events: seq<Event>, init: seq<real>)
    requires forall i :: 0 <= i < |events| ==> !events[i].DashArrayNone? && !events[i].DashArray?
    ensures FinalDash(events, init) == init
    decreases |events|
  {
    if events != [] {
      NoDashEventKeepsDash(events[..|events| - 1], init);
    }
  }

  /** An element with no `fill` attribute never loads a pattern. */
  lemma NoFillAttributeIsNotFilled(body: seq<Event>, ctm: Transform)
    requires NoExit(body)
    requires forall i :: 0 <= i < |body| ==> !body[i].FillSet?
    ensures ExitOnlyLast(body + [ExitElement])
    ensures !HasPatternLoad(Replay(Init(), body + [ExitElement], ctm).effects)
  {
    ElementTrace(body, ctm);
    NoFillEventKeepsFill(body, []);
    var logs := Logs(body);
    var plots := if StrokeKept(body) then [Plot(TransformPath(ctm, Commands(body)), FinalDash(body, []))] else [];
    NoPatternLoadIn(logs, plots);
  }

  lemma NoPatternLoadIn(logs: seq<Effect>, plots: seq<Effect>)
    requires forall k :: 0 <= k < |logs| ==> logs[k].Log?
    requires forall k :: 0 <= k < |plots| ==> plots[k].Plot?
    ensures !HasPatternLoad(logs + [] + plots)
  {
    assert logs + [] + plots == logs + plots;
    forall k | 0 <= k < |logs + plots|
      ensures !(logs + plots)[k].PatternLoad?
    {
      if k < |logs| {
        assert (logs + plots)[k] == logs[k];
      } else {
        assert (logs + plots)[k] == plots[k - |logs|];
      }
    }
  }

  /** `stroke: none` anywhere in the element suppresses the plot, whatever the fill. */
  lemma StrokeNoneSuppressesPlot(body: seq<Event>, ctm: Transform)
    requires NoExit(body)
    requires StrokeSet(NoPaint) in body
    ensures ExitOnlyLast(body + [ExitElement])
    ensures CountPlots(Replay(Init(), body + [ExitElement], ctm).effects) == 0
  {
    ElementTrace(body, ctm);
    var logs := Logs(body);
    var loads := if FinalFill(body, []) != [] then [PatternLoad(FinalFill(body, []), TransformPath(ctm, Commands(body)))] else [];
    CountPlotsAppend(logs, loads);
    CountPlotsLogs(logs);
    assert logs + loads + [] == logs + loads;
  }

  /** The value a dash event writes. */
  function DashWritten(e: Event): seq<real>
    requires e.DashArrayNone? || e.DashArray?
  {
    if e.DashArray? then e.values else []
  }

  /** Last write wins, stated on positions: the dash list after an element's events
      is what its last dash event wrote. */
  lemma {:induction false} DashLastWriteWins(c: ShapeContext, events: seq<Event>, k: nat, ctm: Transform)
    requires c.phase == Accumulating
    requires NoExit(events)
    requires k < |events| && (events[k].DashArrayNone? || events[k].DashArray?)
    requires forall j :: k < j < |events| ==> !events[j].DashArrayNone? && !events[j].DashArray?
    ensures Replay(c, events, ctm).context.dasharray == DashWritten(events[k])
  {
    ReplayDash(c, events, ctm);
    FinalDashFrom(events, c.dasharray, k);
  }

  lemma {:induction false} FinalDashFrom(events: seq<Event>, init: seq<real>, k: nat)
    requires k < |events| && (events[k].DashArrayNone? || events[k].DashArray?)
    requires forall j :: k < j < |events| ==> !events[j].DashArrayNone? && !events[j].DashArray?
    ensures FinalDash(events, init) == DashWritten(events[k])
    decreases |events|
  {
    if k < |events| - 1 {
      var front := events[..|events| - 1];
      assert front[k] == events[k];
      FinalDashFrom(front, init, k);
    }
  }

  /** Last write wins for the fill reference, stated on positions: after an element's
      events it is `[]` if the last handled fill event was `none`, and `id` if it was
      `url(#id)`. */
  lemma {:induction false} FillLastWriteWins(c: ShapeContext, events: seq<Event>, k: nat, ctm: Transform)
    requires c.phase == Accumulating
    requires NoExit(events)
    requires k < |events| && events[k].FillSet? && FillHandled(events[k].paint)
    requires forall j :: k < j < |events| ==> !(events[j].FillSet? && FillHandled(events[j].paint))
    ensures Replay(c, events, ctm).context.fillIri == (if events[k].paint.NoPaint? then [] else events[k].paint.id)
  {
    ReplayFill(c, events, ctm);
    FinalFillFrom(events, c.fillIri, k);
  }

  lemma {:induction false} FinalFillFrom(events: seq<Event>, init: string, k: nat)
    requires k < |events| && events[k].FillSet? && FillHandled(events[k].paint)
    requires forall j :: k < j < |events| ==> !(events[j].FillSet? && FillHandled(events[j].paint))
    ensures FinalFill(events, init) == (if events[k].paint.NoPaint? then [] else events[k].paint.id)
    decreases |events|
  {
    if k < |events| - 1 {
      var front := events[..|events| - 1];
      assert front[k] == events[k];
      FinalFillFrom(front, init, k);
    }
  }

  /** A stroke or fill value the context does not act on changes nothing and logs
      once, at debug level exactly when the debug-level overload accepts its argument
      list, and at warn level otherwise. */
  lemma UnsupportedPaintOnlyLogs(c: ShapeContext, e: Event, ctm: Transform)
    requires c.phase == Accumulating
    requires (e.StrokeSet? && e.paint != NoPaint) || (e.FillSet? && !FillHandled(e.paint))
    ensures Step(c, e, ctm).context == c
    ensures |Step(c, e, ctm).effects| == 1
    ensures Step(c, e, ctm).effects[0].Log?
    ensures Step(c, e, ctm).effects[0].attribute == (if e.StrokeSet? then Stroke else Fill)
    ensures Step(c, e, ctm).effects[0].severity == Debug <==> DebugOverloadViable(ArgsOf(e.paint))
  {
    SeverityFollowsOverload(e.paint);
  }

  /** A translation, as a point map. */
  function Translate(dx: real, dy: real): Transform
  {
    (p: Point) => Point(p.x + dx, p.y + dy)
  }

  /** A closed horizontal segment moved by (dx, dy), with the default stroke and no
      dashes, reaches the exporter once, with its translated commands, and nothing
      else happens. Like `PatternWithoutStroke` below, the events are a
      parameter pinned by the precondition, so that the proof goes through the
      general trace lemmas rather than evaluating `Replay` on a literal sequence. */
  lemma TranslatedSegmentIsPlotted(dx: real, dy: real, body: seq<Event>)
    requires body == [PathMoveTo(Point(0.0, 0.0)), PathLineTo(Point(10.0, 0.0)), PathCloseSubpath]
    ensures ExitOnlyLast(body + [ExitElement])
    ensures Replay(Init(), body + [ExitElement], Translate(dx, dy)).effects
         == [Plot([MoveTo(Point(dx, dy)), LineTo(Point(10.0 + dx, dy)), CloseSubpath], [])]
  {
    var ctm := Translate(dx, dy);
    ElementTrace(body, ctm);
    SegmentCommands(body);
    NoFillEventKeepsFill(body, []);
    NoDashEventKeepsDash(body, []);
    var outline := TransformPath(ctm, Commands(body));
    assert outline == [MoveTo(Point(dx, dy)), LineTo(Point(10.0 + dx, dy)), CloseSubpath] by {
      assert outline[0] == MoveTo(Point(dx, dy));
      assert outline[1] == LineTo(Point(10.0 + dx, dy));
    }
  }

  /** The reference definitions read on the segment's events. */
  lemma SegmentCommands(body: seq<Event>)
    requires body == [PathMoveTo(Point(0.0, 0.0)), PathLineTo(Point(10.0, 0.0)), PathCloseSubpath]
    ensures Commands(body) == [MoveTo(Point(0.0, 0.0)), LineTo(Point(10.0, 0.0)), CloseSubpath]
    ensures StrokeKept(body)
    ensures Logs(body) == []
  {
    var t1 := body[1..];
    var t2 := t1[1..];
    assert t1 == [PathLineTo(Point(10.0, 0.0)), PathCloseSubpath];
    assert t2 == [PathCloseSubpath];
    assert t2[1..] == [];
    assert Commands(t2[1..]) == [] && Logs(t2[1..]) == [];
    assert Commands(t2) == [CloseSubpath] && Logs(t2) == [];
    assert Commands(t1) == [LineTo(Point(10.0, 0.0)), CloseSubpath] && Logs(t1) == [];
  }

  /** `stroke: none` with a fill reference loads the pattern but plots nothing
      (the events pinned by the precondition, as above). */
  lemma PatternWithoutStroke(id: string, ctm: Transform, body: seq<Event>)
    requires id != []
    requires body == [StrokeSet(NoPaint), FillSet(FragmentIri(id, NoFallback))]
    ensures ExitOnlyLast(body + [ExitElement])
    ensures Replay(Init(), body + [ExitElement], ctm).effects == [PatternLoad(id, [])]
  {
    ElementTrace(body, ctm);
    assert FinalFill(body, []) == id;
    assert !StrokeKept(body) by {
      assert body[0] == StrokeSet(NoPaint);
    }
    var tail := body[1..];
    assert tail == [FillSet(FragmentIri(id, NoFallback))];
    assert tail[1..] == [];
    assert Commands(tail) == [] && Logs(tail) == [];
  }
}
