/** The heat renderer and its reactive controller: painting the gradient over
    a canvas sized to the content box, and the triggers (the content-loaded
    timer, a settings change, a window resize) that repaint it.

    The browser is abstract: the canvas is a record, the content box is an
    input of every trigger, and a timer or listener firing is an event. */
module HeatCanvas {
  import opened JsMath
  import opened Optional
  import opened HeatGradient

  /** A non-negative CSS pixel length. */
  type Length = x: real | 0.0 <= x witness 0.0

  /** The content element's bounding box as `getBoundingClientRect` reports it. */
  datatype Rect = Rect(width: Length, height: Length)

  /** `fillRect(0, 0, width, height)` with a vertical linear gradient running
      from (0, 0) to (0, gradientEnd) and carrying `stops`. */
  datatype Fill = Fill(width: real, height: real, gradientEnd: real, stops: seq<Stop>)

  /** The overlay canvas: the integer size of its backing store (the `width`
      and `height` attributes), its CSS size, and what has been filled onto it
      since it was last cleared. */
  datatype Canvas = Canvas(width: nat, height: nat, cssSize: Option<Rect>, fill: Option<Fill>)

  /** A canvas element nothing has been drawn on: the HTML default 300 x 150. */
  const FreshCanvas := Canvas(300, 150, None, None)

  // ---------------------------------------------------------------------
  // The renderer

  /** What a paint leaves on the canvas: sized to the content box (which
      clears it), then, unless the overlay is hidden, one fill of the whole
      box with the gradient of the series. */
  function Paint(rect: Rect, show: bool, opacity: real, series: seq<real>): (c: Canvas)
    requires show ==> Normalizable(series)
    ensures c.width == Floor(rect.width) && c.height == Floor(rect.height)
    ensures c.cssSize == Some(rect)
    ensures c.fill.None? <==> !show
    ensures c.fill.Some? ==> c.fill.value.width == rect.width && c.fill.value.height == rect.height
                             && c.fill.value.gradientEnd == rect.height
    ensures c.fill.Some? ==> c.fill.value.stops == GradientStops(series, opacity)
  {
    Canvas(Floor(rect.width), Floor(rect.height), Some(rect),
           if show then Some(Fill(rect.width, rect.height, rect.height, GradientStops(series, opacity))) else None)
  }

  /** The paint steps one call at a time: resize, clear, return when hidden,
      otherwise add one colour stop per sample (`StopAt` is the loop body's
      position, intensity and ramp colour) and fill the rectangle. */
  method PaintSteps(canvas: Canvas, rect: Rect, show: bool, opacity: real, series: seq<real>) returns (c: Canvas)
    requires show ==> Normalizable(series)
    ensures c == Paint(rect, show, opacity, series)
  {
    c := canvas.(width := Floor(rect.width), height := Floor(rect.height), cssSize := Some(rect));
    c := c.(fill := None);
    if !show {
      return;
    }
    var stops: seq<Stop> := [];
    var index := 0;
    while index < |series|
      invariant 0 <= index <= |series|
      invariant |stops| == index
      invariant forall k :: 0 <= k < index ==> stops[k] == StopAt(series, k, opacity)
    {
      stops := stops + [StopAt(series, index, opacity)];
      index := index + 1;
    }
    assert stops == GradientStops(series, opacity);
    c := c.(fill := Some(Fill(rect.width, rect.height, rect.height, stops)));
  }

  // ---------------------------------------------------------------------
  // The controller

  /** The overlay component's state: whether it is still mounted, the
      content-loaded flag, the two user settings, and the canvas. */
  datatype HeatView = HeatView(mounted: bool, contentLoaded: bool, showHeatMap: bool, opacity: real, canvas: Canvas)

  /** Just after mounting: not loaded, shown, opacity 0.6, untouched canvas. */
  const InitialView := HeatView(true, false, true, 0.6, FreshCanvas)

  /** What the page offers while a handler runs: whether the canvas ref is
      attached, and the content box when the content ref is attached. */
  datatype Host = Host(canvasAttached: bool, content: Option<Rect>)

  predicate Attached(host: Host) {
    host.canvasAttached && host.content.Some?
  }

  /** What can happen to the component: the load timer fires, the checkbox or
      the slider changes a setting, the window is resized, or it unmounts. */
  datatype Event = LoadTimerFired | ShowToggled(show: bool) | OpacityChanged(opacity: real) | WindowResized | Unmounted

  /** The state after an event, and whether the canvas was painted. */
  datatype Transition = Transition(next: HeatView, painted: bool)

  /** `drawHeatMap`: nothing at all unless the canvas, the content and the
      loaded flag are all there; otherwise a paint with the current settings. */
  function DrawHeatMap(v: HeatView, host: Host, series: seq<real>): (t: Transition)
    requires Normalizable(series)
    ensures t.painted <==> Attached(host) && v.contentLoaded
    ensures t.next.canvas != v.canvas ==> t.painted
    ensures t.painted ==> t.next == v.(canvas := Paint(host.content.value, v.showHeatMap, v.opacity, series))
    ensures !t.painted ==> t.next == v
  {
    if !host.canvasAttached || host.content.None? || !v.contentLoaded then Transition(v, false)
    else Transition(v.(canvas := Paint(host.content.value, v.showHeatMap, v.opacity, series)), true)
  }

  /** The redraw effect and the resize handler: draw only once loaded. */
  function RedrawIfLoaded(v: HeatView, host: Host, series: seq<real>): Transition
    requires Normalizable(series)
  {
    if v.contentLoaded then DrawHeatMap(v, host, series) else Transition(v, false)
  }

  /** Whether an event asks for a redraw: the redraw effect runs when one of
      its dependencies (the loaded flag, the checkbox, the slider) takes a new
      value, and the resize handler runs on every resize. */
  predicate Redraws(v: HeatView, e: Event) {
    match e
    case LoadTimerFired => !v.contentLoaded
    case ShowToggled(show) => show != v.showHeatMap
    case OpacityChanged(opacity) => opacity != v.opacity
    case WindowResized => true
    case Unmounted => false
  }

  /** One event. A state update to the value already held changes nothing and
      triggers no redraw; a real change of the loaded flag or of a setting
      redraws; a resize redraws; after unmounting the timer and the listener
      are gone, so nothing happens any more. */
  function Step(v: HeatView, e: Event, host: Host, series: seq<real>): (t: Transition)
    requires Normalizable(series)
    ensures t.next.mounted == (v.mounted && e != Unmounted)
    ensures t.next.contentLoaded == (v.contentLoaded || (v.mounted && e == LoadTimerFired))
    ensures t.next.showHeatMap == (if v.mounted && e.ShowToggled? then e.show else v.showHeatMap)
    ensures t.next.opacity == (if v.mounted && e.OpacityChanged? then e.opacity else v.opacity)
    ensures t.painted <==> v.mounted && Attached(host) && t.next.contentLoaded && Redraws(v, e)
    ensures !t.painted ==> t.next.canvas == v.canvas
    ensures t.painted ==> t.next.canvas == Paint(host.content.value, t.next.showHeatMap, t.next.opacity, series)
    ensures !v.mounted ==> t == Transition(v, false)
  {
    if !v.mounted then Transition(v, false)
    else
      match e
      case LoadTimerFired =>
        if v.contentLoaded then Transition(v, false)
        else RedrawIfLoaded(v.(contentLoaded := true), host, series)
      case ShowToggled(show) =>
        if show == v.showHeatMap then Transition(v, false)
        else RedrawIfLoaded(v.(showHeatMap := show), host, series)
      case OpacityChanged(opacity) =>
        if opacity == v.opacity then Transition(v, false)
        else RedrawIfLoaded(v.(opacity := opacity), host, series)
      case WindowResized =>
        RedrawIfLoaded(v, host, series)
      case Unmounted =>
        Transition(v.(mounted := false), false)
  }

  /** One trigger: an event and the page as it is when the event is handled. */
  datatype Trigger = Trigger(event: Event, host: Host)

  /** The state after a sequence of triggers. */
  function Run(v: HeatView, triggers: seq<Trigger>, series: seq<real>): HeatView
    requires Normalizable(series)
    decreases |triggers|
  {
    if triggers == [] then v
    else Run(Step(v, triggers[0].event, triggers[0].host, series).next, triggers[1..], series)
  }

  /** The canvas shows what a paint with these settings shows: hidden means
      no fill at all, shown means one fill of the whole box with the current
      gradient. */
  predicate ShowsSettings(c: Canvas, show: bool, opacity: real, series: seq<real>)
    requires Normalizable(series)
  {
    && c.cssSize.Some?
    && (c.fill.None? <==> !show)
    && (c.fill.Some? ==>
          && c.fill.value.stops == GradientStops(series, opacity)
          && c.fill.value.width == c.cssSize.value.width
          && c.fill.value.height == c.cssSize.value.height)
  }

  /** Before loading the canvas is untouched; once loaded it reflects the
      current settings. */
  predicate InSync(v: HeatView, series: seq<real>)
    requires Normalizable(series)
  {
    && (!v.contentLoaded ==> v.canvas == FreshCanvas)
    && (v.contentLoaded ==> ShowsSettings(v.canvas, v.showHeatMap, v.opacity, series))
  }

  lemma InitialInSync(series: seq<real>)
    requires Normalizable(series)
    ensures InSync(InitialView, series)
  {
  }

  /** While the page keeps both refs attached, every event leaves the canvas
      in sync with the settings: the last trigger's paint is what remains. */
  lemma StepKeepsInSync(v: HeatView, e: Event, host: Host, series: seq<real>)
    requires Normalizable(series)
    requires InSync(v, series) && Attached(host)
    ensures InSync(Step(v, e, host, series).next, series)
  {
    var t := Step(v, e, host, series);
    if !t.painted {
      assert t.next.canvas == v.canvas;
      assert t.next.contentLoaded == v.contentLoaded;
    }
  }

  /** The same over any sequence of triggers. */
  lemma {:induction false} RunKeepsInSync(v: HeatView, triggers: seq<Trigger>, series: seq<real>)
    requires Normalizable(series)
    requires InSync(v, series)
    requires forall k :: 0 <= k < |triggers| ==> Attached(triggers[k].host)
    ensures InSync(Run(v, triggers, series), series)
    decreases |triggers|
  {
    if triggers != [] {
      StepKeepsInSync(v, triggers[0].event, triggers[0].host, series);
      RunKeepsInSync(Step(v, triggers[0].event, triggers[0].host, series).next, triggers[1..], series);
    }
  }

  /** The loaded flag never goes back to false, and as long as it is false
      nothing is ever painted, whatever the page offers. */
  lemma {:induction false} NothingPaintedBeforeLoad(v: HeatView, triggers: seq<Trigger>, series: seq<real>)
    requires Normalizable(series)
    ensures v.contentLoaded ==> Run(v, triggers, series).contentLoaded
    ensures !Run(v, triggers, series).contentLoaded ==> Run(v, triggers, series).canvas == v.canvas
    decreases |triggers|
  {
    if triggers != [] {
      NothingPaintedBeforeLoad(Step(v, triggers[0].event, triggers[0].host, series).next, triggers[1..], series);
    }
  }

  /** Once unmounted, no trigger changes anything. */
  lemma {:induction false} NothingAfterUnmount(v: HeatView, triggers: seq<Trigger>, series: seq<real>)
    requires Normalizable(series)
    requires !v.mounted
    ensures Run(v, triggers, series) == v
    decreases |triggers|
  {
    if triggers != [] {
      NothingAfterUnmount(v, triggers[1..], series);
    }
  }

  /** Unticking the checkbox on a loaded, shown overlay repaints it blank, at
      the size of the current content box. */
  lemma HidingBlanksCanvas(v: HeatView, host: Host, series: seq<real>)
    requires Normalizable(series)
    requires v.mounted && v.contentLoaded && v.showHeatMap && Attached(host)
    ensures var t := Step(v, ShowToggled(false), host, series);
      && t.painted
      && t.next.canvas.fill.None?
      && t.next.canvas.cssSize == host.content
  {
  }

  /** Moving the slider on a loaded, shown overlay repaints it with the new
      alpha: every stop is drawn at the chosen opacity. */
  lemma OpacityChangeRepaints(v: HeatView, opacity: real, host: Host, series: seq<real>)
    requires Normalizable(series)
    requires v.mounted && v.contentLoaded && v.showHeatMap && Attached(host) && opacity != v.opacity
    ensures var t := Step(v, OpacityChanged(opacity), host, series);
      && t.painted
      && t.next.opacity == opacity
      && t.next.canvas.fill.Some?
      && t.next.canvas.fill.value.stops == GradientStops(series, opacity)
  {
  }

  /** Ticking the checkbox on a loaded, hidden overlay paints the gradient of
      the current opacity over the current box. */
  lemma ShowingPaintsGradient(v: HeatView, host: Host, series: seq<real>)
    requires Normalizable(series)
    requires v.mounted && v.contentLoaded && !v.showHeatMap && Attached(host)
    ensures var t := Step(v, ShowToggled(true), host, series);
      && t.painted
      && t.next.showHeatMap
      && t.next.canvas.fill == Some(Fill(host.content.value.width, host.content.value.height,
                                         host.content.value.height, GradientStops(series, v.opacity)))
  {
  }

  /** A resize of a loaded overlay repaints it at the new content box, so no
      stale size survives. */
  lemma ResizeTracksContentBox(v: HeatView, host: Host, series: seq<real>)
    requires Normalizable(series)
    requires v.mounted && v.contentLoaded && Attached(host)
    ensures var t := Step(v, WindowResized, host, series);
      && t.painted
      && t.next.canvas.width == Floor(host.content.value.width)
      && t.next.canvas.height == Floor(host.content.value.height)
      && t.next.canvas.cssSize == host.content
  {
  }
}
