/**
 * The client's stroke capture (requestDrawing, setPosition, getDrawing and
 * the two handlers that reset the stroke settings in script.js). A stroke
 * runs from the last known position `pos` to the new one, which becomes the
 * start of the next stroke. Coordinates are integers here.
 */
module Pen {
  import opened Protocol

  datatype Point = Point(x: int, y: int)

  /** A mouse event with the canvas's bounding rectangle at that moment. */
  datatype MouseEvent = MouseEvent(buttons: int, clientX: int, clientY: int, boundsLeft: int, boundsTop: int)

  /** The document listeners: mousemove -> requestDrawing, mousedown and mouseenter -> setPosition. */
  datatype PointerEvent = MouseMove(e: MouseEvent) | MouseDown(e: MouseEvent) | MouseEnter(e: MouseEvent)

  /** The canvas-relative point of an event, as setPosition computes it. */
  function CanvasPoint(e: MouseEvent): Point {
    Point(e.clientX - e.boundsLeft, e.clientY - e.boundsTop)
  }

  /**
   * Why setPosition subtracts the bounds: wherever the canvas sits in the
   * window, a pointer at the same spot on the canvas gives the same point.
   * Shifting canvas and pointer together leaves it unchanged.
   */
  lemma CanvasPointIgnoresPlacement(e: MouseEvent, dx: int, dy: int)
    ensures CanvasPoint(MouseEvent(e.buttons, e.clientX + dx, e.clientY + dy, e.boundsLeft + dx, e.boundsTop + dy))
            == CanvasPoint(e)
  {
  }

  /** A move only draws (and only moves `pos`) while the left button alone is pressed. */
  predicate Draws(ev: PointerEvent) {
    ev.MouseMove? && ev.e.buttons == 1
  }

  /** `pos` after one event. */
  function NextPos(p: Point, ev: PointerEvent): Point {
    if ev.MouseMove? && !Draws(ev) then p else CanvasPoint(ev.e)
  }

  /** The requests one event emits from position `p`. */
  function EventRequests(p: Point, lineWidth: int, style: string, ev: PointerEvent): seq<Request> {
    if Draws(ev) then
      var q := CanvasPoint(ev.e);
      [DrawingRequest(Drawing(lineWidth, style, p.x, p.y, q.x, q.y))]
    else []
  }

  /** `pos` after a run of events. */
  function PosAfter(p: Point, evs: seq<PointerEvent>): Point {
    if |evs| == 0 then p else NextPos(PosAfter(p, evs[..|evs| - 1]), evs[|evs| - 1])
  }

  /** The drawing requests a run of events emits, with fixed stroke settings. */
  function Requests(p: Point, lineWidth: int, style: string, evs: seq<PointerEvent>): seq<Request> {
    if |evs| == 0 then []
    else Requests(p, lineWidth, style, evs[..|evs| - 1])
         + EventRequests(PosAfter(p, evs[..|evs| - 1]), lineWidth, style, evs[|evs| - 1])
  }

  /** Handling one more event extends the run's requests by that event's requests. */
  lemma RequestsExtend(p: Point, lineWidth: int, style: string, evs: seq<PointerEvent>, ev: PointerEvent)
    ensures PosAfter(p, evs + [ev]) == NextPos(PosAfter(p, evs), ev)
    ensures Requests(p, lineWidth, style, evs + [ev])
            == Requests(p, lineWidth, style, evs) + EventRequests(PosAfter(p, evs), lineWidth, style, ev)
  {
    assert (evs + [ev])[..|evs|] == evs;
  }

  function StrokeStart(r: Request): Point
    requires r.DrawingRequest?
  {
    Point(r.drawing.fromX, r.drawing.fromY)
  }

  function StrokeEnd(r: Request): Point
    requires r.DrawingRequest?
  {
    Point(r.drawing.toX, r.drawing.toY)
  }

  /**
   * A drag (a run of pressed moves) gives one stroke per event, ending at
   * that event's point; the first starts at the initial position and each
   * later one starts where the previous one ended, so the strokes form an
   * unbroken line.
   */
  lemma {:induction false} DragStrokesConnect(p: Point, lineWidth: int, style: string, evs: seq<PointerEvent>)
    requires forall k :: 0 <= k < |evs| ==> Draws(evs[k])
    ensures |Requests(p, lineWidth, style, evs)| == |evs|
    ensures forall k :: 0 <= k < |evs| ==>
      Requests(p, lineWidth, style, evs)[k].DrawingRequest? &&
      StrokeEnd(Requests(p, lineWidth, style, evs)[k]) == CanvasPoint(evs[k].e)
    ensures |evs| > 0 ==> StrokeStart(Requests(p, lineWidth, style, evs)[0]) == p
    ensures forall k :: 0 < k < |evs| ==>
      StrokeStart(Requests(p, lineWidth, style, evs)[k]) == StrokeEnd(Requests(p, lineWidth, style, evs)[k - 1])
  {
    if |evs| > 0 {
      var n := |evs| - 1;
      var init := evs[..n];
      DragStrokesConnect(p, lineWidth, style, init);
      var head := Requests(p, lineWidth, style, init);
      var q := PosAfter(p, init);
      assert n > 0 ==> q == StrokeEnd(head[n - 1]) by {
        if n > 0 {
          assert init[n - 1] == evs[n - 1];
        }
      }
      var c := CanvasPoint(evs[n].e);
      var rs := Requests(p, lineWidth, style, evs);
      assert rs == head + [DrawingRequest(Drawing(lineWidth, style, q.x, q.y, c.x, c.y))];
      forall k | 0 <= k < n ensures init[k] == evs[k] { }
    }
  }

  class Pen {
    /** The last known position, `pos`. */
    var pos: Point
    /** lineWidthSlider.value */
    var lineWidth: int
    /** globalStrokeStyle */
    var strokeStyle: string
    const socket: ClientSocket

    constructor (socket: ClientSocket, sliderValue: int)
      ensures this.socket == socket
      ensures pos == Point(0, 0) && lineWidth == sliderValue && strokeStyle == ""
    {
      this.socket := socket;
      pos, lineWidth, strokeStyle := Point(0, 0), sliderValue, "";
    }

    /** setPosition: the event's point relative to the canvas's bounding rectangle. */
    method SetPosition(e: MouseEvent)
      modifies this`pos
      ensures pos == CanvasPoint(e)
    {
      pos := Point(e.clientX - e.boundsLeft, e.clientY - e.boundsTop);
    }

    /** getDrawing: a stroke from the previous `pos` to the event's point, which becomes the new `pos`. */
    method GetDrawing(e: MouseEvent) returns (drawing: Drawing)
      modifies this`pos
      ensures Point(drawing.fromX, drawing.fromY) == old(pos)
      ensures Point(drawing.toX, drawing.toY) == pos && pos == CanvasPoint(e)
      ensures drawing.lineWidth == lineWidth && drawing.strokeStyle == strokeStyle
    {
      var fromPosX := pos.x;
      var fromPosY := pos.y;
      SetPosition(e);
      var toPosX := pos.x;
      var toPosY := pos.y;
      drawing := Drawing(lineWidth, strokeStyle, fromPosX, fromPosY, toPosX, toPosY);
    }

    /** requestDrawing: with the left button pressed, emit the stroke getDrawing builds; else do nothing. */
    method RequestDrawing(e: MouseEvent)
      modifies this`pos, socket
      ensures pos == NextPos(old(pos), MouseMove(e))
      ensures socket.sent == old(socket.sent) + EventRequests(old(pos), lineWidth, strokeStyle, MouseMove(e))
    {
      if e.buttons != 1 { return; }
      var drawing := GetDrawing(e);
      socket.Emit(DrawingRequest(drawing));
    }

    /** The three document listeners. */
    method HandlePointerEvent(ev: PointerEvent)
      modifies this`pos, socket
      ensures pos == NextPos(old(pos), ev)
      ensures socket.sent == old(socket.sent) + EventRequests(old(pos), lineWidth, strokeStyle, ev)
    {
      match ev
      case MouseMove(e) => RequestDrawing(e);
      case MouseDown(e) => SetPosition(e);
      case MouseEnter(e) => SetPosition(e);
    }

    /** new-style-response: the colour of later strokes. */
    method OnNewStyleResponse(style: string)
      modifies this`strokeStyle
      ensures strokeStyle == style
    {
      strokeStyle := style;
    }

    /** reset-line-width-slider: the slider goes back to 6. */
    method OnResetLineWidthSlider()
      modifies this`lineWidth
      ensures lineWidth == 6
    {
      lineWidth := 6;
    }
  }

  /**
   * The browser delivering a run of events, in order, to the three document
   * listeners: the pen ends at PosAfter and the socket has sent exactly
   * Requests of the run, so DragStrokesConnect describes what a drag emits.
   */
  method DispatchPointerEvents(pen: Pen, evs: seq<PointerEvent>)
    modifies pen`pos, pen.socket
    ensures pen.pos == PosAfter(old(pen.pos), evs)
    ensures pen.socket.sent == old(pen.socket.sent) + Requests(old(pen.pos), pen.lineWidth, pen.strokeStyle, evs)
  {
    var i := 0;
    while i < |evs|
      invariant 0 <= i <= |evs|
      invariant pen.pos == PosAfter(old(pen.pos), evs[..i])
      invariant pen.socket.sent == old(pen.socket.sent) + Requests(old(pen.pos), pen.lineWidth, pen.strokeStyle, evs[..i])
    {
      RequestsExtend(old(pen.pos), pen.lineWidth, pen.strokeStyle, evs[..i], evs[i]);
      pen.HandlePointerEvent(evs[i]);
      assert evs[..i + 1] == evs[..i] + [evs[i]];
      i := i + 1;
    }
    assert evs[..i] == evs;
  }
}
