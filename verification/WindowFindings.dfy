/** Four places where Window.cpp does something other than what its names and the rest
    of the class evidently mean. For each: the as-written behaviour (from module Window)
    shown on a concrete input, and a corrected definition with the intended property
    proved about it. The rest of the model keeps the code as written. */
module WindowFindings {
  import opened KeyCodes
  import opened KeyRecord
  import opened Window

  datatype Option<T> = None | Some(value: T)

  // ----- MouseDelta is always zero (Window.cpp:78-80) -----

  /** Tick's bookkeeping with the subtraction done before LastMousePosition moves on. */
  function BookkeepingIntended(w: WindowState, now: real): (r: WindowState)
    ensures r.mouseDelta == Sub(w.mousePosition, w.lastMousePosition)
    ensures r == Bookkeeping(w, now).(mouseDelta := r.mouseDelta)
  {
    w.(mouseDelta := Sub(w.mousePosition, w.lastMousePosition),
       lastMousePosition := w.mousePosition,
       scrollDelta := w.scrollOffset, scrollOffset := 0.0,
       deltaTime := now - w.lastFrameTime, lastFrameTime := now)
  }

  /** No callback writes MouseDelta, so delivering an event commutes with setting it. */
  lemma DeliverKeepsMouseDelta(w: WindowState, d: Vec2, e: Event)
    requires Valid(w) && Deliverable(e)
    ensures Deliver(w.(mouseDelta := d), e) == Deliver(w, e).(mouseDelta := d)
  {
    match e
    case KeyEvent(glfwKey, action, now) =>
    case MouseButtonEvent(glfwButton, action, now) =>
    case CursorEvent(x, y) =>
    case ScrollEvent(xOffset, yOffset) =>
    case PositionEvent(x, y) =>
    case SizeEvent(width, height) =>
    case FrameBufferSizeEvent(width, height) =>
    case CloseRequested =>
  }

  /** ... and so does a whole poll. */
  lemma {:induction false} PollKeepsMouseDelta(w: WindowState, d: Vec2, events: seq<Event>)
    requires Valid(w) && AllDeliverable(events)
    ensures Poll(w.(mouseDelta := d), events) == Poll(w, events).(mouseDelta := d)
    decreases |events|
  {
    if |events| > 0 {
      var prefix := events[..|events| - 1];
      PollKeepsMouseDelta(w, d, prefix);
      DeliverKeepsMouseDelta(Poll(w, prefix), d, events[|events| - 1]);
    }
  }

  function TickIntended(w: WindowState, now: real, events: seq<Event>): (r: WindowState)
    requires Valid(w) && AllDeliverable(events)
    ensures Valid(r)
    ensures r.mouseDelta == Sub(w.mousePosition, w.lastMousePosition)
    ensures r == Tick(w, now, events).(mouseDelta := r.mouseDelta)
  {
    PollKeepsMouseDelta(Bookkeeping(w, now), Sub(w.mousePosition, w.lastMousePosition), events);
    Poll(BookkeepingIntended(w, now), events)
  }

  /** With the corrected Tick, the delta a Tick publishes is how far the cursor moved
      during the previous frame's poll. */
  lemma MouseDeltaIsFrameMovement(w: WindowState, t1: real, e1: seq<Event>, t2: real, e2: seq<Event>)
    requires Valid(w) && AllDeliverable(e1) && AllDeliverable(e2)
    ensures TickIntended(TickIntended(w, t1, e1), t2, e2).mouseDelta
            == Sub(LastCursor(w.mousePosition, e1), w.mousePosition)
  {
  }

  /** As written: the cursor moves by (1, 0) during a frame, and the next Tick still
      publishes a zero delta; the corrected Tick publishes (1, 0). */
  lemma MouseDeltaAsWrittenIgnoresMovement(fb: IVec2, size: IVec2, pos: IVec2)
    ensures var w := Create(fb, size, pos);
            var e1 := [CursorEvent(1.0, 0.0)];
            Tick(Tick(w, 0.0, e1), 1.0, []).mouseDelta == Origin &&
            TickIntended(TickIntended(w, 0.0, e1), 1.0, []).mouseDelta == Vec2(1.0, 0.0)
  {
    var w := Create(fb, size, pos);
    var e1 := [CursorEvent(1.0, 0.0)];
    assert e1[..0] == [];
    assert LastCursor(w.mousePosition, e1) == Vec2(1.0, 0.0);
    MouseDeltaIsFrameMovement(w, 0.0, e1, 1.0, []);
  }

  // ----- The scroll callback accumulates the horizontal offset (Window.cpp:668) -----

  /** The callback accumulating the vertical wheel offset, the axis GetScrollDelta's
      callers read as "the scroll wheel". */
  function ScrollCallBackIntended(w: WindowState, xOffset: real, yOffset: real): (r: WindowState)
    ensures r.scrollOffset - w.scrollOffset == yOffset
    ensures r == ScrollCallBack(w, xOffset, yOffset).(scrollOffset := r.scrollOffset)
  {
    w.(scrollOffset := w.scrollOffset + yOffset)
  }

  /** Delivery with the corrected scroll callback; every other event as written. */
  function DeliverIntended(w: WindowState, e: Event): (r: WindowState)
    requires Valid(w) && Deliverable(e)
    ensures Valid(r) && SameBookkeeping(w, r)
    ensures r.scrollOffset == w.scrollOffset + (if e.ScrollEvent? then e.yOffset else 0.0)
    ensures r.(scrollOffset := 0.0) == Deliver(w, e).(scrollOffset := 0.0)
  {
    match e
    case ScrollEvent(xOffset, yOffset) => ScrollCallBackIntended(w, xOffset, yOffset)
    case _ => Deliver(w, e)
  }

  /** Sum of the vertical offsets of the scroll events. */
  function VerticalScrollSum(events: seq<Event>): real
  {
    if |events| == 0 then 0.0
    else
      var e := events[|events| - 1];
      VerticalScrollSum(events[..|events| - 1]) + (if e.ScrollEvent? then e.yOffset else 0.0)
  }

  /** Every callback other than the scroll one ignores the scroll accumulator, so two
      states that differ only there stay that way through any event. */
  lemma DeliverIgnoresScrollOffset(w: WindowState, s: real, e: Event)
    requires Valid(w) && Deliverable(e)
    ensures Deliver(w.(scrollOffset := s), e).(scrollOffset := 0.0)
            == Deliver(w, e).(scrollOffset := 0.0)
  {
    match e
    case KeyEvent(glfwKey, action, now) =>
    case MouseButtonEvent(glfwButton, action, now) =>
    case CursorEvent(x, y) =>
    case ScrollEvent(xOffset, yOffset) =>
    case PositionEvent(x, y) =>
    case SizeEvent(width, height) =>
    case FrameBufferSizeEvent(width, height) =>
    case CloseRequested =>
  }

  /** A poll with the corrected scroll callback: it accumulates the vertical offsets and
      otherwise ends in the state the written poll reaches. */
  function PollIntended(w: WindowState, events: seq<Event>): (r: WindowState)
    requires Valid(w) && AllDeliverable(events)
    ensures Valid(r) && SameBookkeeping(w, r)
    ensures r.scrollOffset == w.scrollOffset + VerticalScrollSum(events)
    ensures r.(scrollOffset := 0.0) == Poll(w, events).(scrollOffset := 0.0)
    decreases |events|
  {
    if |events| == 0 then w
    else
      var before := PollIntended(w, events[..|events| - 1]);
      var written := Poll(w, events[..|events| - 1]);
      assert before == written.(scrollOffset := before.scrollOffset);
      DeliverIgnoresScrollOffset(written, before.scrollOffset, events[|events| - 1]);
      DeliverIntended(before, events[|events| - 1])
  }

  /** Tick with the corrected scroll callback in its poll. */
  function TickScrollIntended(w: WindowState, now: real, events: seq<Event>): (r: WindowState)
    requires Valid(w) && AllDeliverable(events)
    ensures Valid(r)
    ensures r.scrollDelta == w.scrollOffset && r.scrollOffset == VerticalScrollSum(events)
    ensures r.(scrollOffset := 0.0) == Tick(w, now, events).(scrollOffset := 0.0)
  {
    PollIntended(Bookkeeping(w, now), events)
  }

  /** With the corrected callback, the scroll a Tick publishes is the vertical wheel
      movement the previous frame's poll delivered. */
  lemma ScrollDeltaIsWheelMovement(w: WindowState, t1: real, e1: seq<Event>, t2: real, e2: seq<Event>)
    requires Valid(w) && AllDeliverable(e1) && AllDeliverable(e2)
    ensures TickScrollIntended(TickScrollIntended(w, t1, e1), t2, e2).scrollDelta
            == VerticalScrollSum(e1)
  {
  }

  /** A vertical wheel notch (0, 1): as written, the next Tick publishes no scroll at all;
      with the corrected callback it publishes the notch. */
  lemma VerticalNotchIsLost(w: WindowState, t1: real, t2: real)
    requires Valid(w)
    ensures Tick(Tick(w, t1, [ScrollEvent(0.0, 1.0)]), t2, []).scrollDelta == 0.0
    ensures TickScrollIntended(TickScrollIntended(w, t1, [ScrollEvent(0.0, 1.0)]), t2, [])
              .scrollDelta == 1.0
  {
    var e1 := [ScrollEvent(0.0, 1.0)];
    assert e1[..0] == [];
    ScrollLatchAcrossFrames(w, t1, e1, t2, []);
    ScrollDeltaIsWheelMovement(w, t1, e1, t2, []);
  }

  // ----- SetWindowPos forwards the current position (Window.cpp:132) -----

  /** SetWindowPos forwarding its argument: once GLFW reports the requested position
      back through the position callback, the window is where it was asked to be. */
  function SetWindowPosIntended(w: WindowState, newPosition: IVec2): (request: IVec2)
    ensures PositionCallBack(w, request.x, request.y).position == newPosition
  {
    newPosition
  }

  /** The same through a poll that delivers only that report. */
  lemma SetWindowPosRoundTrip(w: WindowState, newPosition: IVec2)
    requires Valid(w)
    ensures var req := SetWindowPosIntended(w, newPosition);
            Poll(w, [PositionEvent(req.x, req.y)]).position == newPosition
  {
    var req := SetWindowPosIntended(w, newPosition);
    assert [PositionEvent(req.x, req.y)][..0] == [];
  }

  /** As written: asking for any other position leaves the window where it was. */
  lemma SetWindowPosAsWrittenStays(w: WindowState, newPosition: IVec2)
    requires Valid(w) && newPosition != w.position
    ensures var req := SetWindowPos(w, newPosition);
            Poll(w, [PositionEvent(req.x, req.y)]).position != newPosition
  {
    var req := SetWindowPos(w, newPosition);
    assert [PositionEvent(req.x, req.y)][..0] == [];
  }

  // ----- ConvertGLFWMouseButton has no default (Window.cpp:555-567) -----

  /** GLFW_MOUSE_BUTTON_LAST in glfw3.h: GLFW reports eight buttons, 0 .. 7. */
  const GLFW_MOUSE_BUTTON_LAST: int := GLFW_MOUSE_BUTTON_8

  /** As written: GLFW can deliver button 8, and the modelled callback cannot take that
      event (ConvertGLFWMouseButton returns no value for it); the corrected callback
      ignores it. */
  lemma Button8IsUnconverted(w: WindowState, action: int, t: real)
    requires Valid(w)
    ensures 0 <= GLFW_MOUSE_BUTTON_8 <= GLFW_MOUSE_BUTTON_LAST
    ensures !Deliverable(MouseButtonEvent(GLFW_MOUSE_BUTTON_8, action, t))
    ensures MouseButtonCallBackChecked(w, GLFW_MOUSE_BUTTON_8, action, t) == w
  {
  }

  /** The conversion with a default: no button for codes the enum does not list. */
  function ConvertGLFWMouseButtonChecked(glfwButton: int): (r: Option<MouseButtonCode>)
    ensures r.Some? <==> 0 <= glfwButton < NumMouseButtonCodes
    ensures r.Some? ==> GLFWMouseButtonOf(r.value) == glfwButton
  {
    if 0 <= glfwButton < NumMouseButtonCodes then Some(ConvertGLFWMouseButton(glfwButton))
    else None
  }

  /** The callback that ignores buttons the enum does not list: defined for every GLFW
      button, and the same as the as-written callback wherever that one is defined. */
  function MouseButtonCallBackChecked(w: WindowState, glfwButton: int, action: int, now: real)
    : (r: WindowState)
    requires Valid(w)
    ensures Valid(r)
    ensures 0 <= glfwButton < NumMouseButtonCodes ==>
              r == MouseButtonCallBack(w, glfwButton, action, now)
    ensures !(0 <= glfwButton < NumMouseButtonCodes) ==> r == w
    ensures Window.Consistent(w) ==> Window.Consistent(r)
  {
    match ConvertGLFWMouseButtonChecked(glfwButton)
    case None => w
    case Some(code) =>
      w.(mouseButtons := w.mouseButtons[code := OnAction(w.mouseButtons[code], action, now)])
  }
}
