/** The input and window-geometry state of class Window (Window.h, Window.cpp) as an
    immutable record. The GLFW callbacks, the per-frame Tick, the queries and the
    fullscreen/close operations are pure transitions; everything GLFW itself does
    (creating the window, polling the OS, honouring a monitor change) is outside, and
    enters only as parameters: the clock reading, the list of events a poll delivers,
    whether the window is currently fullscreen, the monitor's video mode. */
module Window {
  import opened KeyCodes
  import opened KeyRecord

  /** dvec2 and ivec2 of glm. */
  datatype Vec2 = Vec2(x: real, y: real)
  datatype IVec2 = IVec2(x: int, y: int)

  const Origin: Vec2 := Vec2(0.0, 0.0)
  const Zero: IVec2 := IVec2(0, 0)

  function Sub(a: Vec2, b: Vec2): Vec2
  {
    Vec2(a.x - b.x, a.y - b.y)
  }

  /** The data members of Window that the input logic reads and writes. closeRequested
      stands for GLFW's own should-close flag of the native window (set when the user
      closes it, or by glfwSetWindowShouldClose). */
  datatype WindowState = WindowState(
    keys: seq<Key>,
    mouseButtons: seq<Key>,
    mousePosition: Vec2,
    lastMousePosition: Vec2,
    mouseDelta: Vec2,
    scrollDelta: real,
    scrollOffset: real,
    pendingClose: bool,
    closeRequested: bool,
    frameBufferSize: IVec2,
    size: IVec2,
    position: IVec2,
    deltaTime: real,
    lastFrameTime: real,
    lastWindowedSize: IVec2,
    lastWindowedPosition: IVec2)

  /** The two std::arrays have one record per enumerator before the Num... sentinel. */
  predicate Valid(w: WindowState)
  {
    |w.keys| == NumKeyCodes && |w.mouseButtons| == NumMouseButtonCodes
  }

  /** Every record that is not held down stores 0 as its press time. */
  predicate Consistent(w: WindowState)
  {
    (forall k :: 0 <= k < |w.keys| ==> KeyRecord.Consistent(w.keys[k])) &&
    (forall b :: 0 <= b < |w.mouseButtons| ==> KeyRecord.Consistent(w.mouseButtons[b]))
  }

  /** The default member initialisers of class Window. */
  function Defaults(): (w: WindowState)
    ensures Valid(w) && Consistent(w)
    ensures forall k :: 0 <= k < NumKeyCodes ==> w.keys[k] == FreshKey
    ensures forall b :: 0 <= b < NumMouseButtonCodes ==> w.mouseButtons[b] == FreshKey
  {
    WindowState(
      seq(NumKeyCodes, _ => FreshKey), seq(NumMouseButtonCodes, _ => FreshKey),
      Origin, Origin, Origin, 0.0, 0.0,
      false, false,
      Zero, Zero, Zero,
      0.0, 0.0,
      Zero, Zero)
  }

  /** The state the constructor leaves: the defaults, except that the framebuffer size,
      window size and position are read back from the newly created native window. */
  function Create(frameBufferSize: IVec2, size: IVec2, position: IVec2): (w: WindowState)
    ensures Valid(w) && Consistent(w)
    ensures forall k :: 0 <= k < NumKeyCodes ==> w.keys[k] == FreshKey
    ensures forall b :: 0 <= b < NumMouseButtonCodes ==> w.mouseButtons[b] == FreshKey
    ensures w.mousePosition == w.lastMousePosition == w.mouseDelta == Origin
    ensures w.scrollDelta == 0.0 && w.scrollOffset == 0.0
    ensures !w.pendingClose && !w.closeRequested && w.deltaTime == 0.0 && w.lastFrameTime == 0.0
    ensures w.lastWindowedSize == Zero && w.lastWindowedPosition == Zero
    ensures w.frameBufferSize == frameBufferSize && w.size == size && w.position == position
  {
    Defaults().(frameBufferSize := frameBufferSize, size := size, position := position)
  }

  // ----- GLFW callbacks -----

  /** KeyCallBack: the GLFW code is normalised (unlisted codes land on UnknownKey's
      record) and that one record takes the action; nothing else changes. */
  function KeyCallBack(w: WindowState, glfwKey: int, action: int, now: real): (r: WindowState)
    requires Valid(w)
    ensures Valid(r)
    ensures forall k :: 0 <= k < NumKeyCodes && k != ConvertGLFWKey(glfwKey) ==>
              r.keys[k] == w.keys[k]
    ensures r.keys[ConvertGLFWKey(glfwKey)] == OnAction(w.keys[ConvertGLFWKey(glfwKey)], action, now)
    ensures r.(keys := w.keys) == w
    ensures Consistent(w) ==> Consistent(r)
  {
    var code := ConvertGLFWKey(glfwKey);
    w.(keys := w.keys[code := OnAction(w.keys[code], action, now)])
  }

  /** MouseButtonCallBack as written: ConvertGLFWMouseButton is defined only for the
      seven buttons the enum lists, so the callback is too. */
  function MouseButtonCallBack(w: WindowState, glfwButton: int, action: int, now: real)
    : (r: WindowState)
    requires Valid(w)
    requires 0 <= glfwButton < NumMouseButtonCodes
    ensures Valid(r)
    ensures forall b :: 0 <= b < NumMouseButtonCodes && GLFWMouseButtonOf(b) != glfwButton ==>
              r.mouseButtons[b] == w.mouseButtons[b]
    ensures forall b :: 0 <= b < NumMouseButtonCodes && GLFWMouseButtonOf(b) == glfwButton ==>
              r.mouseButtons[b] == OnAction(w.mouseButtons[b], action, now)
    ensures r.(mouseButtons := w.mouseButtons) == w
    ensures Consistent(w) ==> Consistent(r)
  {
    var code := ConvertGLFWMouseButton(glfwButton);
    w.(mouseButtons := w.mouseButtons[code := OnAction(w.mouseButtons[code], action, now)])
  }

  /** CursorPositionCallBack stores the position and touches nothing else; in particular
      not LastMousePosition. */
  function CursorPositionCallBack(w: WindowState, x: real, y: real): (r: WindowState)
    ensures r.mousePosition == Vec2(x, y)
    ensures r.(mousePosition := w.mousePosition) == w
  {
    w.(mousePosition := Vec2(x, y))
  }

  /** ScrollCallBack as written: it accumulates the horizontal offset; the vertical one
      is dropped. */
  function ScrollCallBack(w: WindowState, xOffset: real, yOffset: real): (r: WindowState)
    ensures r.scrollOffset - w.scrollOffset == xOffset
    ensures r.(scrollOffset := w.scrollOffset) == w
  {
    w.(scrollOffset := w.scrollOffset + xOffset)
  }

  function PositionCallBack(w: WindowState, x: int, y: int): (r: WindowState)
    ensures r.position == IVec2(x, y) && r.(position := w.position) == w
  {
    w.(position := IVec2(x, y))
  }

  function SizeCallBack(w: WindowState, width: int, height: int): (r: WindowState)
    ensures r.size == IVec2(width, height) && r.(size := w.size) == w
  {
    w.(size := IVec2(width, height))
  }

  function FrameBufferSizeCallBack(w: WindowState, width: int, height: int): (r: WindowState)
    ensures r.frameBufferSize == IVec2(width, height) && r.(frameBufferSize := w.frameBufferSize) == w
  {
    w.(frameBufferSize := IVec2(width, height))
  }

  // ----- Polling: GLFW delivers a list of events, each through its callback -----

  /** One event of glfwPollEvents; `now` is what glfwGetTime returns inside the key and
      mouse-button callbacks. CloseRequested is the user closing the native window, which
      GLFW records in its own should-close flag. */
  datatype Event =
    | KeyEvent(glfwKey: int, action: int, now: real)
    | MouseButtonEvent(glfwButton: int, action: int, now: real)
    | CursorEvent(x: real, y: real)
    | ScrollEvent(xOffset: real, yOffset: real)
    | PositionEvent(px: int, py: int)
    | SizeEvent(width: int, height: int)
    | FrameBufferSizeEvent(fbWidth: int, fbHeight: int)
    | CloseRequested

  /** The events the as-written callbacks can take: mouse buttons the enum lists. */
  predicate Deliverable(e: Event)
  {
    e.MouseButtonEvent? ==> 0 <= e.glfwButton < NumMouseButtonCodes
  }

  predicate AllDeliverable(events: seq<Event>)
  {
    forall i :: 0 <= i < |events| ==> Deliverable(events[i])
  }

  /** The fields that no callback writes: Tick's bookkeeping, the close latch and the
      saved windowed geometry. */
  predicate SameBookkeeping(a: WindowState, b: WindowState)
  {
    a.lastMousePosition == b.lastMousePosition && a.mouseDelta == b.mouseDelta &&
    a.scrollDelta == b.scrollDelta && a.pendingClose == b.pendingClose &&
    a.deltaTime == b.deltaTime && a.lastFrameTime == b.lastFrameTime &&
    a.lastWindowedSize == b.lastWindowedSize && a.lastWindowedPosition == b.lastWindowedPosition
  }

  function Deliver(w: WindowState, e: Event): (r: WindowState)
    requires Valid(w) && Deliverable(e)
    ensures Valid(r) && SameBookkeeping(w, r)
    ensures w.closeRequested ==> r.closeRequested
    ensures Consistent(w) ==> Consistent(r)
  {
    match e
    case KeyEvent(glfwKey, action, now) => KeyCallBack(w, glfwKey, action, now)
    case MouseButtonEvent(glfwButton, action, now) =>
      MouseButtonCallBack(w, glfwButton, action, now)
    case CursorEvent(x, y) => CursorPositionCallBack(w, x, y)
    case ScrollEvent(xOffset, yOffset) => ScrollCallBack(w, xOffset, yOffset)
    case PositionEvent(x, y) => PositionCallBack(w, x, y)
    case SizeEvent(width, height) => SizeCallBack(w, width, height)
    case FrameBufferSizeEvent(width, height) => FrameBufferSizeCallBack(w, width, height)
    case CloseRequested => w.(closeRequested := true)
  }

  /** Sum of the horizontal offsets of the scroll events. */
  function ScrollSum(events: seq<Event>): real
  {
    if |events| == 0 then 0.0
    else
      var e := events[|events| - 1];
      ScrollSum(events[..|events| - 1]) + (if e.ScrollEvent? then e.xOffset else 0.0)
  }

  /** Where the cursor is after the events: the last cursor event's position, or `start`. */
  function LastCursor(start: Vec2, events: seq<Event>): Vec2
  {
    if |events| == 0 then start
    else
      var e := events[|events| - 1];
      if e.CursorEvent? then Vec2(e.x, e.y) else LastCursor(start, events[..|events| - 1])
  }

  /** glfwPollEvents: the events in order, each through its callback. */
  function Poll(w: WindowState, events: seq<Event>): (r: WindowState)
    requires Valid(w) && AllDeliverable(events)
    ensures Valid(r) && SameBookkeeping(w, r)
    ensures r.scrollOffset == w.scrollOffset + ScrollSum(events)
    ensures r.mousePosition == LastCursor(w.mousePosition, events)
    ensures w.closeRequested ==> r.closeRequested
    ensures Consistent(w) ==> Consistent(r)
    decreases |events|
  {
    if |events| == 0 then w
    else Deliver(Poll(w, events[..|events| - 1]), events[|events| - 1])
  }

  // ----- Tick -----

  /** Tick's own bookkeeping, before it polls. As written, LastMousePosition is assigned
      before the subtraction, so the published MouseDelta is the position minus itself. */
  function Bookkeeping(w: WindowState, now: real): (r: WindowState)
    ensures r.mouseDelta == Origin
    ensures r.lastMousePosition == w.mousePosition
    ensures r.scrollDelta == w.scrollOffset && r.scrollOffset == 0.0
    ensures r.lastFrameTime == now && r.deltaTime + w.lastFrameTime == now
    ensures r.(lastMousePosition := w.lastMousePosition, mouseDelta := w.mouseDelta,
               scrollDelta := w.scrollDelta, scrollOffset := w.scrollOffset,
               deltaTime := w.deltaTime, lastFrameTime := w.lastFrameTime) == w
  {
    var w1 := w.(lastMousePosition := w.mousePosition);
    var w2 := w1.(mouseDelta := Sub(w1.mousePosition, w1.lastMousePosition));
    var w3 := w2.(lastMousePosition := w2.mousePosition);
    var w4 := w3.(scrollDelta := w3.scrollOffset, scrollOffset := 0.0);
    w4.(deltaTime := now - w4.lastFrameTime, lastFrameTime := now)
  }

  /** Tick: the bookkeeping with the clock reading `now`, then glfwPollEvents delivering
      `events` (buffer swapping is outside the model). What it publishes describes the
      frame that ended: the scroll gathered since the previous Tick and the time since it;
      what it leaves accumulating is the scroll of the events it just polled. */
  function Tick(w: WindowState, now: real, events: seq<Event>): (r: WindowState)
    requires Valid(w) && AllDeliverable(events)
    ensures Valid(r)
    ensures r.scrollDelta == w.scrollOffset && r.scrollOffset == ScrollSum(events)
    ensures r.deltaTime == now - w.lastFrameTime && r.lastFrameTime == now
    ensures r.mouseDelta == Origin
    ensures r.lastMousePosition == w.mousePosition
    ensures r.mousePosition == LastCursor(w.mousePosition, events)
    ensures r.pendingClose == w.pendingClose && (w.closeRequested ==> r.closeRequested)
    ensures r.lastWindowedSize == w.lastWindowedSize
    ensures r.lastWindowedPosition == w.lastWindowedPosition
    ensures Consistent(w) ==> Consistent(r)
  {
    Poll(Bookkeeping(w, now), events)
  }

  /** Over two consecutive Ticks the second publishes exactly the horizontal scroll that
      the first one's poll delivered (0 when there was none), and the time between the two
      clock readings. */
  lemma ScrollLatchAcrossFrames(w: WindowState, t1: real, e1: seq<Event>, t2: real, e2: seq<Event>)
    requires Valid(w) && AllDeliverable(e1) && AllDeliverable(e2)
    ensures Tick(Tick(w, t1, e1), t2, e2).scrollDelta == ScrollSum(e1)
    ensures Tick(Tick(w, t1, e1), t2, e2).deltaTime == t2 - t1
    ensures (forall i :: 0 <= i < |e1| ==> !e1[i].ScrollEvent?) ==>
              Tick(Tick(w, t1, e1), t2, e2).scrollDelta == 0.0
  {
    if forall i :: 0 <= i < |e1| ==> !e1[i].ScrollEvent? {
      NoScrollSumsToZero(e1);
    }
  }

  lemma {:induction false} NoScrollSumsToZero(events: seq<Event>)
    requires forall i :: 0 <= i < |events| ==> !events[i].ScrollEvent?
    ensures ScrollSum(events) == 0.0
    decreases |events|
  {
    if |events| > 0 {
      NoScrollSumsToZero(events[..|events| - 1]);
    }
  }

  // ----- Queries -----

  /** IsKeyDown: the key's held flag. A key that is up is never reported just pressed
      and, in a consistent window, holds no press stamp. */
  function IsKeyDown(w: WindowState, k: KeyCode): (r: bool)
    requires Valid(w)
    ensures !r ==> !JustPressed(w.keys[k]).1
    ensures Consistent(w) && !r ==> w.keys[k].timeSincePressed == 0.0
  {
    w.keys[k].pressed
  }

  /** IsMouseButtonDown: the same on the mouse-button records. */
  function IsMouseButtonDown(w: WindowState, b: MouseButtonCode): (r: bool)
    requires Valid(w)
    ensures !r ==> !JustPressed(w.mouseButtons[b]).1
    ensures Consistent(w) && !r ==> w.mouseButtons[b].timeSincePressed == 0.0
  {
    w.mouseButtons[b].pressed
  }

  /** The steps a poll applies to key k's record: the key events whose GLFW code
      normalises to k, in order. */
  function KeySteps(k: KeyCode, events: seq<Event>): seq<Step>
    decreases |events|
  {
    if |events| == 0 then []
    else
      var e := events[|events| - 1];
      var earlier := KeySteps(k, events[..|events| - 1]);
      if e.KeyEvent? && ConvertGLFWKey(e.glfwKey) == k then earlier + [Input(e.action, e.now)]
      else earlier
  }

  /** The steps a poll applies to button b's record: the button events carrying b's
      GLFW code, in order. */
  function ButtonSteps(b: MouseButtonCode, events: seq<Event>): seq<Step>
    decreases |events|
  {
    if |events| == 0 then []
    else
      var e := events[|events| - 1];
      var earlier := ButtonSteps(b, events[..|events| - 1]);
      if e.MouseButtonEvent? && e.glfwButton == GLFWMouseButtonOf(b) then
        earlier + [Input(e.action, e.now)]
      else earlier
  }

  /** A poll drives each key record by exactly that key's events: other keys' events
      and every other callback leave it alone. */
  lemma {:induction false} PollDrivesKey(w: WindowState, events: seq<Event>, k: KeyCode)
    requires Valid(w) && AllDeliverable(events)
    ensures Poll(w, events).keys[k] == Run(w.keys[k], KeySteps(k, events)).0
    decreases |events|
  {
    if |events| > 0 {
      var prefix := events[..|events| - 1];
      var e := events[|events| - 1];
      PollDrivesKey(w, prefix, k);
      var steps := KeySteps(k, prefix);
      if e.KeyEvent? && ConvertGLFWKey(e.glfwKey) == k {
        assert (steps + [Input(e.action, e.now)])[..|steps|] == steps;
      }
    }
  }

  /** The same for the mouse-button records. */
  lemma {:induction false} PollDrivesButton(w: WindowState, events: seq<Event>, b: MouseButtonCode)
    requires Valid(w) && AllDeliverable(events)
    ensures Poll(w, events).mouseButtons[b] == Run(w.mouseButtons[b], ButtonSteps(b, events)).0
    decreases |events|
  {
    if |events| > 0 {
      var prefix := events[..|events| - 1];
      var e := events[|events| - 1];
      PollDrivesButton(w, prefix, b);
      var steps := ButtonSteps(b, prefix);
      if e.MouseButtonEvent? && e.glfwButton == GLFWMouseButtonOf(b) {
        assert (steps + [Input(e.action, e.now)])[..|steps|] == steps;
      }
    }
  }

  /** After a Tick, IsKeyDown answers what the last press or release of that key in the
      frame's poll left, and what it answered before the Tick when the poll held none;
      repeats and other keys do not matter. */
  lemma KeyDownFollowsLastPress(w: WindowState, now: real, events: seq<Event>, k: KeyCode)
    requires Valid(w) && AllDeliverable(events)
    ensures IsKeyDown(Tick(w, now, events), k) == LastEdge(IsKeyDown(w, k), KeySteps(k, events))
  {
    var w0 := Bookkeeping(w, now);
    PollDrivesKey(w0, events, k);
    DownFollowsLastEdge(w0.keys[k], KeySteps(k, events));
  }

  /** The same for IsMouseButtonDown. */
  lemma ButtonDownFollowsLastPress(w: WindowState, now: real, events: seq<Event>,
                                   b: MouseButtonCode)
    requires Valid(w) && AllDeliverable(events)
    ensures IsMouseButtonDown(Tick(w, now, events), b)
            == LastEdge(IsMouseButtonDown(w, b), ButtonSteps(b, events))
  {
    var w0 := Bookkeeping(w, now);
    PollDrivesButton(w0, events, b);
    DownFollowsLastEdge(w0.mouseButtons[b], ButtonSteps(b, events));
  }

  /** WasKeyJustPressed: true exactly when the key is held with its release latch armed;
      answering true disarms the latch of that key and changes nothing else. */
  function WasKeyJustPressed(w: WindowState, k: KeyCode): (r: (WindowState, bool))
    requires Valid(w)
    ensures Valid(r.0)
    ensures r.1 <==> w.keys[k].pressed && w.keys[k].released
    ensures r.0.keys[k].released <==> w.keys[k].released && !r.1
    ensures r.0.keys[k].pressed == w.keys[k].pressed
    ensures r.0.keys[k].timeSincePressed == w.keys[k].timeSincePressed
    ensures forall j :: 0 <= j < NumKeyCodes && j != k ==> r.0.keys[j] == w.keys[j]
    ensures r.0.(keys := w.keys) == w
    ensures !r.1 ==> r.0 == w
    ensures Consistent(w) ==> Consistent(r.0)
  {
    var (record, fired) := JustPressed(w.keys[k]);
    (w.(keys := w.keys[k := record]), fired)
  }

  /** WasMouseButtonJustPressed: the same edge trigger on the mouse-button records. */
  function WasMouseButtonJustPressed(w: WindowState, b: MouseButtonCode): (r: (WindowState, bool))
    requires Valid(w)
    ensures Valid(r.0)
    ensures r.1 <==> w.mouseButtons[b].pressed && w.mouseButtons[b].released
    ensures r.0.mouseButtons[b].released <==> w.mouseButtons[b].released && !r.1
    ensures r.0.mouseButtons[b].pressed == w.mouseButtons[b].pressed
    ensures r.0.mouseButtons[b].timeSincePressed == w.mouseButtons[b].timeSincePressed
    ensures forall j :: 0 <= j < NumMouseButtonCodes && j != b ==>
              r.0.mouseButtons[j] == w.mouseButtons[j]
    ensures r.0.(mouseButtons := w.mouseButtons) == w
    ensures !r.1 ==> r.0 == w
    ensures Consistent(w) ==> Consistent(r.0)
  {
    var (record, fired) := JustPressed(w.mouseButtons[b]);
    (w.(mouseButtons := w.mouseButtons[b := record]), fired)
  }

  /** GetTimeSinceKeyPressed with the clock reading `now`: the time since the latest
      press while the key is held, and the clock reading itself once it is released. */
  function GetTimeSinceKeyPressed(w: WindowState, k: KeyCode, now: real): (t: real)
    requires Valid(w)
    ensures w.keys[k].pressed ==> t == now - w.keys[k].timeSincePressed
    ensures Consistent(w) && !IsKeyDown(w, k) ==> t == now
  {
    TimeSincePressed(w.keys[k], now)
  }

  function GetTimeSinceMouseButtonPressed(w: WindowState, b: MouseButtonCode, now: real): (t: real)
    requires Valid(w)
    ensures w.mouseButtons[b].pressed ==> t == now - w.mouseButtons[b].timeSincePressed
    ensures Consistent(w) && !IsMouseButtonDown(w, b) ==> t == now
  {
    TimeSincePressed(w.mouseButtons[b], now)
  }

  // ----- Close -----

  function Close(w: WindowState): (r: WindowState)
    ensures r.pendingClose && r.(pendingClose := w.pendingClose) == w
  {
    w.(pendingClose := true)
  }

  /** ShouldClose: a pending Close is forwarded to GLFW's flag, and the answer is GLFW's
      flag; so it answers true exactly when either was set. */
  function ShouldClose(w: WindowState): (r: (WindowState, bool))
    ensures r.1 <==> w.pendingClose || w.closeRequested
    ensures r.0.closeRequested == r.1
    ensures r.0.(closeRequested := w.closeRequested) == w
  {
    var w1 := if w.pendingClose then w.(closeRequested := true) else w;
    (w1, w1.closeRequested)
  }

  // ----- Geometry requests -----

  /** The monitor's current video mode (glfwGetVideoMode). */
  datatype VideoMode = VideoMode(width: int, height: int, refreshRate: int)

  /** The arguments of glfwSetWindowMonitor: fullscreen on the monitor, or windowed. */
  datatype MonitorRequest = MonitorRequest(fullscreen: bool, position: IVec2, size: IVec2, refreshRate: int)

  /** ToggleFullscreen, with IsFullScreen's answer as a parameter: leaving fullscreen asks
      for the saved windowed geometry and changes no state; entering it first saves the
      current position and size and asks for the monitor's whole video mode. */
  function ToggleFullscreen(w: WindowState, isFullScreen: bool, mode: VideoMode)
    : (r: (WindowState, MonitorRequest))
    ensures r.1.fullscreen == !isFullScreen
    ensures isFullScreen ==> r.0 == w
    ensures isFullScreen ==>
              r.1.position == w.lastWindowedPosition && r.1.size == w.lastWindowedSize &&
              r.1.refreshRate == 0
    ensures !isFullScreen ==>
              r.0.lastWindowedPosition == w.position && r.0.lastWindowedSize == w.size &&
              r.0.(lastWindowedPosition := w.lastWindowedPosition,
                   lastWindowedSize := w.lastWindowedSize) == w
    ensures !isFullScreen ==>
              r.1.position == Zero && r.1.size == IVec2(mode.width, mode.height) &&
              r.1.refreshRate == mode.refreshRate
  {
    if isFullScreen then
      (w, MonitorRequest(false, w.lastWindowedPosition, w.lastWindowedSize, 0))
    else
      var saved := w.(lastWindowedPosition := w.position, lastWindowedSize := w.size);
      (saved, MonitorRequest(true, Zero, IVec2(mode.width, mode.height), mode.refreshRate))
  }

  /** What GLFW reports back once it has applied a monitor request. */
  function Honour(req: MonitorRequest): seq<Event>
  {
    [PositionEvent(req.position.x, req.position.y), SizeEvent(req.size.x, req.size.y)]
  }

  /** Going fullscreen and back, with any events in between (including the geometry
      callbacks the first switch causes), asks for exactly the pre-toggle position and
      size; once GLFW honours that request the window is back where it was. */
  lemma FullscreenRoundTrip(w: WindowState, mode: VideoMode, between: seq<Event>)
    requires Valid(w) && AllDeliverable(between)
    ensures var (w1, _) := ToggleFullscreen(w, false, mode);
            var w2 := Poll(w1, between);
            var (w3, req) := ToggleFullscreen(w2, true, mode);
            !req.fullscreen && req.position == w.position && req.size == w.size &&
            Poll(w3, Honour(req)).position == w.position && Poll(w3, Honour(req)).size == w.size
  {
    var (w1, _) := ToggleFullscreen(w, false, mode);
    var w2 := Poll(w1, between);
    var (w3, req) := ToggleFullscreen(w2, true, mode);
    var h := Honour(req);
    assert h[..1] == [h[0]];
    assert h[..1][..0] == [];
  }

  /** SetWindowPos as written: the request carries the current position; the argument is
      unused. */
  function SetWindowPos(w: WindowState, newPosition: IVec2): (request: IVec2)
    ensures request == w.position
  {
    w.position
  }

  /** SetWindowSize forwards its argument to glfwSetWindowSize, so once GLFW reports
      the new size through the size callback, the window has the asked-for size. */
  function SetWindowSize(w: WindowState, newSize: IVec2): (request: IVec2)
    ensures SizeCallBack(w, request.x, request.y).size == newSize
  {
    newSize
  }

  /** The same through a poll that delivers only that report. */
  lemma SetWindowSizeRoundTrip(w: WindowState, newSize: IVec2)
    requires Valid(w)
    ensures var req := SetWindowSize(w, newSize);
            Poll(w, [SizeEvent(req.x, req.y)]).size == newSize
  {
    var req := SetWindowSize(w, newSize);
    assert [SizeEvent(req.x, req.y)][..0] == [];
  }

  // ----- An application's calls, in order -----

  /** What a main loop does with the window between its own decisions. */
  datatype Call =
    | TickCall(now: real, events: seq<Event>)
    | KeyQuery(key: KeyCode)
    | MouseButtonQuery(button: MouseButtonCode)
    | ToggleCall(isFullScreen: bool, mode: VideoMode)
    | CloseCall
    | ShouldCloseCall

  predicate CallDeliverable(c: Call)
  {
    c.TickCall? ==> AllDeliverable(c.events)
  }

  function Apply(w: WindowState, c: Call): (r: WindowState)
    requires Valid(w) && CallDeliverable(c)
    ensures Valid(r)
    ensures w.pendingClose ==> r.pendingClose
    ensures Consistent(w) ==> Consistent(r)
  {
    match c
    case TickCall(now, events) => Tick(w, now, events)
    case KeyQuery(k) => WasKeyJustPressed(w, k).0
    case MouseButtonQuery(b) => WasMouseButtonJustPressed(w, b).0
    case ToggleCall(isFullScreen, mode) => ToggleFullscreen(w, isFullScreen, mode).0
    case CloseCall => Close(w)
    case ShouldCloseCall => ShouldClose(w).0
  }

  /** The state after the calls, in order. Every state a main loop reaches keeps one
      record per key and button, keeps a requested Close, and, from a consistent start,
      keeps the released-means-zero invariant of every record. */
  function Drive(w: WindowState, calls: seq<Call>): (r: WindowState)
    requires Valid(w) && forall i :: 0 <= i < |calls| ==> CallDeliverable(calls[i])
    ensures Valid(r)
    ensures w.pendingClose ==> r.pendingClose
    ensures Consistent(w) ==> Consistent(r)
    decreases |calls|
  {
    if |calls| == 0 then w
    else Apply(Drive(w, calls[..|calls| - 1]), calls[|calls| - 1])
  }

  /** Close is final: after it, whatever the application does, ShouldClose answers true. */
  lemma CloseIsFinal(w: WindowState, calls: seq<Call>)
    requires Valid(w) && forall i :: 0 <= i < |calls| ==> CallDeliverable(calls[i])
    ensures ShouldClose(Drive(Close(w), calls)).1
  {
  }

  /** In any window a main loop reaches from its created state, a key that is up
      reports the clock reading itself as its time since press. */
  lemma ReleasedKeyTimeIsClock(fb: IVec2, size: IVec2, pos: IVec2, calls: seq<Call>,
                               k: KeyCode, now: real)
    requires forall i :: 0 <= i < |calls| ==> CallDeliverable(calls[i])
    requires !IsKeyDown(Drive(Create(fb, size, pos), calls), k)
    ensures GetTimeSinceKeyPressed(Drive(Create(fb, size, pos), calls), k, now) == now
  {
  }

  /** A poll of one event is that event's callback. */
  lemma PollSingle(w: WindowState, e: Event)
    requires Valid(w) && Deliverable(e)
    ensures Poll(w, [e]) == Deliver(w, e)
  {
    assert [e][..0] == [];
  }

  /** The edge trigger on a created window, driven through Tick's poll and the key
      callback with GLFW's code for A: press, Tick, query, query, release, Tick, query,
      press, Tick, query answers true, false, false, true, and A is then down. The
      fresh record's armed latch is what lets the very first press fire. */
  lemma EdgeTriggerOnCreatedWindow(fb: IVec2, size: IVec2, pos: IVec2, t1: real, t2: real, t3: real)
    ensures var w0 := Create(fb, size, pos);
            var w1 := Tick(w0, t1, [KeyEvent(GLFW_KEY_A, GLFW_PRESS, t1)]);
            var (w2, first) := WasKeyJustPressed(w1, A);
            var (w3, second) := WasKeyJustPressed(w2, A);
            var w4 := Tick(w3, t2, [KeyEvent(GLFW_KEY_A, GLFW_RELEASE, t2)]);
            var (w5, third) := WasKeyJustPressed(w4, A);
            var w6 := Tick(w5, t3, [KeyEvent(GLFW_KEY_A, GLFW_PRESS, t3)]);
            var (w7, fourth) := WasKeyJustPressed(w6, A);
            first && !second && !third && fourth && IsKeyDown(w7, A)
  {
    KeyTablesInvert(A);
    assert ConvertGLFWKey(GLFW_KEY_A) == A;
    var w0 := Create(fb, size, pos);
    PollSingle(Bookkeeping(w0, t1), KeyEvent(GLFW_KEY_A, GLFW_PRESS, t1));
    var w1 := Tick(w0, t1, [KeyEvent(GLFW_KEY_A, GLFW_PRESS, t1)]);
    assert w1.keys[A] == Key(true, true, t1);
    var (w2, first) := WasKeyJustPressed(w1, A);
    var (w3, second) := WasKeyJustPressed(w2, A);
    assert w3.keys[A] == Key(true, false, t1);
    PollSingle(Bookkeeping(w3, t2), KeyEvent(GLFW_KEY_A, GLFW_RELEASE, t2));
    var w4 := Tick(w3, t2, [KeyEvent(GLFW_KEY_A, GLFW_RELEASE, t2)]);
    assert w4.keys[A] == Key(false, true, 0.0);
    var (w5, third) := WasKeyJustPressed(w4, A);
    PollSingle(Bookkeeping(w5, t3), KeyEvent(GLFW_KEY_A, GLFW_PRESS, t3));
    var w6 := Tick(w5, t3, [KeyEvent(GLFW_KEY_A, GLFW_PRESS, t3)]);
    assert w6.keys[A] == Key(true, true, t3);
  }

  /** Scroll offsets +1, +2 and -0.5 delivered in one frame's poll: the next Tick
      publishes 2.5, and the Tick after that, with no scroll in between, publishes 0. */
  lemma ScrollScenario(w: WindowState, t1: real, t2: real, t3: real)
    requires Valid(w)
    ensures var e := [ScrollEvent(1.0, 0.0), ScrollEvent(2.0, 0.0), ScrollEvent(-0.5, 0.0)];
            var w2 := Tick(Tick(w, t1, e), t2, []);
            w2.scrollDelta == 2.5 && Tick(w2, t3, []).scrollDelta == 0.0
  {
    var e := [ScrollEvent(1.0, 0.0), ScrollEvent(2.0, 0.0), ScrollEvent(-0.5, 0.0)];
    assert e[..2][..1][..0] == [] && e[..2][..1] == [e[0]] && e[..2] == [e[0], e[1]];
    assert ScrollSum(e[..2][..1]) == 1.0;
    assert ScrollSum(e[..2]) == 3.0;
    assert ScrollSum(e) == 2.5;
    ScrollLatchAcrossFrames(w, t1, e, t2, []);
  }
}
