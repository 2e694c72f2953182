# OpenGlBase input state and uniform cache, in Dafny

This project models two small state machines of the OpenGlBase C++ library and proves
properties about them.

1. **Window input state.** This is the part of class `Window` that the GLFW callbacks write and the application's queries read:
   - the per-key and per-mouse-button records (`Pressed`, `Released`, `TimeSincePressed`);
   - the edge-trigger queries;
   - `Tick`'s per-frame bookkeeping of scroll, mouse and time;
   - the saved windowed geometry of `ToggleFullscreen`;
   - the pending-close flag;
   - the native-key normalisation and the key and button name tables.
2. **Uniform cache of `ShaderProgram`.** This is the uniform-location cache: a hash map from uniform-name contents to the location OpenGL returned. On top of it sit the two public `SetUniform` overloads and their compile-time dispatch over 21 glm value types.

Everything is an immutable value with pure transitions. The things the C++ gets from outside become parameters:
- the clock reading (`glfwGetTime`);
- the events one `glfwPollEvents` delivers;
- the answer of `IsFullScreen`;
- the monitor's video mode;
- `glGetUniformLocation`;
- whether `malloc` succeeds.

| file | module | models |
|---|---|---|
| `KeyCodes.dfy` | `KeyCodes` | the dense `KeyCodes` / `MouseButtonCodes` enums, `ConvertGLFWKey`, `ConvertGLFWMouseButton`, `GetKeyName`, `GetMouseButtonName` |
| `KeyRecord.dfy` | `KeyRecord` | one `Key` record: press/release, the edge trigger, time since press, and scripts of them |
| `Window.dfy` | `Window` | the window state, its callbacks, polling, `Tick`, the queries, `Close`/`ShouldClose`, `ToggleFullscreen`, `SetWindowPos`/`SetWindowSize` |
| `WindowFindings.dfy` | `WindowFindings` | the four defects listed under Findings, as written and corrected |
| `CStrings.dfy` | `CStrings` | NUL-terminated names, the map's `Hash` and `Equal` |
| `UniformDispatch.dfy` | `UniformDispatch` | the private `SetUniform` templates: type to `glUniform*` entry point |
| `UniformCache.dfy` | `UniformCache` | `GetUniformLocation` and the public `SetUniform` overloads |

### Modelling choices

- **Key codes** are the enum's integer values, `0 .. NumKeyCodes - 1` (130 codes) and `0 .. 6` for mouse buttons.
- **Native codes** are the constants of GLFW's `glfw3.h`, version 3.3 and later. That header is not part of this model.
- **Times, positions and scroll offsets** of type `f64` are `real`. **Sizes and window positions** of type `i32` are unbounded `int`.
- **Tick.** `Window.Tick` is the bookkeeping followed by the poll that `Tick` performs, because in the source `glfwPollEvents` runs inside `Tick`, after the bookkeeping. `Window.Bookkeeping` is the bookkeeping alone.
- **Close flag.** GLFW's own should-close flag is part of the state (`closeRequested`). The event `CloseRequested` stands for the user closing the native window.
- **Uniform names** are byte buffers that contain a NUL.
  - Both `Hash` and `Equal` read up to the first NUL.
  - `char` is taken as signed and `size_t` as 64 bits, so the hash is `hash * 31 + c` reduced modulo 2^64.
- **The cache** is a map from name contents to location. `CStrings.HashRespectsEqual` and `CStrings.StrcmpZeroIffSameString` are the two facts that make the unordered map with pointer keys behave as such a map.
- **The application's side.** `Window.Drive` replays a main loop's calls, and `UniformCache.Session` replays a sequence of `SetUniform` calls.

### Behaviour worth knowing

The model follows the code in each of these cases:
- **Cursor callback.** `CursorPositionCallBack` writes only `MousePosition`; `LastMousePosition` moves only in `Tick` (`Window.cpp:637-638`).
- **Scroll axis.** The scroll callback adds the X offset to the accumulator (`Window.cpp:668`).
- **Number of types.** The `SetUniform` dispatch covers 21 glm types: four each of `i32`, `u32` and `f32` scalars and vectors, and nine float matrices (`ShaderManager.h:109-132`).

## Model

| member | source | states |
|---|---|---|
| `KeyCodes.ConvertGLFWKey` | OpenGlBase/Window/Window.cpp:416-553 | total; a non-Unknown result is the key whose GLFW code was given; `GLFW_KEY_UNKNOWN` gives `UnknownKey` |
| `KeyCodes.ConvertGLFWKeyExactly` | OpenGlBase/Window/Window.cpp:416-553 | for every listed key k, a GLFW code normalises to k if and only if it is k's code |
| `KeyCodes.UnlistedIsUnknown` | OpenGlBase/Window/Window.cpp:550-552 | a code no enumerator lists normalises to `UnknownKey` |
| `KeyCodes.KeyTablesInvert` | OpenGlBase/Window/Window.cpp:231-553 | every key is reached from its own GLFW code, and its name determines it |
| `KeyCodes.GetKeyName` | OpenGlBase/Window/Window.cpp:231-368 | the name is non-empty exactly for the 130 enumerators, `""` for anything else |
| `KeyCodes.KeyNamesDistinct` | OpenGlBase/Window/Window.cpp:231-368 | distinct keys have distinct names |
| `KeyCodes.ConvertGLFWMouseButton` | OpenGlBase/Window/Window.cpp:555-567 | defined for GLFW buttons 0..6 only (no default); maps each to the button with that GLFW code |
| `KeyCodes.MouseButtonTablesInvert` | OpenGlBase/Window/Window.cpp:555-567 | every button is reached from its own GLFW code |
| `KeyCodes.GetMouseButtonName` | OpenGlBase/Window/Window.cpp:195-209 | non-empty exactly for the seven buttons, `""` otherwise |
| `KeyCodes.MouseButtonNamesDistinct` | OpenGlBase/Window/Window.cpp:195-209 | distinct buttons have distinct names |
| `KeyRecord.OnAction` | OpenGlBase/Window/Window.cpp:618-628 | press sets Pressed and stamps the clock, Released untouched; release sets Released, clears Pressed and the stamp; any other action changes nothing; keeps "up means stamp 0" |
| `KeyRecord.JustPressed` | OpenGlBase/Window/Window.cpp:370-378 | answers Pressed && Released, and clears Released exactly when it answers true |
| `KeyRecord.TimeSincePressed` | OpenGlBase/Window/Window.cpp:380-383 | clock minus stamp; for a consistent record that is up, the clock itself |
| `KeyRecord.JustPressedConsumesLatch` | OpenGlBase/Window/Window.cpp:370-378 | two queries with no callback between never both answer true |
| `KeyRecord.LatchAccounting` | OpenGlBase/Window/Window.cpp:370-378 | with no release in a script, true answers plus the remaining latch never exceed the initial latch |
| `KeyRecord.AtMostOncePerHold` | OpenGlBase/Window/Window.cpp:370-378 | between releases, at most one query answers true, whatever presses, repeats and queries occur |
| `KeyRecord.DownFollowsLastEdge` | OpenGlBase/Window/Window.cpp:618-628 | after any script, Pressed is what the last press or release left, and consistency is kept |
| `KeyRecord.FreshRecordScenario` | OpenGlBase/Window/Window.h:185-190 | from the default record: press, query, query, release, press, query answers true, false, true |
| `Window.Defaults` | OpenGlBase/Window/Window.h:185-213 | one fresh record per key and button; every record consistent |
| `Window.Create` | OpenGlBase/Window/Window.cpp:41-44 | every key and button record fresh (up, armed, no stamp), mouse and scroll state zero, no pending close and GLFW's flag clear, zero times and saved geometry; geometry read from the native window |
| `Window.KeyCallBack` | OpenGlBase/Window/Window.cpp:609-629 | only the normalised key's record changes, by `OnAction`; nothing else in the window changes |
| `Window.MouseButtonCallBack` | OpenGlBase/Window/Window.cpp:641-660 | only the record of the button with that GLFW code changes, by `OnAction`; nothing else changes |
| `Window.CursorPositionCallBack` | OpenGlBase/Window/Window.cpp:631-639 | sets the mouse position and nothing else (not the last position) |
| `Window.ScrollCallBack` | OpenGlBase/Window/Window.cpp:662-669 | the offset grows by the X offset; nothing else changes |
| `Window.PositionCallBack` | OpenGlBase/Window/Window.cpp:580-587 | sets the position and nothing else |
| `Window.SizeCallBack` | OpenGlBase/Window/Window.cpp:589-596 | sets the size and nothing else |
| `Window.FrameBufferSizeCallBack` | OpenGlBase/Window/Window.cpp:598-607 | sets the framebuffer size and nothing else |
| `Window.Deliver` | OpenGlBase/Window/Window.cpp:37-56 | a callback never touches the bookkeeping fields, the close latch or the saved geometry, and keeps consistency |
| `Window.Poll` | OpenGlBase/Window/Window.cpp:89 | after a poll the scroll offset has grown by the events' summed X offsets, the mouse is at the last cursor event, and the bookkeeping fields are unchanged |
| `Window.Bookkeeping` | OpenGlBase/Window/Window.cpp:78-87 | mouse delta zero, last position = position, scroll published and reset, delta time = clock - last frame time; nothing else changes |
| `Window.Tick` | OpenGlBase/Window/Window.cpp:74-91 | publishes the scroll gathered before it and the time since the previous Tick; leaves the polled scroll accumulating |
| `Window.ScrollLatchAcrossFrames` | OpenGlBase/Window/Window.cpp:82-87 | the second of two Ticks publishes the first one's polled X scroll (0 if none) and t2 - t1 |
| `Window.ScrollScenario` | OpenGlBase/Window/Window.cpp:82-83 | offsets +1, +2, -0.5 in one frame publish 2.5; the following quiet frame publishes 0 |
| `Window.IsKeyDown` | OpenGlBase/Window/Window.cpp:226-229 | a key that is up is never just pressed and, in a consistent window, holds no press stamp |
| `Window.IsMouseButtonDown` | OpenGlBase/Window/Window.cpp:190-193 | the same for mouse buttons |
| `Window.PollDrivesKey` | OpenGlBase/Window/Window.cpp:609-629 | a poll changes a key's record exactly as that key's own events, in order, drive it |
| `Window.PollDrivesButton` | OpenGlBase/Window/Window.cpp:641-660 | a poll changes a button's record exactly as that button's own events, in order, drive it |
| `Window.KeyDownFollowsLastPress` | OpenGlBase/Window/Window.cpp:226-229 | after a Tick, `IsKeyDown` is what the key's last press or release in the poll left, else its earlier answer |
| `Window.ButtonDownFollowsLastPress` | OpenGlBase/Window/Window.cpp:190-193 | the same for `IsMouseButtonDown` |
| `Window.WasKeyJustPressed` | OpenGlBase/Window/Window.cpp:370-378 | true iff the key is down with its latch armed; answering true disarms only that latch; false changes nothing |
| `Window.WasMouseButtonJustPressed` | OpenGlBase/Window/Window.cpp:211-219 | the same edge trigger for mouse buttons |
| `Window.GetTimeSinceKeyPressed` | OpenGlBase/Window/Window.cpp:380-383 | clock minus the press stamp while down; the clock itself when up in a consistent window |
| `Window.GetTimeSinceMouseButtonPressed` | OpenGlBase/Window/Window.cpp:221-224 | the same for mouse buttons |
| `Window.ReleasedKeyTimeIsClock` | OpenGlBase/Window/Window.cpp:623-628 | in every window a main loop reaches from creation, an up key's time since press is the clock |
| `Window.Close` | OpenGlBase/Window/Window.cpp:123-126 | sets the pending flag and nothing else |
| `Window.ShouldClose` | OpenGlBase/Window/Window.cpp:65-72 | true iff a close is pending or GLFW's flag is set, and GLFW's flag is then set to the answer |
| `Window.Apply` | OpenGlBase/Window/Window.cpp:65-160 | every application call keeps the array sizes, a pending close and consistency |
| `Window.Drive` | OpenGlBase/Window/Window.cpp:65-160 | any sequence of application calls keeps the array sizes, a pending close and consistency |
| `Window.CloseIsFinal` | OpenGlBase/Window/Window.cpp:123-126 | after `Close`, whatever the application does, `ShouldClose` answers true |
| `Window.ToggleFullscreen` | OpenGlBase/Window/Window.cpp:142-160 | from fullscreen: requests the saved geometry with refresh 0, state unchanged; from windowed: saves position and size, requests the video mode at (0,0) |
| `Window.FullscreenRoundTrip` | OpenGlBase/Window/Window.cpp:147-159 | toggling in and out with any events between requests the pre-toggle position and size, and GLFW honouring it restores them |
| `Window.SetWindowPos` | OpenGlBase/Window/Window.cpp:128-133 | the request is the current position, whatever the argument |
| `Window.SetWindowSize` | OpenGlBase/Window/Window.cpp:135-140 | once the size callback reports the request, the size is the argument |
| `Window.SetWindowSizeRoundTrip` | OpenGlBase/Window/Window.cpp:135-140 | the same through a poll of that one report |
| `Window.EdgeTriggerOnCreatedWindow` | OpenGlBase/Window/Window.h:185-190 | on a created window through Tick's poll: press, query, query, release, query, press, query give true, false, false, true, and A is down |
| `WindowFindings.BookkeepingIntended` | OpenGlBase/Window/Window.cpp:78-80 | the delta is position minus previous last position; every other field as the written bookkeeping |
| `WindowFindings.TickIntended` | OpenGlBase/Window/Window.cpp:74-91 | the corrected Tick: same as Tick except the delta, which is the movement since the previous Tick |
| `WindowFindings.MouseDeltaIsFrameMovement` | OpenGlBase/Window/Window.cpp:78-80 | with the corrected Tick, the published delta is how far the cursor moved during the previous frame's poll |
| `WindowFindings.MouseDeltaAsWrittenIgnoresMovement` | OpenGlBase/Window/Window.cpp:78-80 | a move by (1,0) is published as (0,0) as written and as (1,0) corrected |
| `WindowFindings.ScrollCallBackIntended` | OpenGlBase/Window/Window.cpp:662-669 | the offset grows by the Y offset; nothing else changes |
| `WindowFindings.DeliverIntended` | OpenGlBase/Window/Window.cpp:662-669 | a scroll event adds its Y offset; the resulting state is otherwise the written delivery's |
| `WindowFindings.PollIntended` | OpenGlBase/Window/Window.cpp:89 | the corrected poll accumulates the summed Y offsets and otherwise ends where the written poll does |
| `WindowFindings.TickScrollIntended` | OpenGlBase/Window/Window.cpp:74-91 | Tick with the corrected callback: publishes the previous accumulator and leaves the polled Y scroll accumulating; otherwise equal to Tick |
| `WindowFindings.ScrollDeltaIsWheelMovement` | OpenGlBase/Window/Window.cpp:82-83 | with the corrected callback, the scroll a Tick publishes is the vertical wheel movement of the previous frame's poll |
| `WindowFindings.VerticalNotchIsLost` | OpenGlBase/Window/Window.cpp:668 | a vertical wheel notch is published as 0 scroll by the written Ticks and as 1 by the corrected ones |
| `WindowFindings.SetWindowPosIntended` | OpenGlBase/Window/Window.cpp:128-133 | once the position callback reports the request, the window is at the argument |
| `WindowFindings.SetWindowPosRoundTrip` | OpenGlBase/Window/Window.cpp:128-133 | the same through a poll of that one report |
| `WindowFindings.SetWindowPosAsWrittenStays` | OpenGlBase/Window/Window.cpp:132 | as written, asking for any other position leaves the window where it was |
| `WindowFindings.Button8IsUnconverted` | OpenGlBase/Window/Window.cpp:555-567 | GLFW's button 8 is within GLFW's range but the written callback cannot take it; the corrected callback ignores it |
| `WindowFindings.ConvertGLFWMouseButtonChecked` | OpenGlBase/Window/Window.cpp:555-567 | a button exactly for GLFW codes 0..6, the one with that code |
| `WindowFindings.MouseButtonCallBackChecked` | OpenGlBase/Window/Window.cpp:641-660 | total; equal to the written callback on 0..6, and no change for any other button |
| `CStrings.Strlen` | OpenGlBase/Shader/ShaderManager.h:92 | the index of the first NUL |
| `CStrings.CString` | OpenGlBase/Shader/ShaderManager.h:64 | the bytes before the first NUL: a NUL-free prefix followed by a NUL |
| `CStrings.CStringOfStored` | OpenGlBase/Shader/ShaderManager.h:92-98 | a NUL-free string copied with its terminator reads back as itself |
| `CStrings.SignedChar` | OpenGlBase/Shader/ShaderManager.h:66 | a byte read as signed char: in -128..127 and congruent to the byte mod 256 |
| `CStrings.Hash` | OpenGlBase/Shader/ShaderManager.h:61-69 | the loop computes the polynomial of the contents, reduced mod 2^64 |
| `CStrings.PolyIsWeightedSum` | OpenGlBase/Shader/ShaderManager.h:66 | the loop's fold is the sum of each character times 31 to the number of characters after it |
| `CStrings.HashRespectsEqual` | OpenGlBase/Shader/ShaderManager.h:61-77 | names that compare equal hash equal |
| `CStrings.StrcmpZeroIffSameString` | OpenGlBase/Shader/ShaderManager.h:71-74 | strcmp is 0 iff the two buffers hold the same C string |
| `CStrings.Equal` | OpenGlBase/Shader/ShaderManager.h:71-74 | content equality, not address equality |
| `UniformDispatch.Dispatch` | OpenGlBase/Shader/ShaderManager.h:106-134 | location kept; matrix types go to the matrix setter with their shape, count 1, no transpose; others to the setter of their kind and arity; the type is recoverable from the call |
| `UniformDispatch.DispatchArray` | OpenGlBase/Shader/ShaderManager.h:136-164 | the same family with the caller's count and pointer passed on, no transpose |
| `UniformDispatch.DispatchInjective` | OpenGlBase/Shader/ShaderManager.h:106-164 | distinct types reach distinct entry points |
| `UniformDispatch.FamilyCensus` | OpenGlBase/Shader/ShaderManager.h:109-132 | matrices are exactly the float types with several columns; vectors have 1..4 rows, matrices 2..4 by 2..4 |
| `UniformCache.GetUniformLocation` | OpenGlBase/Shader/ShaderManager.h:79-104 | hit: the stored location, no backend call, map unchanged; miss: one backend call, its answer (even -1) stored and returned; failed allocation: -1, map unchanged |
| `UniformCache.LookupIsTransparent` | OpenGlBase/Shader/ShaderManager.h:83-102 | from a coherent cache, the answer is the backend's, or -1 on failed allocation, and the cache stays coherent |
| `UniformCache.LookupByContents` | OpenGlBase/Shader/ShaderManager.h:77-87 | buffers that compare equal look up identically |
| `UniformCache.SetUniform` | OpenGlBase/Shader/ShaderManager.h:32-42 | false with nothing sent iff the location is -1; otherwise exactly the dispatch's command for the value at that location (its type's entry point, the value's components, no transpose), and true |
| `UniformCache.SetUniformArray` | OpenGlBase/Shader/ShaderManager.h:44-54 | the same, sending exactly the array dispatch's command with the caller's count and pointer |
| `UniformCache.Session` | OpenGlBase/Shader/ShaderManager.h:79-102 | over any calls, the cache only grows and stays coherent |
| `UniformCache.RepeatedSetUniform` | OpenGlBase/Shader/ShaderManager.h:83-102 | repeated calls with one name and working allocation: one backend call (none if cached), every answer "location is not -1" |
| `UniformCache.HundredCalls` | OpenGlBase/Shader/ShaderManager.h:32-42 | 100 calls for a present uniform: one lookup, all true; for an absent one: one lookup, all false |

## Left out

- **Native window and context.** Window creation, the loader, window hints, the destructor and their failure paths (`Window.cpp:9-63`) are GLFW and OpenGL calls. The model starts from the state the constructor leaves.
- **Other GLFW calls.** `glfwSwapBuffers`, `glViewport`, `Minimize`, `SetCursorMode` and `ConvertToGLFWCursorMode` are GLFW or OpenGL calls with no state in the model.
- **Accessors.** `GetWindowPos`, `GetWindowSize`, `GetFrameBufferSize`, `GetDeltaTime`, `GetMousePosition`, `GetMouseDelta` and `GetScrollDelta` each return one field. The model reads the field directly.
- **Queries GLFW answers.** `IsFullScreen` and `glfwGetVideoMode` are parameters. What GLFW does with a monitor request is modelled only as the position and size callbacks it reports back (`Window.Honour`).
- **Unused callback arguments.** The `Scancode` and `Mods` arguments of the key callbacks are ignored by the source and are not modelled.
- **Numbers.** IEEE `f64` rounding is not modelled: times and offsets are `real`. `i32` overflow of sizes and positions is not modelled either.
- **Shader compilation.** Compiling and linking shaders, the info logs and `ShaderManager.cpp` are backend calls.
  - The destructor's loop that frees the cached name copies is raw memory management, so leak-freedom is not modelled.
- **Null names.** `assert(UniformName)` is not modelled; a name is always a buffer.
- **Array overload instantiation.** In the array overload of `SetUniform`, only the `i32`, `u32` and `f32` instantiations compile. The other 18 branches pass a `const ivec2*`, `const mat4*`, etc. where the `glUniform*v` entry points take `const GLint*`, `const GLuint*` or `const GLfloat*`. `UniformDispatch.DispatchArray` models all 21 branches as written.
- **Name-table linkage.** `Window.h:175` declares `GetMouseButtonName` as a static member of `Window`, but `Window.cpp:195` defines a free function `Base::GetMouseButtonName`, so a call through the class has no definition to link against. `KeyCodes.GetMouseButtonName` models the free function's table; linkage is outside the model.
- **Data passed to OpenGL.** Component values are passed through unchanged as `Scalar`s. The model does not check that glm lays matrices out column-major.

## Findings

| source | as written | input that shows it | evidently intended | confidence | as-written member | corrected member |
|---|---|---|---|---|---|---|
| OpenGlBase/Window/Window.cpp:78-80 | `LastMousePosition` is assigned before `MouseDelta = MousePosition - LastMousePosition`, so the delta is always (0,0) | the cursor moves from (0,0) to (1,0) during a frame; the next `Tick` publishes (0,0) | the delta is the movement since the previous `Tick` (drop the first assignment) | high, not executed | `WindowFindings.MouseDeltaAsWrittenIgnoresMovement` | `WindowFindings.TickIntended` |
| OpenGlBase/Window/Window.cpp:668 | `ScrollOffset += XOffset` | a vertical wheel notch (x = 0, y = 1); the next `Tick` publishes 0 | accumulate `YOffset`, the wheel axis | medium, not executed | `WindowFindings.VerticalNotchIsLost` | `WindowFindings.TickScrollIntended` |
| OpenGlBase/Window/Window.cpp:132 | `glfwSetWindowPos(WindowInstance, Position.x, Position.y)` ignores `NewPosition` | a window at (0,0) asked to move to (5,5) stays at (0,0) | forward `NewPosition` | high, not executed | `WindowFindings.SetWindowPosAsWrittenStays` | `WindowFindings.SetWindowPosIntended` |
| OpenGlBase/Window/Window.cpp:555-567 | the switch has no default and nothing after it | GLFW reports `GLFW_MOUSE_BUTTON_8` (7); the function returns no value, which is undefined behaviour, and the callback indexes `MouseButtons` with the result | ignore, or map to a default, the buttons the enum does not list | medium, not executed | `WindowFindings.Button8IsUnconverted` | `WindowFindings.MouseButtonCallBackChecked` |
