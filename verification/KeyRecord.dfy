/** The per-key and per-mouse-button record of the window (Window.h: struct Key) and
    the three things done to it: the press/release callbacks (Window.cpp: KeyCallBack,
    MouseButtonCallBack), the edge-trigger query (WasKeyJustPressed,
    WasMouseButtonJustPressed) and the time-since-press query. Keys and mouse buttons
    share the record type and the code, so both are modelled once here. */
module KeyRecord {

  // GLFW action codes (glfw3.h).
  const GLFW_RELEASE: int := 0
  const GLFW_PRESS: int := 1
  const GLFW_REPEAT: int := 2

  /** pressed: held down; released: a release is waiting to arm the edge trigger;
      timeSincePressed: despite its name, the clock reading of the latest press, or 0. */
  datatype Key = Key(pressed: bool, released: bool, timeSincePressed: real)

  /** The default member initialisers of struct Key. */
  const FreshKey: Key := Key(false, true, 0.0)

  /** A record that is not held down stores 0 as its press time. */
  predicate Consistent(k: Key)
  {
    !k.pressed ==> k.timeSincePressed == 0.0
  }

  /** The body of the key (or mouse-button) callback for one record: a press marks the
      record held and stamps it with the clock; a release arms the edge trigger, lifts
      the key and clears the stamp; any other action (GLFW_REPEAT) is ignored. */
  function OnAction(k: Key, action: int, now: real): (r: Key)
    ensures action == GLFW_PRESS ==>
              r.pressed && r.timeSincePressed == now && r.released == k.released
    ensures action == GLFW_RELEASE ==>
              !r.pressed && r.released && r.timeSincePressed == 0.0
    ensures action != GLFW_PRESS && action != GLFW_RELEASE ==> r == k
    ensures Consistent(k) ==> Consistent(r)
  {
    if action == GLFW_PRESS then
      k.(pressed := true, timeSincePressed := now)
    else if action == GLFW_RELEASE then
      k.(released := true, pressed := false, timeSincePressed := 0.0)
    else
      k
  }

  /** The edge-trigger query on one record: it answers whether the record is held with
      the release latch armed, and consumes the latch when it answers true. */
  function JustPressed(k: Key): (r: (Key, bool))
    ensures r.1 <==> k.pressed && k.released
    ensures r.0.released <==> k.released && !r.1
    ensures r.0.pressed == k.pressed && r.0.timeSincePressed == k.timeSincePressed
  {
    if k.pressed && k.released then (k.(released := false), true) else (k, false)
  }

  /** GetTimeSinceKeyPressed on one record: the clock minus the stored stamp. */
  function TimeSincePressed(k: Key, now: real): (t: real)
    ensures k.pressed ==> t + k.timeSincePressed == now
    ensures Consistent(k) && !k.pressed ==> t == now
  {
    now - k.timeSincePressed
  }

  /** Two edge-trigger queries with no callback in between never both answer true. */
  lemma JustPressedConsumesLatch(k: Key)
    ensures !(JustPressed(k).1 && JustPressed(JustPressed(k).0).1)
  {
  }

  // ----- Scripts: a record driven by callbacks and queries in some order -----

  /** One step on a record: an edge-trigger query, or a callback with its action and the
      clock value it reads. */
  datatype Step = Query | Input(action: int, now: real)

  predicate IsRelease(s: Step)
  {
    s.Input? && s.action == GLFW_RELEASE
  }

  /** Runs a script from the record k; returns the final record and the answers of the
      queries, in order. */
  function Run(k: Key, script: seq<Step>): (Key, seq<bool>)
    decreases |script|
  {
    if |script| == 0 then (k, [])
    else
      var (before, answers) := Run(k, script[..|script| - 1]);
      match script[|script| - 1]
      case Query =>
        var (after, fired) := JustPressed(before);
        (after, answers + [fired])
      case Input(action, now) =>
        (OnAction(before, action, now), answers)
  }

  function CountTrue(s: seq<bool>): nat
  {
    if |s| == 0 then 0 else CountTrue(s[..|s| - 1]) + (if s[|s| - 1] then 1 else 0)
  }

  /** The latch is a one-shot token: with no release in the script, the number of true
      answers plus whether the latch is still armed never exceeds whether it was armed
      at the start. */
  lemma {:induction false} LatchAccounting(k: Key, script: seq<Step>)
    requires forall i :: 0 <= i < |script| ==> !IsRelease(script[i])
    ensures var (final, answers) := Run(k, script);
            CountTrue(answers) + (if final.released then 1 else 0)
              <= (if k.released then 1 else 0)
    decreases |script|
  {
    if |script| > 0 {
      var prefix := script[..|script| - 1];
      LatchAccounting(k, prefix);
      var (before, answers) := Run(k, prefix);
      match script[|script| - 1]
      case Query =>
        var (after, fired) := JustPressed(before);
        assert (answers + [fired])[..|answers|] == answers;
      case Input(action, now) =>
    }
  }

  /** The edge trigger fires at most once per held-down span: between two release
      events, whatever presses, repeats and queries happen, at most one query answers
      true. */
  lemma AtMostOncePerHold(k: Key, script: seq<Step>)
    requires forall i :: 0 <= i < |script| ==> !IsRelease(script[i])
    ensures CountTrue(Run(k, script).1) <= 1
  {
    LatchAccounting(k, script);
  }

  /** IsKeyDown follows the latest press or release: the answer is the state that the
      last press/release step left (or the starting state when there is none). */
  function LastEdge(start: bool, script: seq<Step>): bool
    decreases |script|
  {
    if |script| == 0 then start
    else
      var s := script[|script| - 1];
      if s.Input? && s.action == GLFW_PRESS then true
      else if s.Input? && s.action == GLFW_RELEASE then false
      else LastEdge(start, script[..|script| - 1])
  }

  lemma {:induction false} DownFollowsLastEdge(k: Key, script: seq<Step>)
    ensures Run(k, script).0.pressed == LastEdge(k.pressed, script)
    ensures Consistent(k) ==> Consistent(Run(k, script).0)
    decreases |script|
  {
    if |script| > 0 {
      DownFollowsLastEdge(k, script[..|script| - 1]);
    }
  }

  /** From a fresh record: press, query, query, release, press, query answers true,
      false, true; the fresh record's armed latch is what lets the very first press
      fire. */
  lemma FreshRecordScenario(t1: real, t2: real, t3: real)
    ensures Run(FreshKey, [Input(GLFW_PRESS, t1), Query, Query,
                           Input(GLFW_RELEASE, t2), Input(GLFW_PRESS, t3), Query]).1
            == [true, false, true]
  {
    var s1 := [Input(GLFW_PRESS, t1)];
    assert Run(FreshKey, s1) == (Key(true, true, t1), []) by {
      assert s1[..0] == [];
    }
    var s2 := s1 + [Query];
    assert s2[..1] == s1 && s2[1] == Query;
    assert [] + [true] == [true];
    assert Run(FreshKey, s2) == (Key(true, false, t1), [true]);
    var s3 := s2 + [Query];
    assert s3[..2] == s2 && s3[2] == Query;
    assert [true] + [false] == [true, false];
    assert Run(FreshKey, s3) == (Key(true, false, t1), [true, false]);
    var s4 := s3 + [Input(GLFW_RELEASE, t2)];
    assert s4[..3] == s3;
    assert Run(FreshKey, s4) == (Key(false, true, 0.0), [true, false]);
    var s5 := s4 + [Input(GLFW_PRESS, t3)];
    assert s5[..4] == s4;
    assert Run(FreshKey, s5) == (Key(true, true, t3), [true, false]);
    var s6 := s5 + [Query];
    assert s6[..5] == s5 && s6[5] == Query;
    assert [true, false] + [true] == [true, false, true];
    assert s6 == [Input(GLFW_PRESS, t1), Query, Query,
                  Input(GLFW_RELEASE, t2), Input(GLFW_PRESS, t3), Query];
  }
}
