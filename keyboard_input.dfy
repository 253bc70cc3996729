/**
 * The engine's keyboard bookkeeping that the systems read: raw `KeyboardInput`
 * events and the per-frame `Input<KeyCode>` resource built from them. The engine
 * is not part of the repository; the rules below are the usual ones the systems
 * rely on: a press marks a key "just pressed" only when it was not already held,
 * a release marks it "just released", and both marks are cleared at the start of
 * each frame.
 */
module KeyboardInput {
  import opened Wrappers

  datatype KeyCode = Up | Down | Left | Right | Escape | OtherKey(code: nat)

  datatype ElementState = Pressed | Released

  /** A raw keyboard event; `keyCode` is absent for keys the engine cannot name. */
  datatype KeyboardEvent = KeyboardEvent(scanCode: nat, keyCode: Option<KeyCode>, state: ElementState)

  /** The `Input<KeyCode>` resource of one frame. */
  datatype Input = Input(pressed: set<KeyCode>, justPressed: set<KeyCode>, justReleased: set<KeyCode>)

  /** Start of a frame: the held keys stay, the "just" marks are cleared. */
  function NextFrame(i: Input): Input {
    Input(i.pressed, {}, {})
  }

  function Press(i: Input, k: KeyCode): Input {
    Input(i.pressed + {k}, if k in i.pressed then i.justPressed else i.justPressed + {k}, i.justReleased)
  }

  function Release(i: Input, k: KeyCode): Input {
    Input(i.pressed - {k}, i.justPressed, i.justReleased + {k})
  }

  /** One raw event applied to the resource; unnamed keys are ignored. */
  function Apply(i: Input, e: KeyboardEvent): Input {
    match e.keyCode
    case None => i
    case Some(k) => if e.state == Pressed then Press(i, k) else Release(i, k)
  }

  /** The events of one frame applied in order. */
  function Feed(i: Input, events: seq<KeyboardEvent>): Input
    decreases |events|
  {
    if events == [] then i else Feed(Apply(i, events[0]), events[1..])
  }

  predicate IsPressOf(e: KeyboardEvent, k: KeyCode) {
    e.keyCode == Some(k) && e.state == Pressed
  }

  predicate IsReleaseOf(e: KeyboardEvent, k: KeyCode) {
    e.keyCode == Some(k) && e.state == Released
  }

  /** Some event of the sequence is a press of `k`. */
  predicate HasPressOf(events: seq<KeyboardEvent>, k: KeyCode) {
    exists j :: 0 <= j < |events| && IsPressOf(events[j], k)
  }

  /** How many events of the sequence are presses of `k`. */
  function PressCount(events: seq<KeyboardEvent>, k: KeyCode): nat {
    if events == [] then 0
    else PressCount(events[..|events| - 1], k) + (if IsPressOf(events[|events| - 1], k) then 1 else 0)
  }

  /** Some press of `k` is counted exactly when the sequence has one. */
  lemma {:induction false} PressCountPositive(events: seq<KeyboardEvent>, k: KeyCode)
    ensures PressCount(events, k) > 0 <==> HasPressOf(events, k)
  {
    if events != [] {
      var prefix := events[..|events| - 1];
      PressCountPositive(prefix, k);
      assert forall j :: 0 <= j < |prefix| ==> prefix[j] == events[j];
      if !IsPressOf(events[|events| - 1], k) && HasPressOf(events, k) {
        var j :| 0 <= j < |events| && IsPressOf(events[j], k);
        assert IsPressOf(prefix[j], k);
      }
    }
  }

  /** A prefix of the events has no more presses than the whole. */
  lemma {:induction false} PressCountOfPrefix(events: seq<KeyboardEvent>, k: KeyCode, n: nat)
    requires n <= |events|
    ensures PressCount(events[..n], k) <= PressCount(events, k)
  {
    if n == |events| {
      assert events[..n] == events;
    } else {
      var prefix := events[..|events| - 1];
      assert prefix[..n] == events[..n];
      PressCountOfPrefix(prefix, k, n);
    }
  }

  /** Once a key is marked "just pressed", later events of the same frame keep the mark. */
  lemma {:induction false} JustPressedPersists(i: Input, events: seq<KeyboardEvent>, k: KeyCode)
    requires k in i.justPressed
    ensures k in Feed(i, events).justPressed
    decreases |events|
  {
    if events != [] {
      JustPressedPersists(Apply(i, events[0]), events[1..], k);
    }
  }

  /**
   * A key held since an earlier frame and not released during this one is
   * never "just pressed" in this frame, however many (repeat) press events arrive.
   */
  lemma {:induction false} HeldKeyIsNotJustPressed(i: Input, events: seq<KeyboardEvent>, k: KeyCode)
    requires k in i.pressed && k !in i.justPressed
    requires forall j :: 0 <= j < |events| ==> !IsReleaseOf(events[j], k)
    ensures k in Feed(i, events).pressed
    ensures k !in Feed(i, events).justPressed
    decreases |events|
  {
    if events != [] {
      assert !IsReleaseOf(events[0], k);
      HeldKeyIsNotJustPressed(Apply(i, events[0]), events[1..], k);
    }
  }

  /** A key that is up at the start of the frame and pressed during it is "just pressed". */
  lemma {:induction false} FreshPressIsJustPressed(i: Input, events: seq<KeyboardEvent>, k: KeyCode)
    requires k !in i.pressed
    requires HasPressOf(events, k)
    ensures k in Feed(i, events).justPressed
    decreases |events|
  {
    var next := Apply(i, events[0]);
    if IsPressOf(events[0], k) {
      JustPressedPersists(next, events[1..], k);
    } else {
      var j :| 0 <= j < |events| && IsPressOf(events[j], k);
      assert j != 0;
      assert IsPressOf(events[1..][j - 1], k);
      if k in next.justPressed {
        JustPressedPersists(next, events[1..], k);
      } else {
        FreshPressIsJustPressed(next, events[1..], k);
      }
    }
  }

  /** A key is marked "just pressed" only by a press event of this frame. */
  lemma {:induction false} JustPressedNeedsPress(i: Input, events: seq<KeyboardEvent>, k: KeyCode)
    requires k !in i.justPressed
    requires k in Feed(i, events).justPressed
    ensures HasPressOf(events, k)
    decreases |events|
  {
    assert events != [];
    var next := Apply(i, events[0]);
    if !IsPressOf(events[0], k) {
      assert k !in next.justPressed;
      JustPressedNeedsPress(next, events[1..], k);
      var j :| 0 <= j < |events[1..]| && IsPressOf(events[1..][j], k);
      assert IsPressOf(events[j + 1], k);
    }
  }
}
