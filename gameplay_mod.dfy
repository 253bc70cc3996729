/**
 * The gameplay plugin of `src/gameplay/mod.rs`: the return to the menu on a
 * fresh Escape press, and the pick-and-drop cooldown setting.
 */
module GameplayMod {
  import opened Wrappers
  import opened KeyboardInput
  import opened States

  /** Duration of the pick-and-drop cooldown, in seconds. */
  const PICK_AND_DROP_COOLDOWN_SECONDS: real := 0.2

  /** Whether this frame's input makes `BackToMenuSystem` request the menu: Escape was just pressed. */
  predicate RequestsMenu(input: Input) {
    Escape in input.justPressed
  }

  /**
   * One run of the return to the menu: when Escape was just pressed this frame,
   * the menu is requested and the result unwrapped; otherwise the state is not
   * touched. The request is refused, and the program aborts (`aborted`), in the
   * menu or when a next mode is already queued.
   */
  method BackToMenuSystem(input: Input, state: State) returns (aborted: bool)
    modifies state
    ensures state.current == old(state.current)
    ensures aborted <==> RequestsMenu(input) && (old(state.current) == Menu || old(state.next) != None)
    ensures state.next == if RequestsMenu(input) && !aborted then Some(Menu) else old(state.next)
  {
    aborted := false;
    if Escape in input.justPressed {
      var ok := state.SetNext(Menu);
      aborted := !ok;
    }
  }

  /**
   * Escape held down from an earlier frame, and not released in this one,
   * requests nothing, even when the keyboard repeats its press event.
   */
  lemma HeldEscapeRequestsNothing(previous: Input, events: seq<KeyboardEvent>)
    requires Escape in previous.pressed
    requires forall j :: 0 <= j < |events| ==> !IsReleaseOf(events[j], Escape)
    ensures !RequestsMenu(Feed(NextFrame(previous), events))
  {
    HeldKeyIsNotJustPressed(NextFrame(previous), events, Escape);
  }

  /** Escape up at the start of the frame and pressed during it requests the menu. */
  lemma FreshEscapeRequestsMenu(previous: Input, events: seq<KeyboardEvent>)
    requires Escape !in previous.pressed
    requires HasPressOf(events, Escape)
    ensures RequestsMenu(Feed(NextFrame(previous), events))
  {
    FreshPressIsJustPressed(NextFrame(previous), events, Escape);
  }

  /**
   * The two generations of the system agree whenever Escape is up at the start
   * of the frame: the menu is requested exactly when an Escape press event
   * arrives. (With Escape already held they differ: a repeated press event
   * requests the menu in the event-scanning version and not in this one.)
   */
  lemma RequestsMenuIffPressEvent(previous: Input, events: seq<KeyboardEvent>)
    requires Escape !in previous.pressed
    ensures RequestsMenu(Feed(NextFrame(previous), events)) <==> HasPressOf(events, Escape)
    ensures RequestsMenu(Feed(NextFrame(previous), events)) <==> PressCount(events, Escape) > 0
  {
    PressCountPositive(events, Escape);
    if HasPressOf(events, Escape) {
      FreshPressIsJustPressed(NextFrame(previous), events, Escape);
    }
    if RequestsMenu(Feed(NextFrame(previous), events)) {
      JustPressedNeedsPress(NextFrame(previous), events, Escape);
    }
  }

  /** A held Escape with a repeated press event: the event-scanning version would request the menu, this one does not. */
  lemma RepeatedPressDiffers(previous: Input)
    requires Escape in previous.pressed
    ensures var repeat := [KeyboardEvent(1, Some(Escape), Pressed)];
      HasPressOf(repeat, Escape) && !RequestsMenu(Feed(NextFrame(previous), repeat))
  {
    var repeat := [KeyboardEvent(1, Some(Escape), Pressed)];
    assert IsPressOf(repeat[0], Escape);
    HeldEscapeRequestsNothing(previous, repeat);
  }
}
