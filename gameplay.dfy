/**
 * The gameplay systems of `src/gameplay.rs`: Didi's movement from the direction
 * events of the tick, and the return to the menu on an Escape press event.
 */
module Gameplay {
  import opened Wrappers
  import opened Vectors
  import opened KeyboardInput
  import opened States
  import opened Controllers

  /** The displacement one event contributes: `direction * dt * speed`. */
  function Step(e: DirectionEvent, dt: real, speed: real): Vec3 {
    Scale(Scale(e.direction, dt), speed)
  }

  /** The sum of the steps of all `events`, in order. */
  function Displacement(events: seq<DirectionEvent>, dt: real, speed: real): Vec3 {
    if events == [] then Zero
    else Plus(Displacement(events[..|events| - 1], dt, speed), Step(events[|events| - 1], dt, speed))
  }

  lemma PlusAssociative(a: Vec3, b: Vec3, c: Vec3)
    ensures Plus(Plus(a, b), c) == Plus(a, Plus(b, c))
  {
  }

  /** The displacement of two runs of events is the sum of their displacements. */
  lemma {:induction false} DisplacementConcat(a: seq<DirectionEvent>, b: seq<DirectionEvent>, dt: real, speed: real)
    ensures Displacement(a + b, dt, speed) == Plus(Displacement(a, dt, speed), Displacement(b, dt, speed))
  {
    if b == [] {
      assert a + b == a;
    } else {
      var b' := b[..|b| - 1];
      assert (a + b)[..|a + b| - 1] == a + b';
      DisplacementConcat(a, b', dt, speed);
    }
  }

  /** A single event moves by exactly its step. */
  lemma DisplacementSingle(e: DirectionEvent, dt: real, speed: real)
    ensures Displacement([e], dt, speed) == Step(e, dt, speed)
  {
    assert [e][..0] == [];
  }

  /**
   * One run of the movement system. `positions[k]` is the position of entity
   * `k` and `isDidi[k]` whether it carries the `Didi` tag. Every direction event
   * of the tick adds its step to every Didi position; other positions are not
   * touched, and with no event nothing moves.
   */
  method MovementSystem(events: seq<DirectionEvent>, dt: real, speed: real, positions: array<Vec3>, isDidi: seq<bool>)
    requires |isDidi| == positions.Length
    modifies positions
    ensures forall k :: 0 <= k < positions.Length ==>
      positions[k] == if isDidi[k] then Plus(old(positions[k]), Displacement(events, dt, speed)) else old(positions[k])
  {
    var i := 0;
    while i < |events|
      invariant 0 <= i <= |events|
      invariant forall k :: 0 <= k < positions.Length ==>
        positions[k] == if isDidi[k] then Plus(old(positions[k]), Displacement(events[..i], dt, speed)) else old(positions[k])
    {
      ghost var done := Displacement(events[..i], dt, speed);
      assert events[..i + 1][..i] == events[..i];
      assert Displacement(events[..i + 1], dt, speed) == Plus(done, Step(events[i], dt, speed));
      MoveTagged(positions, isDidi, Scale(Scale(events[i].direction, dt), speed));
      forall k | 0 <= k < positions.Length && isDidi[k]
        ensures positions[k] == Plus(old(positions[k]), Displacement(events[..i + 1], dt, speed))
      {
        PlusAssociative(old(positions[k]), done, Step(events[i], dt, speed));
      }
      i := i + 1;
    }
    assert events[..i] == events;
  }

  /** The inner loop of the movement system: adds `step` to every tagged position. */
  method MoveTagged(positions: array<Vec3>, isDidi: seq<bool>, step: Vec3)
    requires |isDidi| == positions.Length
    modifies positions
    ensures forall k :: 0 <= k < positions.Length ==>
      positions[k] == if isDidi[k] then Plus(old(positions[k]), step) else old(positions[k])
  {
    var j := 0;
    while j < positions.Length
      invariant 0 <= j <= positions.Length
      invariant forall k :: 0 <= k < j ==> positions[k] == if isDidi[k] then Plus(old(positions[k]), step) else old(positions[k])
      invariant forall k :: j <= k < positions.Length ==> positions[k] == old(positions[k])
    {
      if isDidi[j] {
        positions[j] := Plus(positions[j], step);
      }
      j := j + 1;
    }
  }

  /**
   * Whether `presses` menu requests in one tick, each unwrapped, meet a
   * refusal: the first is refused in the menu or with a mode already queued,
   * and any second one finds the first still queued.
   */
  predicate MenuRequestRefused(presses: nat, current: GameState, next: Option<GameState>) {
    presses > 0 && (current == Menu || next != None || presses > 1)
  }

  /**
   * One run of the event-scanning return to the menu: every raw keyboard event
   * of the tick that is an Escape press requests the menu and unwraps the
   * result; releases and other keys do nothing. A refused request aborts the
   * program, reported as `aborted`, and no later event is read. So the menu is
   * queued when some Escape press arrives in game with no mode queued, and a
   * second Escape press in the same tick aborts.
   */
  method BackToMenuOnEscapeEvent(events: seq<KeyboardEvent>, state: State) returns (aborted: bool)
    modifies state
    ensures state.current == old(state.current)
    ensures aborted <==> MenuRequestRefused(PressCount(events, Escape), old(state.current), old(state.next))
    ensures state.next ==
      if PressCount(events, Escape) > 0 && old(state.current) == InGame && old(state.next) == None then Some(Menu)
      else old(state.next)
  {
    aborted := false;
    var i := 0;
    while i < |events| && !aborted
      invariant 0 <= i <= |events|
      invariant state.current == old(state.current)
      invariant aborted <==> MenuRequestRefused(PressCount(events[..i], Escape), old(state.current), old(state.next))
      invariant state.next ==
        if PressCount(events[..i], Escape) > 0 && old(state.current) == InGame && old(state.next) == None then Some(Menu)
        else old(state.next)
    {
      assert events[..i + 1][..i] == events[..i];
      if IsPressOf(events[i], Escape) {
        var ok := state.SetNext(Menu);
        aborted := !ok;
      }
      i := i + 1;
    }
    PressCountOfPrefix(events, Escape, i);
    if !aborted {
      assert events[..i] == events;
    }
  }
}
