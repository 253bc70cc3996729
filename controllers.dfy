/**
 * Game controllers: the keyboard arrows and connected gamepads are turned into
 * direction events, each carrying a vector of length 1. Normalisation is the
 * engine's `Vec3::normalize`, passed in as `normalize`; `Vectors.IsNormalizer`
 * states what it promises.
 */
module Controllers {
  import opened Vectors
  import opened KeyboardInput

  /** An event sent when a controller chooses a direction. */
  datatype DirectionEvent = DirectionEvent(direction: Vec3)

  // ---------------------------------------------------------------- keyboard

  function Indicator(b: bool): real {
    if b then 1.0 else 0.0
  }

  /**
   * The sum of the unit vectors of the held arrow keys: x is Right minus Left,
   * y is Up minus Down, z is 0.
   */
  function ArrowVector(pressed: set<KeyCode>): (v: Vec3)
    ensures (v.x == -1.0 || v.x == 0.0 || v.x == 1.0) && (v.y == -1.0 || v.y == 0.0 || v.y == 1.0) && v.z == 0.0
  {
    Vec3(Indicator(Right in pressed) - Indicator(Left in pressed),
         Indicator(Up in pressed) - Indicator(Down in pressed),
         0.0)
  }

  /** The arrows cancel out exactly when each opposing pair is both held or both released. */
  lemma ArrowVectorIsZero(pressed: set<KeyCode>)
    ensures ArrowVector(pressed) == Zero <==> (Up in pressed <==> Down in pressed) && (Left in pressed <==> Right in pressed)
  {
  }

  /**
   * One run of the keyboard system: the held arrows are summed step by step and,
   * when the sum is not zero, its normalisation is sent. No arrow, or only
   * opposing pairs, sends nothing; otherwise exactly one event is sent.
   */
  method KeyboardSystem(input: Input, normalize: Vec3 -> Vec3) returns (events: seq<DirectionEvent>)
    ensures |events| <= 1
    ensures events == [] <==> (Up in input.pressed <==> Down in input.pressed) && (Left in input.pressed <==> Right in input.pressed)
    ensures events != [] ==> ArrowVector(input.pressed) != Zero && events[0].direction == normalize(ArrowVector(input.pressed))
    ensures events != [] && IsNormalizer(normalize) ==> IsNormalizationOf(events[0].direction, ArrowVector(input.pressed))
  {
    // `direction += Vec3::new(..)` for each held arrow, written as a component update.
    var direction := Zero;
    if Up in input.pressed {
      direction := direction.(y := direction.y + 1.0);
    }
    if Down in input.pressed {
      direction := direction.(y := direction.y - 1.0);
    }
    if Left in input.pressed {
      direction := direction.(x := direction.x - 1.0);
    }
    if Right in input.pressed {
      direction := direction.(x := direction.x + 1.0);
    }
    assert direction == ArrowVector(input.pressed);
    ArrowVectorIsZero(input.pressed);
    events := [];
    if direction != Zero {
      events := [DirectionEvent(normalize(direction))];
    }
  }

  /**
   * With a single arrow held, or two that do not cancel along the same axis
   * (say Up with Left and Right), the direction sent is that arrow's unit
   * vector itself.
   */
  lemma SingleAxisArrowDirection(pressed: set<KeyCode>, normalize: Vec3 -> Vec3)
    requires IsNormalizer(normalize)
    requires ArrowVector(pressed).x == 0.0 || ArrowVector(pressed).y == 0.0
    requires ArrowVector(pressed) != Zero
    ensures normalize(ArrowVector(pressed)) == ArrowVector(pressed)
  {
    var v := ArrowVector(pressed);
    AxisVectorNormalizesToItself(normalize(v), v);
  }

  /**
   * With two perpendicular arrows held (and not their opposites), the direction
   * sent is the diagonal with both components of squared size 1/2, in the
   * quadrant of the two arrows, and with no z.
   */
  lemma DiagonalArrowDirection(pressed: set<KeyCode>, normalize: Vec3 -> Vec3)
    requires IsNormalizer(normalize)
    requires ArrowVector(pressed).x != 0.0 && ArrowVector(pressed).y != 0.0
    ensures var u := normalize(ArrowVector(pressed));
      u.z == 0.0 && u.x * u.x == 0.5 && u.y * u.y == 0.5
      && u.x * ArrowVector(pressed).x > 0.0 && u.y * ArrowVector(pressed).y > 0.0
  {
    var v := ArrowVector(pressed);
    DiagonalNormalization(normalize(v), v);
  }

  // ---------------------------------------------------------------- gamepads

  datatype Gamepad = Gamepad(id: nat)

  /** Connection changes; `OtherGamepadEvent` stands for button and axis changes. */
  datatype GamepadEventType = Connected | Disconnected | OtherGamepadEvent

  datatype GamepadEvent = GamepadEvent(gamepad: Gamepad, kind: GamepadEventType)

  datatype GamepadAxisType = LeftStickX | LeftStickY | OtherAxis(code: nat)

  datatype GamepadAxis = GamepadAxis(gamepad: Gamepad, axis: GamepadAxisType)

  /** The set of connected gamepads, created empty. */
  class GamepadLobby {
    var gamepads: set<Gamepad>

    constructor ()
      ensures gamepads == {}
    {
      gamepads := {};
    }
  }

  /** The lobby after one gamepad event: a set insert, a set remove, or nothing. */
  function ApplyConnection(lobby: set<Gamepad>, e: GamepadEvent): (r: set<Gamepad>)
    ensures e.kind == Connected ==> r == lobby + {e.gamepad}
    ensures e.kind == Disconnected ==> r == lobby - {e.gamepad}
    ensures e.kind == OtherGamepadEvent ==> r == lobby
  {
    match e.kind
    case Connected => lobby + {e.gamepad}
    case Disconnected => lobby - {e.gamepad}
    case OtherGamepadEvent => lobby
  }

  /** The lobby after the events of a tick, applied in order. */
  function ApplyConnections(lobby: set<Gamepad>, events: seq<GamepadEvent>): set<Gamepad>
  {
    if events == [] then lobby
    else ApplyConnection(ApplyConnections(lobby, events[..|events| - 1]), events[|events| - 1])
  }

  /**
   * One run of the connection system: every connection event of the tick is
   * applied to the lobby in order.
   */
  method ConnectionSystem(lobby: GamepadLobby, events: seq<GamepadEvent>)
    modifies lobby
    ensures lobby.gamepads == ApplyConnections(old(lobby.gamepads), events)
  {
    var n := 0;
    while n < |events|
      invariant 0 <= n <= |events|
      invariant lobby.gamepads == ApplyConnections(old(lobby.gamepads), events[..n])
    {
      match events[n].kind {
        case Connected =>
          lobby.gamepads := lobby.gamepads + {events[n].gamepad};
        case Disconnected =>
          lobby.gamepads := lobby.gamepads - {events[n].gamepad};
        case OtherGamepadEvent =>
      }
      assert events[..n + 1][..n] == events[..n];
      n := n + 1;
    }
    assert events[..n] == events;
  }

  /** Applying the same event twice is the same as applying it once. */
  lemma ApplyConnectionIdempotent(lobby: set<Gamepad>, e: GamepadEvent)
    ensures ApplyConnection(ApplyConnection(lobby, e), e) == ApplyConnection(lobby, e)
  {
  }

  /** Whether `e` connects or disconnects `g`. */
  predicate ChangesConnection(e: GamepadEvent, g: Gamepad) {
    e.gamepad == g && e.kind != OtherGamepadEvent
  }

  /**
   * Membership after a tick: `g` is in the lobby exactly when the last event that
   * connected or disconnected it was a connection, or, with no such event, when
   * it was in the lobby before.
   */
  lemma {:induction false} ConnectionsMembership(lobby: set<Gamepad>, events: seq<GamepadEvent>, g: Gamepad)
    ensures g in ApplyConnections(lobby, events) <==>
      if forall j :: 0 <= j < |events| ==> !ChangesConnection(events[j], g) then g in lobby
      else events[LastChange(events, g)].kind == Connected
  {
    if events != [] {
      var prefix := events[..|events| - 1];
      var e := events[|events| - 1];
      ConnectionsMembership(lobby, prefix, g);
      if !ChangesConnection(e, g) {
        assert forall j :: 0 <= j < |prefix| ==> prefix[j] == events[j];
        if exists j :: 0 <= j < |events| && ChangesConnection(events[j], g) {
          LastChangeIsBeforeEnd(events, g);
        }
      }
    }
  }

  /** Index of the last event of `events` that connects or disconnects `g`. */
  function LastChange(events: seq<GamepadEvent>, g: Gamepad): (k: nat)
    requires exists j :: 0 <= j < |events| && ChangesConnection(events[j], g)
    ensures k < |events| && ChangesConnection(events[k], g)
    ensures forall j :: k < j < |events| ==> !ChangesConnection(events[j], g)
  {
    if ChangesConnection(events[|events| - 1], g) then |events| - 1
    else
      var prefix := events[..|events| - 1];
      assert exists j :: 0 <= j < |prefix| && ChangesConnection(prefix[j], g) by {
        var j :| 0 <= j < |events| && ChangesConnection(events[j], g);
        assert j < |events| - 1 && prefix[j] == events[j];
      }
      LastChange(prefix, g)
  }

  /** When the final event does not concern `g`, its last change lies in the prefix. */
  lemma LastChangeIsBeforeEnd(events: seq<GamepadEvent>, g: Gamepad)
    requires exists j :: 0 <= j < |events| && ChangesConnection(events[j], g)
    requires !ChangesConnection(events[|events| - 1], g)
    ensures exists j :: 0 <= j < |events| - 1 && ChangesConnection(events[j], g)
    ensures LastChange(events, g) == LastChange(events[..|events| - 1], g)
  {
  }

  /** The stick reading of an axis, 0.0 when the axis has no value. */
  function AxisValue(axes: map<GamepadAxis, real>, a: GamepadAxis): real {
    if a in axes then axes[a] else 0.0
  }

  /** The left stick of `g` as a vector of the x-y plane. */
  function StickVector(axes: map<GamepadAxis, real>, g: Gamepad): Vec3 {
    Vec3(AxisValue(axes, GamepadAxis(g, LeftStickX)), AxisValue(axes, GamepadAxis(g, LeftStickY)), 0.0)
  }

  /** A gamepad sends a direction only when both stick axes are non-zero. */
  predicate StickEmits(axes: map<GamepadAxis, real>, g: Gamepad) {
    StickVector(axes, g).x != 0.0 && StickVector(axes, g).y != 0.0
  }

  /**
   * One run of the gamepad system. The lobby is a set, so its iteration order is
   * unspecified; `sources` (ghost) records the order chosen. One event is sent per
   * connected gamepad whose two stick axes are both non-zero, and nothing for the
   * others: a deflection along a single axis, or a missing axis, sends nothing.
   */
  method GamepadSystem(lobby: GamepadLobby, axes: map<GamepadAxis, real>, normalize: Vec3 -> Vec3)
    returns (events: seq<DirectionEvent>, ghost sources: seq<Gamepad>)
    ensures |events| == |sources|
    ensures forall i, j :: 0 <= i < j < |sources| ==> sources[i] != sources[j]
    ensures forall g :: g in sources <==> g in lobby.gamepads && StickEmits(axes, g)
    ensures forall i :: 0 <= i < |events| ==> events[i].direction == normalize(StickVector(axes, sources[i]))
    ensures |events| == |set g | g in lobby.gamepads && StickEmits(axes, g)|
  {
    var remaining := lobby.gamepads;
    events, sources := [], [];
    while remaining != {}
      invariant remaining <= lobby.gamepads
      invariant |events| == |sources|
      invariant forall i, j :: 0 <= i < j < |sources| ==> sources[i] != sources[j]
      invariant forall i :: 0 <= i < |sources| ==> sources[i] !in remaining
      invariant forall g :: g in sources <==> g in lobby.gamepads - remaining && StickEmits(axes, g)
      invariant forall i :: 0 <= i < |events| ==> events[i].direction == normalize(StickVector(axes, sources[i]))
      decreases remaining
    {
      var gamepad :| gamepad in remaining;
      var x := AxisValue(axes, GamepadAxis(gamepad, LeftStickX));
      var y := AxisValue(axes, GamepadAxis(gamepad, LeftStickY));
      if x != 0.0 && y != 0.0 {
        events := events + [DirectionEvent(normalize(Vec3(x, y, 0.0)))];
        sources := sources + [gamepad];
        assert sources[|sources| - 1] == gamepad;
      }
      remaining := remaining - {gamepad};
    }
    DistinctCardinality(sources, set g | g in lobby.gamepads && StickEmits(axes, g));
  }

  /** A sequence without repetitions has as many elements as the set of its elements. */
  lemma {:induction false} DistinctCardinality<T>(s: seq<T>, elems: set<T>)
    requires forall i, j :: 0 <= i < j < |s| ==> s[i] != s[j]
    requires forall x :: x in s <==> x in elems
    ensures |s| == |elems|
  {
    if s != [] {
      var last := s[|s| - 1];
      var prefix := s[..|s| - 1];
      forall x | x in prefix
        ensures x in elems - {last}
      {
        var i :| 0 <= i < |prefix| && prefix[i] == x;
        assert s[i] == x && i < |s| - 1;
      }
      forall x | x in elems - {last}
        ensures x in prefix
      {
        var i :| 0 <= i < |s| && s[i] == x;
        assert prefix[i] == x;
      }
      DistinctCardinality(prefix, elems - {last});
    }
  }

  /**
   * Every gamepad direction is the normalised stick vector: unit length, along
   * the stick, and with no z.
   */
  lemma GamepadDirectionIsPlanarUnit(axes: map<GamepadAxis, real>, g: Gamepad, normalize: Vec3 -> Vec3)
    requires IsNormalizer(normalize)
    requires StickEmits(axes, g)
    ensures IsNormalizationOf(normalize(StickVector(axes, g)), StickVector(axes, g))
    ensures normalize(StickVector(axes, g)).z == 0.0
  {
    PlanarNormalization(normalize(StickVector(axes, g)), StickVector(axes, g));
  }
}
